/**
 The traffic state of one secure session: send position, receive slots, grace slots.

 Every operation is a function from state to state; `SecurePeer` is proved to perform
 these steps on the shared store.
 */
module Traffic {
  import opened Common
  import opened ReplayWindow

  const RX_EPOCH_IDLE_MS: nat := 30_000
  const ROTATE_AFTER_PACKETS: nat := 1_000_000
  const ROTATE_AFTER_MS: nat := 600_000
  const MAX_ACCEPTED_RX_EPOCH_AHEAD: nat := 3
  const SYNC_RX_GRACE_AFTER_MS: nat := 5_000

  type Dir = d: nat | d < 2

  function DirectionIndex(sender: nat, receiver: nat): Dir {
    if sender >= receiver then 1 else 0
  }

  /** The two ends of a link name its two directions consistently and never confuse them. */
  lemma DirectionsMirror(a: nat, b: nat)
    ensures a != b <==> DirectionIndex(a, b) != DirectionIndex(b, a)
    ensures DirectionIndex(a, b) == 0 <==> a < b
  {
  }

  datatype PerDir<T> = PerDir(low: T, high: T) {
    function At(d: Dir): T {
      if d == 0 then low else high
    }

    function With(d: Dir, t: T): PerDir<T> {
      if d == 0 then this.(low := t) else this.(high := t)
    }
  }

  datatype Slot = Slot(epoch: u32, window: Window, lastRxMs: nat, valid: bool) {
    predicate Holds(e: u32) {
      valid && epoch == e
    }
  }

  const NO_SLOT := Slot(0, EMPTY, 0, false)

  /** The two epoch slots of one direction: slots[0] and slots[1]. */
  datatype Slots = Slots(cur: Slot, prev: Slot)

  const NO_SLOTS := Slots(NO_SLOT, NO_SLOT)

  datatype Grace = Grace(slots: PerDir<Slots>, expiresAtMs: nat, valid: bool)

  const NO_GRACE := Grace(PerDir(NO_SLOTS, NO_SLOTS), 0, false)

  datatype State = State(
    sendEpoch: u32,
    sendSeq: PerDir<nat>,
    epochStartedMs: nat,
    packetsSinceEpoch: nat,
    rx: PerDir<Slots>,
    grace: Grace,
    failCount: nat)

  function Created(now: nat): State {
    State(0, PerDir(0, 0), now, 0, PerDir(NO_SLOTS, NO_SLOTS), NO_GRACE, 0)
  }

  // ----- Sending -----

  function Rotated(t: State, now: nat): State {
    var packets := SaturatingAdd(t.packetsSinceEpoch, 1, U64);
    if packets < ROTATE_AFTER_PACKETS && SaturatingSub(now, t.epochStartedMs) < ROTATE_AFTER_MS then
      t.(packetsSinceEpoch := packets)
    else
      t.(sendEpoch := WrappingAdd(t.sendEpoch, 1, U32), epochStartedMs := now, packetsSinceEpoch := 0)
  }

  datatype Nonce = Nonce(epoch: u32, sequence: nat)

  /** The nonce a send at this moment seals under, unless the sequence counter is exhausted. */
  function SealNonce(t: State, d: Dir, now: nat): Option<Nonce> {
    var r := Rotated(t, now);
    if r.sendSeq.At(d) + 1 < U64 then Some(Nonce(r.sendEpoch, r.sendSeq.At(d))) else None
  }

  function Sent(t: State, d: Dir, now: nat): State {
    var r := Rotated(t, now);
    if r.sendSeq.At(d) + 1 < U64 then r.(sendSeq := r.sendSeq.With(d, r.sendSeq.At(d) + 1)) else r
  }

  // ----- Receiving -----

  function EvictedSlot(s: Slot, now: nat): Slot {
    if s.valid && s.lastRxMs != 0 && SaturatingSub(now, s.lastRxMs) > RX_EPOCH_IDLE_MS then NO_SLOT else s
  }

  function EvictedSlots(p: PerDir<Slots>, now: nat): PerDir<Slots> {
    PerDir(Slots(EvictedSlot(p.low.cur, now), EvictedSlot(p.low.prev, now)),
           Slots(EvictedSlot(p.high.cur, now), EvictedSlot(p.high.prev, now)))
  }

  function Evicted(t: State, now: nat): State {
    var grace :=
      if t.grace.valid && now >= t.grace.expiresAtMs then NO_GRACE
      else if t.grace.valid then t.grace.(slots := EvictedSlots(t.grace.slots, now))
      else t.grace;
    t.(rx := EvictedSlots(t.rx, now), grace := grace)
  }

  function Baseline(t: State, d: Dir): nat {
    var slots := t.rx.At(d);
    var base := Max(t.sendEpoch, slots.cur.epoch);
    if slots.prev.valid then Max(base, slots.prev.epoch) else base
  }

  predicate Precheck(t: State, d: Dir, e: u32, s: nat) {
    var grace, slots := t.grace.slots.At(d), t.rx.At(d);
    if t.grace.valid && grace.cur.Holds(e) then CanAccept(grace.cur.window, s)
    else if t.grace.valid && grace.prev.Holds(e) then CanAccept(grace.prev.window, s)
    else if !slots.cur.valid then true
    else if slots.cur.epoch == e then CanAccept(slots.cur.window, s)
    else if slots.prev.Holds(e) then CanAccept(slots.prev.window, s)
    else slots.cur.epoch < e <= SaturatingAdd(Baseline(t, d), MAX_ACCEPTED_RX_EPOCH_AHEAD, U32)
  }

  function Touched(slot: Slot, s: nat, now: nat): Slot {
    slot.(window := Accept(slot.window, s), lastRxMs := now)
  }

  function Opened(e: u32, now: nat): Slot {
    Slot(e, EMPTY, now, true)
  }

  function CommittedSlots(slots: Slots, e: u32, s: nat, now: nat): Slots {
    var cur := if slots.cur.valid then slots.cur else Opened(e, now);
    if cur.epoch == e then Slots(Touched(cur, s, now), slots.prev)
    else if slots.prev.Holds(e) then Slots(cur, Touched(slots.prev, s, now))
    else if e > cur.epoch then Slots(Touched(Opened(e, now), s, now), cur)
    else slots
  }

  function Committed(t: State, d: Dir, e: u32, s: nat, now: nat): State {
    var grace := t.grace.slots.At(d);
    if t.grace.valid && grace.cur.Holds(e) then
      t.(grace := t.grace.(slots := t.grace.slots.With(d, grace.(cur := Touched(grace.cur, s, now)))))
    else if t.grace.valid && grace.prev.Holds(e) then
      t.(grace := t.grace.(slots := t.grace.slots.With(d, grace.(prev := Touched(grace.prev, s, now)))))
    else
      t.(rx := t.rx.With(d, CommittedSlots(t.rx.At(d), e, s, now)))
  }

  /** Whether the commit accepts; it repeats the window checks but not the limit on how far ahead an epoch may be. */
  predicate CommitAccepts(t: State, d: Dir, e: u32, s: nat) {
    var grace, slots := t.grace.slots.At(d), t.rx.At(d);
    if t.grace.valid && grace.cur.Holds(e) then CanAccept(grace.cur.window, s)
    else if t.grace.valid && grace.prev.Holds(e) then CanAccept(grace.prev.window, s)
    else if !slots.cur.valid then true
    else if slots.cur.epoch == e then CanAccept(slots.cur.window, s)
    else if slots.prev.Holds(e) then CanAccept(slots.prev.window, s)
    else e > slots.cur.epoch
  }

  lemma PrecheckImpliesCommit(t: State, d: Dir, e: u32, s: nat)
    requires Precheck(t, d, e, s)
    ensures CommitAccepts(t, d, e, s)
  {
  }

  /** A packet is handed on exactly when it passes the check and its tag opens. */
  predicate Delivers(t: State, d: Dir, e: u32, s: nat, opens: bool, now: nat) {
    opens && Precheck(Evicted(t, now), d, e, s)
  }

  function Received(t: State, d: Dir, e: u32, s: nat, opens: bool, now: nat): State {
    var t1 := Evicted(t, now);
    if !Precheck(t1, d, e, s) then t1
    else if !opens then t1.(failCount := SaturatingAdd(t1.failCount, 1, U32))
    else Committed(t1.(failCount := 0), d, e, s, now)
  }

  // ----- Sync: a reconnecting peer that lost its session state -----

  function HighestEpoch(start: u32, slots: Slots): u32 {
    var a := if slots.cur.valid then Max(start, slots.cur.epoch) else start;
    if slots.prev.valid then Max(a, slots.prev.epoch) else a
  }

  function SyncEpoch(t: State): u32 {
    HighestEpoch(HighestEpoch(t.sendEpoch, t.rx.low), t.rx.high)
  }

  function Synced(t: State, now: nat): State {
    State(
      WrappingAdd(SyncEpoch(t), 1, U32), PerDir(0, 0), now, 0,
      PerDir(NO_SLOTS, NO_SLOTS),
      Grace(t.rx, SaturatingAdd(now, SYNC_RX_GRACE_AFTER_MS, U64), true),
      0)
  }

  // ----- Runs -----

  datatype Step =
    | Send(dir: Dir, now: nat)
    | Receive(dir: Dir, epoch: u32, sequence: nat, opens: bool, now: nat)
    | Sync(now: nat)

  function Next(t: State, step: Step): State {
    match step
    case Send(d, now) => Sent(t, d, now)
    case Receive(d, e, s, opens, now) => Received(t, d, e, s, opens, now)
    case Sync(now) => Synced(t, now)
  }

  function After(t: State, steps: seq<Step>): State {
    if steps == [] then t else Next(After(t, steps[..|steps| - 1]), steps[|steps| - 1])
  }

  /** The state in which step k of the run is taken. */
  function At(t: State, steps: seq<Step>, k: nat): State
    requires k <= |steps|
  {
    After(t, steps[..k])
  }

  lemma AtNext(t: State, steps: seq<Step>, k: nat)
    requires k < |steps|
    ensures At(t, steps, k + 1) == Next(At(t, steps, k), steps[k])
  {
    assert steps[..k + 1][..k] == steps[..k];
  }
}
