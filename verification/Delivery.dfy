/**
 At-most-once delivery over whole runs of one session.

 `Recall(t, d, e)` is what the state still knows about epoch e in direction d.  A packet
 that was delivered can only be delivered again after a step that discarded that
 knowledge, and `Discards` names exactly those steps.
 */
module Delivery {
  import opened Common
  import opened ReplayWindow
  import opened Traffic

  datatype Memory = Unknown | Superseded | Held(window: Window)

  function Recall(t: State, d: Dir, e: u32): Memory {
    var grace, slots := t.grace.slots.At(d), t.rx.At(d);
    if t.grace.valid && grace.cur.Holds(e) then Held(grace.cur.window)
    else if t.grace.valid && grace.prev.Holds(e) then Held(grace.prev.window)
    else if !slots.cur.valid then Unknown
    else if slots.cur.epoch == e then Held(slots.cur.window)
    else if slots.prev.Holds(e) then Held(slots.prev.window)
    else if e < slots.cur.epoch then Superseded
    else Unknown
  }

  /** Admission is decided by the memory of the epoch; only an unknown epoch is judged by its distance. */
  lemma PrecheckByMemory(t: State, d: Dir, e: u32, s: nat)
    ensures Precheck(t, d, e, s) <==>
      match Recall(t, d, e)
      case Held(w) => CanAccept(w, s)
      case Superseded => false
      case Unknown => !t.rx.At(d).cur.valid || e <= SaturatingAdd(Baseline(t, d), MAX_ACCEPTED_RX_EPOCH_AHEAD, U32)
  {
  }

  /** The memory of an epoch was dropped, or an older memory of the same epoch came back in its place. */
  predicate Lost(before: Memory, after: Memory) {
    before != Unknown && (after == Unknown || (after.Held? && after != before))
  }

  /** Step `step`, taken in state t, discards what was known about epoch e in direction d. */
  predicate Discards(t: State, step: Step, d: Dir, e: u32) {
    match step
    case Send(_, _) => false
    case Sync(_) => Lost(Recall(t, d, e), Recall(Next(t, step), d, e))
    case Receive(_, _, _, _, now) =>
      || Lost(Recall(t, d, e), Recall(Evicted(t, now), d, e))
      || (Recall(Evicted(t, now), d, e) != Unknown && Recall(Next(t, step), d, e) == Unknown)
  }

  // ----- Sequence numbers of one epoch span less than 2^32 -----

  type Bases = (Dir, u32) -> nat

  predicate StepInRange(bases: Bases, step: Step) {
    step.Receive? && step.opens ==> InRange(bases(step.dir, step.epoch), step.sequence)
  }

  predicate SlotInRange(bases: Bases, d: Dir, slot: Slot) {
    slot.valid ==> WindowInRange(slot.window, bases(d, slot.epoch))
  }

  predicate SlotsInRange(bases: Bases, d: Dir, slots: Slots) {
    SlotInRange(bases, d, slots.cur) && SlotInRange(bases, d, slots.prev)
  }

  predicate StateInRange(bases: Bases, t: State) {
    && SlotsInRange(bases, 0, t.rx.low) && SlotsInRange(bases, 1, t.rx.high)
    && SlotsInRange(bases, 0, t.grace.slots.low) && SlotsInRange(bases, 1, t.grace.slots.high)
  }

  lemma EvictedInRange(bases: Bases, t: State, now: nat)
    requires StateInRange(bases, t)
    ensures StateInRange(bases, Evicted(t, now))
  {
  }

  lemma CommittedInRange(bases: Bases, t: State, d: Dir, e: u32, s: nat, now: nat)
    requires StateInRange(bases, t) && InRange(bases(d, e), s)
    ensures StateInRange(bases, Committed(t, d, e, s, now))
  {
  }

  lemma NextInRange(bases: Bases, t: State, step: Step)
    requires StateInRange(bases, t) && StepInRange(bases, step)
    ensures StateInRange(bases, Next(t, step))
  {
    match step
    case Send(_, _) =>
    case Sync(_) =>
    case Receive(d, e, s, opens, now) =>
      EvictedInRange(bases, t, now);
      var t1 := Evicted(t, now);
      if Precheck(t1, d, e, s) && opens {
        CommittedInRange(bases, t1.(failCount := 0), d, e, s, now);
      }
  }

  lemma {:induction false} RunInRange(bases: Bases, t: State, steps: seq<Step>, k: nat)
    requires StateInRange(bases, t) && k <= |steps|
    requires forall i :: 0 <= i < |steps| ==> StepInRange(bases, steps[i])
    ensures StateInRange(bases, At(t, steps, k))
  {
    if k > 0 {
      RunInRange(bases, t, steps, k - 1);
      AtNext(t, steps, k - 1);
      NextInRange(bases, At(t, steps, k - 1), steps[k - 1]);
    }
  }

  // ----- One packet: delivered, then refused while its memory lasts -----

  predicate Refuses(m: Memory, s: nat) {
    m == Superseded || (m.Held? && !CanAccept(m.window, s))
  }

  predicate Delivered(t: State, step: Step, d: Dir, e: u32, s: nat) {
    && step.Receive? && step.dir == d && step.epoch == e && step.sequence == s
    && Delivers(t, d, e, s, step.opens, step.now)
  }

  lemma DeliveryIsRecorded(bases: Bases, t: State, step: Step, d: Dir, e: u32, s: nat)
    requires StateInRange(bases, t) && StepInRange(bases, step)
    requires Delivered(t, step, d, e, s)
    ensures Refuses(Recall(Next(t, step), d, e), s)
  {
    var t1 := Evicted(t, step.now);
    EvictedInRange(bases, t, step.now);
    PrecheckByMemory(t1, d, e, s);
    CommitRecords(bases, t1.(failCount := 0), d, e, s, step.now);
  }

  lemma CommitRecords(bases: Bases, t: State, d: Dir, e: u32, s: nat, now: nat)
    requires StateInRange(bases, t) && InRange(bases(d, e), s) && Precheck(t, d, e, s)
    ensures Refuses(Recall(Committed(t, d, e, s, now), d, e), s)
  {
    var grace, slots := t.grace.slots.At(d), t.rx.At(d);
    AcceptRefusesAgain(EMPTY, bases(d, e), s);
    if t.grace.valid && grace.cur.Holds(e) {
      AcceptRefusesAgain(grace.cur.window, bases(d, e), s);
    } else if t.grace.valid && grace.prev.Holds(e) {
      AcceptRefusesAgain(grace.prev.window, bases(d, e), s);
    } else if slots.cur.Holds(e) {
      AcceptRefusesAgain(slots.cur.window, bases(d, e), s);
    } else if slots.prev.Holds(e) {
      AcceptRefusesAgain(slots.prev.window, bases(d, e), s);
    }
  }

  /** Another commit in the session leaves a refused packet refused, unless it makes the epoch unknown. */
  lemma CommitKeepsRefusing(bases: Bases, t: State, d': Dir, e': u32, s': nat, now: nat, d: Dir, e: u32, s: nat)
    requires StateInRange(bases, t) && InRange(bases(d', e'), s') && InRange(bases(d, e), s)
    requires Refuses(Recall(t, d, e), s)
    requires Recall(Committed(t, d', e', s', now), d, e) != Unknown
    ensures Refuses(Recall(Committed(t, d', e', s', now), d, e), s)
  {
    if d' == d && e' == e {
      match Recall(t, d, e)
      case Held(w) => RefusalPersists(w, bases(d, e), s, s');
      case Superseded =>
    }
  }

  lemma ReceiveKeepsRefusing(bases: Bases, t: State, step: Step, d: Dir, e: u32, s: nat)
    requires StateInRange(bases, t) && StepInRange(bases, step) && InRange(bases(d, e), s)
    requires step.Receive? && Refuses(Recall(t, d, e), s) && !Discards(t, step, d, e)
    ensures Refuses(Recall(Next(t, step), d, e), s) && !Delivered(t, step, d, e, s)
  {
    var t1 := Evicted(t, step.now);
    EvictedInRange(bases, t, step.now);
    PrecheckByMemory(t1, d, e, s);
    assert Refuses(Recall(t1, d, e), s);
    if Precheck(t1, step.dir, step.epoch, step.sequence) && step.opens {
      CommitKeepsRefusing(bases, t1.(failCount := 0), step.dir, step.epoch, step.sequence, step.now, d, e, s);
    }
  }

  lemma StepKeepsRefusing(bases: Bases, t: State, step: Step, d: Dir, e: u32, s: nat)
    requires StateInRange(bases, t) && StepInRange(bases, step) && InRange(bases(d, e), s)
    requires Refuses(Recall(t, d, e), s) && !Discards(t, step, d, e)
    ensures Refuses(Recall(Next(t, step), d, e), s) && !Delivered(t, step, d, e, s)
  {
    if step.Receive? {
      ReceiveKeepsRefusing(bases, t, step, d, e, s);
    }
  }

  // ----- Runs -----

  predicate RunIsInRange(bases: Bases, t: State, steps: seq<Step>) {
    StateInRange(bases, t) && forall i :: 0 <= i < |steps| ==> StepInRange(bases, steps[i])
  }

  predicate DeliveredAt(t: State, steps: seq<Step>, i: nat, d: Dir, e: u32, s: nat) {
    i < |steps| && Delivered(At(t, steps, i), steps[i], d, e, s)
  }

  predicate DiscardedAt(t: State, steps: seq<Step>, k: nat, d: Dir, e: u32) {
    k < |steps| && Discards(At(t, steps, k), steps[k], d, e)
  }

  lemma {:induction false} RefusedUntilDiscarded(bases: Bases, t: State, steps: seq<Step>, i: nat, j: nat, d: Dir, e: u32, s: nat)
    requires RunIsInRange(bases, t, steps) && InRange(bases(d, e), s) && i <= j <= |steps|
    requires Refuses(Recall(At(t, steps, i), d, e), s)
    requires forall k :: i <= k < j ==> !DiscardedAt(t, steps, k, d, e)
    ensures Refuses(Recall(At(t, steps, j), d, e), s)
    decreases j - i
  {
    if i < j {
      RefusedUntilDiscarded(bases, t, steps, i, j - 1, d, e, s);
      RunInRange(bases, t, steps, j - 1);
      assert !DiscardedAt(t, steps, j - 1, d, e);
      StepKeepsRefusing(bases, At(t, steps, j - 1), steps[j - 1], d, e, s);
      AtNext(t, steps, j - 1);
    }
  }

  /**
   At-most-once delivery, for every run from every state and across any number of
   rotations, evictions and Syncs: if one packet is delivered at steps i and j, some step
   after i and no later than j discarded the memory of its epoch.
   */
  lemma AtMostOnce(bases: Bases, t: State, steps: seq<Step>, i: nat, j: nat, d: Dir, e: u32, s: nat)
    requires RunIsInRange(bases, t, steps) && i < j
    requires DeliveredAt(t, steps, i, d, e, s) && DeliveredAt(t, steps, j, d, e, s)
    ensures exists k :: i < k <= j && DiscardedAt(t, steps, k, d, e)
  {
    if forall k :: i < k <= j ==> !DiscardedAt(t, steps, k, d, e) {
      RunInRange(bases, t, steps, i);
      assert StepInRange(bases, steps[i]);
      DeliveryIsRecorded(bases, At(t, steps, i), steps[i], d, e, s);
      AtNext(t, steps, i);
      RefusedUntilDiscarded(bases, t, steps, i + 1, j, d, e, s);
      RunInRange(bases, t, steps, j);
      assert !DiscardedAt(t, steps, j, d, e);
      StepKeepsRefusing(bases, At(t, steps, j), steps[j], d, e, s);
    }
  }

  /** The claim needs its proviso: an epoch pushed out before a Sync is delivered a second time after it. */
  lemma DroppedEpochRedelivers(t: State)
    requires t == Created(1)
    ensures var t1 := Received(t, 0, 1, 5, true, 1);
            var t2 := Received(t1, 0, 2, 6, true, 1);
            var t3 := Received(t2, 0, 3, 7, true, 1);
            var t4 := Synced(t3, 2);
            && Delivers(t, 0, 1, 5, true, 1)
            && !Delivers(t3, 0, 1, 5, true, 2)
            && Delivers(t4, 0, 1, 5, true, 3)
            && Discards(t3, Sync(2), 0, 1)
  {
    var t1 := Received(t, 0, 1, 5, true, 1);
    assert t1.rx.low == Slots(Slot(1, Accept(EMPTY, 5), 1, true), NO_SLOT);
    var t2 := Received(t1, 0, 2, 6, true, 1);
    assert t2.rx.low == Slots(Slot(2, Accept(EMPTY, 6), 1, true), t1.rx.low.cur);
    var t3 := Received(t2, 0, 3, 7, true, 1);
    assert t3.rx.low == Slots(Slot(3, Accept(EMPTY, 7), 1, true), t2.rx.low.cur);
  }

  // ----- Which steps discard -----

  /** slots[1] is older than slots[0]. */
  predicate Ordered(slots: Slots) {
    slots.prev.valid ==> slots.cur.valid && slots.prev.epoch < slots.cur.epoch
  }

  predicate OrderedState(t: State) {
    Ordered(t.rx.low) && Ordered(t.rx.high)
  }

  /** The step forgets no live epoch: no Sync, and its eviction pass finds nothing to clear. */
  predicate Quiet(t: State, step: Step) {
    match step
    case Send(_, _) => true
    case Receive(_, _, _, _, now) => Evicted(t, now) == t
    case Sync(_) => false
  }

  /** The slots of a and b are the same; memory and admission depend on nothing else but the send epoch. */
  predicate SameSlots(a: State, b: State) {
    a.rx == b.rx && a.grace == b.grace
  }

  predicate Accepts(t: State, step: Step) {
    step.Receive? && step.opens && Precheck(t, step.dir, step.epoch, step.sequence)
  }

  /** What a quiet step leaves of the slots: they change only where a packet is committed. */
  function QuietNext(t: State, step: Step): State {
    if Accepts(t, step) then Committed(t, step.dir, step.epoch, step.sequence, step.now) else t
  }

  lemma QuietStepCommits(t: State, step: Step)
    requires Quiet(t, step)
    ensures SameSlots(Next(t, step), QuietNext(t, step))
  {
  }

  lemma SameSlotsSameMemory(a: State, b: State, d: Dir, e: u32)
    requires SameSlots(a, b)
    ensures Recall(a, d, e) == Recall(b, d, e) && (OrderedState(a) <==> OrderedState(b))
  {
  }

  lemma CommitKeepsOrder(t: State, d': Dir, e': u32, s': nat, now: nat, d: Dir, e: u32)
    requires OrderedState(t) && Precheck(t, d', e', s')
    ensures OrderedState(Committed(t, d', e', s', now))
    ensures Recall(t, d, e) != Unknown ==> Recall(Committed(t, d', e', s', now), d, e) != Unknown
  {
  }

  lemma QuietStepKeepsMemory(t: State, step: Step, d: Dir, e: u32)
    requires OrderedState(t) && Quiet(t, step)
    ensures OrderedState(Next(t, step)) && !Discards(t, step, d, e)
  {
    QuietStepCommits(t, step);
    if Accepts(t, step) {
      CommitKeepsOrder(t, step.dir, step.epoch, step.sequence, step.now, d, e);
    }
  }

  predicate GraceHolds(t: State, d: Dir, e: u32) {
    t.grace.valid && (t.grace.slots.At(d).cur.Holds(e) || t.grace.slots.At(d).prev.Holds(e))
  }

  /** The first of two slots that holds the epoch decides its window. */
  function HeldBy(slots: Slots, e: u32): Option<Window> {
    if slots.cur.Holds(e) then Some(slots.cur.window)
    else if slots.prev.Holds(e) then Some(slots.prev.window)
    else None
  }

  /** After a Sync the receive slots from before it decide alone; an epoch that is in neither is let in again. */
  lemma SyncAdmitsIff(t: State, now: nat, d: Dir, e: u32, s: nat)
    ensures Precheck(Synced(t, now), d, e, s) <==>
      var held := HeldBy(t.rx.At(d), e);
      held.Some? ==> CanAccept(held.value, s)
  {
  }

  predicate SyncForgets(t: State, d: Dir, e: u32) {
    var held := HeldBy(t.rx.At(d), e);
    Recall(t, d, e) != Unknown && (held.None? || Recall(t, d, e) != Held(held.value))
  }

  // The slot is cleared by an eviction pass.
  predicate Idle(slot: Slot, now: nat) {
    slot.valid && slot.lastRxMs != 0 && SaturatingSub(now, slot.lastRxMs) > RX_EPOCH_IDLE_MS
  }

  /** The window of the first slot that holds the epoch and is not idle. */
  function KeptBy(slots: Slots, e: u32, now: nat): Option<Window> {
    if slots.cur.Holds(e) && !Idle(slots.cur, now) then Some(slots.cur.window)
    else if slots.prev.Holds(e) && !Idle(slots.prev, now) then Some(slots.prev.window)
    else None
  }

  /** What an eviction pass leaves of the grace slots for the epoch. */
  function GraceKeeps(t: State, now: nat, d: Dir, e: u32): Option<Window> {
    if t.grace.valid && now < t.grace.expiresAtMs then KeptBy(t.grace.slots.At(d), e, now) else None
  }

  /** Slot 0 goes or is older, and nothing else keeps the epoch. */
  predicate EvictionForgets(t: State, now: nat, d: Dir, e: u32) {
    var slots := t.rx.At(d);
    && GraceKeeps(t, now, d, e).None?
    && (!slots.cur.valid || Idle(slots.cur, now) || (slots.cur.epoch < e && KeptBy(slots, e, now).None?))
  }

  /** A grace slot goes, and the receive slot that then answers for the epoch remembers something else. */
  predicate EvictionUncovers(t: State, now: nat, d: Dir, e: u32) {
    var slots := t.rx.At(d);
    && GraceKeeps(t, now, d, e).None?
    && slots.cur.valid && !Idle(slots.cur, now) && KeptBy(slots, e, now).Some?
    && Recall(t, d, e) != Held(KeptBy(slots, e, now).value)
  }

  /** A grace slot goes, and the other grace slot for the same epoch remembers something else. */
  predicate EvictionSwaps(t: State, now: nat, d: Dir, e: u32) {
    GraceKeeps(t, now, d, e).Some? && Recall(t, d, e) != Held(GraceKeeps(t, now, d, e).value)
  }

  /** What an eviction pass leaves of the memory of an epoch, told from the state before it. */
  function MemoryKept(t: State, now: nat, d: Dir, e: u32): Memory {
    var slots := t.rx.At(d);
    if GraceKeeps(t, now, d, e).Some? then Held(GraceKeeps(t, now, d, e).value)
    else if !slots.cur.valid || Idle(slots.cur, now) then Unknown
    else if KeptBy(slots, e, now).Some? then Held(KeptBy(slots, e, now).value)
    else if e < slots.cur.epoch then Superseded
    else Unknown
  }

  lemma EvictionKeeps(t: State, now: nat, d: Dir, e: u32)
    ensures Recall(Evicted(t, now), d, e) == MemoryKept(t, now, d, e)
  {
  }

  /**
   What an eviction pass costs, in every state: a known epoch is forgotten exactly when no live
   grace slot keeps it and slot 0 goes, or is older while slot 1 does not keep it either.
   */
  lemma EvictionForgetsIff(t: State, now: nat, d: Dir, e: u32)
    requires Recall(t, d, e) != Unknown
    ensures Recall(Evicted(t, now), d, e) == Unknown <==> EvictionForgets(t, now, d, e)
  {
    EvictionKeeps(t, now, d, e);
  }

  lemma KeptLosesIff(t: State, now: nat, d: Dir, e: u32, before: Memory)
    requires before == Recall(t, d, e)
    ensures Lost(before, MemoryKept(t, now, d, e)) <==>
      before != Unknown && (EvictionForgets(t, now, d, e) || EvictionUncovers(t, now, d, e) || EvictionSwaps(t, now, d, e))
  {
  }

  lemma EvictionLosesIff(t: State, now: nat, d: Dir, e: u32, after: Memory)
    requires after == Recall(Evicted(t, now), d, e)
    ensures Lost(Recall(t, d, e), after) <==>
      Recall(t, d, e) != Unknown && (EvictionForgets(t, now, d, e) || EvictionUncovers(t, now, d, e) || EvictionSwaps(t, now, d, e))
  {
    EvictionKeeps(t, now, d, e);
    KeptLosesIff(t, now, d, e, Recall(t, d, e));
  }

  /**
   A commit forgets an epoch exactly when its own epoch is new and lies between slot 0 and a
   newer epoch in slot 1, which it pushes out.
   */
  predicate CommitForgets(t: State, d': Dir, e': u32, d: Dir, e: u32) {
    var slots := t.rx.At(d);
    && d' == d && !GraceHolds(t, d, e) && !GraceHolds(t, d, e')
    && slots.cur.valid && slots.cur.epoch < e' < e && slots.prev.Holds(e)
  }

  lemma CommitForgetsIff(t: State, d': Dir, e': u32, s': nat, now: nat, d: Dir, e: u32)
    requires Precheck(t, d', e', s') && Recall(t, d, e) != Unknown
    ensures Recall(Committed(t, d', e', s', now), d, e) == Unknown <==> CommitForgets(t, d', e', d, e)
  {
  }

  /** Which steps discard, told from the state before them. */
  predicate Forgets(t: State, step: Step, d: Dir, e: u32) {
    match step
    case Send(_, _) => false
    case Sync(_) => SyncForgets(t, d, e)
    case Receive(d', e', s', opens, now) =>
      var t1 := Evicted(t, now);
      || (Recall(t, d, e) != Unknown && (EvictionForgets(t, now, d, e) || EvictionUncovers(t, now, d, e) || EvictionSwaps(t, now, d, e)))
      || (Recall(t1, d, e) != Unknown && opens && Precheck(t1, d', e', s') && CommitForgets(t1, d', e', d, e))
  }

  lemma SyncDiscardsIff(t: State, now: nat, d: Dir, e: u32)
    ensures Discards(t, Sync(now), d, e) <==> SyncForgets(t, d, e)
  {
    assert Recall(Synced(t, now), d, e) ==
      if HeldBy(t.rx.At(d), e).Some? then Held(HeldBy(t.rx.At(d), e).value) else Unknown;
  }

  lemma ReceiveDiscardsIff(t: State, d': Dir, e': u32, s': nat, opens: bool, now: nat, d: Dir, e: u32)
    ensures Discards(t, Receive(d', e', s', opens, now), d, e) <==> Forgets(t, Receive(d', e', s', opens, now), d, e)
  {
    var t1 := Evicted(t, now);
    EvictionLosesIff(t, now, d, e, Recall(t1, d, e));
    if Recall(t1, d, e) != Unknown && opens && Precheck(t1, d', e', s') {
      CommitForgetsIff(t1.(failCount := 0), d', e', s', now, d, e);
    }
  }

  /** A step discards an epoch exactly when the state before it says so. */
  lemma DiscardsIff(t: State, step: Step, d: Dir, e: u32)
    ensures Discards(t, step, d, e) <==> Forgets(t, step, d, e)
  {
    match step
    case Send(_, _) =>
    case Sync(now) => SyncDiscardsIff(t, now, d, e);
    case Receive(d', e', s', opens, now) => ReceiveDiscardsIff(t, d', e', s', opens, now, d, e);
  }

  predicate QuietAt(t: State, steps: seq<Step>, k: nat) {
    k < |steps| && Quiet(At(t, steps, k), steps[k])
  }

  lemma {:induction false} QuietRunOrdered(t: State, steps: seq<Step>, k: nat)
    requires OrderedState(t) && k <= |steps|
    requires forall i :: 0 <= i < k ==> QuietAt(t, steps, i)
    ensures OrderedState(At(t, steps, k))
  {
    if k > 0 {
      QuietRunOrdered(t, steps, k - 1);
      assert QuietAt(t, steps, k - 1);
      QuietStepKeepsMemory(At(t, steps, k - 1), steps[k - 1], 0, 0);
      AtNext(t, steps, k - 1);
    }
  }

  /**
   In a fragment that starts at a Create or a Sync and has no eviction, grace expiry or
   further Sync, nothing is delivered twice, and nothing that the grace slots remember
   from before the Sync is delivered at all.
   */
  lemma QuietFragmentDeliversOnce(bases: Bases, t: State, steps: seq<Step>, i: nat, j: nat, d: Dir, e: u32, s: nat)
    requires RunIsInRange(bases, t, steps) && OrderedState(t)
    requires forall k :: 0 <= k < |steps| ==> QuietAt(t, steps, k)
    requires DeliveredAt(t, steps, j, d, e, s)
    ensures i < j ==> !DeliveredAt(t, steps, i, d, e, s)
    ensures InRange(bases(d, e), s) ==> !Refuses(Recall(t, d, e), s)
  {
    forall k | 0 <= k <= j
      ensures !DiscardedAt(t, steps, k, d, e)
    {
      QuietRunOrdered(t, steps, k);
      assert QuietAt(t, steps, k);
      QuietStepKeepsMemory(At(t, steps, k), steps[k], d, e);
    }
    if i < j && DeliveredAt(t, steps, i, d, e, s) {
      AtMostOnce(bases, t, steps, i, j, d, e, s);
    }
    if InRange(bases(d, e), s) && Refuses(Recall(t, d, e), s) {
      assert At(t, steps, 0) == t;
      RefusedUntilDiscarded(bases, t, steps, 0, j, d, e, s);
      RunInRange(bases, t, steps, j);
      assert !DiscardedAt(t, steps, j, d, e);
      StepKeepsRefusing(bases, At(t, steps, j), steps[j], d, e, s);
    }
  }

  /** A fresh session and a Sync start ordered; the grace slots remember exactly the epochs rx held. */
  lemma FragmentsStartOrdered(t: State, now: nat, d: Dir, e: u32)
    ensures OrderedState(Created(now)) && OrderedState(Synced(t, now))
    ensures var slots := t.rx.At(d);
            Recall(Synced(t, now), d, e) ==
              if slots.cur.Holds(e) then Held(slots.cur.window)
              else if slots.prev.Holds(e) then Held(slots.prev.window)
              else Unknown
  {
  }

  // ----- The windows agree with what was delivered -----

  /** The sequences of (d, e) delivered by the first n steps. */
  ghost function DeliveredSet(t: State, steps: seq<Step>, n: nat, d: Dir, e: u32): set<nat>
    requires n <= |steps|
  {
    if n == 0 then {}
    else DeliveredSet(t, steps, n - 1, d, e) + DeliveredBy(At(t, steps, n - 1), steps[n - 1], d, e)
  }

  ghost function DeliveredBy(t: State, step: Step, d: Dir, e: u32): set<nat> {
    if step.Receive? && Delivered(t, step, d, e, step.sequence) then {step.sequence} else {}
  }

  /** What is remembered of an epoch is exactly what was delivered. */
  ghost predicate Agrees(m: Memory, delivered: set<nat>) {
    match m
    case Held(w) => Summarises(w, delivered)
    case Unknown => delivered == {}
    case Superseded => true
  }

  /** One packet through the window of its epoch, or through a new one. */
  lemma WindowAgrees(w: Window, delivered: set<nat>, base: nat, s: nat)
    requires Summarises(w, delivered) && WindowInRange(w, base) && InRange(base, s)
    ensures CanAccept(w, s) <==> Fresh(delivered, s)
    ensures CanAccept(w, s) ==> Summarises(Accept(w, s), delivered + {s})
  {
    AcceptExactIffCastHarmless(w, delivered, s);
  }

  lemma CommitAgrees(bases: Bases, t: State, d: Dir, e: u32, s: nat, now: nat, delivered: set<nat>)
    requires StateInRange(bases, t) && InRange(bases(d, e), s) && Precheck(t, d, e, s)
    requires Agrees(Recall(t, d, e), delivered)
    ensures Agrees(Recall(Committed(t, d, e, s, now), d, e), delivered + {s})
  {
    PrecheckByMemory(t, d, e, s);
    match Recall(t, d, e)
    case Held(w) => WindowAgrees(w, delivered, bases(d, e), s);
    case Unknown => WindowAgrees(EMPTY, {}, bases(d, e), s);
  }

  lemma OtherCommitAgrees(t: State, d': Dir, e': u32, s': nat, now: nat, d: Dir, e: u32, delivered: set<nat>)
    requires OrderedState(t) && (d' != d || e' != e) && Precheck(t, d', e', s')
    requires Agrees(Recall(t, d, e), delivered)
    ensures Agrees(Recall(Committed(t, d', e', s', now), d, e), delivered)
  {
  }

  lemma AcceptedStepAgrees(bases: Bases, t: State, step: Step, after: State, d: Dir, e: u32, delivered: set<nat>)
    requires StateInRange(bases, t) && StepInRange(bases, step) && OrderedState(t) && Accepts(t, step)
    requires SameSlots(after, Committed(t, step.dir, step.epoch, step.sequence, step.now))
    requires Agrees(Recall(t, d, e), delivered)
    ensures Agrees(Recall(after, d, e), delivered + if step.dir == d && step.epoch == e then {step.sequence} else {})
  {
    SameSlotsSameMemory(after, Committed(t, step.dir, step.epoch, step.sequence, step.now), d, e);
    assert delivered + {} == delivered;
    if step.dir == d && step.epoch == e {
      CommitAgrees(bases, t, d, e, step.sequence, step.now, delivered);
    } else {
      OtherCommitAgrees(t, step.dir, step.epoch, step.sequence, step.now, d, e, delivered);
    }
  }

  /** In a quiet step the check sees the slots as they are. */
  lemma QuietDeliveries(t: State, step: Step, d: Dir, e: u32)
    requires Quiet(t, step)
    ensures DeliveredBy(t, step, d, e) == if Accepts(t, step) && step.dir == d && step.epoch == e then {step.sequence} else {}
  {
  }

  lemma QuietStepAgrees(bases: Bases, t: State, step: Step, after: State, gained: set<nat>, d: Dir, e: u32, delivered: set<nat>)
    requires StateInRange(bases, t) && StepInRange(bases, step) && OrderedState(t)
    requires SameSlots(after, QuietNext(t, step))
    requires gained == if Accepts(t, step) && step.dir == d && step.epoch == e then {step.sequence} else {}
    requires Agrees(Recall(t, d, e), delivered)
    ensures Agrees(Recall(after, d, e), delivered + gained)
  {
    if Accepts(t, step) {
      AcceptedStepAgrees(bases, t, step, after, d, e, delivered);
    } else {
      SameSlotsSameMemory(after, t, d, e);
      assert delivered + {} == delivered;
    }
  }

  /** A quiet step keeps order, range and agreement. */
  lemma QuietStepSummarises(bases: Bases, t: State, step: Step, d: Dir, e: u32, delivered: set<nat>)
    requires StateInRange(bases, t) && StepInRange(bases, step) && OrderedState(t) && Quiet(t, step)
    requires Agrees(Recall(t, d, e), delivered)
    ensures StateInRange(bases, Next(t, step)) && OrderedState(Next(t, step))
    ensures Agrees(Recall(Next(t, step), d, e), delivered + DeliveredBy(t, step, d, e))
  {
    NextInRange(bases, t, step);
    QuietStepKeepsMemory(t, step, d, e);
    QuietStepCommits(t, step);
    QuietDeliveries(t, step, d, e);
    QuietStepAgrees(bases, t, step, Next(t, step), DeliveredBy(t, step, d, e), d, e, delivered);
  }

  /** The run stays in range and forgets nothing. */
  predicate QuietRun(bases: Bases, t: State, steps: seq<Step>) {
    RunIsInRange(bases, t, steps) && OrderedState(t) && forall k :: 0 <= k < |steps| ==> QuietAt(t, steps, k)
  }

  /**
   Over any quiet run, whatever it sends and receives in between, the window of an epoch
   summarises exactly the sequences delivered so far.  `before` is what it summarised at the
   start: nothing for an unknown epoch, the earlier deliveries for one that a Sync has moved
   to the grace slots.
   */
  lemma {:induction false} WindowsAgreeWithDelivered(bases: Bases, t: State, steps: seq<Step>, n: nat, d: Dir, e: u32, before: set<nat>)
    requires QuietRun(bases, t, steps) && n <= |steps| && Agrees(Recall(t, d, e), before)
    ensures Agrees(Recall(At(t, steps, n), d, e), before + DeliveredSet(t, steps, n, d, e))
  {
    if n == 0 {
      assert steps[..0] == [] && before + {} == before;
    } else {
      WindowsAgreeWithDelivered(bases, t, steps, n - 1, d, e, before);
      RunInRange(bases, t, steps, n - 1);
      QuietRunOrdered(t, steps, n - 1);
      assert QuietAt(t, steps, n - 1);
      AtNext(t, steps, n - 1);
      var here, step := At(t, steps, n - 1), steps[n - 1];
      var earlier := DeliveredSet(t, steps, n - 1, d, e);
      QuietStepSummarises(bases, here, step, d, e, before + earlier);
      assert before + earlier + DeliveredBy(here, step, d, e) == before + (earlier + DeliveredBy(here, step, d, e));
    }
  }

  /** The epoch is unknown, and not too far ahead. */
  predicate NewEpochLetIn(t: State, d: Dir, e: u32) {
    && Recall(t, d, e) == Unknown
    && (!t.rx.At(d).cur.valid || e <= SaturatingAdd(Baseline(t, d), MAX_ACCEPTED_RX_EPOCH_AHEAD, U32))
  }

  /** Whether a genuine packet is to be delivered, told from the memory of its epoch and what has been delivered of it. */
  ghost predicate Due(t: State, d: Dir, e: u32, s: nat, delivered: set<nat>) {
    match Recall(t, d, e)
    case Held(_) => Fresh(delivered, s)
    case Unknown => NewEpochLetIn(t, d, e) && Fresh(delivered, s)
    case Superseded => false
  }

  /** A packet that is new and not too far behind is due exactly while its epoch is held or let in. */
  lemma TimelyIsDue(t: State, d: Dir, e: u32, s: nat, before: set<nat>, delivered: set<nat>)
    requires Fresh(before, s) && forall x :: x in delivered ==> x != s && x < s + SPAN
    ensures Due(t, d, e, s, before + delivered) <==> Recall(t, d, e).Held? || NewEpochLetIn(t, d, e)
  {
    assert Fresh(before + delivered, s);
  }

  lemma AdmittedIffFresh(bases: Bases, t: State, d: Dir, e: u32, s: nat, delivered: set<nat>)
    requires StateInRange(bases, t) && InRange(bases(d, e), s) && Agrees(Recall(t, d, e), delivered)
    ensures Precheck(t, d, e, s) <==> Due(t, d, e, s, delivered)
  {
    PrecheckByMemory(t, d, e, s);
    if Recall(t, d, e).Held? {
      WindowAgrees(Recall(t, d, e).window, delivered, bases(d, e), s);
    }
  }

  lemma QuietDeliversIffDue(bases: Bases, t: State, step: Step, d: Dir, e: u32, delivered: set<nat>)
    requires StateInRange(bases, t) && StepInRange(bases, step) && Quiet(t, step) && Agrees(Recall(t, d, e), delivered)
    requires step.Receive? && step.opens && step.dir == d && step.epoch == e
    ensures Delivered(t, step, d, e, step.sequence) <==> Due(t, d, e, step.sequence, delivered)
  {
    AdmittedIffFresh(bases, t, d, e, step.sequence, delivered);
  }

  predicate OpenedAt(steps: seq<Step>, n: nat, d: Dir, e: u32) {
    n < |steps| && steps[n].Receive? && steps[n].opens && steps[n].dir == d && steps[n].epoch == e
  }

  /**
   Exactly-once delivery, both ways: in any quiet run a genuine packet is delivered exactly when
   it is new and above everything delivered of its epoch minus 256; one of an unknown epoch,
   when that epoch is let in; one of a superseded epoch, never.
   */
  lemma DeliveredIffFresh(bases: Bases, t: State, steps: seq<Step>, n: nat, d: Dir, e: u32, before: set<nat>)
    requires QuietRun(bases, t, steps) && OpenedAt(steps, n, d, e) && Agrees(Recall(t, d, e), before)
    ensures var s, delivered := steps[n].sequence, before + DeliveredSet(t, steps, n, d, e);
      DeliveredAt(t, steps, n, d, e, s) <==> Due(At(t, steps, n), d, e, s, delivered)
  {
    var here := At(t, steps, n);
    WindowsAgreeWithDelivered(bases, t, steps, n, d, e, before);
    RunInRange(bases, t, steps, n);
    assert QuietAt(t, steps, n) && StepInRange(bases, steps[n]);
    QuietDeliversIffDue(bases, here, steps[n], d, e, before + DeliveredSet(t, steps, n, d, e));
  }

  /** Packet n of the epoch is new and not too far behind any genuine packet of the epoch before it. */
  predicate Timely(steps: seq<Step>, n: nat, d: Dir, e: u32)
    requires OpenedAt(steps, n, d, e)
  {
    forall i :: 0 <= i < n && OpenedAt(steps, i, d, e) ==>
      steps[i].sequence != steps[n].sequence && steps[i].sequence < steps[n].sequence + SPAN
  }

  lemma {:induction false} DeliveredWereOpened(t: State, steps: seq<Step>, n: nat, d: Dir, e: u32, s: nat)
    requires n <= |steps| && s in DeliveredSet(t, steps, n, d, e)
    ensures exists i :: 0 <= i < n && OpenedAt(steps, i, d, e) && steps[i].sequence == s
  {
    if s in DeliveredBy(At(t, steps, n - 1), steps[n - 1], d, e) {
      assert OpenedAt(steps, n - 1, d, e);
    } else {
      DeliveredWereOpened(t, steps, n - 1, d, e, s);
    }
  }

  /**
   Nothing is lost in a live epoch: whatever else the run sends and receives, forged packets
   and repeats and other epochs included, every genuine packet that is new and reordered by
   less than 256 is delivered, until the epoch is superseded.
   */
  lemma LiveEpochDeliversAll(bases: Bases, t: State, steps: seq<Step>, n: nat, d: Dir, e: u32, before: set<nat>)
    requires QuietRun(bases, t, steps) && OpenedAt(steps, n, d, e) && Agrees(Recall(t, d, e), before)
    requires Timely(steps, n, d, e) && Fresh(before, steps[n].sequence)
    ensures var here := At(t, steps, n);
      DeliveredAt(t, steps, n, d, e, steps[n].sequence) <==>
        Recall(here, d, e).Held? || NewEpochLetIn(here, d, e)
  {
    DeliveredIffFresh(bases, t, steps, n, d, e, before);
    forall s | s in DeliveredSet(t, steps, n, d, e)
      ensures s != steps[n].sequence && s < steps[n].sequence + SPAN
    {
      DeliveredWereOpened(t, steps, n, d, e, s);
    }
    TimelyIsDue(At(t, steps, n), d, e, steps[n].sequence, before, DeliveredSet(t, steps, n, d, e));
  }

  /** Step k delivers a packet of direction d whose epoch is newer than e and is not `next`. */
  predicate PassesOver(t: State, steps: seq<Step>, k: nat, d: Dir, e: u32, next: u32) {
    && k < |steps| && steps[k].Receive? && steps[k].dir == d && e < steps[k].epoch != next
    && DeliveredAt(t, steps, k, d, steps[k].epoch, steps[k].sequence)
  }

  /** e is held by one of the two slots, and the other newer epoch, if any, is `next`. */
  predicate LiveBeside(t: State, d: Dir, e: u32, next: u32) {
    var slots := t.rx.At(d);
    slots.cur.valid && (slots.cur.epoch == e || (slots.prev.Holds(e) && slots.cur.epoch == next))
  }

  lemma CommitStaysBeside(t: State, d': Dir, e': u32, s': nat, now: nat, d: Dir, e: u32, next: u32)
    requires LiveBeside(t, d, e, next) && e < next && Precheck(t, d', e', s')
    requires d' == d && e < e' ==> e' == next
    ensures LiveBeside(Committed(t, d', e', s', now), d, e, next)
  {
  }

  lemma QuietStepStaysBeside(t: State, step: Step, after: State, d: Dir, e: u32, next: u32)
    requires LiveBeside(t, d, e, next) && e < next && SameSlots(after, QuietNext(t, step))
    requires Accepts(t, step) && step.dir == d && e < step.epoch ==> step.epoch == next
    ensures LiveBeside(after, d, e, next) && Recall(after, d, e).Held?
  {
    if Accepts(t, step) {
      CommitStaysBeside(t, step.dir, step.epoch, step.sequence, step.now, d, e, next);
    }
  }

  /** An epoch in a slot stays live while only one newer epoch is delivered. */
  lemma {:induction false} LiveUntilPassedOver(bases: Bases, t: State, steps: seq<Step>, i: nat, n: nat, d: Dir, e: u32, next: u32)
    requires QuietRun(bases, t, steps) && i <= n <= |steps| && e < next
    requires LiveBeside(At(t, steps, i), d, e, next)
    requires forall k :: i <= k < n ==> !PassesOver(t, steps, k, d, e, next)
    ensures LiveBeside(At(t, steps, n), d, e, next) && Recall(At(t, steps, n), d, e).Held?
    decreases n
  {
    if i < n {
      LiveUntilPassedOver(bases, t, steps, i, n - 1, d, e, next);
      QuietRunOrdered(t, steps, n - 1);
      assert QuietAt(t, steps, n - 1) && !PassesOver(t, steps, n - 1, d, e, next);
      AtNext(t, steps, n - 1);
      var here, step := At(t, steps, n - 1), steps[n - 1];
      QuietStepCommits(here, step);
      if step.Receive? {
        QuietDeliveries(here, step, d, step.epoch);
      }
      QuietStepStaysBeside(here, step, At(t, steps, n), d, e, next);
    }
  }
}
