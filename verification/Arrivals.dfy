/**
 What the arrivals alone say about a session: when each epoch was last heard, and so when it is
 forgotten, how many openings have failed in a row, and what a Sync starts over with.
 */
module Arrivals {
  import opened Common
  import opened Traffic
  import opened Delivery
  import Framing

  // ----- When an epoch was last heard -----

  type Heard = (Dir, u32) -> nat

  predicate SlotHeard(slot: Slot, d: Dir, heard: Heard) {
    slot.valid ==> slot.lastRxMs == heard(d, slot.epoch)
  }

  predicate SlotsHeard(slots: Slots, d: Dir, heard: Heard) {
    SlotHeard(slots.cur, d, heard) && SlotHeard(slots.prev, d, heard)
  }

  /** Every slot carries the time at which its epoch was last heard. */
  predicate StateHeard(t: State, heard: Heard) {
    && SlotsHeard(t.rx.low, 0, heard) && SlotsHeard(t.rx.high, 1, heard)
    && (t.grace.valid ==> SlotsHeard(t.grace.slots.low, 0, heard) && SlotsHeard(t.grace.slots.high, 1, heard))
  }

  predicate DistinctSlots(slots: Slots) {
    slots.cur.valid && slots.prev.valid ==> slots.cur.epoch != slots.prev.epoch
  }

  predicate DisjointSlots(a: Slots, b: Slots) {
    && (a.cur.valid ==> !b.cur.Holds(a.cur.epoch) && !b.prev.Holds(a.cur.epoch))
    && (a.prev.valid ==> !b.cur.Holds(a.prev.epoch) && !b.prev.Holds(a.prev.epoch))
  }

  /** No epoch has two slots. */
  predicate OneSlotEach(t: State) {
    && DistinctSlots(t.rx.low) && DistinctSlots(t.rx.high)
    && (t.grace.valid ==>
          && DistinctSlots(t.grace.slots.low) && DistinctSlots(t.grace.slots.high)
          && DisjointSlots(t.grace.slots.low, t.rx.low) && DisjointSlots(t.grace.slots.high, t.rx.high))
  }

  predicate Tidy(t: State) {
    OrderedState(t) && OneSlotEach(t)
  }

  lemma FragmentsStartTidy(t: State, now: nat, heard: Heard)
    ensures Tidy(Created(now)) && StateHeard(Created(now), heard)
    ensures DistinctSlots(t.rx.low) && DistinctSlots(t.rx.high) ==> Tidy(Synced(t, now))
    ensures StateHeard(t, heard) ==> StateHeard(Synced(t, now), heard)
  {
  }

  /** Epoch e of direction d is heard now. */
  predicate HeardBy(step: Step, accepted: bool, d: Dir, e: u32) {
    accepted && step.Receive? && step.dir == d && step.epoch == e
  }

  lemma CommitHears(t: State, d: Dir, e: u32, s: nat, now: nat, heard: Heard, heard': Heard)
    requires StateHeard(t, heard) && Tidy(t) && Precheck(t, d, e, s)
    requires forall d', e' :: heard'(d', e') == if d' == d && e' == e then now else heard(d', e')
    ensures StateHeard(Committed(t, d, e, s, now), heard')
  {
  }

  lemma CommitStaysTidy(t: State, d: Dir, e: u32, s: nat, now: nat)
    requires Tidy(t) && Precheck(t, d, e, s)
    ensures Tidy(Committed(t, d, e, s, now))
  {
  }

  lemma QuietStepHears(t: State, step: Step, after: State, heard: Heard, heard': Heard)
    requires StateHeard(t, heard) && Tidy(t) && SameSlots(after, QuietNext(t, step))
    requires forall d, e :: heard'(d, e) == if HeardBy(step, Accepts(t, step), d, e) then step.now else heard(d, e)
    ensures StateHeard(after, heard') && Tidy(after)
  {
    if Accepts(t, step) {
      CommitHears(t, step.dir, step.epoch, step.sequence, step.now, heard, heard');
      CommitStaysTidy(t, step.dir, step.epoch, step.sequence, step.now);
    }
  }

  /** The time of the last delivery of the epoch in the first n steps, or `before` if there was none. */
  function LastHeard(t: State, steps: seq<Step>, n: nat, before: Heard, d: Dir, e: u32): nat {
    if n == 0 || n > |steps| then before(d, e)
    else if steps[n - 1].Receive? && Delivered(At(t, steps, n - 1), steps[n - 1], d, e, steps[n - 1].sequence) then steps[n - 1].now
    else LastHeard(t, steps, n - 1, before, d, e)
  }

  /** Over any quiet run each slot carries the time of the last delivery of its epoch. */
  lemma {:induction false} SlotsKeepTime(t: State, steps: seq<Step>, n: nat, before: Heard)
    requires StateHeard(t, before) && Tidy(t) && n <= |steps| && forall k :: 0 <= k < n ==> QuietAt(t, steps, k)
    ensures StateHeard(At(t, steps, n), (d, e) => LastHeard(t, steps, n, before, d, e)) && Tidy(At(t, steps, n))
  {
    var heard: Heard := (d, e) => LastHeard(t, steps, n, before, d, e);
    if n == 0 {
      assert steps[..0] == [];
      SameHeard(t, before, heard);
    } else {
      SlotsKeepTime(t, steps, n - 1, before);
      assert QuietAt(t, steps, n - 1);
      AtNext(t, steps, n - 1);
      var here, step := At(t, steps, n - 1), steps[n - 1];
      QuietStepCommits(here, step);
      var earlier: Heard := (d, e) => LastHeard(t, steps, n - 1, before, d, e);
      forall d, e ensures heard(d, e) == if HeardBy(step, Accepts(here, step), d, e) then step.now else earlier(d, e) {
        if step.Receive? {
          QuietHears(here, step, d, e);
        }
      }
      QuietStepHears(here, step, At(t, steps, n), earlier, heard);
    }
  }

  lemma SameHeard(t: State, a: Heard, b: Heard)
    requires StateHeard(t, a) && forall d, e :: a(d, e) == b(d, e)
    ensures StateHeard(t, b)
  {
  }

  lemma QuietHears(t: State, step: Step, d: Dir, e: u32)
    requires Quiet(t, step) && step.Receive?
    ensures Delivered(t, step, d, e, step.sequence) <==> HeardBy(step, Accepts(t, step), d, e)
  {
  }

  // ----- When nothing is forgotten -----

  /** The epoch is still remembered by a slot, and was last heard more than half a minute ago. */
  predicate Overdue(t: State, now: nat, heard: Heard, d: Dir, e: u32) {
    Recall(t, d, e).Held? && heard(d, e) != 0 && now > heard(d, e) + RX_EPOCH_IDLE_MS
  }

  ghost predicate NoneOverdue(t: State, now: nat, heard: Heard) {
    forall d, e :: !Overdue(t, now, heard, d, e)
  }

  lemma QuietIff(t: State, step: Step, heard: Heard)
    requires StateHeard(t, heard) && Tidy(t) && step.Receive?
    ensures Quiet(t, step) <==>
      && (t.grace.valid ==> step.now < t.grace.expiresAtMs)
      && NoneOverdue(t, step.now, heard)
  {
    if NoneOverdue(t, step.now, heard) {
      NoneIdle(t, step.now, heard);
    }
    if Quiet(t, step) {
      forall d, e ensures !Overdue(t, step.now, heard, d, e) {
        if Recall(t, d, e).Held? {
          HeldIsHeard(t, heard, d, e);
        }
      }
    }
  }

  predicate SlotsIdle(slots: Slots, now: nat) {
    Idle(slots.cur, now) || Idle(slots.prev, now)
  }

  lemma NoneIdle(t: State, now: nat, heard: Heard)
    requires StateHeard(t, heard) && Tidy(t) && NoneOverdue(t, now, heard)
    ensures !SlotsIdle(t.rx.low, now) && !SlotsIdle(t.rx.high, now)
    ensures t.grace.valid ==> !SlotsIdle(t.grace.slots.low, now) && !SlotsIdle(t.grace.slots.high, now)
  {
    assert !Overdue(t, now, heard, 0, t.rx.low.cur.epoch) && !Overdue(t, now, heard, 0, t.rx.low.prev.epoch);
    assert !Overdue(t, now, heard, 1, t.rx.high.cur.epoch) && !Overdue(t, now, heard, 1, t.rx.high.prev.epoch);
    assert !Overdue(t, now, heard, 0, t.grace.slots.low.cur.epoch) && !Overdue(t, now, heard, 0, t.grace.slots.low.prev.epoch);
    assert !Overdue(t, now, heard, 1, t.grace.slots.high.cur.epoch) && !Overdue(t, now, heard, 1, t.grace.slots.high.prev.epoch);
  }

  /** What is remembered of an epoch was heard with it. */
  lemma HeldIsHeard(t: State, heard: Heard, d: Dir, e: u32)
    requires StateHeard(t, heard) && Recall(t, d, e).Held?
    ensures exists slot :: slot in HoldersOf(t, d) && slot.Holds(e) && slot.lastRxMs == heard(d, e)
  {
    var grace, slots := t.grace.slots.At(d), t.rx.At(d);
    if t.grace.valid && grace.cur.Holds(e) {
      assert grace.cur in HoldersOf(t, d);
    } else if t.grace.valid && grace.prev.Holds(e) {
      assert grace.prev in HoldersOf(t, d);
    } else if slots.cur.Holds(e) {
      assert slots.cur in HoldersOf(t, d);
    } else {
      assert slots.prev in HoldersOf(t, d);
    }
  }

  function HoldersOf(t: State, d: Dir): set<Slot> {
    {t.rx.At(d).cur, t.rx.At(d).prev} + if t.grace.valid then {t.grace.slots.At(d).cur, t.grace.slots.At(d).prev} else {}
  }

  /**
   When a run stays quiet, told from the arrivals: as long as the grace period lasts, the next
   packet forgets nothing exactly when no epoch that is still remembered was last delivered more
   than half a minute before it.
   */
  lemma NextIsQuietIff(t: State, steps: seq<Step>, n: nat, before: Heard)
    requires StateHeard(t, before) && Tidy(t) && n < |steps| && steps[n].Receive?
    requires forall k :: 0 <= k < n ==> QuietAt(t, steps, k)
    ensures QuietAt(t, steps, n) <==>
      && (At(t, steps, n).grace.valid ==> steps[n].now < At(t, steps, n).grace.expiresAtMs)
      && NoneOverdue(At(t, steps, n), steps[n].now, (d, e) => LastHeard(t, steps, n, before, d, e))
  {
    SlotsKeepTime(t, steps, n, before);
    QuietIff(At(t, steps, n), steps[n], (d, e) => LastHeard(t, steps, n, before, d, e));
  }

  // ----- Which epochs are let in -----

  /** An unknown epoch is let in exactly when it is at most three ahead of the send epoch or of an epoch in a slot, or nothing has been received yet. */
  lemma LetInIff(t: State, d: Dir, e: u32, s: nat)
    requires Recall(t, d, e) == Unknown
    ensures var slots := t.rx.At(d);
      Precheck(t, d, e, s) <==>
        || !slots.cur.valid
        || e <= t.sendEpoch + MAX_ACCEPTED_RX_EPOCH_AHEAD || e <= slots.cur.epoch + MAX_ACCEPTED_RX_EPOCH_AHEAD || (slots.prev.valid && e <= slots.prev.epoch + MAX_ACCEPTED_RX_EPOCH_AHEAD)
  {
    PrecheckByMemory(t, d, e, s);
  }

  // ----- Openings that fail in a row -----

  /** The packet is admitted, and its tag does not open. */
  predicate Fails(t: State, step: Step) {
    step.Receive? && !step.opens && Precheck(Evicted(t, step.now), step.dir, step.epoch, step.sequence)
  }

  predicate DeliversAny(t: State, step: Step) {
    step.Receive? && Delivered(t, step, step.dir, step.epoch, step.sequence)
  }

  /** The failures since the last delivery or Sync before step n, or since the start. */
  function FailuresInARow(t: State, steps: seq<Step>, n: nat): nat {
    if n == 0 || n > |steps| then 0
    else if steps[n - 1].Sync? || DeliversAny(At(t, steps, n - 1), steps[n - 1]) then 0
    else FailuresInARow(t, steps, n - 1) + if Fails(At(t, steps, n - 1), steps[n - 1]) then 1 else 0
  }

  lemma StepCountsFailures(t: State, step: Step)
    ensures Next(t, step).failCount ==
      if step.Sync? || DeliversAny(t, step) then 0
      else if Fails(t, step) then SaturatingAdd(t.failCount, 1, U32)
      else t.failCount
  {
  }

  lemma {:induction false} FailCountCounts(t: State, steps: seq<Step>, n: nat)
    requires t.failCount == 0 && n <= |steps|
    ensures At(t, steps, n).failCount == if FailuresInARow(t, steps, n) < U32 then FailuresInARow(t, steps, n) else U32 - 1
  {
    if n == 0 {
      assert steps[..0] == [];
    } else {
      FailCountCounts(t, steps, n - 1);
      AtNext(t, steps, n - 1);
      StepCountsFailures(At(t, steps, n - 1), steps[n - 1]);
    }
  }

  /** The counter reaches the limit, and the packet is an error, exactly at the tenth failure in a row and after. */
  lemma ErrorIffTenthInARow(t: State, steps: seq<Step>, n: nat)
    requires t.failCount == 0 && n < |steps| && Fails(At(t, steps, n), steps[n])
    ensures Next(At(t, steps, n), steps[n]).failCount >= Framing.DECRYPT_FAIL_THRESHOLD <==> FailuresInARow(t, steps, n) + 1 >= Framing.DECRYPT_FAIL_THRESHOLD
  {
    FailCountCounts(t, steps, n);
    StepCountsFailures(At(t, steps, n), steps[n]);
  }

  // ----- What a Sync starts over with -----

  predicate InASlot(t: State, e: u32) {
    exists d: Dir :: t.rx.At(d).cur.Holds(e) || t.rx.At(d).prev.Holds(e)
  }

  /** The epoch after a Sync is one above the highest that was used or is in a slot; counters and times start over. */
  lemma SyncStartsOver(t: State, now: nat)
    ensures var high, after := SyncEpoch(t), Synced(t, now);
      && t.sendEpoch <= high && (forall e: u32 :: InASlot(t, e) ==> e <= high) && (high == t.sendEpoch || InASlot(t, high))
      && (high + 1 < U32 ==> after.sendEpoch == high + 1) && (high + 1 == U32 ==> after.sendEpoch == 0)
      && after.sendSeq == PerDir(0, 0) && after.epochStartedMs == now && after.packetsSinceEpoch == 0 && after.failCount == 0
  {
    HighestIsAttained(t);
  }

  lemma HighestIsAttained(t: State)
    ensures SyncEpoch(t) == t.sendEpoch || InASlot(t, SyncEpoch(t))
  {
    var high := SyncEpoch(t);
    if high != t.sendEpoch {
      if t.rx.At(0).cur.Holds(high) || t.rx.At(0).prev.Holds(high) {
      } else {
        assert t.rx.At(1).cur.Holds(high) || t.rx.At(1).prev.Holds(high);
      }
    }
  }

  /** For five seconds after a Sync the former receive slots still answer, and are forgotten then. */
  lemma GraceLasts(t: State, now: nat, later: nat, d: Dir, e: u32)
    requires now + SYNC_RX_GRACE_AFTER_MS < U64
    ensures Recall(Evicted(Synced(t, now), later), d, e) ==
      if later < now + SYNC_RX_GRACE_AFTER_MS && KeptBy(t.rx.At(d), e, later).Some? then Held(KeptBy(t.rx.At(d), e, later).value)
      else Unknown
  {
    EvictionKeeps(Synced(t, now), later, d, e);
  }
}
