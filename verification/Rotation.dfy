/**
 When an epoch of the send side ends: after a million packets or ten minutes, whichever comes
 first.  So what is sealed under one epoch lies close together, in number and in time.
 */
module Rotation {
  import opened Common
  import opened ReplayWindow
  import opened Traffic
  import opened Nonces
  import Delivery

  /** The epoch has carried its packets, or lasted its time. */
  predicate Due(t: State, now: nat) {
    t.packetsSinceEpoch + 1 >= ROTATE_AFTER_PACKETS || now >= t.epochStartedMs + ROTATE_AFTER_MS
  }

  /** A send ends the epoch exactly when one of the two limits is reached; the next one starts empty, now. */
  lemma SendRotatesIff(t: State, d: Dir, now: nat)
    ensures var t' := Sent(t, d, now);
      && (t'.sendEpoch != t.sendEpoch <==> Due(t, now))
      && (Due(t, now) ==> t'.sendEpoch == WrappingAdd(t.sendEpoch, 1, U32) && t'.epochStartedMs == now && t'.packetsSinceEpoch == 0)
      && (!Due(t, now) ==> t'.epochStartedMs == t.epochStartedMs && t'.packetsSinceEpoch == t.packetsSinceEpoch + 1)
  {
  }

  /** The seal is under the epoch the send leaves behind, at the old sequence of its direction, which moves on by one. */
  lemma SealIsNext(t: State, d: Dir, now: nat)
    ensures var t', n := Sent(t, d, now), SealNonce(t, d, now);
      && (n.Some? <==> t.sendSeq.At(d) + 1 < U64)
      && (n.Some? ==> n.value == Nonce(t'.sendEpoch, t.sendSeq.At(d)) && t'.sendSeq == t.sendSeq.With(d, t.sendSeq.At(d) + 1))
      && (n.None? ==> t'.sendSeq == t.sendSeq)
  {
  }

  // ----- Since a seal -----

  /** From `first` to `t`: a later epoch, or the same one, in which every sequence number has cost a packet. */
  predicate Since(first: State, t: State, d: Dir) {
    || first.sendEpoch < t.sendEpoch
    || (&& first.sendEpoch == t.sendEpoch && first.epochStartedMs == t.epochStartedMs
        && first.sendSeq.At(d) <= t.sendSeq.At(d)
        && t.sendSeq.At(d) - first.sendSeq.At(d) <= t.packetsSinceEpoch - first.packetsSinceEpoch)
  }

  lemma SinceItself(t: State, d: Dir)
    ensures Since(t, t, d)
  {
  }

  lemma StepKeepsSince(first: State, t: State, step: Step, d: Dir)
    requires Since(first, t, d) && !Wraps(t, step)
    ensures Since(first, Next(t, step), d)
  {
    match step
    case Send(d', now) =>
      SendRotatesIff(t, d', now);
      SealIsNext(t, d', now);
    case Sync(now) => SyncAdvancesIffNoWrap(t, now, d);
    case Receive(_, _, _, _, _) =>
  }

  /** The second of two seals under one epoch is less than ten minutes and a million packets away. */
  lemma SealsAreClose(t0: State, sentAt: nat, t: State, now: nat, d: Dir, m: Nonce, n: Nonce)
    requires SealNonce(t0, d, sentAt) == Some(m) && SealNonce(t, d, now) == Some(n) && n.epoch == m.epoch
    requires Since(Sent(t0, d, sentAt), t, d) && !Wraps(t, Send(d, now))
    requires t0.epochStartedMs <= sentAt
    ensures m.sequence < n.sequence < m.sequence + ROTATE_AFTER_PACKETS && now < sentAt + ROTATE_AFTER_MS
  {
    SendRotatesIff(t0, d, sentAt);
    SealIsNext(t0, d, sentAt);
    SendRotatesIff(t, d, now);
    SealIsNext(t, d, now);
  }

  // ----- Over runs of one session -----

  function TimeOf(step: Step): nat {
    step.now
  }

  /** Time does not go back, and the run starts after the epoch has begun. */
  predicate Timed(t: State, steps: seq<Step>) {
    && (forall i :: 0 <= i < |steps| ==> t.epochStartedMs <= TimeOf(steps[i]))
    && (forall i, j :: 0 <= i < j < |steps| ==> TimeOf(steps[i]) <= TimeOf(steps[j]))
  }

  predicate NoWrapAt(t: State, steps: seq<Step>, k: nat) {
    k < |steps| ==> !Wraps(At(t, steps, k), steps[k])
  }

  /** Step i seals the nonce. */
  predicate SealsAt(t: State, steps: seq<Step>, i: nat, d: Dir, n: Nonce) {
    i < |steps| && steps[i].Send? && steps[i].dir == d && SealNonce(At(t, steps, i), d, steps[i].now) == Some(n)
  }

  lemma {:induction false} EpochHasBegun(t: State, steps: seq<Step>, i: nat)
    requires Timed(t, steps) && i < |steps|
    ensures At(t, steps, i).epochStartedMs <= TimeOf(steps[i])
  {
    if i == 0 {
      assert steps[..0] == [];
    } else {
      EpochHasBegun(t, steps, i - 1);
      AtNext(t, steps, i - 1);
      StepBegins(At(t, steps, i - 1), steps[i - 1]);
    }
  }

  lemma StepBegins(t: State, step: Step)
    ensures Next(t, step).epochStartedMs == t.epochStartedMs || Next(t, step).epochStartedMs == TimeOf(step)
  {
  }

  lemma {:induction false} SinceUntil(t: State, steps: seq<Step>, i: nat, j: nat, d: Dir)
    requires i < j <= |steps| && forall k :: i < k < j ==> NoWrapAt(t, steps, k)
    ensures Since(At(t, steps, i + 1), At(t, steps, j), d)
    decreases j
  {
    if i + 1 == j {
      SinceItself(At(t, steps, j), d);
    } else {
      SinceUntil(t, steps, i, j - 1, d);
      assert NoWrapAt(t, steps, j - 1);
      AtNext(t, steps, j - 1);
      StepKeepsSince(At(t, steps, i + 1), At(t, steps, j - 1), steps[j - 1], d);
    }
  }

  /**
   Whatever happens in between, Syncs included: two seals of a session under one epoch are less
   than ten minutes and less than a million sequence numbers apart, unless the epoch wrapped.
   */
  lemma EpochIsShort(t: State, steps: seq<Step>, i: nat, j: nat, d: Dir, m: Nonce, n: Nonce)
    requires Timed(t, steps) && i < j && SealsAt(t, steps, i, d, m) && SealsAt(t, steps, j, d, n) && m.epoch == n.epoch
    requires forall k :: i < k <= j ==> NoWrapAt(t, steps, k)
    ensures m.sequence < n.sequence < m.sequence + ROTATE_AFTER_PACKETS
    ensures TimeOf(steps[j]) < TimeOf(steps[i]) + ROTATE_AFTER_MS
  {
    EpochHasBegun(t, steps, i);
    AtNext(t, steps, i);
    SinceUntil(t, steps, i, j, d);
    assert NoWrapAt(t, steps, j);
    SealsAreClose(At(t, steps, i), steps[i].now, At(t, steps, j), steps[j].now, d, m, n);
  }

  // ----- The range of one epoch -----

  predicate SealsUnder(t: State, steps: seq<Step>, i: nat, d: Dir, epoch: u32) {
    && i < |steps| && steps[i].Send? && steps[i].dir == d
    && SealNonce(At(t, steps, i), d, steps[i].now).Some? && SealNonce(At(t, steps, i), d, steps[i].now).value.epoch == epoch
  }

  /** The first sequence that is sealed under the epoch from step i on. */
  function FirstSealed(t: State, steps: seq<Step>, i: nat, d: Dir, epoch: u32): nat
    decreases |steps| - i
  {
    if i >= |steps| then 0
    else if SealsUnder(t, steps, i, d, epoch) then SealNonce(At(t, steps, i), d, steps[i].now).value.sequence
    else FirstSealed(t, steps, i + 1, d, epoch)
  }

  lemma {:induction false} FirstSealedIsSealed(t: State, steps: seq<Step>, i: nat, j: nat, d: Dir, epoch: u32)
    requires i <= j && SealsUnder(t, steps, j, d, epoch)
    ensures exists k: nat :: i <= k <= j && SealsAt(t, steps, k, d, Nonce(epoch, FirstSealed(t, steps, i, d, epoch)))
    decreases j - i
  {
    if SealsUnder(t, steps, i, d, epoch) {
      assert SealsAt(t, steps, i, d, Nonce(epoch, FirstSealed(t, steps, i, d, epoch)));
    } else {
      FirstSealedIsSealed(t, steps, i + 1, j, d, epoch);
      var first := FirstSealed(t, steps, i + 1, d, epoch);
      assert FirstSealed(t, steps, i, d, epoch) == first;
      var k: nat :| i + 1 <= k <= j && SealsAt(t, steps, k, d, Nonce(epoch, first));
    }
  }

  /**
   Where the range hypothesis of the delivery theorems comes from: over a run without a wrap,
   everything that is sealed under one epoch in one direction lies in one range, far shorter
   than 2^32, so every genuine packet of such a sender is in range.
   */
  lemma SealedInRange(t: State, steps: seq<Step>, j: nat, d: Dir, n: Nonce)
    requires Timed(t, steps) && (forall k :: 0 <= k < |steps| ==> NoWrapAt(t, steps, k)) && SealsAt(t, steps, j, d, n)
    ensures var first := FirstSealed(t, steps, 0, d, n.epoch);
            first <= n.sequence < first + ROTATE_AFTER_PACKETS && InRange(first, n.sequence)
  {
    var first := FirstSealed(t, steps, 0, d, n.epoch);
    FirstSealedIsSealed(t, steps, 0, j, d, n.epoch);
    var i: nat :| i <= j && SealsAt(t, steps, i, d, Nonce(n.epoch, first));
    if i < j {
      EpochIsShort(t, steps, i, j, d, Nonce(n.epoch, first), n);
    }
  }

  /** What a receiver opens in direction d was sealed by the sender. */
  ghost predicate SealedBy(t: State, steps: seq<Step>, d: Dir, received: Step) {
    received.Receive? && received.opens && received.dir == d ==>
      exists i: nat :: SealsAt(t, steps, i, d, Nonce(received.epoch, received.sequence))
  }

  /** So a receiver of such a sender is in range, with the first sequence of each epoch as its base. */
  lemma GenuineInRange(t: State, steps: seq<Step>, d: Dir, received: Step, bases: Delivery.Bases)
    requires Timed(t, steps) && forall k :: 0 <= k < |steps| ==> NoWrapAt(t, steps, k)
    requires SealedBy(t, steps, d, received) && (received.Receive? ==> received.dir == d)
    requires received.Receive? ==> bases(d, received.epoch) == FirstSealed(t, steps, 0, d, received.epoch)
    ensures Delivery.StepInRange(bases, received)
  {
    if received.Receive? && received.opens {
      var i: nat :| SealsAt(t, steps, i, d, Nonce(received.epoch, received.sequence));
      SealedInRange(t, steps, i, d, Nonce(received.epoch, received.sequence));
    }
  }
}
