/** The send position of a session: the nonces sealed under one root key only move forward. */
module Nonces {
  import opened Common
  import opened Traffic

  predicate Before(a: Nonce, b: Nonce) {
    a.epoch < b.epoch || (a.epoch == b.epoch && a.sequence < b.sequence)
  }

  predicate NotAfter(a: Nonce, b: Nonce) {
    a == b || Before(a, b)
  }

  /** The first nonce that is still unused in direction d. */
  function Position(t: State, d: Dir): Nonce {
    Nonce(t.sendEpoch, t.sendSeq.At(d))
  }

  /** The step increments an epoch that is already 2^32 - 1. */
  predicate Wraps(t: State, step: Step) {
    match step
    case Send(_, now) => Rotated(t, now).sendEpoch != t.sendEpoch && t.sendEpoch + 1 == U32
    case Sync(_) => SyncEpoch(t) + 1 == U32
    case Receive(_, _, _, _, _) => false
  }

  lemma StepAdvances(t: State, step: Step, d: Dir)
    requires !Wraps(t, step)
    ensures NotAfter(Position(t, d), Position(Next(t, step), d))
  {
  }

  /** A seal uses a nonce at or after the position and moves the position past it, exactly when no epoch wraps. */
  lemma SealAdvancesIffNoWrap(t: State, d: Dir, now: nat)
    requires SealNonce(t, d, now).Some?
    ensures var n := SealNonce(t, d, now).value;
            && Before(n, Position(Sent(t, d, now), d))
            && (NotAfter(Position(t, d), n) <==> !Wraps(t, Send(d, now)))
  {
  }

  /** A Sync restarts the sequence at 0 but still moves forward, exactly when no epoch wraps. */
  lemma SyncAdvancesIffNoWrap(t: State, now: nat, d: Dir)
    ensures Before(Position(t, d), Position(Synced(t, now), d)) <==> SyncEpoch(t) + 1 != U32
  {
  }

  /** Without the proviso the claim is false: an epoch learned from the peer takes part in the next Sync. */
  lemma LearnedEpochCanWrap()
    ensures var fresh_ := Created(1);
            var t1 := Sent(fresh_, 0, 1);
            var t2 := Received(t1, 1, 0xFFFF_FFFF, 0, true, 1);
            var t3 := Synced(t2, 2);
            SealNonce(fresh_, 0, 1) == SealNonce(t3, 0, 2) == Some(Nonce(0, 0))
  {
  }

  lemma BeforeTrans(a: Nonce, b: Nonce, c: Nonce)
    requires Before(a, b) && NotAfter(b, c)
    ensures Before(a, c)
  {
  }
}
