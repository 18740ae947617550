/** The send limit of a connection: a window that restarts with the first frame after it ended. */
module SendLimiter {

  const SEND_WINDOW_MS: nat := 1_000
  const MAX_SEND_BYTES_PER_WINDOW: nat := 32 * 1024 * 1024
  const MAX_SEND_FRAMES_PER_WINDOW: nat := 4_096

  datatype Sent = Sent(at: nat, size: nat)

  /** A frame weighs one frame, or its size in bytes. */
  datatype Unit = Frames | Bytes

  function Weight(e: Sent, unit: Unit): nat {
    if unit == Frames then 1 else e.size
  }

  function Limit(unit: Unit): nat {
    if unit == Frames then MAX_SEND_FRAMES_PER_WINDOW else MAX_SEND_BYTES_PER_WINDOW
  }

  /** What was sent from a up to, but not including, b. */
  function Total(log: seq<Sent>, unit: Unit, a: int, b: int): nat {
    if log == [] then 0
    else
      var last := log[|log| - 1];
      Total(log[..|log| - 1], unit, a, b) + if a <= last.at < b then Weight(last, unit) else 0
  }

  lemma TotalAppend(log: seq<Sent>, e: Sent, unit: Unit, a: int, b: int)
    ensures Total(log + [e], unit, a, b) == Total(log, unit, a, b) + if a <= e.at < b then Weight(e, unit) else 0
  {
  }

  lemma {:induction false} TotalSplit(log: seq<Sent>, unit: Unit, a: int, m: int, b: int)
    requires a <= m <= b
    ensures Total(log, unit, a, b) == Total(log, unit, a, m) + Total(log, unit, m, b)
  {
    if log != [] {
      TotalSplit(log[..|log| - 1], unit, a, m, b);
    }
  }

  lemma TotalMonotone(log: seq<Sent>, unit: Unit, a: int, b: int, c: int, d: int)
    requires a <= b <= c <= d
    ensures Total(log, unit, b, c) <= Total(log, unit, a, d)
  {
  }

  lemma {:induction false} NothingIn(log: seq<Sent>, unit: Unit, a: int, b: int)
    requires forall e :: e in log ==> !(a <= e.at < b)
    ensures Total(log, unit, a, b) == 0
  {
    if log != [] {
      assert log[|log| - 1] in log;
      NothingIn(log[..|log| - 1], unit, a, b);
    }
  }

  // ----- The invariant -----

  /** What was sent in the half-open second that starts at a. */
  function InSecond(log: seq<Sent>, unit: Unit, a: int): nat {
    Total(log, unit, a, a + SEND_WINDOW_MS)
  }

  /** Any interval as long as a window carries at most two windows' worth. */
  ghost predicate Bounded(log: seq<Sent>, unit: Unit) {
    forall a: int :: InSecond(log, unit, a) <= 2 * Limit(unit)
  }

  /** What was sent from a, less than a window before the start, up to the start fits one window. */
  predicate FitsBefore(log: seq<Sent>, unit: Unit, start: nat, a: int) {
    start - SEND_WINDOW_MS <= a <= start ==> Total(log, unit, a, start) <= Limit(unit)
  }

  /** The counter is what the current window carries, and what came just before it fits one window. */
  ghost predicate Counted(log: seq<Sent>, unit: Unit, start: nat, counter: nat) {
    && Total(log, unit, start, start + SEND_WINDOW_MS) == counter <= Limit(unit)
    && (forall a: int :: FitsBefore(log, unit, start, a))
    && Bounded(log, unit)
  }

  /** Nothing was sent after the window ended, or later than now. */
  predicate Past(log: seq<Sent>, start: nat, clock: nat) {
    start <= clock && forall e :: e in log ==> e.at < start + SEND_WINDOW_MS && e.at <= clock
  }

  lemma RestartKeepsCounted(log: seq<Sent>, unit: Unit, start: nat, counter: nat, clock: nat, now: nat)
    requires Counted(log, unit, start, counter) && Past(log, start, clock) && start + SEND_WINDOW_MS <= now
    ensures Counted(log, unit, now, 0)
  {
    NothingIn(log, unit, now, now + SEND_WINDOW_MS);
    TotalSplit(log, unit, start, start + SEND_WINDOW_MS, now);
    NothingIn(log, unit, start + SEND_WINDOW_MS, now);
    forall a: int ensures FitsBefore(log, unit, now, a) {
      if now - SEND_WINDOW_MS <= a <= now {
        TotalMonotone(log, unit, start, a, now, now);
      }
    }
  }

  lemma SendKeepsCounted(log: seq<Sent>, e: Sent, unit: Unit, start: nat, counter: nat)
    requires Counted(log, unit, start, counter) && Past(log, start, e.at) && e.at < start + SEND_WINDOW_MS
    requires counter + Weight(e, unit) <= Limit(unit)
    ensures Counted(log + [e], unit, start, counter + Weight(e, unit))
  {
    var after := log + [e];
    TotalAppend(log, e, unit, start, start + SEND_WINDOW_MS);
    forall a: int ensures FitsBefore(after, unit, start, a) {
      assert FitsBefore(log, unit, start, a);
      TotalAppend(log, e, unit, a, start);
    }
    forall a: int ensures InSecond(after, unit, a) <= 2 * Limit(unit) {
      SendKeepsBounded(log, e, unit, start, counter, a);
    }
  }

  /** An interval that holds the new frame meets the current window and at most the end of the one before. */
  lemma SendKeepsBounded(log: seq<Sent>, e: Sent, unit: Unit, start: nat, counter: nat, a: int)
    requires Counted(log, unit, start, counter) && Past(log, start, e.at) && e.at < start + SEND_WINDOW_MS
    requires counter + Weight(e, unit) <= Limit(unit)
    ensures InSecond(log + [e], unit, a) <= 2 * Limit(unit)
  {
    var b := a + SEND_WINDOW_MS;
    assert InSecond(log, unit, a) <= 2 * Limit(unit);
    TotalAppend(log, e, unit, a, b);
    if a <= e.at < b {
      if a < start {
        assert FitsBefore(log, unit, start, a);
        TotalSplit(log, unit, a, start, b);
        TotalMonotone(log, unit, start, start, b, start + SEND_WINDOW_MS);
      } else {
        WindowTail(log, unit, start, a, e.at);
      }
    }
  }

  /** From inside the window on, nothing is sent but what the window carries. */
  lemma WindowTail(log: seq<Sent>, unit: Unit, start: nat, a: int, clock: nat)
    requires Past(log, start, clock) && start <= a <= start + SEND_WINDOW_MS
    ensures InSecond(log, unit, a) <= Total(log, unit, start, start + SEND_WINDOW_MS)
  {
    var end := start + SEND_WINDOW_MS;
    TotalSplit(log, unit, a, end, a + SEND_WINDOW_MS);
    NothingIn(log, unit, end, a + SEND_WINDOW_MS);
    TotalMonotone(log, unit, start, a, end, end);
  }

  /** Both counters are right, and both bounds hold. */
  ghost predicate Sound(log: seq<Sent>, start: nat, bytes: nat, frames: nat, clock: nat) {
    Past(log, start, clock) && Counted(log, Bytes, start, bytes) && Counted(log, Frames, start, frames)
  }

  lemma TimePasses(log: seq<Sent>, start: nat, bytes: nat, frames: nat, clock: nat, now: nat)
    requires Sound(log, start, bytes, frames, clock) && clock <= now
    ensures if now - start >= SEND_WINDOW_MS then Sound(log, now, 0, 0, now) else Sound(log, start, bytes, frames, now)
  {
    if now - start >= SEND_WINDOW_MS {
      RestartKeepsCounted(log, Bytes, start, bytes, clock, now);
      RestartKeepsCounted(log, Frames, start, frames, clock, now);
    }
  }

  lemma SendKeepsSound(log: seq<Sent>, start: nat, bytes: nat, frames: nat, now: nat, size: nat)
    requires Sound(log, start, bytes, frames, now) && now < start + SEND_WINDOW_MS
    requires bytes + size <= MAX_SEND_BYTES_PER_WINDOW && frames < MAX_SEND_FRAMES_PER_WINDOW
    ensures Sound(log + [Sent(now, size)], start, bytes + size, frames + 1, now)
  {
    SendKeepsCounted(log, Sent(now, size), Bytes, start, bytes);
    SendKeepsCounted(log, Sent(now, size), Frames, start, frames);
  }

  class SendWindow {
    var startedAt: nat
    var sentBytes: nat
    var sentFrames: nat
    ghost var log: seq<Sent>  // every frame handed to the socket
    ghost var clock: nat

    ghost predicate Valid()
      reads this
    {
      Sound(log, startedAt, sentBytes, sentFrames, clock)
    }

    constructor (now: nat)
      ensures Valid() && log == [] && clock == startedAt == now && sentBytes == sentFrames == 0
    {
      startedAt, sentBytes, sentFrames := now, 0, 0;
      log, clock := [], now;
    }

    /** A frame is sent exactly when the socket is open and the frame still fits its window. */
    method Send(now: nat, size: nat, socketOpen: bool) returns (ok: bool)
      requires Valid() && clock <= now
      modifies this
      ensures Valid() && clock == now
      ensures log == if ok then old(log) + [Sent(now, size)] else old(log)
      ensures startedAt == if now - old(startedAt) >= SEND_WINDOW_MS then now else old(startedAt)
      ensures sentBytes == (if now - old(startedAt) >= SEND_WINDOW_MS then 0 else old(sentBytes)) + if ok then size else 0
      ensures sentFrames == (if now - old(startedAt) >= SEND_WINDOW_MS then 0 else old(sentFrames)) + if ok then 1 else 0
      ensures var restarts := now - old(startedAt) >= SEND_WINDOW_MS;
        ok == (socketOpen
               && (if restarts then 0 else old(sentBytes)) + size <= MAX_SEND_BYTES_PER_WINDOW
               && (if restarts then 0 else old(sentFrames)) < MAX_SEND_FRAMES_PER_WINDOW)
    {
      TimePasses(log, startedAt, sentBytes, sentFrames, clock, now);
      if now - startedAt >= SEND_WINDOW_MS {
        startedAt, sentBytes, sentFrames := now, 0, 0;
      }
      clock := now;
      if sentBytes + size > MAX_SEND_BYTES_PER_WINDOW || sentFrames >= MAX_SEND_FRAMES_PER_WINDOW {
        return false;
      }
      if !socketOpen {
        return false;
      }
      SendKeepsSound(log, startedAt, sentBytes, sentFrames, now, size);
      sentBytes, sentFrames := sentBytes + size, sentFrames + 1;
      log := log + [Sent(now, size)];
      return true;
    }
  }

  /** Two windows' worth can pass within one second: the bound cannot be improved. */
  method TwoWindowsInOneSecond() returns (w: SendWindow)
    ensures fresh(w) && w.Valid() && InSecond(w.log, Bytes, 500) == 2 * MAX_SEND_BYTES_PER_WINDOW
  {
    w := new SendWindow(0);
    var first := w.Send(999, MAX_SEND_BYTES_PER_WINDOW, true);
    TotalAppend([], Sent(999, MAX_SEND_BYTES_PER_WINDOW), Bytes, 500, 1_500);
    ghost var log := w.log;
    var second := w.Send(1_000, MAX_SEND_BYTES_PER_WINDOW, true);
    TotalAppend(log, Sent(1_000, MAX_SEND_BYTES_PER_WINDOW), Bytes, 500, 1_500);
  }

  /** A window filled with empty frames, all at one time. */
  method FillFrames(w: SendWindow, now: nat)
    requires w.Valid() && w.clock <= now
    requires w.sentFrames == 0 || now - w.startedAt >= SEND_WINDOW_MS
    requires now - w.startedAt >= SEND_WINDOW_MS || w.sentBytes == 0
    modifies w
    ensures w.Valid() && w.clock == now && w.sentFrames == MAX_SEND_FRAMES_PER_WINDOW
    ensures w.startedAt == if now - old(w.startedAt) >= SEND_WINDOW_MS then now else old(w.startedAt)
    ensures forall a: int, b: int :: a <= now < b ==> Total(w.log, Frames, a, b) == Total(old(w.log), Frames, a, b) + MAX_SEND_FRAMES_PER_WINDOW
  {
    var i := 0;
    while i < MAX_SEND_FRAMES_PER_WINDOW
      invariant 0 <= i <= MAX_SEND_FRAMES_PER_WINDOW && w.Valid() && w.clock <= now
      invariant i > 0 ==> w.clock == now && now - w.startedAt < SEND_WINDOW_MS && w.sentFrames == i && w.sentBytes == 0
      invariant w.startedAt == if i > 0 && now - old(w.startedAt) >= SEND_WINDOW_MS then now else old(w.startedAt)
      invariant i == 0 ==> w.sentFrames == old(w.sentFrames) && w.sentBytes == old(w.sentBytes)
      invariant forall a: int, b: int :: a <= now < b ==> Total(w.log, Frames, a, b) == Total(old(w.log), Frames, a, b) + i
    {
      ghost var log := w.log;
      var ok := w.Send(now, 0, true);
      forall a: int, b: int | a <= now < b
        ensures Total(w.log, Frames, a, b) == Total(log, Frames, a, b) + 1
      {
        TotalAppend(log, Sent(now, 0), Frames, a, b);
      }
      i := i + 1;
    }
  }

  /** The same for frames. */
  method TwoWindowsOfFrames() returns (w: SendWindow)
    ensures fresh(w) && w.Valid() && InSecond(w.log, Frames, 500) == 2 * MAX_SEND_FRAMES_PER_WINDOW
  {
    w := new SendWindow(0);
    FillFrames(w, 999);
    FillFrames(w, 1_000);
  }
}
