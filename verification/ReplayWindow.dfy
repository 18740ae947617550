/**
 The 256-bit anti-replay window.

 `Window` is the abstract state: the highest sequence accepted and the distances
 below it whose bit is set.  `ReplayWindow256` is the 32-byte bitmap updated in
 place; each of its methods is proved to compute the abstract operation.
 */
module ReplayWindow {
  import opened Common

  const SPAN: nat := 256

  datatype Window = Window(valid: bool, maxSeq: nat, marked: set<nat>)

  const EMPTY := Window(false, 0, {})

  /** Distances after the newest sequence moved forward by `shift`. */
  function Shifted(marked: set<nat>, shift: nat): (r: set<nat>)
    ensures forall k: nat :: k in r <==> k < SPAN && InShifted(marked, shift, k)
  {
    set k: nat | k < SPAN && InShifted(marked, shift, k)
  }

  predicate InShifted(marked: set<nat>, shift: nat, k: nat) {
    shift <= k && k - shift in marked
  }

  lemma ShiftByNothing(marked: set<nat>)
    requires forall k :: k in marked ==> k < SPAN
    ensures Shifted(marked, 0) == marked
  {
  }

  /** Whole bytes first, then the remaining bits: together one shift by `shift`. */
  lemma ShiftsCompose(was: set<nat>, mid: set<nat>, after: set<nat>, shift: nat)
    requires forall k :: k in was ==> k < SPAN
    requires mid == if shift / 8 > 0 then Shifted(was, 8 * (shift / 8)) else was
    requires after == if shift % 8 > 0 then Shifted(mid, shift % 8) else mid
    ensures after == Shifted(was, shift)
  {
  }

  predicate CanAccept(w: Window, sequence: nat) {
    if !w.valid || sequence > w.maxSeq then true
    else
      var delta := AsUsize(w.maxSeq - sequence);
      delta < SPAN && delta !in w.marked
  }

  /** The window after `sequence` has been offered to it; a refused sequence leaves it as it was. */
  function Accept(w: Window, sequence: nat): Window {
    if !CanAccept(w, sequence) then w
    else if !w.valid then
      Window(true, sequence, w.marked + {0})
    else if sequence > w.maxSeq then
      Window(true, sequence, Shifted(w.marked, AsUsize(sequence - w.maxSeq)) + {0})
    else
      w.(marked := w.marked + {AsUsize(w.maxSeq - sequence)})
  }

  // ----- The set of all accepted sequences, of which the window is a summary -----

  /** `w` summarises exactly the set `accepted`. */
  ghost predicate Summarises(w: Window, accepted: set<nat>) {
    && (w.valid <==> accepted != {})
    && (!w.valid ==> w.marked == {})
    && (w.valid ==> w.maxSeq in accepted)
    && (forall s :: s in accepted ==> s <= w.maxSeq)
    && (forall k :: k in w.marked <==> k < SPAN && k <= w.maxSeq && w.maxSeq - k in accepted)
  }

  /** What an anti-replay check owes its caller: unseen, and above the highest sequence minus 256. */
  ghost predicate Fresh(accepted: set<nat>, sequence: nat) {
    && sequence !in accepted
    && (forall s :: s in accepted ==> s < sequence + SPAN)
  }

  ghost function Extended(accepted: set<nat>, sequence: nat, ok: bool): set<nat> {
    if ok then accepted + {sequence} else accepted
  }

  /**
   The cases in which dropping the high 32 bits of a distance changes nothing.
   The guard only looks at the window and the incoming sequence.
   */
  predicate CastHarmless(w: Window, sequence: nat) {
    if !w.valid then true
    else if sequence > w.maxSeq then
      var jump := sequence - w.maxSeq;
      jump < USIZE || AsUsize(jump) >= SPAN || (AsUsize(jump) == 0 && w.marked == {0})
    else
      var delta := w.maxSeq - sequence;
      delta < USIZE || AsUsize(delta) >= SPAN || AsUsize(delta) in w.marked
  }

  ghost predicate StepIsExact(w: Window, accepted: set<nat>, sequence: nat) {
    && (CanAccept(w, sequence) <==> Fresh(accepted, sequence))
    && Summarises(Accept(w, sequence), Extended(accepted, sequence, CanAccept(w, sequence)))
  }

  /**
   The window decides exactly like the unbounded history, and keeps summarising it,
   if and only if the cast to `usize` is harmless for this sequence.
   */
  lemma AcceptExactIffCastHarmless(w: Window, accepted: set<nat>, sequence: nat)
    requires Summarises(w, accepted)
    ensures StepIsExact(w, accepted, sequence) <==> CastHarmless(w, sequence)
  {
    if w.valid && sequence > w.maxSeq {
      JumpExactIff(w, accepted, sequence);
    } else if w.valid {
      var delta := w.maxSeq - sequence;
      assert w.maxSeq - delta == sequence;
      if delta >= USIZE && !CastHarmless(w, sequence) {
        assert w.maxSeq in accepted && !(w.maxSeq < sequence + SPAN);
      }
    }
  }

  lemma JumpExactIff(w: Window, accepted: set<nat>, sequence: nat)
    requires Summarises(w, accepted) && w.valid && sequence > w.maxSeq
    ensures StepIsExact(w, accepted, sequence) <==> CastHarmless(w, sequence)
  {
    var t := AsUsize(sequence - w.maxSeq);
    var marked' := Accept(w, sequence).marked;
    assert w.maxSeq - 0 in accepted && 0 in w.marked;
    if sequence - w.maxSeq < USIZE {
      ShortJumpExact(w, accepted, sequence);
    } else if t >= SPAN {
      assert marked' == {0};
    } else if t > 0 {
      // the bit of the old maximum now claims a sequence that was never accepted
      assert t in marked' && sequence - t !in accepted + {sequence};
    } else {
      assert marked' == w.marked + {0};
      if w.marked != {0} {
        var k :| k in w.marked && k != 0;
        assert k in marked' && sequence - k !in accepted + {sequence};
      }
    }
  }

  lemma ShortJumpExact(w: Window, accepted: set<nat>, sequence: nat)
    requires Summarises(w, accepted) && w.valid && w.maxSeq < sequence < w.maxSeq + USIZE
    ensures StepIsExact(w, accepted, sequence)
  {
  }

  /** A sequence accepted once is accepted again when 2^32 newer ones have been skipped. */
  lemma CastCanForget()
    ensures var w1 := Accept(EMPTY, 4);
            var w2 := Accept(w1, 300);
            var w3 := Accept(w2, 0x1_0000_000A);
            w1.maxSeq == 4 && CanAccept(w3, 4) && !CastHarmless(w3, 4)
  {
    assert Accept(EMPTY, 4) == Window(true, 4, {0});
    assert Shifted({0}, 296) == {} && AsUsize(0x1_0000_000A - 300) >= SPAN;
    assert Accept(Window(true, 4, {0}), 300) == Window(true, 300, {0});
    assert Accept(Window(true, 300, {0}), 0x1_0000_000A).marked == {0};
  }

  // ----- One sequence: once refused, refused for good -----

  /** All sequences of one epoch lie in a range shorter than 2^32 that starts at `base`. */
  predicate InRange(base: nat, sequence: nat) {
    base <= sequence < base + USIZE
  }

  predicate WindowInRange(w: Window, base: nat) {
    w.valid ==> InRange(base, w.maxSeq)
  }

  lemma AcceptRefusesAgain(w: Window, base: nat, sequence: nat)
    requires InRange(base, sequence) && WindowInRange(w, base)
    ensures WindowInRange(Accept(w, sequence), base) && Accept(w, sequence).valid
    ensures !CanAccept(Accept(w, sequence), sequence)
  {
  }

  lemma RefusalPersists(w: Window, base: nat, refused: nat, sequence: nat)
    requires w.valid && InRange(base, refused) && InRange(base, sequence) && WindowInRange(w, base)
    requires !CanAccept(w, refused)
    ensures !CanAccept(Accept(w, sequence), refused)
  {
  }

  // ----- Whole traces through one window -----

  /** The window after a trace. */
  function AcceptAll(w: Window, seqs: seq<nat>): Window {
    if seqs == [] then w else Accept(AcceptAll(w, seqs[..|seqs| - 1]), seqs[|seqs| - 1])
  }

  /** The packets of the trace that were let through, in arrival order. */
  function Passed(w: Window, seqs: seq<nat>): seq<nat> {
    if seqs == [] then []
    else
      var front, s := seqs[..|seqs| - 1], seqs[|seqs| - 1];
      Passed(w, front) + (if CanAccept(AcceptAll(w, front), s) then [s] else [])
  }

  /** Every element is new and above everything before it minus 256: a bounded reordering. */
  ghost predicate BoundedReordering(base: nat, seqs: seq<nat>) {
    && (forall i :: 0 <= i < |seqs| ==> InRange(base, seqs[i]))
    && (forall i, j :: 0 <= i < j < |seqs| ==> seqs[i] != seqs[j] && seqs[i] < seqs[j] + SPAN)
  }

  ghost function Elements(seqs: seq<nat>): set<nat> {
    set s | s in seqs
  }

  /** Under a bounded reordering every packet is let through, once and in arrival order. */
  lemma {:induction false} ReorderedPacketsAllPass(base: nat, seqs: seq<nat>)
    requires BoundedReordering(base, seqs)
    ensures Passed(EMPTY, seqs) == seqs
    ensures Summarises(AcceptAll(EMPTY, seqs), Elements(seqs))
  {
    if seqs == [] {
    } else {
      var front := seqs[..|seqs| - 1];
      assert BoundedReordering(base, front);
      ReorderedPacketsAllPass(base, front);
      LastPacketPasses(base, seqs);
    }
  }

  lemma LastPacketPasses(base: nat, seqs: seq<nat>)
    requires seqs != [] && BoundedReordering(base, seqs)
    requires Passed(EMPTY, seqs[..|seqs| - 1]) == seqs[..|seqs| - 1]
    requires Summarises(AcceptAll(EMPTY, seqs[..|seqs| - 1]), Elements(seqs[..|seqs| - 1]))
    ensures Passed(EMPTY, seqs) == seqs
    ensures Summarises(AcceptAll(EMPTY, seqs), Elements(seqs))
  {
    var front, s := seqs[..|seqs| - 1], seqs[|seqs| - 1];
    var w := AcceptAll(EMPTY, front);
    NextPacketPasses(base, seqs, w);
    assert AcceptAll(EMPTY, seqs) == Accept(w, s);
    assert Passed(EMPTY, seqs) == front + [s];
  }

  lemma NextPacketPasses(base: nat, seqs: seq<nat>, w: Window)
    requires seqs != [] && BoundedReordering(base, seqs)
    requires Summarises(w, Elements(seqs[..|seqs| - 1]))
    ensures CanAccept(w, seqs[|seqs| - 1])
    ensures Summarises(Accept(w, seqs[|seqs| - 1]), Elements(seqs))
  {
    var front, s := seqs[..|seqs| - 1], seqs[|seqs| - 1];
    forall x | x in front
      ensures x != s && x < s + SPAN && InRange(base, x)
    {
      var i :| 0 <= i < |front| && front[i] == x;
      assert seqs[i] == x;
    }
    assert w.valid ==> w.maxSeq in front;
    AcceptExactIffCastHarmless(w, Elements(front), s);
    assert Elements(seqs) == Elements(front) + {s};
  }

  // ----- The 32-byte bitmap -----

  predicate TestByte(b: byte, bit: nat)
    requires bit < 8
  {
    (b >> bit) & 1 == 1
  }

  ghost predicate Bit(bytes: seq<byte>, k: nat)
    requires k < 8 * |bytes|
  {
    TestByte(bytes[k / 8], k % 8)
  }

  /** `marked` is exactly the set of positions whose bit is set. */
  ghost predicate Reflects(bytes: seq<byte>, marked: set<nat>) {
    && |bytes| == 32
    && (forall k :: k in marked ==> k < SPAN)
    && (forall k: nat {:trigger Bit(bytes, k)} :: k < SPAN ==> (Bit(bytes, k) <==> k in marked))
  }

  lemma SetByteBit(b: byte, i: nat, j: nat)
    requires i < 8 && j < 8
    ensures TestByte(b | (1 << i), j) <==> i == j || TestByte(b, j)
  {
  }

  /** One byte of the bit-granular shift: the low bits come from the carry of the byte before. */
  lemma CarryByte(b: byte, previous: byte, shift: nat, j: nat)
    requires 0 < shift < 8 && j < 8
    ensures TestByte(CarriedByte(b, previous, shift as bv8), j)
       <==> if j >= shift then TestByte(b, j - shift) else TestByte(previous, 8 - shift + j)
  {
    CarryWord(b, previous, shift as bv8, j as bv8);
  }

  function CarriedByte(b: byte, previous: byte, shift: bv8): byte
    requires 0 < shift < 8
  {
    (b << shift) | (previous >> (8 - shift))
  }

  /** The byte whose high bits spill into byte i. */
  function PrecedingByte(bytes: seq<byte>, i: nat): byte
    requires i <= |bytes|
  {
    if i == 0 then 0 else bytes[i - 1]
  }

  function Carried(bytes: seq<byte>, shift: bv8): seq<byte>
    requires 0 < shift < 8
  {
    seq(|bytes|, i requires 0 <= i < |bytes| => CarriedByte(bytes[i], PrecedingByte(bytes, i), shift))
  }

  function Moved(bytes: seq<byte>, n: nat): seq<byte> {
    seq(|bytes|, i requires 0 <= i < |bytes| => if i >= n then bytes[i - n] else 0)
  }

  lemma CarryWord(b: byte, previous: byte, shift: bv8, j: bv8)
    requires 0 < shift < 8 && j < 8
    ensures ((CarriedByte(b, previous, shift) >> j) & 1 == 1)
       <==> if j >= shift then (b >> (j - shift)) & 1 == 1 else (previous >> (8 - shift + j)) & 1 == 1
  {
  }

  class ReplayWindow256 {
    var maxSeq: nat
    const bitmap: array<byte>
    var valid: bool
    ghost var marked: set<nat>  // the set bits of the bitmap

    ghost predicate Valid()
      reads this, bitmap
    {
      this as object != bitmap && Reflects(bitmap[..], marked)
    }

    ghost function Abs(): Window
      reads this
    {
      Window(valid, maxSeq, marked)
    }

    constructor ()
      ensures Valid() && fresh(bitmap) && Abs() == EMPTY
    {
      bitmap := new byte[32](_ => 0);
      maxSeq, valid, marked := 0, false, {};
      new;
      ZeroReflects(bitmap[..]);
    }

    method Clear()
      requires Valid()
      modifies this, bitmap
      ensures Valid() && Abs() == EMPTY
    {
      maxSeq := 0;
      FillZero();
      valid := false;
    }

    method FillZero()
      requires Valid()
      modifies this`marked, bitmap
      ensures Valid() && marked == {}
    {
      forall i | 0 <= i < bitmap.Length {
        bitmap[i] := 0;
      }
      marked := {};
      ZeroReflects(bitmap[..]);
    }

    method TestBit(idx: nat) returns (r: bool)
      requires Valid() && idx < SPAN
      ensures r <==> idx in marked
    {
      var byte_ := idx / 8;
      var bit := idx % 8;
      assert Bit(bitmap[..], idx) <==> idx in marked;
      r := (bitmap[byte_] >> bit) & 1 == 1;
    }

    method SetBit(idx: nat)
      requires Valid() && idx < SPAN
      modifies this`marked, bitmap
      ensures Valid() && marked == old(marked) + {idx} && valid == old(valid)
    {
      var byte_ := idx / 8;
      var bit := idx % 8;
      ghost var was := bitmap[..];
      bitmap[byte_] := bitmap[byte_] | (1 << bit);
      marked := marked + {idx};
      SetReflects(was, old(marked), idx);
      assert bitmap[..] == was[byte_ := was[byte_] | (1 << bit)];
    }

    method ShiftBytes(byteShift: nat)
      requires Valid() && byteShift < 32
      modifies this`marked, bitmap
      ensures Valid() && marked == Shifted(old(marked), 8 * byteShift)
    {
      MovedReflects(bitmap[..], marked, byteShift);
      MoveBytes(byteShift);
      marked := Shifted(marked, 8 * byteShift);
    }

    method MoveBytes(byteShift: nat)
      requires bitmap.Length == 32 && byteShift < 32
      modifies bitmap
      ensures bitmap[..] == Moved(old(bitmap[..]), byteShift)
    {
      ghost var was := bitmap[..];
      var i := bitmap.Length;
      while i > 0
        invariant 0 <= i <= 32
        invariant forall k :: 0 <= k < i ==> bitmap[k] == was[k]
        invariant forall k :: i <= k < 32 ==> bitmap[k] == Moved(was, byteShift)[k]
      {
        i := i - 1;
        bitmap[i] := if i >= byteShift then bitmap[i - byteShift] else 0;
      }
    }

    method ShiftBits(bitShift: nat)
      requires Valid() && 0 < bitShift < 8
      modifies this`marked, bitmap
      ensures Valid() && marked == Shifted(old(marked), bitShift)
    {
      CarriedReflects(bitmap[..], marked, bitShift);
      CarryBits(bitShift as bv8);
      marked := Shifted(marked, bitShift);
    }

    method CarryBits(bitShift: bv8)
      requires bitmap.Length == 32 && 0 < bitShift < 8
      modifies bitmap
      ensures bitmap[..] == Carried(old(bitmap[..]), bitShift)
    {
      ghost var was := bitmap[..];
      var carry: byte := 0;
      for i := 0 to bitmap.Length
        invariant forall j :: i <= j < 32 ==> bitmap[j] == was[j]
        invariant forall j :: 0 <= j < i ==> bitmap[j] == CarriedByte(was[j], PrecedingByte(was, j), bitShift)
        invariant carry == PrecedingByte(was, i) >> (8 - bitShift)
      {
        var nextCarry := bitmap[i] >> (8 - bitShift);
        bitmap[i] := (bitmap[i] << bitShift) | carry;
        carry := nextCarry;
      }
    }

    /** The byte-then-bit shift moves bit k to bit k + shift, for every shift. */
    method ShiftRight(shift: nat)
      requires Valid()
      modifies this`marked, bitmap
      ensures Valid() && marked == Shifted(old(marked), shift) && valid == old(valid)
    {
      ghost var was := marked;
      if shift == 0 {
        ShiftByNothing(was);
        return;
      }
      if shift >= 256 {
        FillZero();
        assert Shifted(was, shift) == {};
        return;
      }
      var byteShift := shift / 8;
      var bitShift := shift % 8;
      if byteShift > 0 {
        ShiftBytes(byteShift);
      }
      ghost var mid := marked;
      if bitShift > 0 {
        ShiftBits(bitShift);
      }
      ShiftsCompose(was, mid, marked, shift);
    }

    method CanAcceptSeq(sequence: nat) returns (r: bool)
      requires Valid()
      ensures r == CanAccept(Abs(), sequence)
    {
      if !valid || sequence > maxSeq {
        return true;
      }
      var delta := AsUsize(maxSeq - sequence);
      if delta < 256 {
        var seen := TestBit(delta);
        return !seen;
      }
      return false;
    }

    method AcceptSeq(sequence: nat) returns (r: bool)
      requires Valid()
      modifies this, bitmap
      ensures Valid() && Abs() == Accept(old(Abs()), sequence) && r == CanAccept(old(Abs()), sequence)
    {
      if !valid {
        valid := true;
        maxSeq := sequence;
        SetBit(0);
        return true;
      }
      if sequence > maxSeq {
        ShiftRight(AsUsize(sequence - maxSeq));
        maxSeq := sequence;
        SetBit(0);
        return true;
      }
      var delta := AsUsize(maxSeq - sequence);
      if delta >= 256 {
        return false;
      }
      var seen := TestBit(delta);
      if seen {
        return false;
      }
      SetBit(delta);
      return true;
    }
  }

  lemma Quotient(k: nat, i: nat, j: nat)
    requires k == 8 * i + j && j < 8
    ensures k / 8 == i && k % 8 == j
  {
  }

  lemma ZeroByte(j: nat)
    requires j < 8
    ensures !TestByte(0, j)
  {
  }

  lemma MovedBit(bytes: seq<byte>, n: nat, k: nat)
    requires k < 8 * |bytes|
    ensures Bit(Moved(bytes, n), k) <==> k >= 8 * n && Bit(bytes, k - 8 * n)
  {
  }

  lemma CarriedBit(bytes: seq<byte>, bits: nat, k: nat)
    requires 0 < bits < 8 && k < 8 * |bytes|
    ensures Bit(Carried(bytes, bits as bv8), k) <==> k >= bits && Bit(bytes, k - bits)
  {
    var i, j := k / 8, k % 8;
    CarryByte(bytes[i], PrecedingByte(bytes, i), bits, j);
    if j >= bits {
      Quotient(k - bits, i, j - bits);
    } else if i > 0 {
      Quotient(k - bits, i - 1, 8 + j - bits);
    } else {
      ZeroByte(8 - bits + j);
    }
  }

  lemma ZeroReflects(bytes: seq<byte>)
    requires |bytes| == 32 && forall i :: 0 <= i < 32 ==> bytes[i] == 0
    ensures Reflects(bytes, {})
  {
  }

  lemma SetReflects(bytes: seq<byte>, marked: set<nat>, idx: nat)
    requires Reflects(bytes, marked) && idx < SPAN
    ensures Reflects(bytes[idx / 8 := bytes[idx / 8] | (1 << (idx % 8))], marked + {idx})
  {
    var after := bytes[idx / 8 := bytes[idx / 8] | (1 << (idx % 8))];
    forall k: nat | k < SPAN
      ensures Bit(after, k) <==> k == idx || Bit(bytes, k)
    {
      SetByteBit(bytes[idx / 8], idx % 8, k % 8);
    }
  }

  lemma MovedReflects(bytes: seq<byte>, marked: set<nat>, n: nat)
    requires Reflects(bytes, marked)
    ensures Reflects(Moved(bytes, n), Shifted(marked, 8 * n))
  {
    forall k: nat | k < SPAN
      ensures Bit(Moved(bytes, n), k) <==> k in Shifted(marked, 8 * n)
    {
      MovedBit(bytes, n, k);
    }
  }

  lemma CarriedReflects(bytes: seq<byte>, marked: set<nat>, bits: nat)
    requires Reflects(bytes, marked) && 0 < bits < 8
    ensures Reflects(Carried(bytes, bits as bv8), Shifted(marked, bits))
  {
    forall k: nat | k < SPAN
      ensures Bit(Carried(bytes, bits as bv8), k) <==> k in Shifted(marked, bits)
    {
      CarriedBit(bytes, bits, k);
    }
  }
}
