/** The two encodings of a room's connection graph: a packed bitmap and a sparse peer list. */
module Topology {
  import opened Common
  import opened ReplayWindow

  type PeerId = u32

  // ----- Sorted peer ids -----

  predicate Increasing(ids: seq<PeerId>) {
    forall i, j :: 0 <= i < j < |ids| ==> ids[i] < ids[j]
  }

  predicate IsLeast(m: PeerId, s: set<PeerId>) {
    m in s && forall x :: x in s ==> m <= x
  }

  lemma {:induction false} LeastExists(s: set<PeerId>)
    requires s != {}
    ensures exists m :: IsLeast(m, s)
  {
    var x :| x in s;
    var rest := s - {x};
    assert s == rest + {x};
    if rest == {} {
      assert IsLeast(x, s);
    } else {
      LeastExists(rest);
      var m :| IsLeast(m, rest);
      assert IsLeast(if x < m then x else m, s);
    }
  }

  ghost function Least(s: set<PeerId>): (m: PeerId)
    requires s != {}
    ensures IsLeast(m, s)
  {
    LeastExists(s);
    var m :| IsLeast(m, s);
    m
  }

  ghost function Sorted(s: set<PeerId>): (ids: seq<PeerId>)
    ensures |ids| == |s|
  {
    if s == {} then [] else [Least(s)] + Sorted(s - {Least(s)})
  }

  lemma {:induction false} SortedFacts(s: set<PeerId>)
    ensures Increasing(Sorted(s))
    ensures forall p :: p in Sorted(s) <==> p in s
  {
    if s != {} {
      var m := Least(s);
      SortedFacts(s - {m});
      SortedStep(m, s, Sorted(s - {m}));
    }
  }

  lemma SortedStep(m: PeerId, s: set<PeerId>, rest: seq<PeerId>)
    requires IsLeast(m, s) && Increasing(rest) && forall p :: p in rest <==> p in s - {m}
    ensures Increasing([m] + rest)
    ensures forall p :: p in [m] + rest <==> p in s
  {
    forall i | 0 <= i < |rest|
      ensures m < rest[i]
    {
      assert rest[i] in rest;
    }
  }

  // ----- The bitmap -----

  const MAX_LEGACY_BITMAP_PEERS: nat := 8_192

  function BitmapSize(n: nat): nat {
    (n * n + 7) / 8
  }

  function Index(n: nat, row: nat, col: nat): nat {
    row * n + col
  }

  lemma {:induction false} ProductGrows(a: nat, b: nat, n: nat)
    requires a < b
    ensures a * n + n <= b * n
  {
    if a + 1 < b {
      ProductGrows(a, b - 1, n);
      assert b * n == (b - 1) * n + n;
    } else {
      assert b * n == a * n + n;
    }
  }

  lemma IndexBound(n: nat, row: nat, col: nat)
    requires row < n && col < n
    ensures Index(n, row, col) < n * n <= 8 * BitmapSize(n)
  {
    ProductGrows(row, n, n);
    assert Index(n, row, col) < row * n + n;
    RoundedUp(n * n);
  }

  lemma RoundedUp(m: nat)
    ensures m <= 8 * ((m + 7) / 8) < m + 8
  {
  }

  lemma IndexInjective(n: nat, row: nat, col: nat, row': nat, col': nat)
    requires col < n && col' < n && Index(n, row, col) == Index(n, row', col')
    ensures row == row' && col == col'
  {
    if row < row' {
      ProductGrows(row, row', n);
    } else if row' < row {
      ProductGrows(row', row, n);
    }
  }

  /** Adjacency in a star: every peer with itself and with the server. */
  predicate Adjacent(server: nat, row: nat, col: nat) {
    row == col || row == server || col == server
  }

  /** The cells set after `diag` diagonal cells and `star` cells of the server's row and column. */
  predicate SetSoFar(server: nat, diag: nat, star: nat, row: nat, col: nat) {
    (row == col && row < diag) || (row == server && col < star) || (col == server && row < star)
  }

  ghost predicate PaddingZero(bytes: seq<byte>, n: nat) {
    |bytes| == BitmapSize(n) && forall k: nat {:trigger Bit(bytes, k)} :: n * n <= k < 8 * |bytes| ==> !Bit(bytes, k)
  }

  ghost predicate CellsAre(bytes: seq<byte>, n: nat, server: nat, diag: nat, star: nat) {
    && |bytes| == BitmapSize(n)
    && forall row: nat, col: nat {:trigger CellSet(bytes, n, row, col)} :: row < n && col < n ==>
         (CellSet(bytes, n, row, col) <==> SetSoFar(server, diag, star, row, col))
  }

  ghost predicate CellSet(bytes: seq<byte>, n: nat, row: nat, col: nat)
    requires row < n && col < n && |bytes| == BitmapSize(n)
  {
    IndexBound(n, row, col);
    Bit(bytes, Index(n, row, col))
  }

  /** Cell (row, col) is set exactly when the two peers are adjacent, and the padding bits are zero. */
  ghost predicate DescribesStar(bytes: seq<byte>, n: nat, server: nat) {
    && PaddingZero(bytes, n)
    && forall row: nat, col: nat {:trigger CellSet(bytes, n, row, col)} :: row < n && col < n ==>
         (CellSet(bytes, n, row, col) <==> Adjacent(server, row, col))
  }

  function SetAt(bytes: seq<byte>, idx: nat): seq<byte>
    requires idx < 8 * |bytes|
  {
    bytes[idx / 8 := bytes[idx / 8] | (1 << (idx % 8))]
  }

  lemma SetAtBit(bytes: seq<byte>, idx: nat, k: nat)
    requires idx < 8 * |bytes| && k < 8 * |bytes|
    ensures Bit(SetAt(bytes, idx), k) <==> k == idx || Bit(bytes, k)
  {
    SetByteBit(bytes[idx / 8], idx % 8, k % 8);
  }

  function WithCell(bytes: seq<byte>, n: nat, row: nat, col: nat): (r: seq<byte>)
    requires row < n && col < n && |bytes| == BitmapSize(n)
    ensures |r| == |bytes|
  {
    IndexBound(n, row, col);
    SetAt(bytes, Index(n, row, col))
  }

  lemma WithCellSets(bytes: seq<byte>, n: nat, row: nat, col: nat, r: nat, c: nat)
    requires row < n && col < n && r < n && c < n && |bytes| == BitmapSize(n)
    ensures CellSet(WithCell(bytes, n, row, col), n, r, c) <==> CellSet(bytes, n, r, c) || (r == row && c == col)
  {
    IndexBound(n, row, col);
    IndexBound(n, r, c);
    SetAtBit(bytes, Index(n, row, col), Index(n, r, c));
    if Index(n, row, col) == Index(n, r, c) {
      IndexInjective(n, row, col, r, c);
    }
  }

  lemma WithCellPadding(bytes: seq<byte>, n: nat, row: nat, col: nat)
    requires row < n && col < n && PaddingZero(bytes, n)
    ensures PaddingZero(WithCell(bytes, n, row, col), n)
  {
    IndexBound(n, row, col);
    var after := WithCell(bytes, n, row, col);
    forall k: nat | n * n <= k < 8 * |bytes|
      ensures !Bit(after, k)
    {
      SetAtBit(bytes, Index(n, row, col), k);
    }
  }

  lemma DiagonalStep(bytes: seq<byte>, n: nat, server: nat, i: nat)
    requires i < n && CellsAre(bytes, n, server, i, 0)
    ensures CellsAre(WithCell(bytes, n, i, i), n, server, i + 1, 0)
  {
    forall row: nat, col: nat | row < n && col < n
      ensures CellSet(WithCell(bytes, n, i, i), n, row, col) <==> SetSoFar(server, i + 1, 0, row, col)
    {
      WithCellSets(bytes, n, i, i, row, col);
    }
  }

  lemma StarStep(bytes: seq<byte>, n: nat, server: nat, i: nat)
    requires i < n && server < n && CellsAre(bytes, n, server, n, i)
    ensures i == server ==> CellsAre(bytes, n, server, n, i + 1)
    ensures i != server ==> CellsAre(WithCell(WithCell(bytes, n, server, i), n, i, server), n, server, n, i + 1)
  {
    var once := WithCell(bytes, n, server, i);
    var twice := WithCell(once, n, i, server);
    forall row: nat, col: nat | row < n && col < n
      ensures CellSet(twice, n, row, col) <==> CellSet(bytes, n, row, col) || (row == server && col == i) || (row == i && col == server)
    {
      WithCellSets(bytes, n, server, i, row, col);
      WithCellSets(once, n, i, server, row, col);
    }
  }

  lemma ZeroCells(bytes: seq<byte>, n: nat, server: nat)
    requires |bytes| == BitmapSize(n) && forall i :: 0 <= i < |bytes| ==> bytes[i] == 0
    ensures CellsAre(bytes, n, server, 0, 0) && PaddingZero(bytes, n)
  {
    forall k: nat | k < 8 * |bytes|
      ensures !Bit(bytes, k)
    {
      ZeroByte(k % 8);
    }
    forall row: nat, col: nat | row < n && col < n
      ensures !CellSet(bytes, n, row, col)
    {
      IndexBound(n, row, col);
    }
  }

  lemma DoneDescribesStar(bytes: seq<byte>, n: nat, server: nat)
    requires server < n && CellsAre(bytes, n, server, n, n) && PaddingZero(bytes, n)
    ensures DescribesStar(bytes, n, server)
  {
  }

  /** The bitmap is filled in place: first the diagonal, then the server's row and column. */
  method FillBitmap(n: nat, server: nat) returns (bitmap: array<byte>)
    requires server < n
    ensures fresh(bitmap) && DescribesStar(bitmap[..], n, server)
  {
    bitmap := new byte[BitmapSize(n)](_ => 0);
    ZeroCells(bitmap[..], n, server);
    for i := 0 to n
      invariant fresh(bitmap) && CellsAre(bitmap[..], n, server, i, 0) && PaddingZero(bitmap[..], n)
    {
      DiagonalStep(bitmap[..], n, server, i);
      SetCell(bitmap, n, i, i);
    }
    for i := 0 to n
      invariant fresh(bitmap) && CellsAre(bitmap[..], n, server, n, i) && PaddingZero(bitmap[..], n)
    {
      StarStep(bitmap[..], n, server, i);
      if i == server {
        continue;
      }
      SetCell(bitmap, n, server, i);
      SetCell(bitmap, n, i, server);
    }
    DoneDescribesStar(bitmap[..], n, server);
  }

  method SetCell(bitmap: array<byte>, n: nat, row: nat, col: nat)
    requires row < n && col < n && PaddingZero(bitmap[..], n)
    modifies bitmap
    ensures bitmap[..] == WithCell(old(bitmap[..]), n, row, col) && PaddingZero(bitmap[..], n)
  {
    WithCellPadding(bitmap[..], n, row, col);
    IndexBound(n, row, col);
    ghost var was := bitmap[..];
    var idx := row * n + col;
    bitmap[idx / 8] := bitmap[idx / 8] | (1 << (idx % 8));
    assert bitmap[..] == SetAt(was, idx);
  }

  // ----- The bitmap is determined by the graph -----

  lemma IndexOnto(n: nat, k: nat)
    requires k < n * n
    ensures n > 0 && k / n < n && k % n < n && Index(n, k / n, k % n) == k
  {
    var row, col := k / n, k % n;
    assert k == row * n + col;
    if row >= n {
      if row > n { ProductGrows(n, row, n); }
      assert false;
    }
  }

  lemma SameByte(a: byte, b: byte)
    requires TestByte(a, 0) == TestByte(b, 0) && TestByte(a, 1) == TestByte(b, 1)
    requires TestByte(a, 2) == TestByte(b, 2) && TestByte(a, 3) == TestByte(b, 3)
    requires TestByte(a, 4) == TestByte(b, 4) && TestByte(a, 5) == TestByte(b, 5)
    requires TestByte(a, 6) == TestByte(b, 6) && TestByte(a, 7) == TestByte(b, 7)
    ensures a == b
  {
  }

  lemma SameBit(a: seq<byte>, b: seq<byte>, n: nat, server: nat, k: nat)
    requires DescribesStar(a, n, server) && DescribesStar(b, n, server) && k < 8 * BitmapSize(n)
    ensures Bit(a, k) == Bit(b, k)
  {
    if k < n * n {
      IndexOnto(n, k);
      var row, col := k / n, k % n;
      assert CellSet(a, n, row, col) == CellSet(b, n, row, col);
    }
  }

  /** Two bitmaps of the same star are equal byte for byte, and no longer than their n * n bits need. */
  lemma BitmapUnique(a: seq<byte>, b: seq<byte>, n: nat, server: nat)
    requires DescribesStar(a, n, server) && DescribesStar(b, n, server)
    ensures a == b && n * n <= 8 * |a| < n * n + 8
  {
    RoundedUp(n * n);
    forall i | 0 <= i < |a|
      ensures a[i] == b[i]
    {
      forall j | 0 <= j < 8
        ensures TestByte(a[i], j) == TestByte(b[i], j)
      {
        SameBit(a, b, n, server, 8 * i + j);
        Quotient(8 * i + j, i, j);
      }
      SameByte(a[i], b[i]);
    }
  }

  // ----- The peer list -----

  datatype IdVersion = IdVersion(peerId: PeerId, version: u32)

  datatype PeerConn = PeerConn(id: IdVersion, connected: seq<PeerId>)

  function Ids(ids: seq<IdVersion>): seq<PeerId> {
    seq(|ids|, i requires 0 <= i < |ids| => ids[i].peerId)
  }

  function Without(ids: seq<PeerId>, p: PeerId): seq<PeerId> {
    if ids == [] then []
    else
      var front, last := ids[..|ids| - 1], ids[|ids| - 1];
      Without(front, p) + (if last == p then [] else [last])
  }

  lemma {:induction false} WithoutMembers(ids: seq<PeerId>, p: PeerId, q: PeerId)
    ensures q in Without(ids, p) <==> q in ids && q != p
  {
    if ids != [] {
      WithoutMembers(ids[..|ids| - 1], p, q);
      assert ids == ids[..|ids| - 1] + [ids[|ids| - 1]];
    }
  }

  function PeerList(ids: seq<IdVersion>, me: PeerId): seq<PeerConn> {
    seq(|ids|, i requires 0 <= i < |ids| =>
      PeerConn(ids[i], if ids[i].peerId == me then Without(Ids(ids), me) else [me]))
  }

  method OtherPeers(ids: seq<IdVersion>, me: PeerId) returns (connected: seq<PeerId>)
    ensures connected == Without(Ids(ids), me)
  {
    connected := [];
    ghost var all := Ids(ids);
    for j := 0 to |ids|
      invariant connected == Without(all[..j], me)
    {
      assert all[..j + 1][..j] == all[..j];
      if ids[j].peerId != me {
        connected := connected + [ids[j].peerId];
      }
    }
    assert all[..|ids|] == all;
  }

  /** The list is built by a pass over the peers, with a filtering pass for the server's own entry. */
  method BuildPeerList(ids: seq<IdVersion>, me: PeerId) returns (list: seq<PeerConn>)
    ensures list == PeerList(ids, me)
  {
    list := [];
    for i := 0 to |ids|
      invariant |list| == i && forall k :: 0 <= k < i ==> list[k] == PeerList(ids, me)[k]
    {
      var connected := [me];
      if ids[i].peerId == me {
        connected := OtherPeers(ids, me);
      }
      list := list + [PeerConn(ids[i], connected)];
    }
  }

  /**
   The two encodings describe the same star graph: off the diagonal, a bitmap cell is set
   exactly when the sparse list connects the two peers; on the diagonal every bit is set.
   */
  lemma EncodingsAgree(ids: seq<IdVersion>, me: PeerId, server: nat, bytes: seq<byte>, row: nat, col: nat)
    requires Increasing(Ids(ids)) && server < |ids| && ids[server].peerId == me
    requires DescribesStar(bytes, |ids|, server) && row < |ids| && col < |ids|
    ensures row != col ==> (CellSet(bytes, |ids|, row, col) <==> ids[col].peerId in PeerList(ids, me)[row].connected)
    ensures row == col ==> CellSet(bytes, |ids|, row, col)
  {
    WithoutMembers(Ids(ids), me, ids[col].peerId);
    assert Ids(ids)[col] == ids[col].peerId && Ids(ids)[row] == ids[row].peerId && Ids(ids)[server] == me;
  }
}
