/** The peer centre: who reaches whom in each group, with a digest that tells clients when to ask again. */
module PeerCenter {
  import opened Common

  datatype Pair = Pair(src: u32, dst: u32)

  datatype Info = Info(latencyMs: int)

  datatype Entry = Entry(info: Info, updatedAt: nat)

  datatype Group = Group(peers: map<Pair, Entry>, reports: map<u32, nat>, digest: nat)

  const NEW_GROUP := Group(map[], map[], 0)

  /** What the hasher is fed for one entry. */
  datatype Item = Item(pair: Pair, info: Info)

  type Hash = seq<Item> -> nat

  function Infos(peers: map<Pair, Entry>): map<Pair, Info> {
    map p | p in peers :: peers[p].info
  }

  // ----- Listing a map in order -----

  ghost predicate Less(p: Pair, q: Pair) {
    p.src < q.src || (p.src == q.src && p.dst < q.dst)
  }

  /** The items of m, each once, in increasing order of their pairs. */
  ghost predicate Lists(items: seq<Item>, m: map<Pair, Info>) {
    && (forall i, j :: 0 <= i < j < |items| ==> Less(items[i].pair, items[j].pair))
    && (forall i :: 0 <= i < |items| ==> items[i].pair in m && m[items[i].pair] == items[i].info)
    && (forall p :: p in m ==> exists i :: 0 <= i < |items| && items[i].pair == p)
  }

  lemma ListsWithoutLast(items: seq<Item>, m: map<Pair, Info>)
    requires Lists(items, m) && items != []
    ensures Lists(items[..|items| - 1], m - {items[|items| - 1].pair})
  {
  }

  lemma LastIsGreatest(items: seq<Item>, m: map<Pair, Info>)
    requires Lists(items, m)
    ensures items == [] <==> m == map[]
    ensures items != [] ==>
      var last := items[|items| - 1].pair;
      last in m && forall p :: p in m && p != last ==> Less(p, last)
  {
  }

  lemma SameEnd(items: seq<Item>, others: seq<Item>, m: map<Pair, Info>)
    requires Lists(items, m) && Lists(others, m)
    ensures items == [] <==> others == []
    ensures items != [] ==>
      var n, k := |items| - 1, |others| - 1;
      items[n] == others[k] && Lists(items[..n], m - {items[n].pair}) && Lists(others[..k], m - {items[n].pair})
  {
    LastIsGreatest(items, m);
    LastIsGreatest(others, m);
    if items != [] {
      ListsWithoutLast(items, m);
      ListsWithoutLast(others, m);
    }
  }

  /** There is only one such list: the order in which a map is walked does not matter. */
  lemma {:induction false} ListsUnique(items: seq<Item>, others: seq<Item>, m: map<Pair, Info>)
    requires Lists(items, m) && Lists(others, m)
    ensures items == others
  {
    SameEnd(items, others, m);
    if items != [] {
      var n, k := |items| - 1, |others| - 1;
      ListsUnique(items[..n], others[..k], m - {items[n].pair});
      assert items == items[..n] + [items[n]] && others == others[..k] + [others[k]];
    }
  }

  /** d is the digest of m. */
  ghost predicate DigestOf(hash: Hash, d: nat, m: map<Pair, Info>) {
    exists items :: Lists(items, m) && hash(items) == d
  }

  /** The digest depends on the map alone. */
  lemma DigestIsAFunction(hash: Hash, d: nat, e: nat, m: map<Pair, Info>)
    requires DigestOf(hash, d, m) && DigestOf(hash, e, m)
    ensures d == e
  {
    var items :| Lists(items, m) && hash(items) == d;
    var others :| Lists(others, m) && hash(others) == e;
    ListsUnique(items, others, m);
  }

  /** Where the hash does not collide, equal digests mean equal maps. */
  lemma EqualDigestsMeanEqualMaps(hash: Hash, d: nat, m: map<Pair, Info>, n: map<Pair, Info>)
    requires DigestOf(hash, d, m) && DigestOf(hash, d, n)
    requires forall items, others :: Lists(items, m) && Lists(others, n) && hash(items) == hash(others) ==> items == others
    ensures m == n
  {
  }

  method LeastPair(pairs: set<Pair>) returns (least: Pair)
    requires pairs != {}
    ensures least in pairs && forall p :: p in pairs && p != least ==> Less(least, p)
  {
    least :| least in pairs;
    var seen, rest := {least}, pairs - {least};
    while rest != {}
      invariant seen + rest == pairs && least in seen
      invariant forall p :: p in seen && p != least ==> Less(least, p)
      decreases rest
    {
      var p :| p in rest;
      if p.src < least.src || (p.src == least.src && p.dst < least.dst) {
        least := p;
      }
      seen, rest := seen + {p}, rest - {p};
    }
    assert seen == pairs;
  }

  /** Hashes the entries in the order of their pairs; timestamps are not hashed. */
  method CalcDigest(hash: Hash, peers: map<Pair, Entry>) returns (digest: nat)
    ensures DigestOf(hash, digest, Infos(peers))
  {
    var items: seq<Item> := [];
    var rest := peers.Keys;
    ghost var m := Infos(peers);
    while rest != {}
      invariant rest <= m.Keys && Lists(items, m - rest)
      invariant forall i, p :: 0 <= i < |items| && p in rest ==> Less(items[i].pair, p)
      decreases rest
    {
      var p := LeastPair(rest);
      ListsOneMore(items, m, rest, p);
      items := items + [Item(p, peers[p].info)];
      rest := rest - {p};
    }
    assert m - {} == m;
    digest := hash(items);
  }

  lemma ListsOneMore(items: seq<Item>, m: map<Pair, Info>, rest: set<Pair>, p: Pair)
    requires rest <= m.Keys && Lists(items, m - rest) && p in rest
    requires forall i :: 0 <= i < |items| ==> Less(items[i].pair, p)
    ensures Lists(items + [Item(p, m[p])], m - (rest - {p}))
  {
    var more, now := items + [Item(p, m[p])], m - (rest - {p});
    forall q | q in now ensures exists i :: 0 <= i < |more| && more[i].pair == q {
      if q == p {
        assert more[|items|].pair == q;
      } else {
        assert q in m - rest;
        var i :| 0 <= i < |items| && items[i].pair == q;
        assert more[i].pair == q;
      }
    }
  }

  // ----- The nested reply -----

  type Nested = map<u32, map<u32, Info>>

  /** The nested map holds the entries of the flat one, and no empty inner map. */
  ghost predicate Curried(nested: Nested, flat: map<Pair, Info>) {
    && (forall s, d :: s in nested && d in nested[s] ==> Pair(s, d) in flat && nested[s][d] == flat[Pair(s, d)])
    && (forall p :: p in flat ==> p.src in nested && p.dst in nested[p.src])
    && (forall s :: s in nested ==> nested[s] != map[])
  }

  /** The nested form determines the flat one and is determined by it. */
  lemma CurriedBothWays(nested: Nested, other: Nested, flat: map<Pair, Info>, otherFlat: map<Pair, Info>)
    requires Curried(nested, flat) && Curried(other, otherFlat)
    ensures nested == other <==> flat == otherFlat
  {
    if flat == otherFlat {
      forall s ensures s in nested <==> s in other {
        RowFound(s, nested, flat);
        RowFound(s, other, flat);
      }
      forall s | s in nested ensures nested[s] == other[s] {
        SameRow(s, nested, other, flat);
      }
    }
    if nested == other {
      forall p | p in flat ensures p in otherFlat && flat[p] == otherFlat[p] {
        assert Pair(p.src, p.dst) == p && nested[p.src][p.dst] == other[p.src][p.dst];
      }
      forall p | p in otherFlat ensures p in flat {
        assert Pair(p.src, p.dst) == p && nested[p.src][p.dst] == other[p.src][p.dst];
      }
    }
  }

  lemma RowFound(s: u32, nested: Nested, flat: map<Pair, Info>)
    requires Curried(nested, flat)
    ensures s in nested <==> exists p :: p in flat && p.src == s
  {
  }

  lemma SameRow(s: u32, nested: Nested, other: Nested, flat: map<Pair, Info>)
    requires Curried(nested, flat) && Curried(other, flat) && s in nested && s in other
    ensures nested[s] == other[s]
  {
  }

  method Curry(peers: map<Pair, Entry>) returns (nested: Nested)
    ensures Curried(nested, Infos(peers))
  {
    nested := map[];
    ghost var m := Infos(peers);
    var rest := peers.Keys;
    while rest != {}
      invariant rest <= m.Keys && Curried(nested, m - rest)
      decreases rest
    {
      var p :| p in rest;
      var row: map<u32, Info> := if p.src in nested then nested[p.src] else map[];
      nested := nested[p.src := row[p.dst := peers[p].info]];
      rest := rest - {p};
    }
    assert m - {} == m;
  }

  // ----- Reports and ageing -----

  /** A report replaces the reporter's entries for the peers it names, and keeps every other entry. */
  ghost predicate ReportedAt(p: Pair, was: map<Pair, Entry>, peers: map<Pair, Entry>, peer: u32, direct: map<u32, Info>, now: nat) {
    if p.src == peer && p.dst in direct then p in peers && peers[p] == Entry(direct[p.dst], now)
    else (p in peers <==> p in was) && (p in was ==> peers[p] == was[p])
  }

  function GroupOf(groups: map<string, Group>, group: string): Group {
    if group in groups then groups[group] else NEW_GROUP
  }

  /** One report reaches its group. */
  ghost predicate Reported(was: map<string, Group>, groups: map<string, Group>, group: string, peer: u32, direct: map<u32, Info>, now: nat) {
    && group in groups && groups == was[group := groups[group]]
    && groups[group].reports == GroupOf(was, group).reports[peer := now]
    && forall p :: ReportedAt(p, GroupOf(was, group).peers, groups[group].peers, peer, direct, now)
  }

  /** A peer leaves its group, in both directions, and a group that holds nothing else goes with it. */
  ghost predicate Removed(was: map<string, Group>, groups: map<string, Group>, group: string, peer: u32) {
    if group !in was then groups == was
    else
      var peers := map p | p in was[group].peers && p.src != peer && p.dst != peer :: was[group].peers[p];
      var reports := was[group].reports - {peer};
      if peers == map[] && reports == map[] then groups == was - {group}
      else group in groups && groups == was[group := Group(peers, reports, groups[group].digest)]
  }

  method MergeReport(was: map<Pair, Entry>, peer: u32, direct: map<u32, Info>, now: nat) returns (peers: map<Pair, Entry>)
    ensures forall p :: ReportedAt(p, was, peers, peer, direct, now)
  {
    peers := was;
    var rest := direct.Keys;
    while rest != {}
      invariant rest <= direct.Keys && forall p :: ReportedAt(p, was, peers, peer, direct - rest, now)
      decreases rest
    {
      var dst :| dst in rest;
      ghost var before := peers;
      peers := peers[Pair(peer, dst) := Entry(direct[dst], now)];
      forall p ensures ReportedAt(p, was, peers, peer, direct - (rest - {dst}), now) {
        assert ReportedAt(p, was, before, peer, direct - rest, now);
      }
      rest := rest - {dst};
    }
    assert direct - {} == direct;
  }

  /** Younger than the time to live. */
  ghost predicate Young(at: nat, now: nat, ttlMs: nat) {
    0 < ttlMs && now < at + ttlMs
  }

  /** Every entry and every report stays exactly if it is young. */
  ghost predicate AgedTo(g: Group, was: Group, now: nat, ttlMs: nat) {
    && (forall p :: p in g.peers <==> p in was.peers && Young(was.peers[p].updatedAt, now, ttlMs))
    && (forall p :: p in g.peers ==> g.peers[p] == was.peers[p])
    && (forall r :: r in g.reports <==> r in was.reports && Young(was.reports[r], now, ttlMs))
    && (forall r :: r in g.reports ==> g.reports[r] == was.reports[r])
  }

  ghost predicate AllOld(g: Group, now: nat, ttlMs: nat) {
    && (forall p :: p in g.peers ==> !Young(g.peers[p].updatedAt, now, ttlMs))
    && (forall r :: r in g.reports ==> !Young(g.reports[r], now, ttlMs))
  }

  /** n after the groups outside `rest` were cleaned: dropped if everything in it is old, else aged and digested anew. */
  ghost predicate CleanedAt(n: string, was: map<string, Group>, groups: map<string, Group>, rest: set<string>, hash: Hash, now: nat, ttlMs: nat) {
    if n !in was || n in rest || AllOld(was[n], now, ttlMs) then n !in groups
    else n in groups && AgedTo(groups[n], was[n], now, ttlMs) && DigestOf(hash, groups[n].digest, Infos(groups[n].peers))
  }

  ghost predicate Cleaned(was: map<string, Group>, groups: map<string, Group>, hash: Hash, now: nat, ttlMs: nat) {
    forall n :: CleanedAt(n, was, groups, {}, hash, now, ttlMs)
  }

  lemma AgedIsEmpty(g: Group, was: Group, now: nat, ttlMs: nat)
    requires AgedTo(g, was, now, ttlMs)
    ensures g.peers == map[] && g.reports == map[] <==> AllOld(was, now, ttlMs)
  {
  }

  method Aged(was: Group, now: nat, ttlMs: nat) returns (g: Group)
    ensures AgedTo(g, was, now, ttlMs)
  {
    g := was;
    g := g.(reports := map r | r in g.reports && SaturatingSub(now, g.reports[r]) < ttlMs :: g.reports[r]);
    g := g.(peers := map p | p in g.peers && SaturatingSub(now, g.peers[p].updatedAt) < ttlMs :: g.peers[p]);
  }

  // ----- The groups -----

  /** The digest of a group is that of its entries, or 0 for a group that never had any. */
  ghost predicate Digested(hash: Hash, g: Group) {
    DigestOf(hash, g.digest, Infos(g.peers)) || g == NEW_GROUP
  }

  datatype Answer = UpToDate | Full(nested: Nested, digest: nat)

  class PeerCenter {
    const hash: Hash
    var groups: map<string, Group>

    ghost predicate Valid()
      reads this
    {
      forall n :: n in groups ==> Digested(hash, groups[n])
    }

    constructor (hash: Hash)
      ensures Valid() && groups == map[]
    {
      this.hash := hash;
      groups := map[];
    }

    /** A peer reports its direct neighbours; a report for somebody else is refused. */
    method ReportPeers(group: string, peer: u32, claimed: u32, direct: map<u32, Info>, now: nat) returns (ok: bool)
      requires Valid()
      modifies this`groups
      ensures Valid() && ok == (peer == claimed)
      ensures if ok then Reported(old(groups), groups, group, peer, direct, now) else groups == old(groups)
    {
      if claimed != peer {
        return false;
      }
      var g := if group in groups then groups[group] else NEW_GROUP;
      var peers := MergeReport(g.peers, peer, direct, now);
      var digest := CalcDigest(hash, peers);
      groups := groups[group := Group(peers, g.reports[peer := now], digest)];
      return true;
    }

    /** Everything about the peer goes; an empty group goes with it. */
    method RemovePeer(group: string, peer: u32)
      requires Valid()
      modifies this`groups
      ensures Valid() && Removed(old(groups), groups, group, peer)
    {
      if group !in groups {
        return;
      }
      var g := groups[group];
      var peers := map p | p in g.peers && p.src != peer && p.dst != peer :: g.peers[p];
      var reports := g.reports - {peer};
      var digest := CalcDigest(hash, peers);
      if peers == map[] && reports == map[] {
        groups := groups - {group};
      } else {
        groups := groups[group := Group(peers, reports, digest)];
      }
    }

    /** A client that names the current digest is up to date; any other gets the whole map. */
    method GetGlobalPeerMap(group: string, digest: nat) returns (answer: Answer)
      requires Valid()
      modifies this`groups
      ensures Valid() && group in groups
      ensures groups == old(groups)[group := GroupOf(old(groups), group)]
      ensures match answer
        case UpToDate => digest != 0 && DigestOf(hash, digest, Infos(groups[group].peers))
        case Full(nested, d) => (digest == 0 || digest != groups[group].digest) && d == groups[group].digest && Curried(nested, Infos(groups[group].peers))
    {
      if group !in groups {
        groups := groups[group := NEW_GROUP];
      }
      var g := groups[group];
      if digest == g.digest && digest != 0 {
        return UpToDate;
      }
      var nested := Curry(g.peers);
      return Full(nested, g.digest);
    }

    /** Old entries are dropped from every group, and empty groups with them. */
    method CleanOutdated(now: nat, ttlMs: nat)
      requires Valid()
      modifies this`groups
      ensures Valid() && Cleaned(old(groups), groups, hash, now, ttlMs)
    {
      var kept: map<string, Group> := map[];
      var was, rest := groups, groups.Keys;
      while rest != {}
        invariant rest <= was.Keys && forall n :: CleanedAt(n, was, kept, rest, hash, now, ttlMs)
        decreases rest
      {
        var n :| n in rest;
        var g := Aged(was[n], now, ttlMs);
        var digest := CalcDigest(hash, g.peers);
        AgedIsEmpty(g, was[n], now, ttlMs);
        ghost var before := kept;
        if g.peers != map[] || g.reports != map[] {
          kept := kept[n := g.(digest := digest)];
        }
        forall m ensures CleanedAt(m, was, kept, rest - {n}, hash, now, ttlMs) {
          assert CleanedAt(m, was, before, rest, hash, now, ttlMs);
        }
        rest := rest - {n};
      }
      forall n ensures CleanedAt(n, was, kept, {}, hash, now, ttlMs) && (n in kept ==> Digested(hash, kept[n])) {
        assert CleanedAt(n, was, kept, rest, hash, now, ttlMs);
      }
      groups := kept;
    }
  }
}
