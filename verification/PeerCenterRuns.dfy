/** Whole runs of the peer centre: what it knows, told from the reports, departures and clean-ups. */
module PeerCenterRuns {
  import opened Common
  import opened PeerCenter

  type Groups = map<string, Group>

  datatype Event =
    | Report(group: string, peer: u32, claimed: u32, direct: map<u32, Info>, now: nat)
    | Remove(group: string, peer: u32)
    | Ask(group: string)
    | Clean(now: nat, ttlMs: nat)

  /** What the method of the event promises of the groups. */
  ghost predicate Moves(was: Groups, e: Event, groups: Groups, hash: Hash) {
    match e
    case Report(group, peer, claimed, direct, now) =>
      if peer == claimed then Reported(was, groups, group, peer, direct, now) else groups == was
    case Remove(group, peer) => Removed(was, groups, group, peer)
    case Ask(group) => groups == was[group := GroupOf(was, group)]
    case Clean(now, ttlMs) => Cleaned(was, groups, hash, now, ttlMs)
  }

  ghost predicate MovesAt(gs: seq<Groups>, events: seq<Event>, hash: Hash, i: nat)
    requires i < |events| < |gs|
  {
    Moves(gs[i], events[i], gs[i + 1], hash)
  }

  ghost predicate IsRun(gs: seq<Groups>, events: seq<Event>, hash: Hash) {
    |gs| == |events| + 1 && gs[0] == map[] && forall i :: 0 <= i < |events| ==> MovesAt(gs, events, hash, i)
  }

  /** What the first n events say about p: the last report that names it, unless an end has left or it was found old since. */
  ghost function LastReport(events: seq<Event>, n: nat, group: string, p: Pair): Option<Entry> {
    if n == 0 || n > |events| then None
    else
      var before := LastReport(events, n - 1, group, p);
      match events[n - 1]
      case Report(g, peer, claimed, direct, now) =>
        if g == group && peer == claimed && p.src == peer && p.dst in direct then Some(Entry(direct[p.dst], now)) else before
      case Remove(g, peer) => if g == group && (p.src == peer || p.dst == peer) then None else before
      case Ask(_) => before
      case Clean(now, ttlMs) => if before.Some? && (ttlMs == 0 || now >= before.value.updatedAt + ttlMs) then None else before
  }

  /** The same for the reporters: when each has last reported. */
  ghost function LastHeard(events: seq<Event>, n: nat, group: string, peer: u32): Option<nat> {
    if n == 0 || n > |events| then None
    else
      var before := LastHeard(events, n - 1, group, peer);
      match events[n - 1]
      case Report(g, src, claimed, _, now) => if g == group && src == claimed == peer then Some(now) else before
      case Remove(g, gone) => if g == group && gone == peer then None else before
      case Ask(_) => before
      case Clean(now, ttlMs) => if before.Some? && (ttlMs == 0 || now >= before.value + ttlMs) then None else before
  }

  function Find<K, V>(m: map<K, V>, k: K): Option<V> {
    if k in m then Some(m[k]) else None
  }

  ghost predicate EntryKnown(gs: Groups, events: seq<Event>, n: nat, group: string, p: Pair) {
    Find(GroupOf(gs, group).peers, p) == LastReport(events, n, group, p)
  }

  ghost predicate ReporterKnown(gs: Groups, events: seq<Event>, n: nat, group: string, peer: u32) {
    Find(GroupOf(gs, group).reports, peer) == LastHeard(events, n, group, peer)
  }

  lemma CleanKeeps(was: Groups, groups: Groups, hash: Hash, now: nat, ttlMs: nat, group: string, p: Pair)
    requires Cleaned(was, groups, hash, now, ttlMs)
    ensures var e := Find(GroupOf(was, group).peers, p);
      Find(GroupOf(groups, group).peers, p) == if e.Some? && Young(e.value.updatedAt, now, ttlMs) then e else None
  {
    assert CleanedAt(group, was, groups, {}, hash, now, ttlMs);
  }

  lemma CleanKeepsReporter(was: Groups, groups: Groups, hash: Hash, now: nat, ttlMs: nat, group: string, peer: u32)
    requires Cleaned(was, groups, hash, now, ttlMs)
    ensures var at := Find(GroupOf(was, group).reports, peer);
      Find(GroupOf(groups, group).reports, peer) == if at.Some? && Young(at.value, now, ttlMs) then at else None
  {
    assert CleanedAt(group, was, groups, {}, hash, now, ttlMs);
  }

  lemma EventKeepsEntry(gs: seq<Groups>, events: seq<Event>, hash: Hash, i: nat, group: string, p: Pair)
    requires i < |events| < |gs| && MovesAt(gs, events, hash, i) && EntryKnown(gs[i], events, i, group, p)
    ensures EntryKnown(gs[i + 1], events, i + 1, group, p)
  {
    var was, now, e := gs[i], gs[i + 1], events[i];
    match e
    case Report(g, peer, claimed, direct, at) =>
      if peer == claimed && g == group {
        assert ReportedAt(p, GroupOf(was, g).peers, now[g].peers, peer, direct, at);
      }
    case Clean(at, ttlMs) => CleanKeeps(was, now, hash, at, ttlMs, group, p);
    case _ =>
  }

  /**
   In every run the map of a group holds, for each pair, exactly what the source of the pair last
   reported about it and when, unless one of the two has left or the report was found old since.
   */
  lemma {:induction false} MapIsLastReports(gs: seq<Groups>, events: seq<Event>, hash: Hash, n: nat, group: string, p: Pair)
    requires IsRun(gs, events, hash) && n <= |events|
    ensures EntryKnown(gs[n], events, n, group, p)
  {
    if n > 0 {
      MapIsLastReports(gs, events, hash, n - 1, group, p);
      assert MovesAt(gs, events, hash, n - 1);
      EventKeepsEntry(gs, events, hash, n - 1, group, p);
    }
  }

  lemma EventKeepsReporter(gs: seq<Groups>, events: seq<Event>, hash: Hash, i: nat, group: string, peer: u32)
    requires i < |events| < |gs| && MovesAt(gs, events, hash, i) && ReporterKnown(gs[i], events, i, group, peer)
    ensures ReporterKnown(gs[i + 1], events, i + 1, group, peer)
  {
    var was, now, e := gs[i], gs[i + 1], events[i];
    if e.Clean? {
      CleanKeepsReporter(was, now, hash, e.now, e.ttlMs, group, peer);
    }
  }

  /** In every run the reporters of a group are exactly those that have reported and neither left nor been found old since. */
  lemma {:induction false} ReportersAreWhoReported(gs: seq<Groups>, events: seq<Event>, hash: Hash, n: nat, group: string, peer: u32)
    requires IsRun(gs, events, hash) && n <= |events|
    ensures ReporterKnown(gs[n], events, n, group, peer)
  {
    if n > 0 {
      ReportersAreWhoReported(gs, events, hash, n - 1, group, peer);
      assert MovesAt(gs, events, hash, n - 1);
      EventKeepsReporter(gs, events, hash, n - 1, group, peer);
    }
  }

  /** A client was handed the whole map of an earlier group with digest d, and is now told that d is up to date. */
  predicate ToldUpToDate(d: nat, earlier: Group, g: Group) {
    d != 0 && d == earlier.digest && d == g.digest
  }

  /** Then, where the hash does not collide, what it holds is the map as it is. */
  lemma UpToDateMeansCurrent(hash: Hash, d: nat, earlier: Group, g: Group)
    requires Digested(hash, earlier) && Digested(hash, g) && ToldUpToDate(d, earlier, g)
    requires forall items, others :: Lists(items, Infos(earlier.peers)) && Lists(others, Infos(g.peers)) && hash(items) == hash(others) ==> items == others
    ensures Infos(earlier.peers) == Infos(g.peers)
  {
    EqualDigestsMeanEqualMaps(hash, d, Infos(earlier.peers), Infos(g.peers));
  }
}
