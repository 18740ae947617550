/**
 Route synchronisation per peer: the in-flight / dirty / forceFull marks on one side, the
 table of outstanding transactions on the other.

 Every method keeps the two in step, except for the peers in `failing`: those whose last
 update could not be sent and whose connection the caller is about to close.
 */
module RouteSync {
  import opened Common

  const ROUTE_SYNC_TIMEOUT_MS: nat := 3_000
  const ROUTE_RPC_TIMEOUT_MS: nat := 3_000
  const ROUTE_MAINTENANCE_INTERVAL_MS: nat := 10_000
  const ID_DRAWS: nat := 16

  datatype PeerKey = PeerKey(network: string, peerId: u32)

  datatype TxKey = TxKey(peer: PeerKey, transactionId: int)

  datatype SyncState = SyncState(inFlight: bool, dirty: bool, forceFull: bool, sentAt: nat, lastCompletedAt: nat)

  const NEW_STATE := SyncState(false, false, false, 0, 0)

  /** An acknowledged update: its build, when the reply came, and when it was due. */
  datatype Commit = Commit(build: nat, at: nat, deadlineMs: nat)

  /**
   What was asked for a peer and what has been built: `asked` counts the change requests,
   `askedFull` is the last one that demanded a full update; `covered` and `coveredFull` are
   the counts that the last update, and the last full update, were built at.
   */
  datatype Demand = Demand(asked: nat, askedFull: nat, covered: nat, coveredFull: nat)

  const NO_DEMAND := Demand(0, 0, 0, 0)

  function Asked(d: Demand, full: bool): Demand {
    d.(asked := d.asked + 1, askedFull := if full then d.asked + 1 else d.askedFull)
  }

  /** An update built now covers everything asked so far. */
  function Covered(d: Demand, full: bool): Demand {
    d.(covered := d.asked, coveredFull := if full then d.asked else d.coveredFull)
  }

  function StateOf(states: map<PeerKey, SyncState>, p: PeerKey): SyncState {
    if p in states then states[p] else NEW_STATE
  }

  function DemandOf(demands: map<PeerKey, Demand>, p: PeerKey): Demand {
    if p in demands then demands[p] else NO_DEMAND
  }

  function AskedOf(demands: map<PeerKey, Demand>, p: PeerKey): nat {
    if p in demands then demands[p].asked else 0
  }

  /** The reply of a peer, as the transaction table sees it. */
  datatype Reply = Partial | Accepted | Rejected

  datatype RequestResult = Pending | Handled | Route | RouteSession

  // ----- What the environment decides -----

  type Draws = s: seq<nat> | |s| == ID_DRAWS witness seq(ID_DRAWS, _ => 1)

  /** One attempt to send an update: whether it can be encoded, the transaction ids drawn for it, and whether the transport takes it. */
  datatype Luck = Luck(encodes: bool, draws: Draws, sends: bool)

  ghost predicate Fresh(id: nat, p: PeerKey, live: map<TxKey, nat>) {
    id != 0 && TxKey(p, id) !in live
  }

  ghost predicate Finds(draws: seq<nat>, p: PeerKey, live: map<TxKey, nat>) {
    exists i :: 0 <= i < |draws| && Fresh(draws[i], p, live)
  }

  ghost predicate Builds(l: Luck, p: PeerKey, live: map<TxKey, nat>) {
    l.encodes && Finds(l.draws, p, live)
  }

  ghost predicate Goes(l: Luck, p: PeerKey, live: map<TxKey, nat>) {
    Builds(l, p, live) && l.sends
  }

  /** Who an attempt was for, and which transactions were on their way. */
  datatype Trial = Trial(peer: PeerKey, live: map<TxKey, nat>)

  /** An attempt for p, not before the given one, did not go. */
  ghost predicate Refused(p: PeerKey, luck: nat -> Luck, trials: seq<Trial>, since: nat) {
    exists i :: since <= i < |trials| && trials[i].peer == p && !Goes(luck(i), p, trials[i].live)
  }

  ghost predicate BlamedAt(p: PeerKey, failed: set<PeerKey>, luck: nat -> Luck, trials: seq<Trial>) {
    p in failed ==> Refused(p, luck, trials, 0)
  }

  ghost predicate AllBlamed(failed: set<PeerKey>, luck: nat -> Luck, trials: seq<Trial>) {
    forall p :: BlamedAt(p, failed, luck, trials)
  }

  lemma RefusedStill(p: PeerKey, luck: nat -> Luck, trials: seq<Trial>, more: seq<Trial>, since: nat, earlier: nat)
    requires Refused(p, luck, trials, since) && trials <= more && earlier <= since
    ensures Refused(p, luck, more, earlier)
  {
    var i :| since <= i < |trials| && trials[i].peer == p && !Goes(luck(i), p, trials[i].live);
    assert more[i] == trials[i];
  }

  /** One more attempt: whom it fails for may be blamed. */
  lemma OneMoreTrial(p: PeerKey, live: map<TxKey, nat>, failed: set<PeerKey>, luck: nat -> Luck, trials: seq<Trial>)
    requires AllBlamed(failed, luck, trials)
    ensures AllBlamed(failed, luck, trials + [Trial(p, live)])
    ensures !Goes(luck(|trials|), p, live) ==>
      Refused(p, luck, trials + [Trial(p, live)], |trials|) && AllBlamed(failed + {p}, luck, trials + [Trial(p, live)])
  {
    var more := trials + [Trial(p, live)];
    assert more[|trials|] == Trial(p, live);
    forall q ensures BlamedAt(q, failed, luck, more) {
      assert BlamedAt(q, failed, luck, trials);
      if q in failed {
        RefusedStill(q, luck, trials, more, 0, 0);
      }
    }
    if !Goes(luck(|trials|), p, live) {
      RefusedStill(p, luck, more, more, |trials|, 0);
      forall q ensures BlamedAt(q, failed + {p}, luck, more) {
        assert BlamedAt(q, failed, luck, more);
      }
    }
  }

  lemma FewerBlamed(fewer: set<PeerKey>, failed: set<PeerKey>, luck: nat -> Luck, trials: seq<Trial>)
    requires AllBlamed(failed, luck, trials) && fewer <= failed
    ensures AllBlamed(fewer, luck, trials)
  {
    forall q ensures BlamedAt(q, fewer, luck, trials) {
      assert BlamedAt(q, failed, luck, trials);
    }
  }

  datatype Outcome = NotTried | NotBuilt | NotSent | Went {
    predicate Fine() {
      NotTried? || Went?
    }
  }

  /** What a flush comes to: nothing is tried unless something is marked and nothing is in flight. */
  ghost function OutcomeOf(s: SyncState, l: Luck, p: PeerKey, live: map<TxKey, nat>): Outcome {
    if s.inFlight || (!s.dirty && !s.forceFull) then NotTried
    else if !Builds(l, p, live) then NotBuilt
    else if l.sends then Went
    else NotSent
  }

  ghost function LiveAt(outstanding: map<TxKey, nat>, now: nat): map<TxKey, nat> {
    map t | t in outstanding && now <= outstanding[t] :: outstanding[t]
  }

  /** The first draw that is fresh becomes the id of the update, which is due three seconds later. */
  ghost predicate Registered(outstanding: map<TxKey, nat>, live: map<TxKey, nat>, p: PeerKey, draws: seq<nat>, now: nat) {
    exists i ::
      && 0 <= i < |draws| && Fresh(draws[i], p, live) && (forall j :: 0 <= j < i ==> !Fresh(draws[j], p, live))
      && outstanding == live[TxKey(p, draws[i]) := now + ROUTE_RPC_TIMEOUT_MS]
  }

  /** What a flush leaves of the transactions: an attempt drops what is overdue, and registers its own if it was built. */
  ghost predicate Recorded(o: Outcome, was: map<TxKey, nat>, outstanding: map<TxKey, nat>, p: PeerKey, draws: seq<nat>, now: nat) {
    match o
    case NotTried => outstanding == was
    case NotBuilt => outstanding == LiveAt(was, now)
    case _ => Registered(outstanding, LiveAt(was, now), p, draws, now)
  }

  // ----- The invariants -----

  /** Whatever is not marked has been covered by an update built since it was asked. */
  predicate Honest(s: SyncState, d: Demand) {
    && d.covered <= d.asked && d.coveredFull <= d.asked && d.askedFull <= d.asked
    && (!s.dirty ==> d.covered == d.asked)
    && (!s.forceFull ==> d.askedFull <= d.coveredFull)
  }

  /** Nothing asked for is lost: it is covered, or marked behind an update in flight. */
  predicate Settled(s: SyncState, d: Demand) {
    Honest(s, d) && (s.dirty || s.forceFull ==> s.inFlight)
  }

  /** p is settled, or failing. */
  predicate SettledAt(p: PeerKey, states: map<PeerKey, SyncState>, demands: map<PeerKey, Demand>, failing: set<PeerKey>) {
    p in states ==> p in demands && (p in failing || Settled(states[p], demands[p]))
  }

  ghost predicate AllSettled(states: map<PeerKey, SyncState>, demands: map<PeerKey, Demand>, failing: set<PeerKey>) {
    demands.Keys == states.Keys && forall p :: SettledAt(p, states, demands, failing)
  }

  /** A peer that a call has failed for is failing, as long as it stays bound. */
  predicate KnownAt(p: PeerKey, failed: set<PeerKey>, bound: set<PeerKey>, failing: set<PeerKey>) {
    p in failed && p in bound ==> p in failing
  }

  ghost predicate AllKnown(failed: set<PeerKey>, bound: set<PeerKey>, failing: set<PeerKey>) {
    forall p :: KnownAt(p, failed, bound, failing)
  }

  /** An outstanding transaction is the one in flight, with the same deadline. */
  predicate Tracked(t: TxKey, states: map<PeerKey, SyncState>, outstanding: map<TxKey, nat>, failing: set<PeerKey>) {
    t in outstanding ==>
      && t.peer in states
      && (t.peer in failing || (states[t.peer].inFlight && outstanding[t] == states[t.peer].sentAt + ROUTE_RPC_TIMEOUT_MS))
  }

  /** A peer has at most one outstanding transaction. */
  predicate Alone(t: TxKey, u: TxKey, outstanding: map<TxKey, nat>, failing: set<PeerKey>) {
    t in outstanding && u in outstanding && t.peer == u.peer && t.peer !in failing ==> t == u
  }

  ghost predicate InStep(states: map<PeerKey, SyncState>, outstanding: map<TxKey, nat>, failing: set<PeerKey>) {
    && (forall t :: Tracked(t, states, outstanding, failing))
    && (forall t, u :: Alone(t, u, outstanding, failing))
  }

  /** An outstanding transaction has a build of its own, not acknowledged so far. */
  ghost predicate Unacknowledged(t: TxKey, outstanding: map<TxKey, nat>, buildOf: map<TxKey, nat>, builds: nat, commits: seq<Commit>) {
    t in outstanding ==>
      && t in buildOf && buildOf[t] < builds
      && (forall i :: 0 <= i < |commits| ==> buildOf[t] != commits[i].build)
      && (forall u :: u in outstanding && u in buildOf && buildOf[u] == buildOf[t] ==> u == t)
  }

  /** No build is acknowledged twice, and none after its deadline. */
  ghost predicate Acknowledged(builds: nat, commits: seq<Commit>) {
    && (forall i :: 0 <= i < |commits| ==> commits[i].build < builds && commits[i].at <= commits[i].deadlineMs)
    && (forall i, j :: 0 <= i < j < |commits| ==> commits[i].build != commits[j].build)
  }

  ghost predicate CommitsSound(outstanding: map<TxKey, nat>, buildOf: map<TxKey, nat>, builds: nat, commits: seq<Commit>) {
    && Acknowledged(builds, commits)
    && forall t :: Unacknowledged(t, outstanding, buildOf, builds, commits)
  }

  // ----- How the table of transactions moves -----

  lemma Overwritten<K, V>(m: map<K, V>, k: K, v: V, w: V)
    ensures m[k := v][k := w] == m[k := w]
    ensures k in m && m[k] == v ==> m[k := v] == m
  {
  }

  ghost predicate Within(fewer: map<TxKey, nat>, all: map<TxKey, nat>) {
    forall t :: t in fewer ==> t in all && fewer[t] == all[t]
  }

  ghost predicate NoneDue(outstanding: map<TxKey, nat>, now: nat) {
    forall t :: t in outstanding ==> now <= outstanding[t]
  }

  ghost predicate NoneFor(outstanding: map<TxKey, nat>, p: PeerKey) {
    forall t :: t in outstanding ==> t.peer != p
  }

  lemma FewerStaysSound(fewer: map<TxKey, nat>, all: map<TxKey, nat>, buildOf: map<TxKey, nat>, builds: nat, commits: seq<Commit>)
    requires Within(fewer, all) && CommitsSound(all, buildOf, builds, commits)
    ensures CommitsSound(fewer, buildOf, builds, commits)
  {
    forall t ensures Unacknowledged(t, fewer, buildOf, builds, commits) {
      assert Unacknowledged(t, all, buildOf, builds, commits);
    }
  }

  lemma FewerStaysInStep(fewer: map<TxKey, nat>, all: map<TxKey, nat>, states: map<PeerKey, SyncState>, failing: set<PeerKey>)
    requires Within(fewer, all) && InStep(states, all, failing)
    ensures InStep(states, fewer, failing)
  {
    forall t ensures Tracked(t, states, fewer, failing) {
      assert Tracked(t, states, all, failing);
    }
    forall t, u ensures Alone(t, u, fewer, failing) {
      assert Alone(t, u, all, failing);
    }
  }

  /** A new build under a fresh transaction id. */
  lemma NewBuildStaysSound(t: TxKey, due: nat, outstanding: map<TxKey, nat>, buildOf: map<TxKey, nat>, builds: nat, commits: seq<Commit>)
    requires CommitsSound(outstanding, buildOf, builds, commits) && t !in outstanding
    ensures CommitsSound(outstanding[t := due], buildOf[t := builds], builds + 1, commits)
  {
    var more, builtAt, next := outstanding[t := due], buildOf[t := builds], builds + 1;
    forall u ensures Unacknowledged(u, more, builtAt, next, commits) {
      assert Unacknowledged(u, outstanding, buildOf, builds, commits);
      assert forall v :: v in outstanding ==> Unacknowledged(v, outstanding, buildOf, builds, commits);
    }
  }

  /** A reply in time moves its build from the outstanding ones to the acknowledged ones. */
  lemma CommitStaysSound(t: TxKey, at: nat, outstanding: map<TxKey, nat>, buildOf: map<TxKey, nat>, builds: nat, commits: seq<Commit>)
    requires CommitsSound(outstanding, buildOf, builds, commits) && t in outstanding && at <= outstanding[t]
    ensures t in buildOf
    ensures CommitsSound(outstanding - {t}, buildOf, builds, commits + [Commit(buildOf[t], at, outstanding[t])])
  {
    assert Unacknowledged(t, outstanding, buildOf, builds, commits);
    forall u ensures Unacknowledged(u, outstanding - {t}, buildOf, builds, commits + [Commit(buildOf[t], at, outstanding[t])]) {
      assert Unacknowledged(u, outstanding, buildOf, builds, commits);
    }
  }

  /** What is sent for a peer with nothing outstanding is its only transaction. */
  lemma SentStaysInStep(t: TxKey, s: SyncState, states: map<PeerKey, SyncState>, outstanding: map<TxKey, nat>, failing: set<PeerKey>)
    requires InStep(states, outstanding, failing) && s.inFlight
    requires NoneFor(outstanding, t.peer) || t.peer in failing
    ensures InStep(states[t.peer := s], outstanding[t := s.sentAt + ROUTE_RPC_TIMEOUT_MS], failing)
  {
    var sent, more := states[t.peer := s], outstanding[t := s.sentAt + ROUTE_RPC_TIMEOUT_MS];
    forall u ensures Tracked(u, sent, more, failing) {
      assert Tracked(u, states, outstanding, failing);
    }
    forall u, v ensures Alone(u, v, more, failing) {
      assert Alone(u, v, outstanding, failing);
    }
  }

  /** A peer with nothing outstanding, or already failing, may change its marks freely. */
  lemma IdleMayChange(p: PeerKey, s: SyncState, states: map<PeerKey, SyncState>, outstanding: map<TxKey, nat>, failing: set<PeerKey>)
    requires InStep(states, outstanding, failing) && (NoneFor(outstanding, p) || p in failing)
    ensures InStep(states[p := s], outstanding, failing)
  {
    var changed := states[p := s];
    forall t ensures Tracked(t, changed, outstanding, failing) {
      assert Tracked(t, states, outstanding, failing);
    }
  }

  /** Marking more to do leaves the transactions alone. */
  lemma MarkStaysInStep(p: PeerKey, s: SyncState, states: map<PeerKey, SyncState>, outstanding: map<TxKey, nat>, failing: set<PeerKey>)
    requires InStep(states, outstanding, failing)
    requires p in states ==> s.inFlight == states[p].inFlight && s.sentAt == states[p].sentAt
    ensures InStep(states[p := s], outstanding, failing)
  {
    var changed := states[p := s];
    forall t ensures Tracked(t, changed, outstanding, failing) {
      assert Tracked(t, states, outstanding, failing);
    }
  }

  /** Without an update in flight nothing is outstanding. */
  lemma IdleHasNone(p: PeerKey, states: map<PeerKey, SyncState>, outstanding: map<TxKey, nat>, failing: set<PeerKey>)
    requires InStep(states, outstanding, failing) && p !in failing && (p in states ==> !states[p].inFlight)
    ensures NoneFor(outstanding, p)
  {
    forall t | t in outstanding ensures t.peer != p {
      assert Tracked(t, states, outstanding, failing);
    }
  }

  /** The completed transaction was the only one. */
  lemma CompletedLeavesNone(t: TxKey, states: map<PeerKey, SyncState>, outstanding: map<TxKey, nat>, failing: set<PeerKey>)
    requires InStep(states, outstanding, failing) && t in outstanding && t.peer !in failing
    ensures NoneFor(outstanding - {t}, t.peer) && t.peer in states
  {
    assert Tracked(t, states, outstanding, failing);
    forall u | u in outstanding - {t} ensures u.peer != t.peer {
      assert Alone(t, u, outstanding, failing);
    }
  }

  lemma SettledAfter(p: PeerKey, s: SyncState, d: Demand, states: map<PeerKey, SyncState>, demands: map<PeerKey, Demand>, failing: set<PeerKey>)
    requires AllSettled(states, demands, failing + {p}) && (Settled(s, d) || p in failing)
    ensures AllSettled(states[p := s], demands[p := d], failing)
  {
    var changed, asked := states[p := s], demands[p := d];
    forall q ensures SettledAt(q, changed, asked, failing) {
      assert SettledAt(q, states, demands, failing + {p});
    }
  }

  lemma KnownAfterFailure(p: PeerKey, failed: set<PeerKey>, bound: set<PeerKey>, failing: set<PeerKey>)
    requires AllKnown(failed, bound, failing)
    ensures AllKnown(failed + {p}, bound, failing + {p}) && AllKnown(failed, bound, failing + {p})
  {
    forall q ensures KnownAt(q, failed + {p}, bound, failing + {p}) && KnownAt(q, failed, bound, failing + {p}) {
      assert KnownAt(q, failed, bound, failing);
    }
  }

  lemma KnownWithout(p: PeerKey, failed: set<PeerKey>, bound: set<PeerKey>, failing: set<PeerKey>)
    requires AllKnown(failed, bound, failing)
    ensures AllKnown(failed, bound - {p}, failing - {p}) && AllKnown(failed, bound - {p}, failing)
    ensures AllKnown(failed - {p}, bound + {p}, failing)
  {
    forall q ensures KnownAt(q, failed, bound - {p}, failing - {p}) && KnownAt(q, failed, bound - {p}, failing)
                     && KnownAt(q, failed - {p}, bound + {p}, failing) {
      assert KnownAt(q, failed, bound, failing);
    }
  }

  /** The marks of a failing peer do not matter. */
  lemma FailingMayMark(p: PeerKey, s: SyncState, states: map<PeerKey, SyncState>, demands: map<PeerKey, Demand>, failing: set<PeerKey>)
    requires AllSettled(states, demands, failing) && p in states && p in failing
    ensures AllSettled(states[p := s], demands, failing)
  {
    assert failing + {p} == failing && demands[p := demands[p]] == demands;
    SettledAfter(p, s, demands[p], states, demands, failing);
  }

  /** One more request, marked: everybody else stays settled, and p's marks stay honest. */
  lemma AskedStaysHonest(p: PeerKey, s: SyncState, d: Demand, full: bool, states: map<PeerKey, SyncState>, demands: map<PeerKey, Demand>,
                         failing: set<PeerKey>)
    requires AllSettled(states, demands, failing) && s.dirty && (full ==> s.forceFull)
    requires d == Asked(if p in demands then demands[p] else NO_DEMAND, full)
    requires p in states && states[p].forceFull ==> s.forceFull
    ensures AllSettled(states[p := s], demands[p := d], failing + {p}) && (Honest(s, d) || p in failing)
  {
    assert SettledAt(p, states, demands, failing);
    Excused(p, states, map[], demands, failing);
    assert failing + {p} + {p} == failing + {p};
    SettledAfter(p, s, d, states, demands, failing + {p});
  }

  /** A peer whose update failed is set aside. */
  lemma Excused(p: PeerKey, states: map<PeerKey, SyncState>, outstanding: map<TxKey, nat>, demands: map<PeerKey, Demand>,
                failing: set<PeerKey>)
    ensures InStep(states, outstanding, failing) ==> InStep(states, outstanding, failing + {p})
    ensures AllSettled(states, demands, failing) ==> AllSettled(states, demands, failing + {p})
  {
    if InStep(states, outstanding, failing) {
      forall t ensures Tracked(t, states, outstanding, failing + {p}) {
        assert Tracked(t, states, outstanding, failing);
      }
      forall t, u ensures Alone(t, u, outstanding, failing + {p}) {
        assert Alone(t, u, outstanding, failing);
      }
    }
    if AllSettled(states, demands, failing) {
      forall q ensures SettledAt(q, states, demands, failing + {p}) {
        assert SettledAt(q, states, demands, failing);
      }
    }
  }

  /** After a failed send the peer is set aside, whatever its marks become. */
  lemma FailedIsExcused(p: PeerKey, s: SyncState, states: map<PeerKey, SyncState>, outstanding: map<TxKey, nat>,
                        demands: map<PeerKey, Demand>, failing: set<PeerKey>)
    requires InStep(states, outstanding, failing) && AllSettled(states, demands, failing) && p in states
    ensures InStep(states[p := s], outstanding, failing + {p}) && AllSettled(states[p := s], demands, failing + {p})
  {
    Excused(p, states, outstanding, demands, failing);
    IdleMayChange(p, s, states, outstanding, failing + {p});
    FailingMayMark(p, s, states, demands, failing + {p});
  }

  lemma ForgottenPeer(p: PeerKey, states: map<PeerKey, SyncState>, rest: map<TxKey, nat>, outstanding: map<TxKey, nat>,
                      demands: map<PeerKey, Demand>, failing: set<PeerKey>)
    requires InStep(states, outstanding, failing) && AllSettled(states, demands, failing)
    requires Within(rest, outstanding) && NoneFor(rest, p)
    ensures InStep(states - {p}, rest, failing - {p}) && AllSettled(states - {p}, demands - {p}, failing - {p})
  {
    forall t ensures Tracked(t, states - {p}, rest, failing - {p}) {
      assert Tracked(t, states, outstanding, failing);
    }
    forall t, u ensures Alone(t, u, rest, failing - {p}) {
      assert Alone(t, u, outstanding, failing);
    }
    forall q ensures SettledAt(q, states - {p}, demands - {p}, failing - {p}) {
      assert SettledAt(q, states, demands, failing);
    }
  }

  /** The marks once a change has been asked for. */
  ghost function Marked(s: SyncState, full: bool): SyncState {
    s.(dirty := true, forceFull := s.forceFull || full)
  }

  /** The marks once a reply has been accepted. */
  ghost function Completed(s: SyncState, now: nat): SyncState {
    s.(inFlight := false, sentAt := 0, lastCompletedAt := now)
  }

  /** The marks once an update has been sent. */
  ghost function Sent(s: SyncState, now: nat): SyncState {
    s.(inFlight := true, dirty := false, forceFull := false, sentAt := now)
  }

  /** The marks when an update could not be built. */
  ghost function Unbuilt(s: SyncState): SyncState {
    s.(dirty := false, forceFull := false)
  }

  /** The marks when a built update could not be sent. */
  ghost function Unsent(s: SyncState, now: nat): SyncState {
    s.(inFlight := false, dirty := true, sentAt := now)
  }

  ghost predicate Idle(s: SyncState, now: nat) {
    !s.inFlight && now >= s.lastCompletedAt + ROUTE_MAINTENANCE_INTERVAL_MS
  }

  /** What a flush does to one peer: what was marked is on its way and covered, unless it could not be built or not be sent. */
  ghost predicate Flushed(o: Outcome, s: SyncState, d: Demand, s': SyncState, d': Demand, now: nat) {
    match o
    case NotTried => s' == s && d' == d
    case NotBuilt => s' == Unbuilt(s) && d' == d
    case NotSent => s' == Unsent(s, now) && d' == Covered(d, s.forceFull)
    case Went => s' == Sent(s, now) && d' == Covered(d, s.forceFull)
  }

  ghost predicate TimedOut(s: SyncState, now: nat) {
    s.inFlight && now > s.sentAt + ROUTE_SYNC_TIMEOUT_MS
  }

  /** A retry is a new request for a full update, and is on its way. */
  ghost predicate Retried(d: Demand, s': SyncState, d': Demand, now: nat) {
    s'.inFlight && s'.sentAt == now && d'.asked == d.asked + 1 && d'.covered == d'.coveredFull == d'.asked
  }

  /** p after a sweep of all peers but `rest`: retried if it had timed out, or refused by an attempt of the sweep; otherwise untouched. */
  ghost predicate SweptAt(p: PeerKey, rest: set<PeerKey>, failures: set<PeerKey>, states: map<PeerKey, SyncState>, demands: map<PeerKey, Demand>,
                          states': map<PeerKey, SyncState>, demands': map<PeerKey, Demand>, luck: nat -> Luck, trials: seq<Trial>, since: nat, now: nat)
  {
    p in states && p in demands ==>
      && p in states' && p in demands'
      && if TimedOut(states[p], now) && p !in rest then
           && demands'[p].asked == demands[p].asked + 1
           && if p in failures then Refused(p, luck, trials, since) else Retried(demands[p], states'[p], demands'[p], now)
         else
           p !in failures && states'[p] == states[p] && demands'[p] == demands[p]
  }

  /** The tables of a sweep, and the attempts made so far. */
  datatype SyncTables = SyncTables(states: map<PeerKey, SyncState>, demands: map<PeerKey, Demand>, trials: seq<Trial>)

  ghost predicate Swept(first: SyncTables, rest: set<PeerKey>, failures: set<PeerKey>, last: SyncTables, luck: nat -> Luck, now: nat) {
    && first.trials <= last.trials
    && forall p :: SweptAt(p, rest, failures, first.states, first.demands, last.states, last.demands, luck, last.trials, |first.trials|, now)
  }

  lemma SweptFurther(p: PeerKey, rest: set<PeerKey>, failures: set<PeerKey>, failures': set<PeerKey>,
                     first: SyncTables, last: SyncTables, last': SyncTables, luck: nat -> Luck, now: nat)
    requires p in rest && Swept(first, rest, failures, last, luck, now) && last.trials <= last'.trials
    requires p in last'.states && p in last'.demands
    requires last'.states == last.states[p := last'.states[p]] && last'.demands == last.demands[p := last'.demands[p]]
    requires failures' == failures || failures' == failures + {p}
    requires SweptAt(p, rest - {p}, failures', first.states, first.demands, last'.states, last'.demands, luck, last'.trials, |first.trials|, now)
    ensures Swept(first, rest - {p}, failures', last', luck, now)
  {
    forall q ensures SweptAt(q, rest - {p}, failures', first.states, first.demands, last'.states, last'.demands, luck, last'.trials, |first.trials|, now) {
      assert SweptAt(q, rest, failures, first.states, first.demands, last.states, last.demands, luck, last.trials, |first.trials|, now);
      if q != p && q in failures && Refused(q, luck, last.trials, |first.trials|) {
        RefusedStill(q, luck, last.trials, last'.trials, |first.trials|, |first.trials|);
      }
    }
  }

  /** When an update has timed out, so has its transaction. */
  lemma OverdueHasNone(p: PeerKey, states: map<PeerKey, SyncState>, outstanding: map<TxKey, nat>, now: nat, failing: set<PeerKey>)
    requires InStep(states, outstanding, failing) && NoneDue(outstanding, now)
    requires p in states && p !in failing && TimedOut(states[p], now)
    ensures NoneFor(outstanding, p)
  {
    forall t | t in outstanding ensures t.peer != p {
      assert Tracked(t, states, outstanding, failing);
    }
  }

  /** At rest nothing is pending: with no update in flight every request is covered and nothing is outstanding. */
  lemma AtRestAllIsCovered(p: PeerKey, states: map<PeerKey, SyncState>, outstanding: map<TxKey, nat>, demands: map<PeerKey, Demand>,
                           failing: set<PeerKey>)
    requires InStep(states, outstanding, failing) && AllSettled(states, demands, failing)
    requires p in states && p !in failing && !states[p].inFlight
    ensures demands[p].covered == demands[p].asked && demands[p].askedFull <= demands[p].coveredFull && NoneFor(outstanding, p)
  {
    assert SettledAt(p, states, demands, failing);
    IdleHasNone(p, states, outstanding, failing);
  }

  /** A failing peer that is gone need no longer be set aside. */
  lemma GoneNeedNoExcuse(gone: set<PeerKey>, states: map<PeerKey, SyncState>, outstanding: map<TxKey, nat>, demands: map<PeerKey, Demand>,
                         failed: set<PeerKey>, bound: set<PeerKey>, failing: set<PeerKey>)
    requires InStep(states, outstanding, failing) && AllSettled(states, demands, failing) && AllKnown(failed, bound, failing)
    requires states.Keys <= bound && gone !! bound
    ensures InStep(states, outstanding, failing - gone) && AllSettled(states, demands, failing - gone)
    ensures AllKnown(failed, bound, failing - gone)
  {
    forall q ensures KnownAt(q, failed, bound, failing - gone) {
      assert KnownAt(q, failed, bound, failing);
    }
    forall t ensures Tracked(t, states, outstanding, failing - gone) {
      assert Tracked(t, states, outstanding, failing);
    }
    forall t, u ensures Alone(t, u, outstanding, failing - gone) {
      assert Alone(t, u, outstanding, failing);
      assert Tracked(t, states, outstanding, failing);
    }
    forall q ensures SettledAt(q, states, demands, failing - gone) {
      assert SettledAt(q, states, demands, failing);
    }
  }

  class EasyTierRpc {
    const luck: nat -> Luck  // what the environment decides for each attempt to send an update
    var attempts: nat
    var bound: map<PeerKey, Key32>  // the routing core's peers, with their authenticated keys
    var states: map<PeerKey, SyncState>
    var outstanding: map<TxKey, nat>  // the deadline of each update on its way
    ghost var clock: nat
    ghost var builds: nat  // updates built so far
    ghost var buildOf: map<TxKey, nat>  // which build a transaction came from
    ghost var demands: map<PeerKey, Demand>
    ghost var commits: seq<Commit>
    ghost var failed: set<PeerKey>  // the peers that an update could not be sent to since they were added
    ghost var trials: seq<Trial>  // the attempts so far

    ghost predicate Valid(failing: set<PeerKey>)
      reads this
    {
      && states.Keys <= bound.Keys
      && AllSettled(states, demands, failing)
      && InStep(states, outstanding, failing)
      && CommitsSound(outstanding, buildOf, builds, commits)
      && AllKnown(failed, bound.Keys, failing)
      && Accounted()
    }

    /** Nobody is failed without an attempt that the environment refused. */
    ghost predicate Accounted()
      reads this
    {
      attempts == |trials| && AllBlamed(failed, luck, trials)
    }

    constructor (luck: nat -> Luck)
      ensures Valid({}) && bound == map[] && clock == 0 && this.luck == luck
    {
      this.luck := luck;
      attempts, trials, failed := 0, [], {};
      bound, states, outstanding := map[], map[], map[];
      clock, builds, buildOf, demands, commits := 0, 0, map[], map[], [];
    }

    /** A peer that is bound to another key is refused, and so is a key of the wrong length. */
    method AddPeer(p: PeerKey, key: Key32, ghost failing: set<PeerKey>) returns (ok: bool)
      requires Valid(failing)
      modifies this
      ensures ok == (|key| == 32 && (p in old(bound) ==> old(bound)[p] == key))
      ensures bound == if ok then old(bound)[p := key] else old(bound)
      ensures p !in old(states) ==> Valid(failing)
      ensures states == (if ok then old(states) - {p} else old(states)) && demands == (if ok then old(demands) - {p} else old(demands))
      ensures outstanding == old(outstanding) && trials == old(trials)
      ensures clock == old(clock) && commits == old(commits) && failed == if ok then old(failed) - {p} else old(failed)
    {
      if |key| != 32 || (p in bound && bound[p] != key) {
        return false;
      }
      KnownWithout(p, failed, bound.Keys, failing);
      FewerBlamed(failed - {p}, failed, luck, trials);
      bound := bound[p := key];
      assert bound.Keys == old(bound).Keys + {p};
      failed := failed - {p};
      ok := true;
      if p !in states {
        assert states - {p} == states && demands - {p} == demands;
      }
      states := states - {p};
      demands := demands - {p};
    }

    method RemovePeer(p: PeerKey, ghost failing: set<PeerKey>)
      requires Valid(failing)
      modifies this
      ensures Valid(failing - {p}) && Valid(failing)
      ensures bound == old(bound) - {p} && states == old(states) - {p} && demands == old(demands) - {p}
      ensures outstanding == map t | t in old(outstanding) && t.peer != p :: old(outstanding)[t]
      ensures NoneFor(outstanding, p) && clock == old(clock) && commits == old(commits) && failed == old(failed) && trials == old(trials)
    {
      KnownWithout(p, failed, bound.Keys, failing);
      assert (bound - {p}).Keys == bound.Keys - {p};
      var rest := map t | t in outstanding && t.peer != p :: outstanding[t];
      ForgottenPeer(p, states, rest, outstanding, demands, failing);
      bound := bound - {p};
      FewerStaysSound(rest, outstanding, buildOf, builds, commits);
      outstanding := rest;
      states := states - {p};
      demands := demands - {p};
      Excused(p, states, outstanding, demands, failing - {p});
      assert failing - {p} + {p} == failing || failing - {p} == failing;
    }

    /** A failing peer that is gone need not be set aside any more. */
    lemma ForgetFailing(p: PeerKey, failing: set<PeerKey>)
      requires Valid(failing + {p}) && p !in bound
      ensures Valid(failing)
    {
      GoneNeedNoExcuse({p}, states, outstanding, demands, failed, bound.Keys, failing + {p});
      Excused(p, states, outstanding, demands, failing + {p} - {p});
      KnownAfterFailure(p, failed, bound.Keys, failing + {p} - {p});
      assert failing + {p} - {p} == failing || failing + {p} - {p} + {p} == failing;
    }

    /** Whatever is in step is so with one peer set aside. */
    lemma MayFail(p: PeerKey)
      ensures Valid({}) ==> Valid({p})
    {
      if Valid({}) {
        Excused(p, states, outstanding, demands, {});
        KnownAfterFailure(p, failed, bound.Keys, {});
        assert {} + {p} == {p};
      }
    }

    /** Outstanding updates past their deadline are dropped. */
    method CleanOutstanding(now: nat, ghost failing: set<PeerKey>)
      requires InStep(states, outstanding, failing) && CommitsSound(outstanding, buildOf, builds, commits)
      modifies this`outstanding
      ensures InStep(states, outstanding, failing) && CommitsSound(outstanding, buildOf, builds, commits)
      ensures outstanding == LiveAt(old(outstanding), now) && NoneDue(outstanding, now)
    {
      var rest := map t | t in outstanding && now <= outstanding[t] :: outstanding[t];
      FewerStaysSound(rest, outstanding, buildOf, builds, commits);
      FewerStaysInStep(rest, outstanding, states, failing);
      outstanding := rest;
    }

    /** The first of the drawn ids that is neither 0 nor taken. */
    method NextTransactionId(p: PeerKey, draws: Draws) returns (found: Option<nat>)
      ensures match found
        case None => !Finds(draws, p, outstanding)
        case Some(id) => exists i ::
          0 <= i < |draws| && draws[i] == id && Fresh(id, p, outstanding) && forall j :: 0 <= j < i ==> !Fresh(draws[j], p, outstanding)
    {
      for i := 0 to ID_DRAWS
        invariant forall j :: 0 <= j < i ==> !Fresh(draws[j], p, outstanding)
      {
        if draws[i] != 0 && TxKey(p, draws[i]) !in outstanding {
          return Some(draws[i]);
        }
      }
      return None;
    }

    /** Registers a transaction for p; fails when the update cannot be encoded or no fresh id is found. */
    method BuildRouteUpdate(p: PeerKey, forceFull: bool, now: nat, ghost failing: set<PeerKey>) returns (built: Option<TxKey>)
      requires InStep(states, outstanding, failing) && CommitsSound(outstanding, buildOf, builds, commits)
      requires p in states && p in demands
      modifies this`outstanding, this`builds, this`buildOf, this`demands
      ensures CommitsSound(outstanding, buildOf, builds, commits) && InStep(states, LiveAt(old(outstanding), now), failing)
      ensures var live := LiveAt(old(outstanding), now);
        && (built.Some? <==> Builds(luck(attempts), p, live))
        && match built
           case None =>
             demands == old(demands) && outstanding == live && builds == old(builds) && buildOf == old(buildOf)
           case Some(t) =>
             && demands == old(demands)[p := Covered(old(demands)[p], forceFull)]
             && t.peer == p && t !in live && outstanding == live[t := now + ROUTE_RPC_TIMEOUT_MS]
             && Registered(outstanding, live, p, luck(attempts).draws, now)
             && builds == old(builds) + 1 && buildOf == old(buildOf)[t := old(builds)]
    {
      CleanOutstanding(now, failing);
      var attempt := luck(attempts);
      if !attempt.encodes {
        return None;
      }
      var id := NextTransactionId(p, attempt.draws);
      if id.None? {
        return None;
      }
      var t := TxKey(p, id.value);
      NewBuildStaysSound(t, now + ROUTE_RPC_TIMEOUT_MS, outstanding, buildOf, builds, commits);
      outstanding := outstanding[t := now + ROUTE_RPC_TIMEOUT_MS];
      buildOf := buildOf[t := builds];
      builds := builds + 1;
      demands := demands[p := Covered(demands[p], forceFull)];
      return Some(t);
    }

    /** Sends what is marked, unless an update is already in flight. */
    method FlushRouteUpdate(p: PeerKey, now: nat, ghost failing: set<PeerKey>) returns (ok: bool)
      requires p in states && states.Keys <= bound.Keys && clock <= now && Accounted()
      requires InStep(states, outstanding, failing) && CommitsSound(outstanding, buildOf, builds, commits)
      requires AllSettled(states, demands, failing + {p}) && (Honest(states[p], demands[p]) || p in failing)
      requires AllKnown(failed, bound.Keys, failing)
      modifies this`states, this`outstanding, this`builds, this`buildOf, this`demands, this`clock, this`failed, this`attempts, this`trials
      ensures Valid(if ok then failing else failing + {p}) && clock == now
      ensures p in states && p in demands && states == old(states)[p := states[p]] && demands == old(demands)[p := demands[p]]
      ensures var o := OutcomeOf(old(states)[p], luck(old(attempts)), p, LiveAt(old(outstanding), now));
        && ok == o.Fine()
        && Flushed(o, old(states)[p], old(demands)[p], states[p], demands[p], now)
        && Recorded(o, old(outstanding), outstanding, p, luck(old(attempts)).draws, now)
        && trials == (if o.NotTried? then old(trials) else old(trials) + [Trial(p, LiveAt(old(outstanding), now))])
      ensures failed == if ok then old(failed) else old(failed) + {p}
    {
      clock := now;
      var s := states[p];
      ghost var d := demands[p];
      assert states[p := s] == states && demands[p := d] == demands;
      if s.inFlight || (!s.dirty && !s.forceFull) {
        SettledAfter(p, s, d, states, demands, failing);
        return true;
      }
      if p !in failing {
        IdleHasNone(p, states, outstanding, failing);
      }
      ok := Attempt(p, s, now, failing);
    }

    /** The part of a flush that builds and sends. */
    method Attempt(p: PeerKey, s: SyncState, now: nat, ghost failing: set<PeerKey>) returns (ok: bool)
      requires p in states && states[p] == s && !s.inFlight && states.Keys <= bound.Keys && Accounted()
      requires NoneFor(outstanding, p) || p in failing
      requires InStep(states, outstanding, failing) && CommitsSound(outstanding, buildOf, builds, commits)
      requires AllSettled(states, demands, failing + {p}) && (Honest(s, demands[p]) || p in failing)
      requires AllKnown(failed, bound.Keys, failing)
      modifies this`states, this`outstanding, this`builds, this`buildOf, this`demands, this`failed, this`attempts, this`trials
      ensures Valid(if ok then failing else failing + {p})
      ensures p in states && p in demands && states == old(states)[p := states[p]] && demands == old(demands)[p := demands[p]]
      ensures var l, live := luck(old(attempts)), LiveAt(old(outstanding), now);
        && ok == Goes(l, p, live)
        && trials == old(trials) + [Trial(p, live)]
        && demands[p] == (if Builds(l, p, live) then Covered(old(demands)[p], s.forceFull) else old(demands)[p])
        && states[p] == (if !Builds(l, p, live) then Unbuilt(s) else if l.sends then Sent(s, now) else Unsent(s, now))
        && (if Builds(l, p, live) then Registered(outstanding, live, p, l.draws, now) else outstanding == live)
      ensures failed == if ok then old(failed) else old(failed) + {p}
    {
      ghost var states0, demands0 := states, demands;
      ghost var live := LiveAt(outstanding, now);
      var sends := luck(attempts).sends;
      var built := Build(p, s, now, failing);
      if built.None? {
        FailingMayMark(p, Unbuilt(s), states0, demands, failing + {p});
        Excused(p, states, outstanding, demands, failing);
        KnownAfterFailure(p, failed, bound.Keys, failing);
        Overwritten(demands0, p, demands[p], demands[p]);
        failed := failed + {p};
        return false;
      }
      SettledAfter(p, Sent(s, now), demands[p], states0, demands0, failing);
      Overwritten(states0, p, Unbuilt(s), Sent(s, now));
      Overwritten(states0, p, Unbuilt(s), Unsent(s, now));
      Dispatch(p, s, built.value, live, sends, now, failing);
      ok := sends;
    }

    /** The first part: the marks are cleared, and the update is built. */
    method Build(p: PeerKey, s: SyncState, now: nat, ghost failing: set<PeerKey>) returns (built: Option<TxKey>)
      requires p in states && states[p] == s && p in demands && Accounted()
      requires NoneFor(outstanding, p) || p in failing
      requires InStep(states, outstanding, failing) && CommitsSound(outstanding, buildOf, builds, commits)
      modifies this`states, this`outstanding, this`builds, this`buildOf, this`demands, this`attempts, this`trials
      ensures states == old(states)[p := Unbuilt(s)]
      ensures var l, live := luck(old(attempts)), LiveAt(old(outstanding), now);
        && (built.Some? <==> Builds(l, p, live))
        && trials == old(trials) + [Trial(p, live)]
        && demands == (if built.Some? then old(demands)[p := Covered(old(demands)[p], s.forceFull)] else old(demands))
        && (built.Some? ==>
              && built.value.peer == p && built.value !in live && outstanding == live[built.value := now + ROUTE_RPC_TIMEOUT_MS]
              && Registered(outstanding, live, p, l.draws, now))
        && (built.None? ==> outstanding == live)
        && InStep(states, live, failing) && (NoneFor(live, p) || p in failing)
        && (!Goes(l, p, live) ==> AllBlamed(failed + {p}, luck, trials))
      ensures CommitsSound(outstanding, buildOf, builds, commits) && Accounted()
    {
      ghost var live := LiveAt(outstanding, now);
      OneMoreTrial(p, live, failed, luck, trials);
      var cleared := s.(dirty := false, forceFull := false);
      IdleMayChange(p, cleared, states, outstanding, failing);
      states := states[p := cleared];
      built := BuildRouteUpdate(p, s.forceFull, now, failing);
      attempts := attempts + 1;
      trials := trials + [Trial(p, live)];
    }

    /** The last part of a flush: the update is marked as sent, and handed to the transport, which may refuse it. */
    method Dispatch(p: PeerKey, s: SyncState, t: TxKey, ghost live: map<TxKey, nat>, sends: bool, now: nat, ghost failing: set<PeerKey>)
      requires p in states && states[p] == Unbuilt(s) && states.Keys <= bound.Keys && t.peer == p
      requires outstanding == live[t := now + ROUTE_RPC_TIMEOUT_MS] && (NoneFor(live, p) || p in failing)
      requires InStep(states, live, failing) && CommitsSound(outstanding, buildOf, builds, commits)
      requires AllSettled(states[p := Sent(s, now)], demands, failing) && AllKnown(failed, bound.Keys, failing)
      requires Accounted() && (!sends ==> AllBlamed(failed + {p}, luck, trials))
      modifies this`states, this`failed
      ensures failed == if sends then old(failed) else old(failed) + {p}
      ensures Valid(if sends then failing else failing + {p})
      ensures states == old(states)[p := if sends then Sent(s, now) else Unsent(s, now)]
    {
      ghost var states0 := states;
      SentStaysInStep(t, Sent(s, now), states, live, failing);
      states := states[p := states[p].(inFlight := true, sentAt := now)];
      if !sends {
        var unsent := states[p].(inFlight := false, dirty := true, forceFull := states[p].forceFull || s.forceFull);
        assert unsent == Unsent(s, now);
        FailedIsExcused(p, unsent, states, outstanding, demands, failing);
        KnownAfterFailure(p, failed, bound.Keys, failing);
        Overwritten(states0, p, Sent(s, now), unsent);
        states := states[p := unsent];
        failed := failed + {p};
      }
    }

    /** A change is asked for: it is marked first, then sent if nothing is in flight. */
    method SendRouteUpdate(p: PeerKey, forceFull: bool, now: nat, ghost failing: set<PeerKey>) returns (ok: bool)
      requires Valid(failing) && p in bound && clock <= now
      modifies this`states, this`outstanding, this`builds, this`buildOf, this`demands, this`clock, this`failed, this`attempts, this`trials
      ensures Valid(if ok then failing else failing + {p}) && clock == now
      ensures p in states && p in demands && states == old(states)[p := states[p]] && demands == old(demands)[p := demands[p]]
      ensures var s, d := StateOf(old(states), p), DemandOf(old(demands), p);
        var o := OutcomeOf(Marked(s, forceFull), luck(old(attempts)), p, LiveAt(old(outstanding), now));
        && ok == o.Fine()
        && Flushed(o, Marked(s, forceFull), Asked(d, forceFull), states[p], demands[p], now)
        && trials == (if o.NotTried? then old(trials) else old(trials) + [Trial(p, LiveAt(old(outstanding), now))])
      ensures failed == if ok then old(failed) else old(failed) + {p}
      ensures demands[p].asked == AskedOf(old(demands), p) + 1
    {
      var s := if p in states then states[p] else NEW_STATE;
      s := s.(dirty := true, forceFull := s.forceFull || forceFull);
      ghost var d := Asked(DemandOf(demands, p), forceFull);
      ghost var states0, demands0 := states, demands;
      MarkStaysInStep(p, s, states, outstanding, failing);
      AskedStaysHonest(p, s, d, forceFull, states, demands, failing);
      states := states[p := s];
      demands := demands[p := d];
      ok := FlushRouteUpdate(p, now, failing);
      Overwritten(states0, p, s, states[p]);
      Overwritten(demands0, p, d, demands[p]);
    }

    /** The transaction table's part: None is an error, Some(false) a reply that is not complete yet. */
    method SettleTransaction(p: PeerKey, transactionId: int, reply: Reply, now: nat, ghost failing: set<PeerKey>) returns (r: Option<bool>)
      requires Valid(failing) && p !in failing
      modifies this`outstanding, this`commits
      ensures Valid(failing)
      ensures var t := TxKey(p, transactionId);
        if t !in old(outstanding) then
          r == None && outstanding == old(outstanding) && commits == old(commits)
        else if now > old(outstanding)[t] then
          r == None && outstanding == old(outstanding) - {t} && commits == old(commits)
        else if reply == Accepted then
          && r == Some(true) && outstanding == old(outstanding) - {t} && t in buildOf
          && commits == old(commits) + [Commit(buildOf[t], now, old(outstanding)[t])]
          && p in states && NoneFor(outstanding, p)
        else
          r == (if reply == Partial then Some(false) else None) && outstanding == old(outstanding) && commits == old(commits)
    {
      var t := TxKey(p, transactionId);
      if t !in outstanding {
        return None;
      }
      FewerStaysInStep(outstanding - {t}, outstanding, states, failing);
      if now > outstanding[t] {
        FewerStaysSound(outstanding - {t}, outstanding, buildOf, builds, commits);
        outstanding := outstanding - {t};
        return None;
      }
      if reply == Partial {
        return Some(false);
      }
      if reply == Rejected {
        return None;
      }
      CommitStaysSound(t, now, outstanding, buildOf, builds, commits);
      CompletedLeavesNone(t, states, outstanding, failing);
      commits := commits + [Commit(buildOf[t], now, outstanding[t])];
      outstanding := outstanding - {t};
      return Some(true);
    }

    /** A reply completes its transaction only in time; a late, rejected or unexpected one is an error and changes no marks. */
    method HandleResponse(p: PeerKey, transactionId: int, reply: Reply, now: nat, ghost failing: set<PeerKey>) returns (ok: bool)
      requires Valid(failing) && p !in failing && clock <= now
      modifies this
      ensures Valid(if ok then failing else failing + {p}) && clock == now && bound == old(bound)
      ensures var t := TxKey(p, transactionId);
        if t in old(outstanding) && now <= old(outstanding)[t] && reply == Accepted then
          && t in old(buildOf) && commits == old(commits) + [Commit(old(buildOf)[t], now, old(outstanding)[t])]
          && p in old(states) && p in old(demands) && p in states && p in demands
          && states == old(states)[p := states[p]] && demands == old(demands)[p := demands[p]] && states[p].lastCompletedAt == now
          && var o := OutcomeOf(Completed(old(states)[p], now), luck(old(attempts)), p, LiveAt(old(outstanding) - {t}, now));
             && ok == o.Fine()
             && Flushed(o, Completed(old(states)[p], now), old(demands)[p], states[p], demands[p], now)
             && failed == if ok then old(failed) else old(failed) + {p}
        else
          && ok == (t in old(outstanding) && now <= old(outstanding)[t] && reply == Partial)
          && commits == old(commits) && states == old(states) && demands == old(demands) && failed == old(failed) && trials == old(trials)
    {
      clock := now;
      var r := SettleTransaction(p, transactionId, reply, now, failing);
      if r.None? {
        Excused(p, states, outstanding, demands, failing);
        KnownAfterFailure(p, failed, bound.Keys, failing);
        return false;
      }
      if !r.value {
        return true;
      }
      ok := CompleteUpdate(p, now, failing);
    }

    /** The update in flight is done; what was asked meanwhile is sent next. */
    method CompleteUpdate(p: PeerKey, now: nat, ghost failing: set<PeerKey>) returns (ok: bool)
      requires Valid(failing) && p !in failing && clock <= now && p in states && NoneFor(outstanding, p)
      modifies this`states, this`outstanding, this`builds, this`buildOf, this`demands, this`clock, this`failed, this`attempts, this`trials
      ensures Valid(if ok then failing else failing + {p}) && clock == now
      ensures p in states && p in demands && states == old(states)[p := states[p]] && demands == old(demands)[p := demands[p]]
      ensures p in old(demands)
      ensures var o := OutcomeOf(Completed(old(states)[p], now), luck(old(attempts)), p, LiveAt(old(outstanding), now));
        && ok == o.Fine()
        && Flushed(o, Completed(old(states)[p], now), old(demands)[p], states[p], demands[p], now)
      ensures failed == if ok then old(failed) else old(failed) + {p}
    {
      var s := states[p].(inFlight := false, sentAt := 0, lastCompletedAt := now);
      IdleMayChange(p, s, states, outstanding, failing);
      assert SettledAt(p, states, demands, failing);
      Excused(p, states, outstanding, demands, failing);
      FailingMayMark(p, s, states, demands, failing + {p});
      ghost var states0 := states;
      states := states[p := s];
      ok := FlushRouteUpdate(p, now, failing);
      Overwritten(states0, p, s, states[p]);
    }

    /** A request is answered first; one that changed routes or sessions also asks for an update back. */
    method HandleRequest(p: PeerKey, result: RequestResult, answered: bool, now: nat, ghost failing: set<PeerKey>) returns (ok: bool)
      requires Valid(failing) && p in bound && clock <= now
      modifies this`states, this`outstanding, this`builds, this`buildOf, this`demands, this`clock, this`failed, this`attempts, this`trials
      ensures Valid(if ok then failing else failing + {p}) && clock == now
      ensures if answered && (result == Route || result == RouteSession) then
          && p in states && p in demands && states == old(states)[p := states[p]] && demands == old(demands)[p := demands[p]]
          && demands[p].asked == AskedOf(old(demands), p) + 1
          && var s := StateOf(old(states), p);
             var o := OutcomeOf(Marked(s, false), luck(old(attempts)), p, LiveAt(old(outstanding), now));
             && ok == o.Fine()
             && Flushed(o, Marked(s, false), Asked(DemandOf(old(demands), p), false), states[p], demands[p], now)
             && failed == if ok then old(failed) else old(failed) + {p}
        else
          && ok == (result == Pending || answered)
          && states == old(states) && demands == old(demands) && outstanding == old(outstanding) && failed == old(failed) && trials == old(trials)
    {
      clock := now;
      if result == Pending {
        return true;
      }
      if !answered {
        Excused(p, states, outstanding, demands, failing);
        KnownAfterFailure(p, failed, bound.Keys, failing);
        return false;
      }
      if result == Handled {
        return true;
      }
      ok := SendRouteUpdate(p, false, now, failing);
    }

    method MaintainPeer(p: PeerKey, now: nat, ghost failing: set<PeerKey>) returns (ok: bool)
      requires Valid(failing) && p in bound && clock <= now
      modifies this`states, this`outstanding, this`builds, this`buildOf, this`demands, this`clock, this`failed, this`attempts, this`trials
      ensures Valid(if ok then failing else failing + {p}) && clock == now
      ensures if p in old(states) && Idle(old(states)[p], now) then
          && p in states && p in demands && states == old(states)[p := states[p]] && demands == old(demands)[p := demands[p]]
          && AskedOf(demands, p) == AskedOf(old(demands), p) + 1
          && var s := old(states)[p];
             var o := OutcomeOf(Marked(s, false), luck(old(attempts)), p, LiveAt(old(outstanding), now));
             && ok == o.Fine()
             && Flushed(o, Marked(s, false), Asked(DemandOf(old(demands), p), false), states[p], demands[p], now)
             && failed == if ok then old(failed) else old(failed) + {p}
        else
          && ok && states == old(states) && demands == old(demands) && outstanding == old(outstanding) && failed == old(failed) && trials == old(trials)
    {
      clock := now;
      if p !in states || states[p].inFlight || now - states[p].lastCompletedAt < ROUTE_MAINTENANCE_INTERVAL_MS {
        return true;
      }
      ok := SendRouteUpdate(p, false, now, failing);
    }

    /** A timed-out update is asked for again, in full; by then its own transaction has expired. */
    method Retry(p: PeerKey, now: nat, ghost failing: set<PeerKey>) returns (ok: bool)
      requires Valid(failing) && clock <= now && p in states && TimedOut(states[p], now) && NoneFor(outstanding, p)
      modifies this`states, this`outstanding, this`builds, this`buildOf, this`demands, this`clock, this`failed, this`attempts, this`trials
      ensures Valid(if ok then failing else failing + {p}) && clock == now && NoneDue(outstanding, now)
      ensures p in states && p in demands && states == old(states)[p := states[p]] && demands == old(demands)[p := demands[p]]
      ensures p in old(demands) && demands[p].asked == old(demands)[p].asked + 1
      ensures ok ==> Retried(old(demands)[p], states[p], demands[p], now)
      ensures trials == old(trials) + [Trial(p, LiveAt(old(outstanding), now))]
      ensures ok == Goes(luck(old(attempts)), p, LiveAt(old(outstanding), now))
      ensures failed == if ok then old(failed) else old(failed) + {p}
    {
      var s := states[p].(inFlight := false, dirty := true, forceFull := true);
      ghost var d := Asked(demands[p], true);
      ghost var states0, demands0 := states, demands;
      IdleMayChange(p, s, states, outstanding, failing);
      AskedStaysHonest(p, s, d, true, states, demands, failing);
      states := states[p := s];
      demands := demands[p := d];
      ok := FlushRouteUpdate(p, now, failing);
      Overwritten(states0, p, s, states[p]);
      Overwritten(demands0, p, d, demands[p]);
    }

    method RetryIfTimedOut(p: PeerKey, now: nat, ghost failing: set<PeerKey>) returns (ok: bool)
      requires Valid(failing) && clock == now && p in states && p !in failing && NoneDue(outstanding, now)
      modifies this`states, this`outstanding, this`builds, this`buildOf, this`demands, this`clock, this`failed, this`attempts, this`trials
      ensures Valid(if ok then failing else failing + {p}) && clock == now && NoneDue(outstanding, now)
      ensures p in old(demands) && p in states && p in demands
      ensures states == old(states)[p := states[p]] && demands == old(demands)[p := demands[p]]
      ensures if TimedOut(old(states)[p], now) then
          && demands[p].asked == old(demands)[p].asked + 1 && (ok ==> Retried(old(demands)[p], states[p], demands[p], now))
          && trials == old(trials) + [Trial(p, LiveAt(old(outstanding), now))]
          && ok == Goes(luck(old(attempts)), p, LiveAt(old(outstanding), now))
        else ok && states == old(states) && demands == old(demands) && trials == old(trials)
      ensures failed == if ok then old(failed) else old(failed) + {p}
    {
      if !states[p].inFlight || now - states[p].sentAt <= ROUTE_SYNC_TIMEOUT_MS {
        Overwritten(states, p, states[p], states[p]);
        Overwritten(demands, p, demands[p], demands[p]);
        return true;
      }
      OverdueHasNone(p, states, outstanding, now, failing);
      ok := Retry(p, now, failing);
    }

    /** One more peer of the sweep that started from `first`. */
    method SweepOne(p: PeerKey, failures: set<PeerKey>, now: nat, ghost rest: set<PeerKey>, ghost first: SyncTables) returns (more: set<PeerKey>)
      requires Valid(failures) && clock == now && p in states && p in rest && p !in failures && NoneDue(outstanding, now)
      requires p in first.states && p in first.demands && Swept(first, rest, failures, SyncTables(states, demands, trials), luck, now)
      modifies this`states, this`outstanding, this`builds, this`buildOf, this`demands, this`clock, this`failed, this`attempts, this`trials
      ensures Valid(more) && clock == now && NoneDue(outstanding, now) && states.Keys == old(states).Keys
      ensures (more == failures && failed == old(failed)) || (more == failures + {p} && failed == old(failed) + {p})
      ensures Swept(first, rest - {p}, more, SyncTables(states, demands, trials), luck, now)
    {
      assert SweptAt(p, rest, failures, first.states, first.demands, states, demands, luck, trials, |first.trials|, now);
      ghost var last, n := SyncTables(states, demands, trials), attempts;
      ghost var live := LiveAt(outstanding, now);
      var ok := RetryIfTimedOut(p, now, failures);
      more := if ok then failures else failures + {p};
      if !ok {
        assert trials[n] == Trial(p, live);
        assert Refused(p, luck, trials, |first.trials|);
      }
      SweptFurther(p, rest, failures, more, first, last, SyncTables(states, demands, trials), luck, now);
    }

    /** Drops what is overdue, then retries every peer whose update timed out; the failed ones are returned. */
    method CleanExpired(now: nat) returns (failures: set<PeerKey>)
      requires Valid({}) && clock <= now
      modifies this`states, this`outstanding, this`builds, this`buildOf, this`demands, this`clock, this`failed, this`attempts, this`trials
      ensures Valid(failures) && clock == now && NoneDue(outstanding, now)
      ensures states.Keys == old(states).Keys && failures <= states.Keys && failed == old(failed) + failures
      ensures Swept(SyncTables(old(states), old(demands), old(trials)), {}, failures, SyncTables(states, demands, trials), luck, now)
    {
      CleanOutstanding(now, {});
      clock := now;
      failures := SweepAll(now);
    }

    method SweepAll(now: nat) returns (failures: set<PeerKey>)
      requires Valid({}) && clock == now && NoneDue(outstanding, now)
      modifies this`states, this`outstanding, this`builds, this`buildOf, this`demands, this`clock, this`failed, this`attempts, this`trials
      ensures Valid(failures) && clock == now && NoneDue(outstanding, now)
      ensures states.Keys == old(states).Keys && failures <= states.Keys && failed == old(failed) + failures
      ensures Swept(SyncTables(old(states), old(demands), old(trials)), {}, failures, SyncTables(states, demands, trials), luck, now)
    {
      ghost var first, failedBefore := SyncTables(states, demands, trials), failed;
      failures := {};
      var rest := states.Keys;
      while rest != {}
        invariant Valid(failures) && clock == now && NoneDue(outstanding, now)
        invariant states.Keys == first.states.Keys && rest <= first.states.Keys && failures <= first.states.Keys - rest
        invariant failed == failedBefore + failures
        invariant Swept(first, rest, failures, SyncTables(states, demands, trials), luck, now)
        decreases rest
      {
        var p :| p in rest;
        failures := SweepOne(p, failures, now, rest, first);
        rest := rest - {p};
      }
    }
  }
}
