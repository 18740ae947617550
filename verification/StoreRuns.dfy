/** Whole runs of the session store: every interleaving of events from any number of connections. */
module StoreRuns {
  import opened Common
  import opened ReplayWindow
  import opened Traffic
  import opened Nonces
  import opened SessionStore
  import Delivery
  import Rotation

  /** `ws` lists the worlds that the events pass through, first to last. */
  ghost predicate IsRun(ws: seq<World>, events: seq<Event>) {
    && |ws| == |events| + 1
    && forall i {:trigger events[i]} :: 0 <= i < |events| ==> Enabled(ws[i], events[i]) && ws[i + 1] == Apply(ws[i], events[i])
  }

  // ----- Accounting -----

  /** The call would report that its session has disappeared, or that its counter is exhausted. */
  predicate SessionMissing(w: World, e: Event)
    requires Enabled(w, e)
  {
    match e
    case Open(_) => false
    case BuildMsg2(c, key, generation, algorithm, now, random, written) =>
      var ss := Upserted(w.sessions, key, generation, algorithm, now, random);
      && w.conns[c].sessionKey.None?
      && Upsert(w.sessions, key, generation, algorithm, now, random).Ok?
      && (key !in ss || ss[key].attachments + 1 >= U32)
    case FinishMsg3(c, _, proved, _) =>
      proved && w.conns[c].sessionKey.Some? && w.conns[c].sessionKey.value !in w.sessions
    case Encrypt(c, _) =>
      w.conns[c].authenticated && !Works(w, c)
    case Decrypt(c, _, _, _, _) =>
      w.conns[c].authenticated && !Works(w, c)
    case Drop(c, _) =>
      && w.conns[c].attached
      && (w.conns[c].sessionKey.None? || w.conns[c].sessionKey.value !in w.sessions
          || w.sessions[w.conns[c].sessionKey.value].attachments == 0)
  }

  lemma SoundNeverMissing(w: World, e: Event)
    requires Sound(w) && Enabled(w, e)
    ensures !SessionMissing(w, e)
  {
    if e.BuildMsg2? {
      BuildMsg2Sound(w, e);
    } else if e.Drop? {
      DropCounted(w, e);
    }
  }

  lemma {:induction false} RunKeepsSound(ws: seq<World>, events: seq<Event>, n: nat)
    requires IsRun(ws, events) && Sound(ws[0]) && n <= |events|
    ensures Sound(ws[n])
  {
    if n > 0 {
      RunKeepsSound(ws, events, n - 1);
      StepKeepsSound(ws, events, n - 1);
    }
  }

  lemma StepKeepsSound(ws: seq<World>, events: seq<Event>, i: nat)
    requires IsRun(ws, events) && i < |events| && Sound(ws[i])
    ensures Sound(ws[i + 1])
  {
    var w, e := ws[i], events[i];
    EventKeepsSound(w, e);
  }

  /**
   In every run from the empty store: each session's counter equals the number of live
   connections attached to it, no attached session is purged, the store holds at most 2048
   sessions, and no call finds its session missing or its counter about to over- or underflow.
   */
  lemma AccountingHolds(ws: seq<World>, events: seq<Event>, n: nat)
    requires IsRun(ws, events) && ws[0] == EMPTY_WORLD && n <= |events|
    ensures Sound(ws[n])
    ensures n < |events| ==> !SessionMissing(ws[n], events[n])
  {
    assert Sound(EMPTY_WORLD);
    RunKeepsSound(ws, events, n);
    if n < |events| {
      SoundNeverMissing(ws[n], events[n]);
    }
  }

  // ----- Generations -----

  predicate FirstGenerations(ss: Sessions) {
    forall k :: k in ss ==> ss[k].generation == 1
  }

  lemma EventKeepsGenerations(w: World, e: Event)
    requires Enabled(w, e) && FirstGenerations(w.sessions)
    ensures FirstGenerations(Apply(w, e).sessions)
  {
    if e.BuildMsg2? {
      var r := Upsert(w.sessions, e.key, e.generation, e.algorithm, e.now, e.random);
      UpsertedBy(w.sessions, e.key, e.generation, e.algorithm, e.now, e.random);
      if r.Ok? {
        SelectionTellsTable(w.sessions, e.key, e.generation, e.algorithm, e.now, e.random);
      }
    }
  }

  /** Every session ever stored has generation 1, so a generation does not tell a session from an earlier one of the same name. */
  lemma {:induction false} GenerationsAreOne(ws: seq<World>, events: seq<Event>, n: nat)
    requires IsRun(ws, events) && ws[0] == EMPTY_WORLD && n <= |events|
    ensures FirstGenerations(ws[n].sessions)
  {
    if n > 0 {
      GenerationsAreOne(ws, events, n - 1);
      var w, e := ws[n - 1], events[n - 1];
      EventKeepsGenerations(w, e);
    }
  }

  /** A peer that still holds the key of a session that was purged, and created anew under another key, joins and shares no key. */
  lemma StaleGenerationJoins(key: SessionKey, algorithm: string, own: Key32, other: Key32)
    requires own != other
    ensures var first := Upserted(map[], key, None, algorithm, 1, own);
            var second := Upserted(first, key, None, algorithm, 1 + SESSION_IDLE_MS, other);
            var r := Upsert(second, key, Some(1), algorithm, 1 + SESSION_IDLE_MS, own);
      && key in first && first[key].rootKey == own && key in second && second[key].rootKey == other
      && r.Ok? && r.value.action == Join && PeerRootKey(r.value, own) != r.value.sessionRootKey
  {
    var first := Upserted(map[], key, None, algorithm, 1, own);
    assert Purged(map[], 1) == map[];
    assert first == map[key := StoredSession(own, 1, Created(1), algorithm, None, 1, 0)];
    assert Purged(first, 1 + SESSION_IDLE_MS) == map[];
    var second := Upserted(first, key, None, algorithm, 1 + SESSION_IDLE_MS, other);
    assert Purged(second, 1 + SESSION_IDLE_MS) == second;
  }

  // ----- What the peer is told is what comes -----

  /** After a Create or a Sync the first seal is number 0 of the epoch that the peer was told, exactly if it comes within ten minutes. */
  lemma FirstSealIsAsTold(ss: Sessions, key: SessionKey, generation: Option<nat>, algorithm: string, now: nat, random: Key32, later: nat)
    requires Upsert(ss, key, generation, algorithm, now, random).Ok? && Upsert(ss, key, generation, algorithm, now, random).value.action != Join
    ensures var told, after := Upsert(ss, key, generation, algorithm, now, random).value, Upserted(ss, key, generation, algorithm, now, random);
      && key in after
      && (SealNonce(after[key].traffic, key.Outbound(), later) == Some(Nonce(told.initialEpoch, 0)) <==> later < now + ROTATE_AFTER_MS)
  {
    SelectionTellsTable(ss, key, generation, algorithm, now, random);
    var t := Upserted(ss, key, generation, algorithm, now, random)[key].traffic;
    Rotation.SendRotatesIff(t, key.Outbound(), later);
    Rotation.SealIsNext(t, key.Outbound(), later);
  }

  // ----- Nonce freshness -----

  predicate Seals(w: World, e: Event, root: Key32, key: SessionKey, n: Nonce) {
    && e.Encrypt? && Works(w, e.c) && w.conns[e.c].sessionKey == Some(key)
    && w.sessions[key].rootKey == root
    && SealNonce(w.sessions[key].traffic, key.Outbound(), e.now) == Some(n)
  }

  /** The traffic steps (none or one) that an event takes in the session named `key`. */
  function StepOn(w: World, e: Event, key: SessionKey): seq<Step>
    requires Enabled(w, e)
  {
    if (e.Encrypt? || e.Decrypt?) && Works(w, e.c) && w.conns[e.c].sessionKey.value == key then [TrafficStep(key, e)]
    else if e.BuildMsg2? && e.key == key && w.conns[e.c].sessionKey.None? && ChoosesSync(w.sessions, e) then [Step.Sync(e.now)]
    else []
  }

  /** The session survives the purge, and the peer does not name its generation. */
  predicate ChoosesSync(ss: Sessions, e: Event)
    requires e.BuildMsg2?
  {
    && e.key in Purged(ss, e.now)
    && ss[e.key].clientAlgorithm == e.algorithm
    && e.generation != Some(ss[e.key].generation)
  }

  lemma ChoosesSyncIff(ss: Sessions, e: Event)
    requires e.BuildMsg2?
    ensures ChoosesSync(ss, e) <==>
      var r := Upsert(ss, e.key, e.generation, e.algorithm, e.now, e.random);
      r.Ok? && r.value.action == Action.Sync
  {
  }

  /**
   What an event does to one session: keep it with at most the one step above, purge it,
   or put a session with a root key never used before in its place.
   */
  lemma EventOnSession(w: World, e: Event, key: SessionKey)
    requires Sound(w) && Enabled(w, e) && key in Apply(w, e).sessions
    ensures SessionMoved(w, e, key)
  {
    if e.BuildMsg2? && w.conns[e.c].sessionKey.None? {
      BuildOnSession(w, e, key);
    } else if e.Encrypt? || e.Decrypt? {
      WorkOnSession(w, e, key);
    } else {
      OtherOnSession(w, e, key);
    }
  }

  ghost predicate SessionMoved(w: World, e: Event, key: SessionKey)
    requires Enabled(w, e) && key in Apply(w, e).sessions
  {
    var s' := Apply(w, e).sessions[key];
    if key in w.sessions && s'.rootKey == w.sessions[key].rootKey then
      s'.traffic == Stepped(w.sessions[key].traffic, StepOn(w, e, key))
    else
      s'.rootKey !in w.issued
  }

  /** An encrypt or decrypt call makes one step of its own session. */
  lemma WorkOnSession(w: World, e: Event, key: SessionKey)
    requires Sound(w) && Enabled(w, e) && key in Apply(w, e).sessions && (e.Encrypt? || e.Decrypt?)
    ensures SessionMoved(w, e, key)
  {
  }

  /** The other calls leave every session's traffic alone. */
  lemma OtherOnSession(w: World, e: Event, key: SessionKey)
    requires Enabled(w, e) && key in Apply(w, e).sessions && !e.Encrypt? && !e.Decrypt?
    requires e.BuildMsg2? ==> w.conns[e.c].sessionKey.Some?
    ensures SessionMoved(w, e, key)
  {
  }

  lemma BuildOnSession(w: World, e: Event, key: SessionKey)
    requires KeysDistinct(w) && Enabled(w, e) && key in Apply(w, e).sessions
    requires e.BuildMsg2? && w.conns[e.c].sessionKey.None?
    ensures SessionMoved(w, e, key)
  {
    AttachKeepsTraffic(w, e, key);
    UpsertOnSession(w.sessions, e, key);
  }

  /** Attaching changes neither the root key nor the traffic of the session that was chosen. */
  lemma AttachKeepsTraffic(w: World, e: Event, key: SessionKey)
    requires Enabled(w, e) && e.BuildMsg2? && w.conns[e.c].sessionKey.None? && key in Apply(w, e).sessions
    ensures var upserted := Upserted(w.sessions, e.key, e.generation, e.algorithm, e.now, e.random);
            key in upserted && Apply(w, e).sessions[key].rootKey == upserted[key].rootKey
                            && Apply(w, e).sessions[key].traffic == upserted[key].traffic
  {
  }

  function Stepped(t: State, steps: seq<Step>): State {
    if steps == [] then t else Next(t, steps[0])
  }

  lemma UpsertOnSession(ss: Sessions, e: Event, key: SessionKey)
    requires e.BuildMsg2? && key in Upserted(ss, e.key, e.generation, e.algorithm, e.now, e.random)
    ensures var s' := Upserted(ss, e.key, e.generation, e.algorithm, e.now, e.random)[key];
      || s'.rootKey == e.random
      || (&& key in ss && s'.rootKey == ss[key].rootKey
          && s'.traffic == if e.key == key && ChoosesSync(ss, e) then Synced(ss[key].traffic, e.now) else ss[key].traffic)
  {
  }

  /** The event moves the session that uses `root` across the end of the epoch range. */
  predicate WrapsEpoch(w: World, e: Event, root: Key32)
    requires Enabled(w, e)
  {
    exists key :: key in w.sessions && w.sessions[key].rootKey == root && WrapsSession(w, e, key)
  }

  predicate WrapsSession(w: World, e: Event, key: SessionKey)
    requires Enabled(w, e) && key in w.sessions
  {
    var steps := StepOn(w, e, key);
    steps != [] && Wraps(w.sessions[key].traffic, steps[0])
  }

  /** Every nonce up to and including n is spent under this root key. */
  ghost predicate Spent(w: World, root: Key32, key: SessionKey, n: Nonce) {
    && root in w.issued
    && forall k :: k in w.sessions && w.sessions[k].rootKey == root ==>
         k == key && Before(n, Position(w.sessions[k].traffic, key.Outbound()))
  }

  lemma SealSpends(w: World, e: Event, root: Key32, key: SessionKey, n: Nonce)
    requires Sound(w) && Enabled(w, e) && Seals(w, e, root, key, n)
    ensures Spent(Apply(w, e), root, key, n)
  {
    SealAdvancesIffNoWrap(w.sessions[key].traffic, key.Outbound(), e.now);
  }

  lemma IssuedGrows(w: World, e: Event)
    requires Enabled(w, e)
    ensures w.issued <= Apply(w, e).issued
  {
  }

  lemma SpentStays(w: World, e: Event, root: Key32, key: SessionKey, n: Nonce)
    requires Sound(w) && Enabled(w, e) && Spent(w, root, key, n) && !WrapsEpoch(w, e, root)
    ensures Spent(Apply(w, e), root, key, n)
  {
    var w' := Apply(w, e);
    IssuedGrows(w, e);
    forall k | k in w'.sessions && w'.sessions[k].rootKey == root
      ensures k == key && Before(n, Position(w'.sessions[k].traffic, key.Outbound()))
    {
      EventOnSession(w, e, k);
      if StepOn(w, e, k) != [] {
        assert !WrapsSession(w, e, k);
        StepAdvances(w.sessions[k].traffic, StepOn(w, e, k)[0], key.Outbound());
        BeforeTrans(n, Position(w.sessions[k].traffic, key.Outbound()), Position(w'.sessions[k].traffic, key.Outbound()));
      }
    }
  }

  ghost predicate NoWrapBetween(ws: seq<World>, events: seq<Event>, i: nat, j: nat, root: Key32)
    requires IsRun(ws, events)
  {
    forall k {:trigger events[k]} :: i < k <= j && k < |events| ==> !WrapsEpoch(ws[k], events[k], root)
  }

  lemma {:induction false} SpentUntil(ws: seq<World>, events: seq<Event>, i: nat, j: nat, root: Key32, key: SessionKey, n: Nonce)
    requires IsRun(ws, events) && Sound(ws[0]) && i < j <= |events|
    requires Spent(ws[i + 1], root, key, n) && NoWrapBetween(ws, events, i, j - 1, root)
    ensures Spent(ws[j], root, key, n)
    decreases j
  {
    if i + 1 < j {
      SpentUntil(ws, events, i, j - 1, root, key, n);
      RunKeepsSound(ws, events, j - 1);
      SpentStays(ws[j - 1], events[j - 1], root, key, n);
    }
  }

  /**
   Nonce freshness: over every interleaving of reconnects, rotations and sends by any number
   of connections, two seals under one root key use strictly increasing (epoch, sequence)
   pairs, unless the epoch counter of that session wrapped in between.  A root key never
   serves two session names, so the direction is the same for both.
   */
  lemma NoncesNeverRepeat(ws: seq<World>, events: seq<Event>, i: nat, j: nat, root: Key32, key: SessionKey, key': SessionKey, m: Nonce, n: Nonce)
    requires IsRun(ws, events) && Sound(ws[0]) && i < j < |events| && NoWrapBetween(ws, events, i, j, root)
    requires Seals(ws[i], events[i], root, key, m) && Seals(ws[j], events[j], root, key', n)
    ensures key == key' && Before(m, n)
  {
    RunKeepsSound(ws, events, i);
    SealSpends(ws[i], events[i], root, key, m);
    SpentUntil(ws, events, i, j, root, key, m);
    SealIsLater(ws[j], events[j], root, key, key', m, n);
  }

  lemma SealIsLater(w: World, e: Event, root: Key32, key: SessionKey, key': SessionKey, m: Nonce, n: Nonce)
    requires Enabled(w, e) && Spent(w, root, key, m) && Seals(w, e, root, key', n) && !WrapsEpoch(w, e, root)
    ensures key == key' && Before(m, n)
  {
    var t := w.sessions[key'].traffic;
    assert StepOn(w, e, key') == [Send(key'.Outbound(), e.now)];
    assert !WrapsSession(w, e, key');
    SealAdvancesIffNoWrap(t, key'.Outbound(), e.now);
    BeforeTrans(m, Position(t, key'.Outbound()), n);
  }

  // ----- Epochs are short across connections -----

  /** Event i happens at time clock(i), and time does not go back. */
  ghost predicate Clocked(events: seq<Event>, clock: nat -> nat) {
    && (forall i: nat {:trigger events[i]} :: i < |events| && !events[i].Open? ==> events[i].now == clock(i))
    && (forall i: nat, j: nat :: i <= j ==> clock(i) <= clock(j))
  }

  ghost predicate AllBegun(w: World, now: nat) {
    forall k :: k in w.sessions ==> w.sessions[k].traffic.epochStartedMs <= now
  }

  lemma EventBegins(w: World, e: Event, now: nat)
    requires Sound(w) && Enabled(w, e) && AllBegun(w, now) && (!e.Open? ==> e.now == now)
    ensures AllBegun(Apply(w, e), now)
  {
    forall k | k in Apply(w, e).sessions
      ensures Apply(w, e).sessions[k].traffic.epochStartedMs <= now
    {
      SessionBegins(w, e, k);
    }
  }

  lemma SessionBegins(w: World, e: Event, key: SessionKey)
    requires Sound(w) && Enabled(w, e) && key in Apply(w, e).sessions
    ensures var began := Apply(w, e).sessions[key].traffic.epochStartedMs;
            (key in w.sessions && began == w.sessions[key].traffic.epochStartedMs) || (!e.Open? && began == e.now)
  {
    if e.BuildMsg2? && w.conns[e.c].sessionKey.None? {
      AttachKeepsTraffic(w, e, key);
      UpsertBegins(w.sessions, e, key);
    } else if e.Encrypt? || e.Decrypt? {
      WorkOnSession(w, e, key);
      if StepOn(w, e, key) != [] {
        Rotation.StepBegins(w.sessions[key].traffic, StepOn(w, e, key)[0]);
      }
    }
  }

  lemma UpsertBegins(ss: Sessions, e: Event, key: SessionKey)
    requires e.BuildMsg2? && key in Upserted(ss, e.key, e.generation, e.algorithm, e.now, e.random)
    ensures var began := Upserted(ss, e.key, e.generation, e.algorithm, e.now, e.random)[key].traffic.epochStartedMs;
            (key in ss && began == ss[key].traffic.epochStartedMs) || began == e.now
  {
  }

  lemma {:induction false} BegunUntil(ws: seq<World>, events: seq<Event>, clock: nat -> nat, n: nat)
    requires IsRun(ws, events) && ws[0] == EMPTY_WORLD && Clocked(events, clock) && n <= |events|
    ensures AllBegun(ws[n], clock(n))
  {
    if n > 0 {
      BegunUntil(ws, events, clock, n - 1);
      StartsSound(ws, events, n - 1);
      BegunNext(ws, events, clock, n - 1);
    }
  }

  lemma StartsSound(ws: seq<World>, events: seq<Event>, n: nat)
    requires IsRun(ws, events) && ws[0] == EMPTY_WORLD && n <= |events|
    ensures Sound(ws[n])
  {
    assert Sound(EMPTY_WORLD);
    RunKeepsSound(ws, events, n);
  }

  lemma BegunNext(ws: seq<World>, events: seq<Event>, clock: nat -> nat, i: nat)
    requires IsRun(ws, events) && Clocked(events, clock) && i < |events| && Sound(ws[i]) && AllBegun(ws[i], clock(i))
    ensures AllBegun(ws[i + 1], clock(i + 1))
  {
    var w, e, now, later := ws[i], events[i], clock(i), clock(i + 1);
    assert now <= later;
    EventBegins(w, e, now);
  }

  /** If the session still uses the root key, its send side has moved on from `first` as an epoch allows. */
  ghost predicate MovedOn(w: World, key: SessionKey, root: Key32, first: State) {
    root in w.issued && (Uses(w, key, root) ==> Rotation.Since(first, w.sessions[key].traffic, key.Outbound()))
  }

  lemma MovesOn(w: World, e: Event, key: SessionKey, root: Key32, first: State)
    requires Sound(w) && Enabled(w, e) && MovedOn(w, key, root, first) && !WrapsEpoch(w, e, root)
    ensures MovedOn(Apply(w, e), key, root, first)
  {
    IssuedGrows(w, e);
    if Uses(Apply(w, e), key, root) {
      EventOnSession(w, e, key);
      if StepOn(w, e, key) != [] {
        assert !WrapsSession(w, e, key);
        Rotation.StepKeepsSince(first, w.sessions[key].traffic, StepOn(w, e, key)[0], key.Outbound());
      }
    }
  }

  lemma {:induction false} MovedOnUntil(ws: seq<World>, events: seq<Event>, i: nat, j: nat, key: SessionKey, root: Key32, first: State)
    requires IsRun(ws, events) && Sound(ws[0]) && i < j <= |events|
    requires MovedOn(ws[i + 1], key, root, first) && NoWrapBetween(ws, events, i, j - 1, root)
    ensures MovedOn(ws[j], key, root, first)
    decreases j
  {
    if i + 1 < j {
      MovedOnUntil(ws, events, i, j - 1, key, root, first);
      RunKeepsSound(ws, events, j - 1);
      var w, e := ws[j - 1], events[j - 1];
      MovesOn(w, e, key, root, first);
    }
  }

  lemma SealMovesOn(w: World, e: Event, root: Key32, key: SessionKey, m: Nonce)
    requires Sound(w) && Enabled(w, e) && Seals(w, e, root, key, m)
    ensures MovedOn(Apply(w, e), key, root, Sent(w.sessions[key].traffic, key.Outbound(), e.now))
  {
    assert StepOn(w, e, key) == [Send(key.Outbound(), e.now)];
    Rotation.SinceItself(Sent(w.sessions[key].traffic, key.Outbound(), e.now), key.Outbound());
  }

  /**
   Over every interleaving of connections, reconnects included: two seals under one root key and
   one epoch are less than ten minutes and less than a million sequence numbers apart, unless the
   epoch of the session wrapped in between.
   */
  lemma SharedEpochIsShort(ws: seq<World>, events: seq<Event>, clock: nat -> nat, i: nat, j: nat, root: Key32, key: SessionKey, m: Nonce, n: Nonce)
    requires IsRun(ws, events) && ws[0] == EMPTY_WORLD && Clocked(events, clock) && i < j < |events| && NoWrapBetween(ws, events, i, j, root)
    requires Seals(ws[i], events[i], root, key, m) && Seals(ws[j], events[j], root, key, n) && m.epoch == n.epoch
    ensures m.sequence < n.sequence < m.sequence + ROTATE_AFTER_PACKETS && events[j].now < events[i].now + ROTATE_AFTER_MS
  {
    assert Sound(EMPTY_WORLD);
    BegunUntil(ws, events, clock, i);
    RunKeepsSound(ws, events, i);
    SealMovesOn(ws[i], events[i], root, key, m);
    MovedOnUntil(ws, events, i, j, key, root, Sent(ws[i].sessions[key].traffic, key.Outbound(), events[i].now));
    SealsClose(ws[i], events[i], ws[j], events[j], root, key, m, n);
  }

  lemma SealsClose(w: World, e: Event, w': World, e': Event, root: Key32, key: SessionKey, m: Nonce, n: Nonce)
    requires Enabled(w', e') && Seals(w, e, root, key, m) && Seals(w', e', root, key, n) && m.epoch == n.epoch
    requires AllBegun(w, e.now) && !WrapsEpoch(w', e', root)
    requires MovedOn(w', key, root, Sent(w.sessions[key].traffic, key.Outbound(), e.now))
    ensures m.sequence < n.sequence < m.sequence + ROTATE_AFTER_PACKETS && e'.now < e.now + ROTATE_AFTER_MS
  {
    assert StepOn(w', e', key) == [Send(key.Outbound(), e'.now)];
    assert !WrapsSession(w', e', key);
    Rotation.SealsAreClose(w.sessions[key].traffic, e.now, w'.sessions[key].traffic, e'.now, key.Outbound(), m, n);
  }

  // ----- At-most-once delivery across connections -----

  ghost predicate Uses(w: World, key: SessionKey, root: Key32) {
    key in w.sessions && w.sessions[key].rootKey == root
  }

  /** Connection e.c hands on the packet (epoch, sequence) received in the session named `key`. */
  predicate HandsOn(w: World, e: Event, key: SessionKey, epoch: u32, sequence: nat) {
    && e.Decrypt? && Works(w, e.c) && w.conns[e.c].sessionKey == Some(key)
    && Delivery.Delivered(w.sessions[key].traffic, TrafficStep(key, e), key.Inbound(), epoch, sequence)
  }

  /** The event makes the session discard what it knew about the epoch. */
  predicate DiscardsEpoch(w: World, e: Event, key: SessionKey, epoch: u32)
    requires Enabled(w, e)
  {
    var steps := StepOn(w, e, key);
    key in w.sessions && steps != [] && Delivery.Discards(w.sessions[key].traffic, steps[0], key.Inbound(), epoch)
  }

  predicate EventInRange(bases: Delivery.Bases, w: World, e: Event, key: SessionKey)
    requires Enabled(w, e)
  {
    var steps := StepOn(w, e, key);
    steps != [] ==> Delivery.StepInRange(bases, steps[0])
  }

  /** The session refuses the packet, and its windows are in range. */
  ghost predicate Refusing(bases: Delivery.Bases, w: World, key: SessionKey, root: Key32, epoch: u32, sequence: nat) {
    && root in w.issued
    && (Uses(w, key, root) ==>
         && Delivery.StateInRange(bases, w.sessions[key].traffic)
         && Delivery.Refuses(Delivery.Recall(w.sessions[key].traffic, key.Inbound(), epoch), sequence))
  }

  lemma RefusingStays(bases: Delivery.Bases, w: World, e: Event, key: SessionKey, root: Key32, epoch: u32, sequence: nat)
    requires Sound(w) && Enabled(w, e) && EventInRange(bases, w, e, key)
    requires InRange(bases(key.Inbound(), epoch), sequence)
    requires Refusing(bases, w, key, root, epoch, sequence) && !DiscardsEpoch(w, e, key, epoch)
    ensures Refusing(bases, Apply(w, e), key, root, epoch, sequence)
  {
    IssuedGrows(w, e);
    if Uses(Apply(w, e), key, root) {
      EventOnSession(w, e, key);
      TrafficRefuses(bases, w.sessions[key].traffic, StepOn(w, e, key), key.Inbound(), epoch, sequence);
    }
  }

  lemma TrafficRefuses(bases: Delivery.Bases, t: State, steps: seq<Step>, d: Dir, epoch: u32, sequence: nat)
    requires Delivery.StateInRange(bases, t) && InRange(bases(d, epoch), sequence)
    requires Delivery.Refuses(Delivery.Recall(t, d, epoch), sequence)
    requires steps != [] ==> Delivery.StepInRange(bases, steps[0]) && !Delivery.Discards(t, steps[0], d, epoch)
    ensures Delivery.StateInRange(bases, Stepped(t, steps))
    ensures Delivery.Refuses(Delivery.Recall(Stepped(t, steps), d, epoch), sequence)
  {
    if steps != [] {
      Delivery.NextInRange(bases, t, steps[0]);
      Delivery.StepKeepsRefusing(bases, t, steps[0], d, epoch, sequence);
    }
  }

  lemma HandedOnIsRefused(bases: Delivery.Bases, w: World, e: Event, key: SessionKey, root: Key32, epoch: u32, sequence: nat)
    requires Sound(w) && Enabled(w, e) && EventInRange(bases, w, e, key) && Uses(w, key, root)
    requires Delivery.StateInRange(bases, w.sessions[key].traffic) && HandsOn(w, e, key, epoch, sequence)
    ensures Refusing(bases, Apply(w, e), key, root, epoch, sequence)
    ensures InRange(bases(key.Inbound(), epoch), sequence)
  {
    var t, step := w.sessions[key].traffic, TrafficStep(key, e);
    assert StepOn(w, e, key) == [step];
    Delivery.NextInRange(bases, t, step);
    Delivery.DeliveryIsRecorded(bases, t, step, key.Inbound(), epoch, sequence);
  }

  ghost predicate AllInRange(bases: Delivery.Bases, ws: seq<World>, events: seq<Event>, key: SessionKey)
    requires IsRun(ws, events)
  {
    forall k {:trigger events[k]} :: 0 <= k < |events| ==> EventInRange(bases, ws[k], events[k], key)
  }

  ghost predicate NoDiscardBetween(ws: seq<World>, events: seq<Event>, i: nat, j: nat, key: SessionKey, epoch: u32)
    requires IsRun(ws, events)
  {
    forall k {:trigger events[k]} :: i < k <= j && k < |events| ==> !DiscardsEpoch(ws[k], events[k], key, epoch)
  }

  lemma {:induction false} RefusingUntil(bases: Delivery.Bases, ws: seq<World>, events: seq<Event>, i: nat, j: nat, key: SessionKey, root: Key32, epoch: u32, sequence: nat)
    requires IsRun(ws, events) && Sound(ws[0]) && i < j <= |events| && AllInRange(bases, ws, events, key)
    requires InRange(bases(key.Inbound(), epoch), sequence)
    requires Refusing(bases, ws[i + 1], key, root, epoch, sequence) && NoDiscardBetween(ws, events, i, j - 1, key, epoch)
    ensures Refusing(bases, ws[j], key, root, epoch, sequence)
    decreases j
  {
    if i + 1 < j {
      RefusingUntil(bases, ws, events, i, j - 1, key, root, epoch, sequence);
      RunKeepsSound(ws, events, j - 1);
      RefusingStays(bases, ws[j - 1], events[j - 1], key, root, epoch, sequence);
    }
  }

  /**
   At-most-once delivery across connections: if two calls, by whatever connections, hand on
   the same (epoch, sequence) of one session, some event after the first and no later than
   the second made that session discard its memory of the epoch.
   */
  lemma SharedSessionDeliversAtMostOnce(bases: Delivery.Bases, ws: seq<World>, events: seq<Event>, i: nat, j: nat, key: SessionKey, root: Key32, epoch: u32, sequence: nat)
    requires IsRun(ws, events) && Sound(ws[0]) && i < j < |events| && AllInRange(bases, ws, events, key)
    requires Uses(ws[i], key, root) && Delivery.StateInRange(bases, ws[i].sessions[key].traffic)
    requires HandsOn(ws[i], events[i], key, epoch, sequence)
    requires Uses(ws[j], key, root) && HandsOn(ws[j], events[j], key, epoch, sequence)
    ensures !NoDiscardBetween(ws, events, i, j, key, epoch)
  {
    if NoDiscardBetween(ws, events, i, j, key, epoch) {
      RunKeepsSound(ws, events, i);
      HandedOnIsRefused(bases, ws[i], events[i], key, root, epoch, sequence);
      RefusingUntil(bases, ws, events, i, j, key, root, epoch, sequence);
      RefusedIsNotHandedOn(bases, ws[j], events[j], key, root, epoch, sequence);
    }
  }

  lemma RefusedIsNotHandedOn(bases: Delivery.Bases, w: World, e: Event, key: SessionKey, root: Key32, epoch: u32, sequence: nat)
    requires Enabled(w, e) && EventInRange(bases, w, e, key) && Uses(w, key, root)
    requires InRange(bases(key.Inbound(), epoch), sequence)
    requires Refusing(bases, w, key, root, epoch, sequence) && !DiscardsEpoch(w, e, key, epoch)
    ensures !HandsOn(w, e, key, epoch, sequence)
  {
    if HandsOn(w, e, key, epoch, sequence) {
      assert StepOn(w, e, key) == [TrafficStep(key, e)];
      Delivery.StepKeepsRefusing(bases, w.sessions[key].traffic, TrafficStep(key, e), key.Inbound(), epoch, sequence);
    }
  }

  // ----- Exactly-once delivery across connections -----

  /** A working connection of the session offers a genuine packet of the epoch. */
  predicate Offers(w: World, e: Event, key: SessionKey, epoch: u32) {
    e.Decrypt? && Works(w, e.c) && w.conns[e.c].sessionKey == Some(key) && e.epoch == epoch && e.opens
  }

  ghost function HandedOnBy(w: World, e: Event, key: SessionKey, epoch: u32): set<nat> {
    if e.Decrypt? && HandsOn(w, e, key, epoch, e.sequence) then {e.sequence} else {}
  }

  /** The sequences of the epoch that calls on the session, by any connection, hand on from event i up to event n. */
  ghost function HandedOnSet(ws: seq<World>, events: seq<Event>, i: nat, n: nat, key: SessionKey, epoch: u32): set<nat>
    requires n <= |events| < |ws|
    decreases n
  {
    if n <= i then {} else HandedOnSet(ws, events, i, n - 1, key, epoch) + HandedOnBy(ws[n - 1], events[n - 1], key, epoch)
  }

  /** The event's step on the session, if any, is in range and forgets no live epoch. */
  predicate QuietEvent(bases: Delivery.Bases, w: World, e: Event, key: SessionKey)
    requires Enabled(w, e)
  {
    var steps := StepOn(w, e, key);
    key in w.sessions && steps != [] ==> Delivery.StepInRange(bases, steps[0]) && Delivery.Quiet(w.sessions[key].traffic, steps[0])
  }

  ghost predicate QuietBetween(bases: Delivery.Bases, ws: seq<World>, events: seq<Event>, i: nat, n: nat, key: SessionKey)
    requires IsRun(ws, events)
  {
    forall k {:trigger events[k]} :: i <= k < n && k < |events| ==> QuietEvent(bases, ws[k], events[k], key)
  }

  /** The session remembers of the epoch exactly what has been delivered. */
  ghost predicate Remembers(bases: Delivery.Bases, t: State, d: Dir, epoch: u32, delivered: set<nat>) {
    Delivery.StateInRange(bases, t) && Delivery.OrderedState(t) && Delivery.Agrees(Delivery.Recall(t, d, epoch), delivered)
  }

  lemma TrafficRemembers(bases: Delivery.Bases, t: State, steps: seq<Step>, d: Dir, epoch: u32, delivered: set<nat>, gained: set<nat>)
    requires Remembers(bases, t, d, epoch, delivered)
    requires steps != [] ==> Delivery.StepInRange(bases, steps[0]) && Delivery.Quiet(t, steps[0])
    requires gained == if steps == [] then {} else Delivery.DeliveredBy(t, steps[0], d, epoch)
    ensures Remembers(bases, Stepped(t, steps), d, epoch, delivered + gained)
  {
    if steps == [] {
      assert delivered + gained == delivered;
    } else {
      Delivery.QuietStepSummarises(bases, t, steps[0], d, epoch, delivered);
    }
  }

  lemma HandedOnIsDelivered(w: World, e: Event, key: SessionKey, epoch: u32)
    requires Enabled(w, e) && key in w.sessions
    ensures var steps := StepOn(w, e, key);
            HandedOnBy(w, e, key, epoch) == if steps == [] then {} else Delivery.DeliveredBy(w.sessions[key].traffic, steps[0], key.Inbound(), epoch)
  {
  }

  lemma EventRemembers(bases: Delivery.Bases, w: World, e: Event, key: SessionKey, root: Key32, epoch: u32, delivered: set<nat>)
    requires Sound(w) && Enabled(w, e) && Uses(w, key, root) && Uses(Apply(w, e), key, root) && QuietEvent(bases, w, e, key)
    requires Remembers(bases, w.sessions[key].traffic, key.Inbound(), epoch, delivered)
    ensures Remembers(bases, Apply(w, e).sessions[key].traffic, key.Inbound(), epoch, delivered + HandedOnBy(w, e, key, epoch))
  {
    EventOnSession(w, e, key);
    HandedOnIsDelivered(w, e, key, epoch);
    TrafficRemembers(bases, w.sessions[key].traffic, StepOn(w, e, key), key.Inbound(), epoch, delivered, HandedOnBy(w, e, key, epoch));
  }

  lemma {:induction false} IssuedUntil(ws: seq<World>, events: seq<Event>, i: nat, n: nat, root: Key32)
    requires IsRun(ws, events) && i <= n <= |events| && root in ws[i].issued
    ensures root in ws[n].issued
    decreases n
  {
    if i < n {
      IssuedUntil(ws, events, i, n - 1, root);
      var w, e := ws[n - 1], events[n - 1];
      IssuedGrows(w, e);
    }
  }

  /** A root key is never used again, so a session that has an issued one had it before the event. */
  lemma StepBack(ws: seq<World>, events: seq<Event>, i: nat, key: SessionKey, root: Key32)
    requires IsRun(ws, events) && Sound(ws[0]) && i < |events| && root in ws[i].issued && Uses(ws[i + 1], key, root)
    ensures Uses(ws[i], key, root)
  {
    RunKeepsSound(ws, events, i);
    var w, e := ws[i], events[i];
    EventOnSession(w, e, key);
  }

  lemma UsedBefore(ws: seq<World>, events: seq<Event>, i: nat, n: nat, key: SessionKey, root: Key32)
    requires IsRun(ws, events) && Sound(ws[0]) && i < n <= |events| && Uses(ws[i], key, root) && Uses(ws[n], key, root)
    ensures Uses(ws[n - 1], key, root)
  {
    RunKeepsSound(ws, events, i);
    IssuedUntil(ws, events, i, n - 1, root);
    StepBack(ws, events, n - 1, key, root);
  }

  /** The session remembers at n what it remembered at i and what has been handed on since. */
  ghost predicate RemembersSince(bases: Delivery.Bases, ws: seq<World>, events: seq<Event>, i: nat, n: nat, key: SessionKey, epoch: u32, before: set<nat>)
    requires n <= |events| < |ws|
  {
    key in ws[n].sessions && Remembers(bases, ws[n].sessions[key].traffic, key.Inbound(), epoch, before + HandedOnSet(ws, events, i, n, key, epoch))
  }

  lemma StepRemembers(bases: Delivery.Bases, ws: seq<World>, events: seq<Event>, i: nat, n: nat, key: SessionKey, root: Key32, epoch: u32, before: set<nat>)
    requires IsRun(ws, events) && Sound(ws[0]) && i <= n < |events| && QuietBetween(bases, ws, events, n, n + 1, key)
    requires Uses(ws[n], key, root) && Uses(ws[n + 1], key, root) && RemembersSince(bases, ws, events, i, n, key, epoch, before)
    ensures RemembersSince(bases, ws, events, i, n + 1, key, epoch, before)
  {
    RunKeepsSound(ws, events, n);
    var w, e, earlier := ws[n], events[n], HandedOnSet(ws, events, i, n, key, epoch);
    EventRemembers(bases, w, e, key, root, epoch, before + earlier);
    assert before + earlier + HandedOnBy(w, e, key, epoch) == before + (earlier + HandedOnBy(w, e, key, epoch));
  }

  lemma QuietSplits(bases: Delivery.Bases, ws: seq<World>, events: seq<Event>, i: nat, n: nat, key: SessionKey)
    requires IsRun(ws, events) && i <= n && QuietBetween(bases, ws, events, i, n + 1, key)
    ensures QuietBetween(bases, ws, events, i, n, key) && QuietBetween(bases, ws, events, n, n + 1, key)
  {
  }

  lemma {:induction false} RemembersUntil(bases: Delivery.Bases, ws: seq<World>, events: seq<Event>, i: nat, n: nat, key: SessionKey, root: Key32, epoch: u32, before: set<nat>)
    requires IsRun(ws, events) && Sound(ws[0]) && i <= n <= |events| && QuietBetween(bases, ws, events, i, n, key)
    requires Uses(ws[i], key, root) && Uses(ws[n], key, root) && RemembersSince(bases, ws, events, i, i, key, epoch, before)
    ensures RemembersSince(bases, ws, events, i, n, key, epoch, before)
    decreases n
  {
    if i < n {
      UsedBefore(ws, events, i, n, key, root);
      QuietSplits(bases, ws, events, i, n - 1, key);
      RemembersUntil(bases, ws, events, i, n - 1, key, root, epoch, before);
      StepRemembers(bases, ws, events, i, n - 1, key, root, epoch, before);
    }
  }

  /**
   Over every quiet interleaving of connections that share a session, the session remembers of an
   epoch exactly what any of their calls has handed on.
   */
  lemma SharedSessionRemembers(bases: Delivery.Bases, ws: seq<World>, events: seq<Event>, i: nat, n: nat, key: SessionKey, root: Key32, epoch: u32, before: set<nat>)
    requires IsRun(ws, events) && Sound(ws[0]) && i <= n <= |events| && QuietBetween(bases, ws, events, i, n, key)
    requires Uses(ws[i], key, root) && Uses(ws[n], key, root)
    requires Remembers(bases, ws[i].sessions[key].traffic, key.Inbound(), epoch, before)
    ensures RemembersSince(bases, ws, events, i, n, key, epoch, before)
  {
    assert before + {} == before;
    RemembersUntil(bases, ws, events, i, n, key, root, epoch, before);
  }

  lemma CallIsDue(bases: Delivery.Bases, w: World, e: Event, key: SessionKey, epoch: u32, delivered: set<nat>)
    requires Enabled(w, e) && key in w.sessions && QuietEvent(bases, w, e, key) && Offers(w, e, key, epoch)
    requires Remembers(bases, w.sessions[key].traffic, key.Inbound(), epoch, delivered)
    ensures HandsOn(w, e, key, epoch, e.sequence) <==> Delivery.Due(w.sessions[key].traffic, key.Inbound(), epoch, e.sequence, delivered)
  {
    assert StepOn(w, e, key) == [TrafficStep(key, e)];
    Delivery.QuietDeliversIffDue(bases, w.sessions[key].traffic, TrafficStep(key, e), key.Inbound(), epoch, delivered);
  }

  /**
   Exactly-once delivery across connections: over every quiet interleaving, a genuine packet that
   a connection of the session offers is handed on exactly when it is new and above everything
   that any connection has been handed of its epoch minus 256 (and, if the epoch is unknown, when
   it is let in), and never when the epoch is superseded.
   */
  lemma SharedSessionDeliversIffFresh(bases: Delivery.Bases, ws: seq<World>, events: seq<Event>, i: nat, n: nat, key: SessionKey, root: Key32, epoch: u32, before: set<nat>)
    requires IsRun(ws, events) && Sound(ws[0]) && i <= n < |events| && QuietBetween(bases, ws, events, i, n + 1, key)
    requires Uses(ws[i], key, root) && Uses(ws[n], key, root) && Offers(ws[n], events[n], key, epoch)
    requires Remembers(bases, ws[i].sessions[key].traffic, key.Inbound(), epoch, before)
    ensures HandsOn(ws[n], events[n], key, epoch, events[n].sequence) <==>
            Delivery.Due(ws[n].sessions[key].traffic, key.Inbound(), epoch, events[n].sequence, before + HandedOnSet(ws, events, i, n, key, epoch))
  {
    SharedSessionRemembers(bases, ws, events, i, n, key, root, epoch, before);
    var w, e := ws[n], events[n];
    CallIsDue(bases, w, e, key, epoch, before + HandedOnSet(ws, events, i, n, key, epoch));
  }

  predicate OffersAt(ws: seq<World>, events: seq<Event>, k: nat, key: SessionKey, epoch: u32) {
    k < |events| && k < |ws| && Offers(ws[k], events[k], key, epoch)
  }

  lemma {:induction false} HandedOnWereOffered(ws: seq<World>, events: seq<Event>, i: nat, n: nat, key: SessionKey, epoch: u32, sequence: nat)
    requires n <= |events| < |ws| && sequence in HandedOnSet(ws, events, i, n, key, epoch)
    ensures exists k :: i <= k < n && OffersAt(ws, events, k, key, epoch) && events[k].sequence == sequence
    decreases n
  {
    var w, e := ws[n - 1], events[n - 1];
    if sequence in HandedOnBy(w, e, key, epoch) {
      HandedOnWasOffered(w, e, key, epoch);
      assert OffersAt(ws, events, n - 1, key, epoch);
    } else {
      HandedOnWereOffered(ws, events, i, n - 1, key, epoch, sequence);
    }
  }

  lemma HandedOnWasOffered(w: World, e: Event, key: SessionKey, epoch: u32)
    requires HandedOnBy(w, e, key, epoch) != {}
    ensures Offers(w, e, key, epoch) && HandedOnBy(w, e, key, epoch) == {e.sequence}
  {
  }

  /** The packet of call n is new, and not too far behind any genuine packet offered before it. */
  ghost predicate TimelyCall(ws: seq<World>, events: seq<Event>, i: nat, n: nat, key: SessionKey, epoch: u32)
    requires IsRun(ws, events) && n < |events| && events[n].Decrypt?
  {
    forall k :: i <= k < n && OffersAt(ws, events, k, key, epoch) ==>
      events[k].sequence != events[n].sequence && events[k].sequence < events[n].sequence + SPAN
  }

  /** Nothing is lost across connections: a new packet, reordered by less than 256, is handed on while its epoch is held or let in. */
  lemma SharedSessionDeliversAll(bases: Delivery.Bases, ws: seq<World>, events: seq<Event>, i: nat, n: nat, key: SessionKey, root: Key32, epoch: u32, before: set<nat>)
    requires IsRun(ws, events) && Sound(ws[0]) && i <= n < |events| && QuietBetween(bases, ws, events, i, n + 1, key)
    requires Uses(ws[i], key, root) && Uses(ws[n], key, root) && Offers(ws[n], events[n], key, epoch)
    requires Remembers(bases, ws[i].sessions[key].traffic, key.Inbound(), epoch, before)
    requires TimelyCall(ws, events, i, n, key, epoch) && Fresh(before, events[n].sequence)
    ensures var t := ws[n].sessions[key].traffic;
            HandsOn(ws[n], events[n], key, epoch, events[n].sequence) <==>
              Delivery.Recall(t, key.Inbound(), epoch).Held? || Delivery.NewEpochLetIn(t, key.Inbound(), epoch)
  {
    SharedSessionDeliversIffFresh(bases, ws, events, i, n, key, root, epoch, before);
    TimelyAmongHandedOn(ws, events, i, n, key, epoch);
    Delivery.TimelyIsDue(ws[n].sessions[key].traffic, key.Inbound(), epoch, events[n].sequence, before, HandedOnSet(ws, events, i, n, key, epoch));
  }

  lemma TimelyAmongHandedOn(ws: seq<World>, events: seq<Event>, i: nat, n: nat, key: SessionKey, epoch: u32)
    requires IsRun(ws, events) && n < |events| && events[n].Decrypt? && TimelyCall(ws, events, i, n, key, epoch)
    ensures forall s :: s in HandedOnSet(ws, events, i, n, key, epoch) ==> s != events[n].sequence && s < events[n].sequence + SPAN
  {
    forall s | s in HandedOnSet(ws, events, i, n, key, epoch)
      ensures s != events[n].sequence && s < events[n].sequence + SPAN
    {
      HandedOnWereOffered(ws, events, i, n, key, epoch, s);
    }
  }
}
