/** Who has proved which key, and when a session ends, told from the calls that were made. */
module SessionLife {
  import opened Common
  import opened SessionStore
  import opened StoreRuns

  // ----- Authentication -----

  /** Connection c ends its handshake with a proof of `proof`, which its session has pinned or, having pinned none, now pins. */
  predicate Confirms(w: World, e: Event, c: nat, proof: Key32) {
    && e.FinishMsg3? && e.c == c && e.remotePublicKey == proof && e.proved
    && c in w.conns && w.conns[c].sessionKey.Some? && w.conns[c].sessionKey.value in w.sessions
    && w.sessions[w.conns[c].sessionKey.value].remotePublicKey in {None, Some(proof)}
  }

  ghost predicate Authenticated(w: World, c: nat) {
    c in w.conns && w.conns[c].authenticated
  }

  /** A connection becomes authenticated only by such a proof, and stays so until it is dropped. */
  lemma AuthenticatedIff(w: World, e: Event, c: nat)
    requires Enabled(w, e)
    ensures Authenticated(Apply(w, e), c) <==>
      (Authenticated(w, c) && !(e.Drop? && e.c == c)) || (e.FinishMsg3? && Confirms(w, e, c, e.remotePublicKey))
  {
  }

  /** The session named `key`, if it is still the one under `root`, has pinned the proof. */
  predicate Pins(w: World, key: SessionKey, root: Key32, proof: Key32) {
    key in w.sessions && w.sessions[key].rootKey == root ==> w.sessions[key].remotePublicKey == Some(proof)
  }

  lemma PinStays(w: World, e: Event, key: SessionKey, root: Key32, proof: Key32)
    requires Enabled(w, e) && root in w.issued && Pins(w, key, root, proof)
    ensures Pins(Apply(w, e), key, root, proof)
  {
    if e.BuildMsg2? {
      UpsertedBy(w.sessions, e.key, e.generation, e.algorithm, e.now, e.random);
      if Upsert(w.sessions, e.key, e.generation, e.algorithm, e.now, e.random).Ok? {
        SelectionTellsTable(w.sessions, e.key, e.generation, e.algorithm, e.now, e.random);
      }
    }
  }

  /** Once a session has pinned a key, it never has another one while its root key is in use. */
  lemma {:induction false} PinnedForGood(ws: seq<World>, events: seq<Event>, i: nat, n: nat, key: SessionKey, root: Key32, proof: Key32)
    requires IsRun(ws, events) && i <= n <= |events| && root in ws[i].issued && Pins(ws[i], key, root, proof)
    ensures Pins(ws[n], key, root, proof)
    decreases n
  {
    if i < n {
      PinnedForGood(ws, events, i, n - 1, key, root, proof);
      IssuedUntil(ws, events, i, n - 1, root);
      var w, e := ws[n - 1], events[n - 1];
      PinStays(w, e, key, root, proof);
    }
  }

  predicate ConfirmsAt(ws: seq<World>, events: seq<Event>, i: nat, c: nat, proof: Key32) {
    i < |events| && i < |ws| && Confirms(ws[i], events[i], c, proof)
  }

  /** The connection, if authenticated, has proved the key that its session has pinned. */
  ghost predicate HasProved(ws: seq<World>, events: seq<Event>, n: nat, c: nat)
    requires n < |ws|
  {
    Authenticated(ws[n], c) ==>
      && ws[n].conns[c].sessionKey.Some? && ws[n].conns[c].sessionKey.value in ws[n].sessions
      && var pinned := ws[n].sessions[ws[n].conns[c].sessionKey.value].remotePublicKey;
         pinned.Some? && exists i: nat :: i < n && ConfirmsAt(ws, events, i, c, pinned.value)
  }

  lemma BuildEndsIff(w: World, e: Event, key: SessionKey, root: Key32)
    requires Enabled(w, e) && Uses(w, key, root) && root in w.issued && e.BuildMsg2? && w.conns[e.c].sessionKey == None
    ensures !Uses(Apply(w, e), key, root) <==> !Survives(w.sessions[key], e.now)
  {
    PurgedIff(w.sessions, e.now, key);
    UpsertedBy(w.sessions, e.key, e.generation, e.algorithm, e.now, e.random);
    if key in Apply(w, e).sessions {
      AttachKeepsTraffic(w, e, key);
    }
  }

  lemma EndsIff(w: World, e: Event, key: SessionKey, root: Key32)
    requires Sound(w) && Enabled(w, e) && Uses(w, key, root)
    ensures !Uses(Apply(w, e), key, root) <==> e.BuildMsg2? && w.conns[e.c].sessionKey == None && !Survives(w.sessions[key], e.now)
  {
    if e.BuildMsg2? && w.conns[e.c].sessionKey == None {
      BuildEndsIff(w, e, key, root);
    }
  }

  lemma NameStays(w: World, e: Event, c: nat)
    requires Enabled(w, e) && c in w.conns && w.conns[c].sessionKey.Some? && c in Apply(w, e).conns
    ensures Apply(w, e).conns[c].sessionKey == w.conns[c].sessionKey
  {
  }

  /** An authenticated connection keeps its session, under the same root key. */
  lemma StaysAttached(w: World, e: Event, c: nat)
    requires Sound(w) && Enabled(w, e) && Authenticated(w, c) && Authenticated(Apply(w, e), c)
    ensures var after, key := Apply(w, e), w.conns[c].sessionKey;
      && key.Some? && key.value in w.sessions && after.conns[c].sessionKey == key
      && Uses(after, key.value, w.sessions[key.value].rootKey)
  {
    var key := w.conns[c].sessionKey.value;
    NameStays(w, e, c);
    assert c in Users(w.conns, key);
    EndsIff(w, e, key, w.sessions[key].rootKey);
  }

  /** An authenticated connection keeps its session and, with it, the pinned key. */
  lemma StaysBound(w: World, e: Event, c: nat)
    requires Sound(w) && Enabled(w, e) && Authenticated(w, c) && Authenticated(Apply(w, e), c)
    requires w.sessions[w.conns[c].sessionKey.value].remotePublicKey.Some?
    ensures var after, key := Apply(w, e), w.conns[c].sessionKey;
      after.conns[c].sessionKey == key && key.value in after.sessions
      && after.sessions[key.value].remotePublicKey == w.sessions[key.value].remotePublicKey
  {
    StaysAttached(w, e, c);
    var key := w.conns[c].sessionKey.value;
    PinStays(w, e, key, w.sessions[key].rootKey, w.sessions[key].remotePublicKey.value);
  }

  lemma ConfirmingPins(w: World, e: Event, c: nat, proof: Key32)
    requires Enabled(w, e) && Confirms(w, e, c, proof)
    ensures var after, key := Apply(w, e), w.conns[c].sessionKey;
      c in after.conns && after.conns[c].sessionKey == key && key.value in after.sessions && after.sessions[key.value].remotePublicKey == Some(proof)
  {
  }

  /**
   In every run from the empty store, a connection that is authenticated has ended its handshake
   with a proof of the very key that its session has pinned; so all that share a session have
   proved one key.
   */
  lemma {:induction false} AuthenticatedHasProved(ws: seq<World>, events: seq<Event>, n: nat, c: nat)
    requires IsRun(ws, events) && ws[0] == EMPTY_WORLD && n <= |events|
    ensures HasProved(ws, events, n, c)
  {
    if n > 0 {
      AuthenticatedHasProved(ws, events, n - 1, c);
      assert Sound(EMPTY_WORLD);
      RunKeepsSound(ws, events, n - 1);
      StepHasProved(ws, events, n - 1, c);
    }
  }

  lemma StepHasProved(ws: seq<World>, events: seq<Event>, i: nat, c: nat)
    requires IsRun(ws, events) && i < |events| && Sound(ws[i]) && HasProved(ws, events, i, c)
    ensures HasProved(ws, events, i + 1, c)
  {
    var w, e := ws[i], events[i];
    if Authenticated(ws[i + 1], c) {
      AuthenticatedIff(w, e, c);
      if e.FinishMsg3? && Confirms(w, e, c, e.remotePublicKey) {
        ConfirmingPins(w, e, c, e.remotePublicKey);
        assert ConfirmsAt(ws, events, i, c, e.remotePublicKey);
      } else {
        StaysBound(w, e, c);
      }
    }
  }

  /** Only a connection that has proved its key seals or opens anything: for any other, the call changes nothing. */
  lemma OnlyProvedWork(ws: seq<World>, events: seq<Event>, n: nat)
    requires IsRun(ws, events) && ws[0] == EMPTY_WORLD && n < |events| && (events[n].Encrypt? || events[n].Decrypt?)
    requires ws[n + 1] != ws[n]
    ensures exists i: nat, proof :: i < n && ConfirmsAt(ws, events, i, events[n].c, proof)
  {
    var w, e := ws[n], events[n];
    AuthenticatedHasProved(ws, events, n, e.c);
    assert Authenticated(w, e.c);
  }

  // ----- The end of a session -----

  /** The call works on the session, or attaches to it or detaches from it. */
  ghost predicate UsesSession(w: World, e: Event, key: SessionKey)
    requires Enabled(w, e)
  {
    match e
    case Open(_) => false
    case BuildMsg2(c, k, _, algorithm, now, _, _) =>
      && k == key && w.conns[c].sessionKey == None
      && if key in w.sessions && Survives(w.sessions[key], now) then w.sessions[key].clientAlgorithm == algorithm
         else |Purged(w.sessions, now)| < MAX_STORED_SESSIONS
    case FinishMsg3(c, proof, _, _) => w.conns[c].sessionKey == Some(key) && Confirms(w, e, c, proof)
    case Encrypt(c, _) => w.conns[c].authenticated && w.conns[c].sessionKey == Some(key)
    case Decrypt(c, _, _, _, _) => w.conns[c].authenticated && w.conns[c].sessionKey == Some(key)
    case Drop(c, _) => w.conns[c].attached && w.conns[c].sessionKey == Some(key)
  }

  /** The time of the last of the first n calls that used the session. */
  ghost function LastUse(ws: seq<World>, events: seq<Event>, n: nat, key: SessionKey): nat
    requires IsRun(ws, events) && n <= |events|
  {
    if n == 0 then 0
    else if UsedAt(ws, events, n - 1, key) then events[n - 1].now
    else LastUse(ws, events, n - 1, key)
  }

  ghost predicate UsedAt(ws: seq<World>, events: seq<Event>, i: nat, key: SessionKey)
    requires IsRun(ws, events) && i < |events|
  {
    var w, e := ws[i], events[i];
    UsesSession(w, e, key) && !e.Open?
  }

  lemma UpsertTouches(ss: Sessions, e: Event, key: SessionKey)
    requires e.BuildMsg2? && key in Upserted(ss, e.key, e.generation, e.algorithm, e.now, e.random)
    ensures var after := Upserted(ss, e.key, e.generation, e.algorithm, e.now, e.random);
      if key == e.key && Upsert(ss, key, e.generation, e.algorithm, e.now, e.random).Ok? then after[key].lastTouchMs == e.now
      else key in ss && after[key].lastTouchMs == ss[key].lastTouchMs
  {
    UpsertedBy(ss, e.key, e.generation, e.algorithm, e.now, e.random);
    if Upsert(ss, e.key, e.generation, e.algorithm, e.now, e.random).Ok? {
      SelectionTellsTable(ss, e.key, e.generation, e.algorithm, e.now, e.random);
    }
  }

  /** Attaching to the chosen session is at the time it was chosen. */
  lemma AttachTouches(w: World, e: Event, key: SessionKey)
    requires Enabled(w, e) && e.BuildMsg2? && w.conns[e.c].sessionKey == None && key in Apply(w, e).sessions
    ensures var upserted := Upserted(w.sessions, e.key, e.generation, e.algorithm, e.now, e.random);
            var touched := Apply(w, e).sessions[key].lastTouchMs;
      && key in upserted
      && if key == e.key && Upsert(w.sessions, key, e.generation, e.algorithm, e.now, e.random).Ok? then touched in {e.now, upserted[key].lastTouchMs}
         else touched == upserted[key].lastTouchMs
  {
  }

  lemma BuildTouches(w: World, e: Event, key: SessionKey)
    requires Enabled(w, e) && e.BuildMsg2? && key in Apply(w, e).sessions
    ensures if UsesSession(w, e, key) then Apply(w, e).sessions[key].lastTouchMs == e.now
            else key in w.sessions && Apply(w, e).sessions[key].lastTouchMs == w.sessions[key].lastTouchMs
  {
    if w.conns[e.c].sessionKey == None {
      AttachTouches(w, e, key);
      UpsertTouches(w.sessions, e, key);
      RefusedIff(w.sessions, e.key, e.generation, e.algorithm, e.now, e.random);
    }
  }

  lemma EventTouches(w: World, e: Event, key: SessionKey)
    requires Sound(w) && Enabled(w, e) && key in Apply(w, e).sessions
    ensures if UsesSession(w, e, key) then !e.Open? && Apply(w, e).sessions[key].lastTouchMs == e.now
            else key in w.sessions && Apply(w, e).sessions[key].lastTouchMs == w.sessions[key].lastTouchMs
  {
    if e.BuildMsg2? {
      BuildTouches(w, e, key);
    } else if e.Encrypt? || e.Decrypt? {
      WorkTouches(w, e, key);
    }
  }

  lemma WorkTouches(w: World, e: Event, key: SessionKey)
    requires Sound(w) && Enabled(w, e) && (e.Encrypt? || e.Decrypt?) && key in Apply(w, e).sessions
    ensures if UsesSession(w, e, key) then Apply(w, e).sessions[key].lastTouchMs == e.now
            else key in w.sessions && Apply(w, e).sessions[key].lastTouchMs == w.sessions[key].lastTouchMs
  {
    assert ConnsSound(w);
  }

  /** A stored session's time stamp is the time of the last call that used it. */
  lemma {:induction false} TouchedAtLastUse(ws: seq<World>, events: seq<Event>, n: nat, key: SessionKey)
    requires IsRun(ws, events) && ws[0] == EMPTY_WORLD && n <= |events| && key in ws[n].sessions
    ensures ws[n].sessions[key].lastTouchMs == LastUse(ws, events, n, key)
  {
    assert n > 0;
    assert Sound(EMPTY_WORLD);
    RunKeepsSound(ws, events, n - 1);
    StepTouches(ws, events, n - 1, key);
    if !UsedAt(ws, events, n - 1, key) {
      TouchedAtLastUse(ws, events, n - 1, key);
    }
  }

  lemma StepTouches(ws: seq<World>, events: seq<Event>, i: nat, key: SessionKey)
    requires IsRun(ws, events) && i < |events| && Sound(ws[i]) && key in ws[i + 1].sessions
    ensures if UsedAt(ws, events, i, key) then ws[i + 1].sessions[key].lastTouchMs == events[i].now
            else key in ws[i].sessions && ws[i + 1].sessions[key].lastTouchMs == ws[i].sessions[key].lastTouchMs
  {
    var w, e := ws[i], events[i];
    EventTouches(w, e, key);
  }

  /**
   A session ends, its root key never to be used again, exactly at the first choice of a session that
   any peer makes when nobody is attached to it and its last use is a minute or more ago.
   */
  lemma SessionEndsIff(ws: seq<World>, events: seq<Event>, n: nat, key: SessionKey, root: Key32)
    requires IsRun(ws, events) && ws[0] == EMPTY_WORLD && n < |events| && Uses(ws[n], key, root)
    ensures !Uses(ws[n + 1], key, root) <==>
      && events[n].BuildMsg2? && ws[n].conns[events[n].c].sessionKey == None
      && Users(ws[n].conns, key) == {} && LastUse(ws, events, n, key) + SESSION_IDLE_MS <= events[n].now
  {
    assert Sound(EMPTY_WORLD);
    RunKeepsSound(ws, events, n);
    TouchedAtLastUse(ws, events, n, key);
    var w, e := ws[n], events[n];
    EndsIff(w, e, key, root);
  }
}
