/**
 The shared session store and the connections attached to it.

 A `World` is the store together with every live connection; an `Event` is one call made
 by one connection.  Any number of connections may share a session, and reconnects choose
 Create, Join or Sync.
 */
module SessionStore {
  import opened Common
  import opened Traffic

  const SESSION_IDLE_MS: nat := 60_000
  const MAX_STORED_SESSIONS: nat := 2_048
  const MAX_CONNECTIONS: nat := 2_048

  datatype SessionKey = SessionKey(networkName: string, peerId: u32, serverPeerId: u32, serverPublicKey: Key32) {
    /** The direction of packets from the server to the peer. */
    function Outbound(): Dir {
      DirectionIndex(serverPeerId, peerId)
    }

    function Inbound(): Dir {
      DirectionIndex(peerId, serverPeerId)
    }
  }

  datatype StoredSession = StoredSession(
    rootKey: Key32,
    generation: nat,
    traffic: State,
    clientAlgorithm: string,
    remotePublicKey: Option<Key32>,
    lastTouchMs: nat,
    attachments: nat)

  type Sessions = map<SessionKey, StoredSession>

  // ----- Choosing Create, Join or Sync -----

  datatype Action = Join | Sync | Create

  datatype Selection = Selection(
    action: Action,
    generation: nat,
    rootKeyForPeer: Option<Key32>,
    sessionRootKey: Key32,
    initialEpoch: u32)

  function Purged(ss: Sessions, now: nat): Sessions {
    map k | k in ss && (ss[k].attachments > 0 || SaturatingSub(now, ss[k].lastTouchMs) < SESSION_IDLE_MS) :: ss[k]
  }

  function Upsert(ss: Sessions, key: SessionKey, generation: Option<nat>, algorithm: string, now: nat, random: Key32): Result<Selection> {
    var kept := Purged(ss, now);
    if key in kept then
      var s := kept[key];
      if s.clientAlgorithm != algorithm then Err("reconnecting peer changed its secure-session encryption algorithm")
      else if generation == Some(s.generation) then Ok(Selection(Join, s.generation, None, s.rootKey, 0))
      else Ok(Selection(Action.Sync, s.generation, Some(s.rootKey), s.rootKey, Synced(s.traffic, now).sendEpoch))
    else if |kept| >= MAX_STORED_SESSIONS then Err("secure peer session capacity exceeded")
    else Ok(Selection(Create, 1, Some(random), random, 0))
  }

  function Upserted(ss: Sessions, key: SessionKey, generation: Option<nat>, algorithm: string, now: nat, random: Key32): Sessions {
    var kept := Purged(ss, now);
    match Upsert(ss, key, generation, algorithm, now, random)
    case Err(_) => kept
    case Ok(selection) =>
      if selection.action == Create then
        kept[key := StoredSession(random, 1, Created(now), algorithm, None, now, 0)]
      else if selection.action == Join then
        kept[key := kept[key].(lastTouchMs := now)]
      else
        kept[key := kept[key].(traffic := Synced(kept[key].traffic, now), lastTouchMs := now)]
  }

  // ----- Connections -----

  /** The part of a connection that matters to the store. */
  datatype Conn = Conn(sessionKey: Option<SessionKey>, attached: bool, authenticated: bool)

  datatype World = World(sessions: Sessions, conns: map<nat, Conn>, issued: set<Key32>)

  const EMPTY_WORLD := World(map[], map[], {})

  datatype Event =
    | Open(c: nat)
    | BuildMsg2(c: nat, key: SessionKey, generation: Option<nat>, algorithm: string, now: nat, random: Key32, written: bool)
    | FinishMsg3(c: nat, remotePublicKey: Key32, proved: bool, now: nat)
    | Encrypt(c: nat, now: nat)
    | Decrypt(c: nat, epoch: u32, sequence: nat, opens: bool, now: nat)
    | Drop(c: nat, now: nat)

  /** The upgrade handler refuses connection number 2049; fresh random keys do not repeat. */
  predicate Enabled(w: World, e: Event) {
    match e
    case Open(c) => c !in w.conns && |w.conns| < MAX_CONNECTIONS
    case BuildMsg2(c, _, _, _, _, random, _) => c in w.conns && random !in w.issued
    case FinishMsg3(c, _, _, _) => c in w.conns
    case Encrypt(c, _) => c in w.conns
    case Decrypt(c, _, _, _, _) => c in w.conns
    case Drop(c, _) => c in w.conns
  }

  /** The session an encrypt or decrypt call of connection c works on. */
  predicate Works(w: World, c: nat) {
    && c in w.conns && w.conns[c].authenticated
    && w.conns[c].sessionKey.Some? && w.conns[c].sessionKey.value in w.sessions
  }

  predicate KeyChanged(s: StoredSession, remotePublicKey: Key32) {
    s.remotePublicKey.Some? && s.remotePublicKey.value != remotePublicKey
  }

  /** The step an encrypt or decrypt call takes on the traffic state of its session. */
  function TrafficStep(key: SessionKey, e: Event): Step
    requires e.Encrypt? || e.Decrypt?
  {
    if e.Encrypt? then Send(key.Outbound(), e.now)
    else Receive(key.Inbound(), e.epoch, e.sequence, e.opens, e.now)
  }

  function Worked(w: World, e: Event): World
    requires (e.Encrypt? || e.Decrypt?) && Works(w, e.c)
  {
    var key := w.conns[e.c].sessionKey.value;
    var s := w.sessions[key];
    w.(sessions := w.sessions[key := s.(traffic := Next(s.traffic, TrafficStep(key, e)), lastTouchMs := e.now)])
  }

  function AttachedWorld(w: World, c: nat, key: SessionKey, now: nat): World
    requires c in w.conns && key in w.sessions
  {
    var s := w.sessions[key];
    w.(sessions := w.sessions[key := s.(attachments := s.attachments + 1, lastTouchMs := now)],
       conns := w.conns[c := w.conns[c].(sessionKey := Some(key), attached := true)])
  }

  function Apply(w: World, e: Event): World
    requires Enabled(w, e)
  {
    match e
    case Open(c) => w.(conns := w.conns[c := Conn(None, false, false)])
    case BuildMsg2(c, key, generation, algorithm, now, random, written) =>
      if w.conns[c].sessionKey.Some? then w
      else
        var ss := Upserted(w.sessions, key, generation, algorithm, now, random);
        var w1 := w.(sessions := ss, issued := w.issued + {random});
        if Upsert(w.sessions, key, generation, algorithm, now, random).Err? || !written then w1
        else if ss[key].attachments + 1 >= U32 then
          w1.(conns := w.conns[c := w.conns[c].(sessionKey := Some(key))])
        else
          AttachedWorld(w1, c, key, now)
    case FinishMsg3(c, remotePublicKey, proved, now) =>
      var key := w.conns[c].sessionKey;
      if !proved || key.None? || key.value !in w.sessions || KeyChanged(w.sessions[key.value], remotePublicKey) then w
      else
        var s := w.sessions[key.value];
        w.(sessions := w.sessions[key.value := s.(remotePublicKey := Some(remotePublicKey), lastTouchMs := now)],
           conns := w.conns[c := w.conns[c].(authenticated := true)])
    case Encrypt(c, now) =>
      if Works(w, c) then Worked(w, e) else w
    case Decrypt(c, _, _, _, now) =>
      if Works(w, c) then Worked(w, e) else w
    case Drop(c, now) =>
      var conn := w.conns[c];
      var rest := w.(conns := w.conns - {c});
      if conn.attached && conn.sessionKey.Some? && conn.sessionKey.value in w.sessions then
        var s := w.sessions[conn.sessionKey.value];
        rest.(sessions := w.sessions[conn.sessionKey.value :=
          s.(attachments := SaturatingSub(s.attachments, 1), lastTouchMs := now)])
      else rest
  }

  // ----- Attachment accounting -----

  ghost function Users(conns: map<nat, Conn>, key: SessionKey): set<nat> {
    set c | c in conns && conns[c].attached && conns[c].sessionKey == Some(key)
  }

  ghost predicate ConnsSound(w: World) {
    && |w.conns| <= MAX_CONNECTIONS
    && forall c :: c in w.conns ==>
         && (w.conns[c].attached <==> w.conns[c].sessionKey.Some?)
         && (w.conns[c].authenticated ==> w.conns[c].attached)
         && (w.conns[c].attached ==> w.conns[c].sessionKey.value in w.sessions)
  }

  ghost predicate Counted(w: World) {
    forall k :: k in w.sessions ==> w.sessions[k].attachments == |Users(w.conns, k)|
  }

  ghost predicate KeysDistinct(w: World) {
    && (forall k :: k in w.sessions ==> w.sessions[k].rootKey in w.issued)
    && (forall k, l :: k in w.sessions && l in w.sessions && w.sessions[k].rootKey == w.sessions[l].rootKey ==> k == l)
  }

  ghost predicate Sound(w: World) {
    ConnsSound(w) && Counted(w) && KeysDistinct(w) && |w.sessions| <= MAX_STORED_SESSIONS
  }

  lemma UsersBounded(conns: map<nat, Conn>, key: SessionKey)
    ensures |Users(conns, key)| <= |conns|
  {
    SubsetSize(Users(conns, key), conns.Keys);
  }

  /** Purging drops no session that has an attached connection. */
  lemma PurgeKeepsAttached(w: World, now: nat)
    requires Sound(w)
    ensures forall c :: c in w.conns && w.conns[c].attached ==> w.conns[c].sessionKey.value in Purged(w.sessions, now)
    ensures |Purged(w.sessions, now)| <= |w.sessions|
  {
    forall c | c in w.conns && w.conns[c].attached
      ensures w.conns[c].sessionKey.value in Purged(w.sessions, now)
    {
      assert c in Users(w.conns, w.conns[c].sessionKey.value);
    }
    SubsetSize(Purged(w.sessions, now).Keys, w.sessions.Keys);
  }

  lemma PurgedSound(w: World, now: nat, random: Key32)
    requires Sound(w)
    ensures Sound(w.(sessions := Purged(w.sessions, now), issued := w.issued + {random}))
  {
    PurgeKeepsAttached(w, now);
  }

  lemma CreatedCounted(w: World, key: SessionKey, created: StoredSession)
    requires ConnsSound(w) && Counted(w) && key !in w.sessions && created.attachments == 0
    ensures Counted(w.(sessions := w.sessions[key := created]))
  {
    assert Users(w.conns, key) == {};
  }

  lemma CreatedKeysDistinct(w: World, key: SessionKey, created: StoredSession)
    requires KeysDistinct(w) && created.rootKey in w.issued
    requires forall k :: k in w.sessions ==> w.sessions[k].rootKey != created.rootKey
    ensures KeysDistinct(w.(sessions := w.sessions[key := created]))
  {
  }

  lemma CreatedConns(w: World, key: SessionKey, created: StoredSession)
    requires ConnsSound(w) && key !in w.sessions
    ensures ConnsSound(w.(sessions := w.sessions[key := created]))
    ensures |w.sessions[key := created]| == |w.sessions| + 1
  {
    assert w.sessions[key := created].Keys == w.sessions.Keys + {key};
  }

  lemma CreatedSound(w: World, key: SessionKey, created: StoredSession)
    requires Sound(w) && key !in w.sessions && |w.sessions| < MAX_STORED_SESSIONS
    requires created.attachments == 0 && created.rootKey in w.issued
    requires forall k :: k in w.sessions ==> w.sessions[k].rootKey != created.rootKey
    ensures Sound(w.(sessions := w.sessions[key := created]))
  {
    CreatedCounted(w, key, created);
    CreatedKeysDistinct(w, key, created);
    CreatedConns(w, key, created);
  }

  /** A call that neither attaches nor detaches leaves the accounting as it is. */
  lemma ReplacedSound(w: World, key: SessionKey, s: StoredSession)
    requires Sound(w) && key in w.sessions
    requires s.attachments == w.sessions[key].attachments && s.rootKey == w.sessions[key].rootKey
    ensures Sound(w.(sessions := w.sessions[key := s]))
  {
  }

  /** A session survives a purge exactly when somebody is attached to it or it was touched less than a minute ago. */
  lemma PurgedIff(ss: Sessions, now: nat, k: SessionKey)
    ensures k in Purged(ss, now) <==> k in ss && Survives(ss[k], now)
    ensures k in Purged(ss, now) ==> Purged(ss, now)[k] == ss[k]
  {
  }

  predicate Survives(s: StoredSession, now: nat) {
    s.attachments > 0 || now < s.lastTouchMs + SESSION_IDLE_MS
  }

  /**
   What the selection tells the peer is what the table then holds: root key and generation, and,
   where the peer gets a root key, the send epoch.  A peer gets none exactly when it names the
   generation of a session that survives; that session then keeps its root key and its traffic.
   */
  lemma SelectionTellsTable(ss: Sessions, key: SessionKey, generation: Option<nat>, algorithm: string, now: nat, random: Key32)
    requires Upsert(ss, key, generation, algorithm, now, random).Ok?
    ensures var told, after := Upsert(ss, key, generation, algorithm, now, random).value, Upserted(ss, key, generation, algorithm, now, random);
      && key in after && after[key].clientAlgorithm == algorithm && after[key].lastTouchMs == now
      && told.sessionRootKey == after[key].rootKey && told.generation == after[key].generation
      && (told.action == Join <==> told.rootKeyForPeer == None)
      && (told.action != Join ==> told.rootKeyForPeer == Some(after[key].rootKey) && told.initialEpoch == after[key].traffic.sendEpoch)
      && (told.action == Create <==> key !in ss || !Survives(ss[key], now))
      && (told.action == Join ==> generation == Some(ss[key].generation) && after[key] == ss[key].(lastTouchMs := now))
      && (told.action == Action.Sync ==>
            generation != Some(ss[key].generation) && after[key] == ss[key].(traffic := after[key].traffic, lastTouchMs := now))
      && (told.action == Create ==> after[key] == StoredSession(random, 1, Created(now), algorithm, None, now, 0))
  {
    PurgedIff(ss, now, key);
  }

  /** The call is refused exactly when the peer changes the algorithm of a session that survives, or when there is no room for a new one. */
  lemma RefusedIff(ss: Sessions, key: SessionKey, generation: Option<nat>, algorithm: string, now: nat, random: Key32)
    ensures Upsert(ss, key, generation, algorithm, now, random).Err? <==>
      if key in ss && Survives(ss[key], now) then ss[key].clientAlgorithm != algorithm
      else |Purged(ss, now)| >= MAX_STORED_SESSIONS
  {
    PurgedIff(ss, now, key);
  }

  /** The root key a peer works with after message 2: the one it was sent, or its own. */
  function PeerRootKey(told: Selection, own: Key32): Key32 {
    if told.rootKeyForPeer.Some? then told.rootKeyForPeer.value else own
  }

  /** After message 2 both ends share the stored root key, exactly unless a peer joins with a key of its own that is not the stored one. */
  lemma PeerSharesRootKeyIff(ss: Sessions, key: SessionKey, generation: Option<nat>, algorithm: string, now: nat, random: Key32, own: Key32)
    requires Upsert(ss, key, generation, algorithm, now, random).Ok?
    ensures var told, after := Upsert(ss, key, generation, algorithm, now, random).value, Upserted(ss, key, generation, algorithm, now, random);
      PeerRootKey(told, own) == after[key].rootKey <==>
        !(key in ss && Survives(ss[key], now) && generation == Some(ss[key].generation)) || own == ss[key].rootKey
  {
    SelectionTellsTable(ss, key, generation, algorithm, now, random);
  }

  /** What the call leaves in the table, by its outcome. */
  lemma UpsertedBy(ss: Sessions, key: SessionKey, generation: Option<nat>, algorithm: string, now: nat, random: Key32)
    ensures var kept, r := Purged(ss, now), Upsert(ss, key, generation, algorithm, now, random);
            var after := Upserted(ss, key, generation, algorithm, now, random);
      if r.Err? then after == kept
      else
        && key in after && after == kept[key := after[key]]
        && (key in kept ==> after[key].attachments == kept[key].attachments && after[key].rootKey == kept[key].rootKey)
        && (key !in kept ==> after[key].attachments == 0 && after[key].rootKey == random && |kept| < MAX_STORED_SESSIONS)
  {
  }

  /** Create, Join and Sync all keep the accounting; a successful call leaves the session in the store. */
  lemma UpsertedSound(w: World, key: SessionKey, generation: Option<nat>, algorithm: string, now: nat, random: Key32)
    requires Sound(w) && random !in w.issued
    ensures Sound(w.(sessions := Upserted(w.sessions, key, generation, algorithm, now, random), issued := w.issued + {random}))
    ensures Upsert(w.sessions, key, generation, algorithm, now, random).Ok?
        ==> key in Upserted(w.sessions, key, generation, algorithm, now, random)
  {
    PurgedSound(w, now, random);
    UpsertedBy(w.sessions, key, generation, algorithm, now, random);
    OneSessionSound(w.(sessions := Purged(w.sessions, now), issued := w.issued + {random}), key,
                    Upserted(w.sessions, key, generation, algorithm, now, random), random, w.issued);
  }

  /** The table is as it was, or one session was touched or newly created under a fresh root key. */
  lemma OneSessionSound(kept: World, key: SessionKey, after: Sessions, random: Key32, issued: set<Key32>)
    requires Sound(kept) && random !in issued && kept.issued == issued + {random}
    requires forall k :: k in kept.sessions ==> kept.sessions[k].rootKey in issued
    requires after == kept.sessions
      || (&& key in after && after == kept.sessions[key := after[key]]
          && (key in kept.sessions ==>
                after[key].attachments == kept.sessions[key].attachments && after[key].rootKey == kept.sessions[key].rootKey)
          && (key !in kept.sessions ==>
                after[key].attachments == 0 && after[key].rootKey == random && |kept.sessions| < MAX_STORED_SESSIONS))
    ensures Sound(kept.(sessions := after))
  {
    if after != kept.sessions {
      if key in kept.sessions {
        ReplacedSound(kept, key, after[key]);
      } else {
        CreatedSound(kept, key, after[key]);
      }
    }
  }

  lemma AttachCounted(w: World, c: nat, key: SessionKey, now: nat)
    requires Counted(w) && c in w.conns && key in w.sessions
    requires w.conns[c].sessionKey == None
    ensures Counted(AttachedWorld(w, c, key, now))
  {
    var w' := AttachedWorld(w, c, key, now);
    assert Users(w'.conns, key) == Users(w.conns, key) + {c};
    forall k | k != key
      ensures Users(w'.conns, k) == Users(w.conns, k)
    {
    }
  }

  /** One more connection attaches to a session. */
  lemma AttachSound(w: World, c: nat, key: SessionKey, now: nat)
    requires Sound(w) && c in w.conns && w.conns[c].sessionKey == None && key in w.sessions
    ensures Sound(AttachedWorld(w, c, key, now))
  {
    var w' := AttachedWorld(w, c, key, now);
    AttachCounted(w, c, key, now);
    assert w'.sessions.Keys == w.sessions.Keys && w'.conns.Keys == w.conns.Keys;
    assert |w'.conns| == |w'.conns.Keys| && |w'.sessions| == |w'.sessions.Keys|;
    assert ConnsSound(w');
  }

  lemma DroppedUsers(conns: map<nat, Conn>, c: nat, k: SessionKey)
    ensures Users(conns - {c}, k) == Users(conns, k) - {c}
  {
  }

  lemma DropCounted(w: World, e: Event)
    requires ConnsSound(w) && Counted(w) && e.Drop? && Enabled(w, e)
    ensures Counted(Apply(w, e))
    ensures w.conns[e.c].attached ==> w.sessions[w.conns[e.c].sessionKey.value].attachments >= 1
  {
    var w' := Apply(w, e);
    assert w'.conns == w.conns - {e.c};
    forall k | k in w'.sessions
      ensures w'.sessions[k].attachments == |Users(w'.conns, k)|
    {
      DroppedUsers(w.conns, e.c, k);
    }
    if w.conns[e.c].attached {
      assert e.c in Users(w.conns, w.conns[e.c].sessionKey.value);
    }
  }

  lemma FewerConns(w: World, after: World, c: nat)
    requires ConnsSound(w) && after.conns == w.conns - {c} && after.sessions.Keys == w.sessions.Keys
    ensures ConnsSound(after)
  {
    SubsetSize(after.conns.Keys, w.conns.Keys);
  }

  lemma SameKeysDistinct(w: World, after: World)
    requires KeysDistinct(w) && after.issued == w.issued && after.sessions.Keys == w.sessions.Keys
    requires forall k :: k in w.sessions ==> after.sessions[k].rootKey == w.sessions[k].rootKey
    ensures KeysDistinct(after) && |after.sessions| == |w.sessions|
  {
    assert |after.sessions| == |after.sessions.Keys| && |w.sessions| == |w.sessions.Keys|;
  }

  /** A drop removes one connection, and of the sessions changes no name and no root key. */
  lemma DropShape(w: World, e: Event)
    requires e.Drop? && Enabled(w, e)
    ensures var after := Apply(w, e);
      && after.conns == w.conns - {e.c} && after.issued == w.issued && after.sessions.Keys == w.sessions.Keys
      && forall k :: k in w.sessions ==> after.sessions[k].rootKey == w.sessions[k].rootKey
  {
  }

  lemma DropSound(w: World, e: Event)
    requires Sound(w) && e.Drop? && Enabled(w, e)
    ensures Sound(Apply(w, e))
  {
    var after := Apply(w, e);
    DropShape(w, e);
    DropCounted(w, e);
    FewerConns(w, after, e.c);
    SameKeysDistinct(w, after);
  }

  lemma AuthenticatedSound(w: World, c: nat)
    requires Sound(w) && c in w.conns && w.conns[c].attached
    ensures Sound(w.(conns := w.conns[c := w.conns[c].(authenticated := true)]))
  {
    var conns := w.conns[c := w.conns[c].(authenticated := true)];
    forall k
      ensures Users(conns, k) == Users(w.conns, k)
    {
    }
    assert conns.Keys == w.conns.Keys && |conns| == |conns.Keys|;
  }

  lemma OpenConns(w: World, e: Event)
    requires ConnsSound(w) && e.Open? && Enabled(w, e)
    ensures ConnsSound(Apply(w, e))
  {
  }

  lemma OpenCounted(w: World, e: Event)
    requires Counted(w) && e.Open? && Enabled(w, e)
    ensures Counted(Apply(w, e))
  {
    forall k
      ensures Users(Apply(w, e).conns, k) == Users(w.conns, k)
    {
    }
  }

  lemma BuildMsg2Sound(w: World, e: Event)
    requires Sound(w) && e.BuildMsg2? && Enabled(w, e)
    ensures Sound(Apply(w, e))
    ensures var ss := Upserted(w.sessions, e.key, e.generation, e.algorithm, e.now, e.random);
            (w.conns[e.c].sessionKey.None? && Upsert(w.sessions, e.key, e.generation, e.algorithm, e.now, e.random).Ok?)
              ==> (e.key in ss && ss[e.key].attachments + 1 < U32)
  {
    var ss := Upserted(w.sessions, e.key, e.generation, e.algorithm, e.now, e.random);
    var w1 := w.(sessions := ss, issued := w.issued + {e.random});
    if w.conns[e.c].sessionKey.None? {
      UpsertedSound(w, e.key, e.generation, e.algorithm, e.now, e.random);
      if Upsert(w.sessions, e.key, e.generation, e.algorithm, e.now, e.random).Ok? {
        UsersBounded(w1.conns, e.key);
        if e.written {
          AttachSound(w1, e.c, e.key, e.now);
        }
      }
    }
  }

  lemma WorkedSound(w: World, e: Event)
    requires Sound(w) && (e.Encrypt? || e.Decrypt?) && Enabled(w, e)
    ensures Sound(Apply(w, e))
  {
    if Works(w, e.c) {
      var key := w.conns[e.c].sessionKey.value;
      ReplacedSound(w, key, Worked(w, e).sessions[key]);
    }
  }

  /**
   Every event keeps the accounting: a session's counter is the number of live connections
   attached to it, attached sessions exist, and the store stays within its capacity.
   */
  lemma EventKeepsSound(w: World, e: Event)
    requires Sound(w) && Enabled(w, e)
    ensures Sound(Apply(w, e))
  {
    var w' := Apply(w, e);
    match e
    case Open(_) =>
      OpenConns(w, e);
      OpenCounted(w, e);
    case BuildMsg2(_, _, _, _, _, _, _) => BuildMsg2Sound(w, e);
    case FinishMsg3(c, remotePublicKey, _, now) =>
      if w' != w {
        var key := w.conns[c].sessionKey.value;
        var s := w.sessions[key].(remotePublicKey := Some(remotePublicKey), lastTouchMs := now);
        ReplacedSound(w, key, s);
        AuthenticatedSound(w.(sessions := w.sessions[key := s]), c);
      }
    case Encrypt(c, _) => WorkedSound(w, e);
    case Decrypt(c, _, _, _, _) => WorkedSound(w, e);
    case Drop(_, _) => DropSound(w, e);
  }
}
