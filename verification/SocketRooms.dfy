/** The room protocol of src/gateway/task.gateway.ts: live sockets, the user index, the per-socket lock,
    and synchronizations in flight.  A synchronization is split at its awaited membership lookup, so
    organization switches, heartbeats, connections and disconnections interleave between its halves. */
module SocketRooms {
  import opened Common

  type SocketId = nat
  type SyncId = nat

  /** A live socket: its data fields and the organization rooms it has joined. */
  datatype Socket = Socket(user: Option<UserId>, org: Option<OrgId>, role: Option<Role>, rooms: set<OrgId>)

  datatype Origin = FromSwitch | FromHeartbeat

  /** A synchronization waiting for its lookup, with the organization it saw before the await. */
  datatype Sync = Sync(socket: SocketId, before: Option<OrgId>, wanted: OrgId, origin: Origin)

  datatype Hub = Hub(
    sockets: map<SocketId, Socket>, seen: set<SocketId>, index: map<UserId, set<SocketId>>,
    locked: set<SocketId>, flying: map<SyncId, Sync>)

  const QUIET := Hub(map[], {}, map[], {}, map[])

  datatype Lookup = Failed | Absent | Found(role: Role)

  datatype Event =
    | Open(id: SocketId)
    | Establish(id: SocketId, user: UserId, org: OrgId, role: Role)
    | Close(id: SocketId)
    | CloseUser(user: UserId)
    | Start(sync: SyncId, id: SocketId, activeOrg: Option<OrgId>, origin: Origin)
    | Resume(sync: SyncId, lookup: Lookup)

  function IndexAdd(index: map<UserId, set<SocketId>>, user: UserId, id: SocketId): map<UserId, set<SocketId>> {
    index[user := (if user in index then index[user] else {}) + {id}]
  }

  function IndexRemove(index: map<UserId, set<SocketId>>, user: Option<UserId>, id: SocketId)
    : map<UserId, set<SocketId>>
  {
    if user == None || user.value !in index then index
    else if index[user.value] == {id} || index[user.value] == {} then index - {user.value}
    else index[user.value := index[user.value] - {id}]
  }

  /** A disconnection, whoever asked for it: the rooms are left, the index entry and the lock go. */
  function Drop(h: Hub, id: SocketId): Hub {
    if id !in h.sockets then h
    else h.(sockets := h.sockets - {id}, index := IndexRemove(h.index, h.sockets[id].user, id),
            locked := h.locked - {id})
  }

  /** The first half of a synchronization, up to the lookup.  What a closed socket still remembers is not
      kept: a synchronization of it may end at once, which is no step at all, or hold its lock for a while. */
  function Begin(h: Hub, sync: SyncId, id: SocketId, activeOrg: Option<OrgId>, origin: Origin): Hub {
    if sync in h.flying || id !in h.seen || id in h.locked then h
    else if activeOrg == None then Drop(h, id)
    else
      var before := if id in h.sockets then h.sockets[id].org else None;
      if before == activeOrg then h
      else h.(locked := h.locked + {id}, flying := h.flying[sync := Sync(id, before, activeOrg.value, origin)])
  }

  function Move(s: Socket, before: Option<OrgId>, wanted: OrgId, role: Role): Socket {
    s.(rooms := (if before.Some? then s.rooms - {before.value} else s.rooms) + {wanted}, org := Some(wanted),
       role := Some(role))
  }

  /** The second half: the lock is released whatever happens. */
  function End(h: Hub, sync: SyncId, lookup: Lookup): Hub {
    if sync !in h.flying then h
    else
      var f := h.flying[sync];
      var free := h.(locked := h.locked - {f.socket}, flying := h.flying - {sync});
      match lookup
      case Failed => if f.origin == FromSwitch then Drop(free, f.socket) else free
      case Absent => Drop(free, f.socket)
      case Found(role) =>
        if f.socket in h.sockets
        then free.(sockets := h.sockets[f.socket := Move(h.sockets[f.socket], f.before, f.wanted, role)])
        else free
  }

  function Next(h: Hub, e: Event): Hub {
    match e
    case Open(id) =>
      if id in h.seen then h else h.(sockets := h.sockets[id := Socket(None, None, None, {})], seen := h.seen + {id})
    case Establish(id, user, org, role) =>
      if id !in h.seen then h
      else if id !in h.sockets then h.(index := IndexAdd(h.index, user, id))
      else
        var s := h.sockets[id];
        h.(sockets := h.sockets[id := Socket(Some(user), Some(org), Some(role), s.rooms + {org})],
           index := IndexAdd(h.index, user, id))
    case Close(id) => Drop(h, id)
    case CloseUser(user) =>
      if user !in h.index then h
      else h.(sockets := h.sockets - h.index[user], locked := h.locked - h.index[user] * h.sockets.Keys,
              index := h.index - {user})
    case Start(sync, id, activeOrg, origin) => Begin(h, sync, id, activeOrg, origin)
    case Resume(sync, lookup) => End(h, sync, lookup)
  }

  // ------------------------------------------------------------------ the invariant

  /** A socket sits in exactly the room its data names. */
  predicate OneRoom(s: Socket) {
    s.rooms == (if s.org.Some? then {s.org.value} else {}) && (s.user.Some? ==> s.org.Some?)
  }

  ghost predicate InFlight(h: Hub, id: SocketId) {
    exists f :: f in h.flying && h.flying[f].socket == id
  }

  ghost predicate LocksExact(h: Hub) {
    && (forall f :: f in h.flying && h.flying[f].socket in h.sockets ==> h.flying[f].socket in h.locked)
    && (forall id :: id in h.locked ==> InFlight(h, id))
    && (forall f, g ::
          f in h.flying && g in h.flying && h.flying[f].socket == h.flying[g].socket &&
          h.flying[f].socket in h.sockets ==>
            f == g)
  }

  ghost predicate IndexExact(h: Hub) {
    && (forall u, id :: (u in h.index && id in h.index[u]) <==> (id in h.sockets && h.sockets[id].user == Some(u)))
    && (forall u :: u in h.index ==> h.index[u] != {})
  }

  /** The organization a move leaves is the one the socket is in, or there is none to leave and the socket is
      already where the move takes it. */
  predicate MayMove(s: Socket, before: Option<OrgId>, wanted: OrgId) {
    before == s.org || (before == None && s.org == Some(wanted))
  }

  /** A live socket has not been moved since its synchronization looked, or has reached its goal on the way. */
  ghost predicate BeforeIsCurrent(h: Hub) {
    forall f :: f in h.flying && h.flying[f].socket in h.sockets ==>
      MayMove(h.sockets[h.flying[f].socket], h.flying[f].before, h.flying[f].wanted)
  }

  ghost predicate RoomsExact(h: Hub) {
    && (forall id :: id in h.sockets ==> OneRoom(h.sockets[id]))
    && h.sockets.Keys <= h.seen && (forall f :: f in h.flying ==> h.flying[f].socket in h.seen)
  }

  ghost predicate Inv(h: Hub) {
    RoomsExact(h) && LocksExact(h) && IndexExact(h) && BeforeIsCurrent(h)
  }

  /** The tail of a connection may run when the socket is still connected, and every synchronization that
      came before it, moved or still in flight, heads for the very organization the tail is about to join. */
  ghost predicate TailIsSafe(h: Hub, id: SocketId, user: UserId, org: OrgId) {
    id in h.sockets && h.sockets[id].user in {None, Some(user)} &&
    (h.sockets[id].org == Some(org) || (h.sockets[id].org == None && Headed(h, id, org)))
  }

  ghost predicate Headed(h: Hub, id: SocketId, org: OrgId) {
    forall f :: f in h.flying && h.flying[f].socket == id ==> h.flying[f].wanted == org
  }

  lemma DropKeepsLocks(h: Hub, id: SocketId)
    requires LocksExact(h)
    ensures LocksExact(Drop(h, id))
  {
    var h' := Drop(h, id);
    forall x | x in h'.locked ensures InFlight(h', x) {
      var f :| f in h.flying && h.flying[f].socket == x;
      assert h'.flying[f].socket == x;
    }
  }

  lemma DropKeepsIndex(h: Hub, id: SocketId)
    requires IndexExact(h)
    ensures IndexExact(Drop(h, id))
  {
  }

  lemma DropKeeps(h: Hub, id: SocketId)
    requires Inv(h)
    ensures Inv(Drop(h, id))
  {
    DropKeepsLocks(h, id);
    DropKeepsIndex(h, id);
  }

  lemma BeginKeepsLocks(h: Hub, sync: SyncId, id: SocketId, f: Sync)
    requires LocksExact(h) && sync !in h.flying && id !in h.locked && f.socket == id
    ensures LocksExact(h.(locked := h.locked + {id}, flying := h.flying[sync := f]))
  {
    var h' := h.(locked := h.locked + {id}, flying := h.flying[sync := f]);
    assert h'.flying[sync].socket == id;
    forall x | x in h.locked ensures InFlight(h', x) {
      var g :| g in h.flying && h.flying[g].socket == x;
      assert h'.flying[g].socket == x;
    }
  }

  lemma BeginKeeps(h: Hub, sync: SyncId, id: SocketId, activeOrg: Option<OrgId>, origin: Origin)
    requires Inv(h)
    ensures Inv(Begin(h, sync, id, activeOrg, origin))
  {
    var h' := Begin(h, sync, id, activeOrg, origin);
    DropKeeps(h, id);
    if h'.flying != h.flying { BeginKeepsLocks(h, sync, id, h'.flying[sync]); }
  }

  /** Releasing a synchronization and its lock, before anything is done with the answer. */
  function Release(h: Hub, sync: SyncId): Hub
    requires sync in h.flying
  {
    h.(locked := h.locked - {h.flying[sync].socket}, flying := h.flying - {sync})
  }

  lemma ReleaseKeeps(h: Hub, sync: SyncId)
    requires Inv(h) && sync in h.flying
    ensures Inv(Release(h, sync))
    ensures h.flying[sync].socket in h.sockets ==> !InFlight(Release(h, sync), h.flying[sync].socket)
  {
    var h' := Release(h, sync);
    forall x | x in h'.locked ensures InFlight(h', x) {
      var g :| g in h.flying && h.flying[g].socket == x;
      assert h'.flying[g].socket == x;
    }
  }

  lemma MoveKeeps(h: Hub, id: SocketId, before: Option<OrgId>, wanted: OrgId, role: Role)
    requires Inv(h) && id in h.sockets && !InFlight(h, id) && MayMove(h.sockets[id], before, wanted)
    ensures Inv(h.(sockets := h.sockets[id := Move(h.sockets[id], before, wanted, role)]))
  {
    var h' := h.(sockets := h.sockets[id := Move(h.sockets[id], before, wanted, role)]);
    forall f | f in h'.flying ensures h'.flying[f].socket != id { assert h.flying[f].socket != id; }
    forall x | x in h'.locked ensures InFlight(h', x) { assert InFlight(h, x); }
    assert LocksExact(h');
    assert IndexExact(h');
  }

  lemma EndKeeps(h: Hub, sync: SyncId, lookup: Lookup)
    requires Inv(h)
    ensures Inv(End(h, sync, lookup))
  {
    if sync in h.flying {
      var f := h.flying[sync];
      ReleaseKeeps(h, sync);
      DropKeeps(Release(h, sync), f.socket);
      if lookup.Found? && f.socket in h.sockets {
        MoveKeeps(Release(h, sync), f.socket, f.before, f.wanted, lookup.role);
      }
    }
  }

  lemma TailKeeps(h: Hub, id: SocketId, user: UserId, org: OrgId, role: Role)
    requires Inv(h) && TailIsSafe(h, id, user, org)
    ensures Inv(Next(h, Establish(id, user, org, role)))
  {
    var h' := Next(h, Establish(id, user, org, role));
    forall x | x in h'.locked ensures InFlight(h', x) { assert InFlight(h, x); }
    assert LocksExact(h');
    TailKeepsIndex(h, id, user, org, role);
  }

  lemma TailKeepsIndex(h: Hub, id: SocketId, user: UserId, org: OrgId, role: Role)
    requires IndexExact(h) && id in h.sockets && h.sockets[id].user in {None, Some(user)}
    ensures IndexExact(Next(h, Establish(id, user, org, role)))
  {
  }

  lemma TailBreaks(h: Hub, id: SocketId, user: UserId, org: OrgId, role: Role)
    requires Inv(h) && id in h.seen && !TailIsSafe(h, id, user, org)
    ensures !Inv(Next(h, Establish(id, user, org, role)))
  {
    var h' := Next(h, Establish(id, user, org, role));
    if id !in h.sockets {
      assert id in h'.index[user] && id !in h'.sockets;
      return;
    }
    var s := h.sockets[id];
    if s.user !in {None, Some(user)} {
      var other := s.user.value;
      assert id in h.index[other] && other != user;
      assert id in h'.index[other] && h'.sockets[id].user == Some(user);
      assert !IndexExact(h');
    } else if s.org.Some? {
      assert s.org.value in h'.sockets[id].rooms;
    } else {
      var f :| f in h.flying && h.flying[f].socket == id && h.flying[f].wanted != org;
      assert !MayMove(h'.sockets[id], h'.flying[f].before, h'.flying[f].wanted);
    }
  }

  /** The tail of a connection keeps the protocol invariant exactly when it is safe. */
  lemma TailIsExact(h: Hub, id: SocketId, user: UserId, org: OrgId, role: Role)
    requires Inv(h) && id in h.seen
    ensures Inv(Next(h, Establish(id, user, org, role))) <==> TailIsSafe(h, id, user, org)
  {
    if TailIsSafe(h, id, user, org) { TailKeeps(h, id, user, org, role); } else { TailBreaks(h, id, user, org, role); }
  }

  /** The socket is in one room now, and will be whenever a synchronization in flight moves it next. */
  ghost predicate StaysInOneRoom(h: Hub, id: SocketId)
    requires id in h.sockets
  {
    && OneRoom(h.sockets[id])
    && forall f, role :: f in h.flying && h.flying[f].socket == id ==>
         OneRoom(Next(h, Resume(f, Found(role))).sockets[id])
  }

  /** For a connected socket that is nobody else's, the same condition decides what the protocol is for: after
      the tail, and after any synchronization then in flight, the socket is in the one room its data names. */
  lemma TailKeepsOneRoom(h: Hub, id: SocketId, user: UserId, org: OrgId, role: Role)
    requires Inv(h) && id in h.sockets && h.sockets[id].user in {None, Some(user)}
    ensures StaysInOneRoom(Next(h, Establish(id, user, org, role)), id) <==> TailIsSafe(h, id, user, org)
  {
    var h', s := Next(h, Establish(id, user, org, role)), h.sockets[id];
    if s.org.Some? && s.org.value != org {
      assert s.org.value in h'.sockets[id].rooms;
    } else if s.org == None && !Headed(h, id, org) {
      var f :| f in h.flying && h.flying[f].socket == id && h.flying[f].wanted != org;
      assert org in Next(h', Resume(f, Found(role))).sockets[id].rooms;
    }
  }

  lemma CloseUserKeeps(h: Hub, user: UserId)
    requires Inv(h)
    ensures Inv(Next(h, CloseUser(user)))
  {
    var h' := Next(h, CloseUser(user));
    forall x | x in h'.locked ensures InFlight(h', x) { assert InFlight(h, x); }
    assert LocksExact(h');
    CloseUserKeepsIndex(h, user);
  }

  lemma CloseUserKeepsIndex(h: Hub, user: UserId)
    requires IndexExact(h)
    ensures IndexExact(Next(h, CloseUser(user)))
  {
    var h' := Next(h, CloseUser(user));
    forall u, id ensures (u in h'.index && id in h'.index[u]) <==>
        (id in h'.sockets && h'.sockets[id].user == Some(u)) {
      assert (u in h.index && id in h.index[u]) <==> (id in h.sockets && h.sockets[id].user == Some(u));
    }
  }

  lemma OpenKeeps(h: Hub, id: SocketId)
    requires Inv(h)
    ensures Inv(Next(h, Open(id)))
  {
    var h' := Next(h, Open(id));
    forall x | x in h'.locked ensures InFlight(h', x) { assert InFlight(h, x); }
    assert LocksExact(h') && IndexExact(h');
  }

  ghost predicate Safe(h: Hub, e: Event) {
    e.Establish? ==> TailIsSafe(h, e.id, e.user, e.org)
  }

  lemma StepKeeps(h: Hub, e: Event)
    requires Inv(h) && Safe(h, e)
    ensures Inv(Next(h, e))
  {
    match e
    case Open(id) => OpenKeeps(h, id);
    case Establish(id, user, org, role) => TailIsExact(h, id, user, org, role);
    case Close(id) => DropKeeps(h, id);
    case CloseUser(user) => CloseUserKeeps(h, user);
    case Start(sync, id, activeOrg, origin) => BeginKeeps(h, sync, id, activeOrg, origin);
    case Resume(sync, lookup) => EndKeeps(h, sync, lookup);
  }

  /** The states a run goes through: the quiet one first, then one safe event after another. */
  ghost predicate IsRun(states: seq<Hub>, es: seq<Event>) {
    && |states| == |es| + 1 && states[0] == QUIET
    && forall i {:trigger es[i]} :: 0 <= i < |es| ==> Safe(states[i], es[i]) && states[i + 1] == Next(states[i], es[i])
  }

  ghost predicate Reachable(h: Hub) {
    exists states, es :: IsRun(states, es) && states[|es|] == h
  }

  /** A safe event leads from a reachable state to a reachable state. */
  lemma StepStaysReachable(h: Hub, e: Event)
    requires Reachable(h) && Safe(h, e)
    ensures Reachable(Next(h, e))
  {
    var states, es :| IsRun(states, es) && states[|es|] == h;
    var longer, more := states + [Next(h, e)], es + [e];
    forall i {:trigger more[i]} | 0 <= i < |more|
        ensures Safe(longer[i], more[i]) && longer[i + 1] == Next(longer[i], more[i]) {
      if i < |es| { assert more[i] == es[i]; }
    }
    assert IsRun(longer, more);
  }

  lemma {:induction false} RunsKeep(states: seq<Hub>, es: seq<Event>, n: nat)
    requires IsRun(states, es) && n <= |es|
    ensures Inv(states[n])
  {
    if n > 0 {
      RunsKeep(states, es, n - 1);
      assert Safe(states[n - 1], es[n - 1]);
      StepKeeps(states[n - 1], es[n - 1]);
    }
  }

  lemma ReachableKeeps(h: Hub)
    requires Reachable(h)
    ensures Inv(h)
  {
    var states, es :| IsRun(states, es) && states[|es|] == h;
    RunsKeep(states, es, |es|);
  }

  /** Under any interleaving, every established socket that is still connected sits in exactly one
      organization room, the one its data names; a lock is held only while a synchronization of its socket is
      in flight, and always then if the socket is connected; and no lock outlives the synchronizations. */
  lemma AlwaysOneRoom(h: Hub, id: SocketId)
    requires Reachable(h)
    ensures (id in h.sockets && h.sockets[id].user.Some? ==>
                  h.sockets[id].org.Some? && h.sockets[id].rooms == {h.sockets[id].org.value})
            && (id in h.locked ==> InFlight(h, id)) && (id in h.sockets && InFlight(h, id) ==> id in h.locked)
            && (h.flying == map[] ==> h.locked == {})
  {
    ReachableKeeps(h);
    if h.flying == map[] {
      assert forall x :: !InFlight(h, x);
      assert forall x :: x !in h.locked;
    }
  }

  /** Two synchronizations of a connected socket are never in flight together. */
  lemma OneSyncPerSocket(h: Hub, f: SyncId, g: SyncId)
    requires Reachable(h) && f in h.flying && g in h.flying
    requires h.flying[f].socket == h.flying[g].socket
    requires h.flying[f].socket in h.sockets
    ensures f == g
  {
    ReachableKeeps(h);
  }

  /** Invalidating a user's sessions disconnects every established socket of the user and touches no
      other socket. */
  lemma CloseUserIsComplete(h: Hub, user: UserId, id: SocketId)
    requires Reachable(h)
    ensures var h' := Next(h, CloseUser(user));
            && user !in h'.index
            && (id in h'.sockets <==> id in h.sockets && h.sockets[id].user != Some(user))
            && (id in h'.sockets ==> h'.sockets[id] == h.sockets[id])
  {
    ReachableKeeps(h);
  }

  /** Otherwise the tail breaks the protocol: a synchronization to another organization that starts between
      the handshake and the tail leaves the socket in two rooms. */
  lemma EarlySyncMakesTwoRooms() returns (h: Hub, tail: Event, settled: Hub)
    ensures Reachable(h) && !Safe(h, tail) && tail.Establish?
    ensures settled == Next(Next(h, tail), Resume(0, Found(Member)))
    ensures 0 in settled.sockets && settled.sockets[0].user == Some(7) && settled.sockets[0].rooms == {4, 5}
  {
    assert IsRun([QUIET], []);
    StepStaysReachable(QUIET, Open(0));
    h := Next(QUIET, Open(0));
    StepStaysReachable(h, Start(0, 0, Some(5), FromHeartbeat));
    h := Next(h, Start(0, 0, Some(5), FromHeartbeat));
    tail := Establish(0, 7, 4, Member);
    assert h.flying[0].socket == 0 && h.flying[0].wanted == 5;
    settled := Next(Next(h, tail), Resume(0, Found(Member)));
  }
}
