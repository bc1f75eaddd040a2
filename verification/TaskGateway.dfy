/** The gateway as code: connections, organization switches, logouts and the heartbeat. */
module TaskGateway {
  import opened Common
  import opened SocketRooms
  import opened LateTails

  type Token = string

  datatype Session = Session(user: UserId, expiresAt: Time, activeOrg: Option<OrgId>)

  /** What the gateway reads: the cookie each socket presented, the session and the member tables. */
  datatype Directory = Directory(
    cookies: map<SocketId, Token>, sessions: map<Token, Session>, roles: map<(UserId, OrgId), Role>)

  /** The session a socket presents, unless it is missing or expired. */
  function SessionOf(d: Directory, id: SocketId, now: Time): Option<Session> {
    if id in d.cookies && d.cookies[id] in d.sessions && !(d.sessions[d.cookies[id]].expiresAt < now)
    then Some(d.sessions[d.cookies[id]])
    else None
  }

  // ------------------------------------------------------------------ what one heartbeat achieves

  /** The socket may stay: its session is valid, names an organization, and the user belongs to it
      unless the socket is already there. */
  predicate Survives(d: Directory, now: Time, id: SocketId, s: Socket) {
    var session := SessionOf(d, id, now);
    session.Some? && session.value.activeOrg.Some? &&
    (s.org == session.value.activeOrg || (session.value.user, session.value.activeOrg.value) in d.roles)
  }

  /** Where a surviving socket ends up: in the active organization of its session. */
  function Settled(d: Directory, now: Time, id: SocketId, s: Socket): Socket
    requires Survives(d, now, id, s)
  {
    var session := SessionOf(d, id, now).value;
    if s.org == session.activeOrg then s
    else Move(s, s.org, session.activeOrg.value, d.roles[(session.user, session.activeOrg.value)])
  }

  /** The sockets after a heartbeat has gone through those in `done`. */
  function Swept(sockets: map<SocketId, Socket>, done: set<SocketId>, d: Directory, now: Time): map<SocketId, Socket> {
    map id | id in sockets && (id in done ==> Survives(d, now, id, sockets[id])) ::
      if id in done then Settled(d, now, id, sockets[id]) else sockets[id]
  }

  /** A second heartbeat over unchanged sessions and memberships moves nothing and drops nobody. */
  lemma SecondHeartbeatIsIdle(sockets: map<SocketId, Socket>, d: Directory, now: Time)
    ensures var once := Swept(sockets, sockets.Keys, d, now);
            Swept(once, once.Keys, d, now) == once
  {
  }

  /** A socket is left after a heartbeat exactly when its cookie names a session that has not expired and has
      an active organization, in which the socket already is or to which the user belongs.  Then it is alone in
      the room of that organization, with the user's role there if the beat has moved it. */
  lemma HeartbeatSettles(h: Hub, d: Directory, now: Time, id: SocketId)
    requires RoomsExact(h) && id in h.sockets
    ensures var after := Swept(h.sockets, h.sockets.Keys, d, now);
            id in after <==>
              && id in d.cookies && d.cookies[id] in d.sessions && now <= d.sessions[d.cookies[id]].expiresAt
              && d.sessions[d.cookies[id]].activeOrg.Some?
              && (h.sockets[id].org == d.sessions[d.cookies[id]].activeOrg ||
                  (d.sessions[d.cookies[id]].user, d.sessions[d.cookies[id]].activeOrg.value) in d.roles)
    ensures var after := Swept(h.sockets, h.sockets.Keys, d, now);
            id in after ==>
              var session := d.sessions[d.cookies[id]];
              && after[id].org == session.activeOrg && after[id].rooms == {session.activeOrg.value}
              && after[id].user == h.sockets[id].user
              && (h.sockets[id].org == session.activeOrg ==> after[id].role == h.sockets[id].role)
              && (h.sockets[id].org != session.activeOrg ==>
                    after[id].role == Some(d.roles[(session.user, session.activeOrg.value)]))
  {
  }

  /** The user and organization of the session a socket presents. */
  function Claimed(d: Directory, id: SocketId, now: Time): Option<(UserId, OrgId)> {
    var session := SessionOf(d, id, now);
    if session.Some? && session.value.activeOrg.Some? then Some((session.value.user, session.value.activeOrg.value))
        else None
  }

  /** Who the connection handler lets in: user, organization and role. */
  function Welcome(d: Directory, id: SocketId, now: Time): Option<(UserId, OrgId, Role)> {
    var claim := Claimed(d, id, now);
    if claim.Some? && claim.value in d.roles then Some((claim.value.0, claim.value.1, d.roles[claim.value])) else None
  }

  /** The hub when some of a user's sockets have been disconnected; a closed one is left in the index. */
  ghost function PartlyClosed(h: Hub, user: UserId, gone: set<SocketId>): Hub
    requires user in h.index
  {
    var closed := gone * h.sockets.Keys;
    h.(sockets := h.sockets - gone, locked := h.locked - closed,
       index := if closed == h.index[user] then h.index - {user} else h.index[user := h.index[user] - closed])
  }

  lemma DropMore(h: Hub, user: UserId, gone: set<SocketId>, id: SocketId)
    requires Sound(h) && user in h.index && gone <= h.index[user] && id in h.index[user] - gone
    ensures Drop(PartlyClosed(h, user, gone), id) == PartlyClosed(h, user, gone + {id})
  {
    var closed := gone * h.sockets.Keys;
    assert h.sockets - (gone + {id}) == (h.sockets - gone) - {id};
    if id in h.sockets {
      LiveEntries(h, user, id);
      RemoveMore(h.index, user, closed, id);
      assert (gone + {id}) * h.sockets.Keys == closed + {id};
      assert h.locked - closed - {id} == h.locked - (closed + {id});
    } else {
      assert (gone + {id}) * h.sockets.Keys == closed;
      assert h.sockets - (gone + {id}) == h.sockets - gone;
    }
  }

  lemma SomeLeft(ids: set<SocketId>, gone: set<SocketId>)
    requires gone <= ids && gone != ids
    ensures ids - gone != {}
  {
    assert ids == gone + (ids - gone);
  }

  lemma RemoveMore(index: map<UserId, set<SocketId>>, user: UserId, closed: set<SocketId>, id: SocketId)
    requires user in index && closed <= index[user] && id in index[user] - closed
    ensures IndexRemove(index[user := index[user] - closed], Some(user), id)
            == if closed + {id} == index[user] then index - {user} else index[user := index[user] - (closed + {id})]
  {
    var entry := index[user] - closed;
    assert entry - {id} == index[user] - (closed + {id});
    assert entry == {id} <==> closed + {id} == index[user];
    assert index[user := entry] - {user} == index - {user};
  }

  lemma PartlyClosedInFull(h: Hub, user: UserId)
    requires user in h.index
    ensures var full := PartlyClosed(h, user, h.index[user]);
            full.(index := full.index - {user}) == Next(h, CloseUser(user))
  {
    var full := PartlyClosed(h, user, h.index[user]);
    assert full.index - {user} == h.index - {user};
  }

  lemma PartlyClosedNone(h: Hub, user: UserId)
    requires EntriesSeen(h) && user in h.index
    ensures PartlyClosed(h, user, {}) == h
  {
    assert {} * h.sockets.Keys == {};
    assert h.index[user] - {} == h.index[user] && h.sockets - {} == h.sockets && h.locked - {} == h.locked;
    assert h.index[user := h.index[user]] == h.index;
  }

  /** What the membership lookup of a synchronization answers. */
  function Asked(d: Directory, session: Session, fails: bool): Lookup {
    if fails then Failed
    else if session.activeOrg.Some? && (session.user, session.activeOrg.value) in d.roles
    then Found(d.roles[(session.user, session.activeOrg.value)])
    else Absent
  }

  /** The synchronization gets as far as its lookup. */
  predicate LooksUp(h: Hub, id: SocketId, session: Session) {
    id !in h.locked && session.activeOrg.Some? && !(id in h.sockets && h.sockets[id].org == session.activeOrg)
  }

  /** What a synchronization does to one socket if nothing comes between its halves. */
  function Synced(h: Hub, id: SocketId, session: Session, lookup: Lookup, origin: Origin): Hub {
    if id !in h.sockets || id in h.locked then h
    else if session.activeOrg == None then Drop(h, id)
    else if !LooksUp(h, id, session) then h
    else
      match lookup
      case Failed => if origin == FromSwitch then Drop(h, id) else h
      case Absent => Drop(h, id)
      case Found(role) => h.(sockets := h.sockets[id := Move(h.sockets[id], h.sockets[id].org, session.activeOrg.value,
                                                             role)])
  }

  lemma UndisturbedSync(h: Hub, sync: SyncId, id: SocketId, session: Session, lookup: Lookup, origin: Origin)
    requires id in h.seen && sync !in h.flying
    ensures var begun := Next(h, Start(sync, id, session.activeOrg, origin));
            && (sync in begun.flying <==> LooksUp(h, id, session))
            && (if sync in begun.flying then Next(begun, Resume(sync, lookup)) else begun)
                == Synced(h, id, session, lookup, origin)
  {
    if LooksUp(h, id, session) {
      assert h.locked + {id} - {id} == h.locked;
      var f := Sync(id, if id in h.sockets then h.sockets[id].org else None, session.activeOrg.value, origin);
      assert h.flying[sync := f] - {sync} == h.flying;
    }
  }

  lemma SyncedKeeps(h: Hub, sync: SyncId, id: SocketId, session: Session, lookup: Lookup, origin: Origin)
    requires Sound(h) && id in h.seen && sync !in h.flying
    ensures Sound(Synced(h, id, session, lookup, origin))
  {
    var begun := Next(h, Start(sync, id, session.activeOrg, origin));
    CleanStep(h, Start(sync, id, session.activeOrg, origin));
    CleanStep(begun, Resume(sync, lookup));
    UndisturbedSync(h, sync, id, session, lookup, origin);
  }

  /** What a heartbeat does with one socket. */
  function Beaten(h: Hub, id: SocketId, d: Directory, now: Time, fails: bool): Hub {
    match SessionOf(d, id, now)
    case None => Drop(h, id)
    case Some(session) => Synced(h, id, session, Asked(d, session, fails), FromHeartbeat)
  }

  lemma BeatenKeeps(h: Hub, sync: SyncId, id: SocketId, d: Directory, now: Time, fails: bool)
    requires Sound(h) && id in h.sockets && sync !in h.flying
    ensures Sound(Beaten(h, id, d, now, fails)) && Beaten(h, id, d, now, fails).seen == h.seen
    ensures h.sockets.Keys - {id} <= Beaten(h, id, d, now, fails).sockets.Keys
  {
    match SessionOf(d, id, now)
    case None => CleanStep(h, Close(id));
    case Some(session) => SyncedKeeps(h, sync, id, session, Asked(d, session, fails), FromHeartbeat);
  }

  lemma SweptNone(sockets: map<SocketId, Socket>, d: Directory, now: Time)
    ensures Swept(sockets, {}, d, now) == sockets
  {
  }

  lemma BeatOne(before: map<SocketId, Socket>, done: set<SocketId>, h: Hub, id: SocketId, d: Directory, now: Time)
    requires h.sockets == Swept(before, done, d, now) && id in before && id !in done && id !in h.locked
    ensures Beaten(h, id, d, now, false).sockets == Swept(before, done + {id}, d, now)
  {
  }

  lemma BeatenKeepsQuiet(h: Hub, id: SocketId, d: Directory, now: Time, fails: bool)
    ensures Beaten(h, id, d, now, fails).locked <= h.locked && Beaten(h, id, d, now, fails).flying == h.flying
  {
  }

  class TaskGateway {
    var sockets: map<SocketId, Socket>
    var connectedUsers: map<UserId, set<SocketId>>
    var orgSyncInProgress: set<SocketId>
    var isHeartbeatRunning: bool
    var flying: map<SyncId, Sync>
    var nextSync: SyncId
    ghost var seen: set<SocketId>

    /** The protocol state this object implements. */
    ghost function State(): Hub
      reads this
    {
      Hub(sockets, seen, connectedUsers, orgSyncInProgress, flying)
    }

    ghost predicate FreshSync()
      reads this
    {
      forall f :: f in flying ==> f < nextSync
    }

    constructor ()
      ensures State() == QUIET && FreshSync() && !isHeartbeatRunning
    {
      sockets, connectedUsers, orgSyncInProgress, flying := map[], map[], {}, map[];
      isHeartbeatRunning, nextSync, seen := false, 0, {};
    }

    /** A disconnection and its handler. */
    method Disconnect(id: SocketId)
      modifies this`sockets, this`connectedUsers, this`orgSyncInProgress
      ensures State() == Drop(old(State()), id)
    {
      if id in sockets {
        var user := sockets[id].user;
        if user.Some? && user.value in connectedUsers {
          var left := connectedUsers[user.value] - {id};
          if left == {} { connectedUsers := connectedUsers - {user.value}; }
          else { connectedUsers := connectedUsers[user.value := left]; }
        }
        orgSyncInProgress := orgSyncInProgress - {id};
        sockets := sockets - {id};
      }
    }

    /** The connection handler up to the answer of its session lookup: the user and organization it goes on
        with, unless it refuses.  Here and below the socket may have closed while the handler waited. */
    method VerifySession(id: SocketId, d: Directory, now: Time, fails: bool) returns (claim: Option<(UserId, OrgId)>)
      modifies this`sockets, this`connectedUsers, this`orgSyncInProgress
      ensures claim == if fails then None else Claimed(d, id, now)
      ensures State() == if claim == None then Drop(old(State()), id) else old(State())
    {
      if id !in d.cookies || fails { Disconnect(id); return None; }
      if d.cookies[id] !in d.sessions { Disconnect(id); return None; }
      var session := d.sessions[d.cookies[id]];
      if session.expiresAt < now { Disconnect(id); return None; }
      if session.activeOrg == None { Disconnect(id); return None; }
      return Some((session.user, session.activeOrg.value));
    }

    /** The handler from there up to the answer of its membership lookup. */
    method VerifyMembership(id: SocketId, user: UserId, org: OrgId, d: Directory, fails: bool)
        returns (role: Option<Role>)
      modifies this`sockets, this`connectedUsers, this`orgSyncInProgress
      ensures role == if fails || (user, org) !in d.roles then None else Some(d.roles[(user, org)])
      ensures State() == if role == None then Drop(old(State()), id) else old(State())
    {
      if fails || (user, org) !in d.roles { Disconnect(id); return None; }
      return Some(d.roles[(user, org)]);
    }

    /** The tail of the handler, on a connected socket or a closed one. */
    method FinishConnection(id: SocketId, user: UserId, org: OrgId, role: Role)
      requires id in seen
      modifies this`sockets, this`connectedUsers
      ensures State() == Next(old(State()), Establish(id, user, org, role))
    {
      if id in sockets {
        var s := sockets[id];
        sockets := sockets[id := s.(user := Some(user), org := Some(org), role := Some(role),
                                    rooms := s.rooms + {org})];
      }
      if user !in connectedUsers { connectedUsers := connectedUsers[user := {}]; }
      connectedUsers := connectedUsers[user := connectedUsers[user] + {id}];
    }

    /** The whole handler with nothing in between: refused and disconnected, or established in the
        organization of its session. */
    method HandleConnection(id: SocketId, d: Directory, now: Time, sessionFails: bool, memberFails: bool)
        returns (accepted: bool)
      requires id in seen
      modifies this`sockets, this`connectedUsers, this`orgSyncInProgress
      ensures accepted == (Welcome(d, id, now).Some? && !sessionFails && !memberFails)
      ensures accepted <==>
                && !sessionFails && !memberFails && id in d.cookies && d.cookies[id] in d.sessions
                && now <= d.sessions[d.cookies[id]].expiresAt && d.sessions[d.cookies[id]].activeOrg.Some?
                && (d.sessions[d.cookies[id]].user, d.sessions[d.cookies[id]].activeOrg.value) in d.roles
      ensures !accepted ==> id !in sockets
      ensures accepted && id in old(sockets) ==>
                var session := d.sessions[d.cookies[id]];
                && id in sockets && sockets[id].user == Some(session.user) && sockets[id].org == session.activeOrg
                && sockets[id].role == Some(d.roles[(session.user, session.activeOrg.value)])
      ensures State() == if !accepted then Drop(old(State()), id)
                         else var w := Welcome(d, id, now).value; Next(old(State()), Establish(id, w.0, w.1, w.2))
    {
      var claim := VerifySession(id, d, now, sessionFails);
      if claim == None { return false; }
      var role := VerifyMembership(id, claim.value.0, claim.value.1, d, memberFails);
      if role == None { return false; }
      FinishConnection(id, claim.value.0, claim.value.1, role.value);
      return true;
    }

    /** A logout: every socket in the user's index entry is disconnected, which edits the entry as the
        loop runs; a closed socket in it is skipped. */
    method DisconnectUser(user: UserId)
      requires Sound(State())
      modifies this`sockets, this`connectedUsers, this`orgSyncInProgress
      ensures State() == Next(old(State()), CloseUser(user))
    {
      if user !in connectedUsers { return; }
      ghost var h := State();
      var ids, gone := connectedUsers[user], {};
      PartlyClosedNone(h, user);
      while gone != ids
        invariant gone <= ids && State() == PartlyClosed(h, user, gone)
        decreases ids - gone
      {
        SomeLeft(ids, gone);
        var id :| id in ids - gone;
        DropMore(h, user, gone, id);
        Disconnect(id);
        gone := gone + {id};
      }
      PartlyClosedInFull(h, user);
      connectedUsers := connectedUsers - {user};
    }

    /** The synchronization up to its lookup. */
    method BeginSync(id: SocketId, session: Session, origin: Origin) returns (waiting: bool)
      requires FreshSync() && id in seen
      modifies this`sockets, this`connectedUsers, this`orgSyncInProgress, this`flying, this`nextSync
      ensures State() == Next(old(State()), Start(old(nextSync), id, session.activeOrg, origin))
      ensures FreshSync() && waiting == (old(nextSync) in flying)
      ensures waiting ==> nextSync == old(nextSync) + 1
    {
      if id in orgSyncInProgress { return false; }
      ghost var locks := orgSyncInProgress;
      orgSyncInProgress := orgSyncInProgress + {id};
      if session.activeOrg == None {
        Disconnect(id);
        orgSyncInProgress := orgSyncInProgress - {id};
        assert orgSyncInProgress == locks;
        return false;
      }
      var before := if id in sockets then sockets[id].org else None;
      if before == session.activeOrg {
        orgSyncInProgress := orgSyncInProgress - {id};
        return false;
      }
      flying := flying[nextSync := Sync(id, before, session.activeOrg.value, origin)];
      nextSync := nextSync + 1;
      return true;
    }

    /** The synchronization from its lookup on. */
    method EndSync(sync: SyncId, lookup: Lookup)
      requires sync in flying
      modifies this`sockets, this`connectedUsers, this`orgSyncInProgress, this`flying
      ensures State() == Next(old(State()), Resume(sync, lookup))
    {
      var f := flying[sync];
      flying := flying - {sync};
      orgSyncInProgress := orgSyncInProgress - {f.socket};
      match lookup
      case Failed => if f.origin == FromSwitch { Disconnect(f.socket); }
      case Absent => Disconnect(f.socket);
      case Found(role) =>
        if f.socket in sockets {
          var s := sockets[f.socket];
          if f.before.Some? { s := s.(rooms := s.rooms - {f.before.value}); }
          s := s.(rooms := s.rooms + {f.wanted}, org := Some(f.wanted), role := Some(role));
          sockets := sockets[f.socket := s];
        }
    }

    /** Both halves with nothing in between. */
    method SyncSocketOrg(id: SocketId, session: Session, d: Directory, origin: Origin, fails: bool) returns (ok: bool)
      requires FreshSync() && id in seen
      modifies this`sockets, this`connectedUsers, this`orgSyncInProgress, this`flying, this`nextSync
      ensures State() == Synced(old(State()), id, session, Asked(d, session, fails), origin) && FreshSync()
      ensures ok <==> !(fails && LooksUp(old(State()), id, session))
    {
      UndisturbedSync(State(), nextSync, id, session, Asked(d, session, fails), origin);
      var sync := nextSync;
      var waiting := BeginSync(id, session, origin);
      if waiting { EndSync(sync, Asked(d, session, fails)); }
      return !(waiting && fails);
    }

    /** An organization switch: without a valid session, and when a lookup fails, the socket is kicked. */
    method HandleOrgSwitch(id: SocketId, d: Directory, now: Time, sessionFails: bool, memberFails: bool)
      requires FreshSync() && id in seen
      modifies this`sockets, this`connectedUsers, this`orgSyncInProgress, this`flying, this`nextSync
      ensures FreshSync()
      ensures State() == var session := SessionOf(d, id, now);
                         if sessionFails || session == None then Drop(old(State()), id)
                         else Synced(old(State()), id, session.value, Asked(d, session.value, memberFails), FromSwitch)
      ensures id in sockets ==>
                && id in old(sockets) && !sessionFails && id in d.cookies && d.cookies[id] in d.sessions
                && now <= d.sessions[d.cookies[id]].expiresAt
      ensures id in old(sockets) && id !in old(orgSyncInProgress) ==>
                (id in sockets <==>
                   && !sessionFails && id in d.cookies && d.cookies[id] in d.sessions
                   && now <= d.sessions[d.cookies[id]].expiresAt && d.sessions[d.cookies[id]].activeOrg.Some?
                   && (old(sockets)[id].org == d.sessions[d.cookies[id]].activeOrg ||
                       (!memberFails &&
                        (d.sessions[d.cookies[id]].user, d.sessions[d.cookies[id]].activeOrg.value) in d.roles)))
      ensures id in sockets && id !in old(orgSyncInProgress) ==>
                var session := d.sessions[d.cookies[id]];
                && sockets[id].org == session.activeOrg && sockets[id].user == old(sockets)[id].user
                && (if old(sockets)[id].org == session.activeOrg then sockets[id] == old(sockets)[id]
                    else sockets[id].role == Some(d.roles[(session.user, session.activeOrg.value)]))
    {
      if id !in d.cookies || sessionFails { Disconnect(id); return; }
      var token := d.cookies[id];
      if token !in d.sessions || d.sessions[token].expiresAt < now { Disconnect(id); return; }
      var ok := SyncSocketOrg(id, d.sessions[token], d, FromSwitch, memberFails);
    }

    /** One turn of the heartbeat's loop; a failing lookup ends the loop. */
    method Beat(id: SocketId, d: Directory, now: Time, fails: bool) returns (ok: bool)
      requires FreshSync() && id in sockets && id in seen
      modifies this`sockets, this`connectedUsers, this`orgSyncInProgress, this`flying, this`nextSync
      ensures State() == Beaten(old(State()), id, d, now, fails) && FreshSync()
      ensures ok && fails ==> State() == Beaten(old(State()), id, d, now, false)
      ensures !ok ==> fails && State() == old(State())
    {
      var session := SessionOf(d, id, now);
      if session == None { Disconnect(id); ok := true; }
      else { ok := SyncSocketOrg(id, session.value, d, FromHeartbeat, fails); }
    }

    /** One turn, after the sockets in `done`. */
    method BeatNext(id: SocketId, d: Directory, now: Time, fails: bool, ghost before: map<SocketId, Socket>,
                    ghost done: set<SocketId>)
        returns (ok: bool)
      requires Sound(State()) && FreshSync() && id in sockets && id in before && id !in done
      modifies this`sockets, this`connectedUsers, this`orgSyncInProgress, this`flying, this`nextSync
      ensures Sound(State()) && FreshSync() && old(sockets).Keys - {id} <= sockets.Keys
      ensures !ok ==> fails && State() == old(State())
      ensures old(flying) == map[] && old(orgSyncInProgress) == {} && old(sockets) == Swept(before, done, d, now) ==>
                && flying == map[] && orgSyncInProgress == {}
                && sockets == Swept(before, if ok then done + {id} else done, d, now)
    {
      ghost var h := State();
      BeatenKeeps(h, nextSync, id, d, now, fails);
      BeatenKeepsQuiet(h, id, d, now, fails);
      if h.sockets == Swept(before, done, d, now) && h.locked == {} { BeatOne(before, done, h, id, d, now); }
      ok := Beat(id, d, now, fails);
    }

    /** The loop of the heartbeat.  If nothing else runs and no synchronization is in flight, it leaves every
        surviving socket it comes to where its session says and disconnects the others; it comes to all of them
        unless a lookup fails, which ends it. */
    method BeatAll(d: Directory, now: Time, failing: set<SocketId>) returns (ghost done: set<SocketId>)
      requires Sound(State()) && FreshSync()
      modifies this`sockets, this`connectedUsers, this`orgSyncInProgress, this`flying, this`nextSync
      ensures Sound(State()) && FreshSync()
      ensures old(flying) == map[] ==>
                && sockets == Swept(old(sockets), done, d, now) && flying == map[] && orgSyncInProgress == {}
                && done <= old(sockets).Keys && (failing !! old(sockets).Keys ==> done == old(sockets).Keys)
    {
      done := {};
      ghost var quiet := flying == map[];
      if quiet { NoLocks(Clean(State())); }
      ghost var before := sockets;
      var rest, ok := sockets.Keys, true;
      SweptNone(before, d, now);
      while rest != {} && ok
        invariant Sound(State()) && FreshSync()
        invariant rest <= sockets.Keys && rest !! done && rest + done == before.Keys
        invariant quiet ==> flying == map[] && orgSyncInProgress == {} && sockets == Swept(before, done, d, now)
        invariant !ok ==> !(failing !! before.Keys)
        decreases rest, ok
      {
        var id :| id in rest;
        ok := BeatNext(id, d, now, id in failing, before, done);
        if ok {
          MoveOne(rest, done, id);
          done := done + {id};
          rest := rest - {id};
        }
      }
      if ok { assert done == rest + done; }
    }

    /** The heartbeat does not overlap itself.  A full and undisturbed beat leaves exactly the sockets with an
        unexpired session whose active organization is theirs or has their user as a member, each of them in
        that organization. */
    method Heartbeat(d: Directory, now: Time, failing: set<SocketId>) returns (ghost done: set<SocketId>)
      requires Sound(State()) && FreshSync()
      modifies this`sockets, this`connectedUsers, this`orgSyncInProgress, this`flying, this`nextSync,
          this`isHeartbeatRunning
      ensures Sound(State()) && FreshSync() && isHeartbeatRunning == old(isHeartbeatRunning)
      ensures old(isHeartbeatRunning) ==> State() == old(State())
      ensures !old(isHeartbeatRunning) && old(flying) == map[] ==>
                && sockets == Swept(old(sockets), done, d, now) && flying == map[] && orgSyncInProgress == {}
                && done <= old(sockets).Keys && (failing !! old(sockets).Keys ==> done == old(sockets).Keys)
      ensures !old(isHeartbeatRunning) && old(flying) == map[] && failing !! old(sockets).Keys ==>
                forall id :: id in sockets <==>
                  && id in old(sockets) && id in d.cookies && d.cookies[id] in d.sessions
                  && now <= d.sessions[d.cookies[id]].expiresAt && d.sessions[d.cookies[id]].activeOrg.Some?
                  && (old(sockets)[id].org == d.sessions[d.cookies[id]].activeOrg ||
                      (d.sessions[d.cookies[id]].user, d.sessions[d.cookies[id]].activeOrg.value) in d.roles)
      ensures !old(isHeartbeatRunning) && old(flying) == map[] && failing !! old(sockets).Keys ==>
                forall id :: id in sockets ==>
                  sockets[id].org == d.sessions[d.cookies[id]].activeOrg && sockets[id].user == old(sockets)[id].user
    {
      done := {};
      if isHeartbeatRunning { return; }
      isHeartbeatRunning := true;
      FullBeat(Clean(State()), d, now);
      done := BeatAll(d, now, failing);
      isHeartbeatRunning := false;
    }
  }

  lemma FullBeat(h: Hub, d: Directory, now: Time)
    requires RoomsExact(h)
    ensures var after := Swept(h.sockets, h.sockets.Keys, d, now);
            forall id :: id in after <==>
              && id in h.sockets && id in d.cookies && d.cookies[id] in d.sessions
              && now <= d.sessions[d.cookies[id]].expiresAt && d.sessions[d.cookies[id]].activeOrg.Some?
              && (h.sockets[id].org == d.sessions[d.cookies[id]].activeOrg ||
                  (d.sessions[d.cookies[id]].user, d.sessions[d.cookies[id]].activeOrg.value) in d.roles)
    ensures var after := Swept(h.sockets, h.sockets.Keys, d, now);
            forall id :: id in after ==>
              after[id].org == d.sessions[d.cookies[id]].activeOrg && after[id].user == h.sockets[id].user
  {
  }

  lemma NoLocks(h: Hub)
    requires Inv(h) && h.flying == map[]
    ensures h.locked == {}
  {
    assert forall x :: !InFlight(h, x);
    assert forall x :: x !in h.locked;
  }
}
