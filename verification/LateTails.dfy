/** A connection whose socket closes while its handler waits: the handler's tail still runs, and adds a
    closed socket to the user index. */
module LateTails {
  import opened Common
  import opened SocketRooms

  /** A tail that runs after its socket closed leaves an index entry that nothing but a logout of the user
      removes: no other event does, and the socket does not come back. */
  lemma DeadIdStays(h: Hub, e: Event, user: UserId, id: SocketId)
    requires id in h.seen && id !in h.sockets && user in h.index && id in h.index[user]
    requires e != CloseUser(user)
    ensures var h' := Next(h, e); id in h'.seen && id !in h'.sockets && user in h'.index && id in h'.index[user]
  {
  }

  /** A logout of the user makes up for a late tail completely. */
  lemma LogoutForgivesLateTail(h: Hub, id: SocketId, user: UserId, org: OrgId, role: Role)
    requires id in h.seen && id !in h.sockets
    ensures Next(Next(h, Establish(id, user, org, role)), CloseUser(user)) == Next(h, CloseUser(user))
  {
    var late := Next(h, Establish(id, user, org, role));
    var ids := if user in h.index then h.index[user] else {};
    assert late.index[user] == ids + {id};
    assert h.sockets - (ids + {id}) == h.sockets - ids;
    assert (ids + {id}) * h.sockets.Keys == ids * h.sockets.Keys;
    assert h.sockets - {} == h.sockets && h.locked - {} == h.locked;
    assert late.index - {user} == h.index - {user};
    if user !in h.index { assert h.index - {user} == h.index; }
  }

  /** A handshake that is closed before its tail runs. */
  lemma LateTailLeavesDeadId() returns (h: Hub, tail: Event, after: Hub)
    ensures Reachable(h) && tail.Establish? && tail.id in h.seen && after == Next(h, tail)
    ensures tail.id !in after.sockets && tail.user in after.index && tail.id in after.index[tail.user]
  {
    assert IsRun([QUIET], []);
    StepStaysReachable(QUIET, Open(0));
    h := Next(QUIET, Open(0));
    StepStaysReachable(h, Close(0));
    h := Next(h, Close(0));
    tail := Establish(0, 7, 4, Member);
    after := Next(h, tail);
  }

  /** The hub with the closed sockets taken out of the index. */
  function Clean(h: Hub): Hub {
    h.(index := LiveIndex(h.index, h.sockets.Keys))
  }

  function LiveIndex(index: map<UserId, set<SocketId>>, live: set<SocketId>): map<UserId, set<SocketId>> {
    map u | u in index && index[u] * live != {} :: index[u] * live
  }

  ghost predicate EntriesSeen(h: Hub) {
    forall u :: u in h.index ==> h.index[u] != {} && h.index[u] <= h.seen
  }

  /** The protocol invariant, but for closed sockets in the index. */
  ghost predicate Sound(h: Hub) {
    Inv(Clean(h)) && EntriesSeen(h)
  }

  /** A safe tail, or one that comes too late. */
  ghost predicate SafeOrLate(h: Hub, e: Event) {
    e.Establish? ==> e.id !in h.sockets || TailIsSafe(h, e.id, e.user, e.org)
  }

  lemma LiveEntries(h: Hub, user: UserId, id: SocketId)
    requires IndexExact(Clean(h)) && id in h.sockets
    ensures user in h.index && id in h.index[user] <==> h.sockets[id].user == Some(user)
  {
    assert (user in Clean(h).index && id in Clean(h).index[user]) <==> h.sockets[id].user == Some(user);
    if user in h.index && id in h.index[user] { assert id in h.index[user] * h.sockets.Keys; }
  }

  lemma CleanDrop(h: Hub, id: SocketId)
    requires IndexExact(Clean(h))
    ensures Clean(Drop(h, id)) == Drop(Clean(h), id)
  {
    if id in h.sockets {
      var a, b := Clean(Drop(h, id)).index, Drop(Clean(h), id).index;
      forall u ensures (u in a <==> u in b) && (u in a ==> a[u] == b[u]) {
        var mine := if u in h.index then h.index[u] else {};
        var live := mine * h.sockets.Keys;
        assert (h.sockets - {id}).Keys == h.sockets.Keys - {id};
        assert (mine - {id}) * (h.sockets.Keys - {id}) == live - {id} == mine * (h.sockets.Keys - {id});
        LiveEntries(h, u, id);
      }
      assert a == b;
    }
  }

  lemma CleanBegin(h: Hub, sync: SyncId, id: SocketId, activeOrg: Option<OrgId>, origin: Origin)
    requires IndexExact(Clean(h))
    ensures Clean(Begin(h, sync, id, activeOrg, origin)) == Begin(Clean(h), sync, id, activeOrg, origin)
  {
    CleanDrop(h, id);
  }

  lemma CleanEnd(h: Hub, sync: SyncId, lookup: Lookup)
    requires IndexExact(Clean(h))
    ensures Clean(End(h, sync, lookup)) == End(Clean(h), sync, lookup)
  {
    if sync in h.flying {
      var f := h.flying[sync];
      var free := h.(locked := h.locked - {f.socket}, flying := h.flying - {sync});
      assert Clean(free) == Clean(h).(locked := h.locked - {f.socket}, flying := h.flying - {sync});
      CleanDrop(free, f.socket);
      if f.socket in h.sockets && lookup.Found? {
        var moved := h.sockets[f.socket := Move(h.sockets[f.socket], f.before, f.wanted, lookup.role)];
        assert moved.Keys == h.sockets.Keys;
      }
    }
  }

  lemma CleanEstablish(h: Hub, id: SocketId, user: UserId, org: OrgId, role: Role)
    requires id in h.seen
    ensures Clean(Next(h, Establish(id, user, org, role)))
            == if id in h.sockets then Next(Clean(h), Establish(id, user, org, role)) else Clean(h)
  {
    var h' := Next(h, Establish(id, user, org, role));
    assert h'.sockets.Keys == h.sockets.Keys;
    var mine := if user in h.index then h.index[user] else {};
    assert h'.index[user] == mine + {id};
    assert (mine + {id}) * h.sockets.Keys == mine * h.sockets.Keys + ({id} * h.sockets.Keys);
    if id !in h.sockets { assert (mine + {id}) * h.sockets.Keys == mine * h.sockets.Keys; }
    else { assert {id} * h.sockets.Keys == {id}; }
    var a, b := Clean(h').index, if id in h.sockets then IndexAdd(Clean(h).index, user, id) else Clean(h).index;
    forall u ensures (u in a <==> u in b) && (u in a ==> a[u] == b[u]) {}
    assert a == b;
  }

  lemma CleanCloseUser(h: Hub, user: UserId)
    requires IndexExact(Clean(h))
    ensures Clean(Next(h, CloseUser(user))) == Next(Clean(h), CloseUser(user))
  {
    if user in h.index {
      var ids := h.index[user];
      var live := ids * h.sockets.Keys;
      assert h.sockets - ids == h.sockets - live;
      assert live * h.sockets.Keys == live;
      var h' := Next(h, CloseUser(user));
      assert h'.sockets.Keys == h.sockets.Keys - live;
      if live == {} { assert h.sockets - live == h.sockets && h.locked - live == h.locked; }
      var a, b := Clean(h').index, Clean(h).index - {user};
      forall u ensures (u in a <==> u in b) && (u in a ==> a[u] == b[u]) {
        if u in h.index && u != user { CleanOther(h, user, u); }
      }
      assert a == b;
      if user !in Clean(h).index { assert b == Clean(h).index; }
    }
  }

  lemma CleanOther(h: Hub, user: UserId, u: UserId)
    requires IndexExact(Clean(h)) && user in h.index && u in h.index && u != user
    ensures h.index[u] * (h.sockets.Keys - h.index[user] * h.sockets.Keys) == h.index[u] * h.sockets.Keys
  {
    forall id | id in h.index[u] && id in h.sockets ensures id !in h.index[user] {
      LiveEntries(h, u, id);
      LiveEntries(h, user, id);
    }
  }

  lemma CleanOpen(h: Hub, id: SocketId)
    requires EntriesSeen(h)
    ensures Clean(Next(h, Open(id))) == Next(Clean(h), Open(id))
  {
    if id !in h.seen {
      var h' := Next(h, Open(id));
      assert h'.sockets.Keys == h.sockets.Keys + {id};
      forall u | u in h.index ensures h.index[u] * h'.sockets.Keys == h.index[u] * h.sockets.Keys {}
      assert LiveIndex(h.index, h'.sockets.Keys) == LiveIndex(h.index, h.sockets.Keys);
    }
  }

  lemma DropKeepsEntries(h: Hub, id: SocketId)
    requires EntriesSeen(h)
    ensures EntriesSeen(Drop(h, id))
  {
  }

  lemma StepKeepsEntries(h: Hub, e: Event)
    requires EntriesSeen(h)
    ensures EntriesSeen(Next(h, e))
  {
    match e
    case Start(_, id, _, _) => DropKeepsEntries(h, id);
    case Resume(sync, _) =>
      if sync in h.flying {
        var id := h.flying[sync].socket;
        DropKeepsEntries(h.(locked := h.locked - {id}, flying := h.flying - {sync}), id);
      }
    case _ =>
  }

  /** Late tails touch nothing but the index: a step of a hub with dead entries is, after cleaning, the same
      step of the clean hub, or no step. */
  lemma CleanStep(h: Hub, e: Event)
    requires Sound(h) && SafeOrLate(h, e)
    ensures Sound(Next(h, e))
    ensures Clean(Next(h, e)) == (if e.Establish? && e.id !in h.sockets then Clean(h) else Next(Clean(h), e))
  {
    StepKeepsEntries(h, e);
    if !(e.Establish? && e.id !in h.sockets) { StepKeeps(Clean(h), e); }
    match e
    case Open(id) => CleanOpen(h, id);
    case Establish(id, user, org, role) => if id in h.seen { CleanEstablish(h, id, user, org, role); }
    case Close(id) => CleanDrop(h, id);
    case CloseUser(user) => CleanCloseUser(h, user);
    case Start(sync, id, activeOrg, origin) => CleanBegin(h, sync, id, activeOrg, origin);
    case Resume(sync, lookup) => CleanEnd(h, sync, lookup);
  }

  /** A run whose tails are safe or late. */
  ghost predicate IsLateRun(states: seq<Hub>, es: seq<Event>) {
    && |states| == |es| + 1 && states[0] == QUIET
    && forall i {:trigger es[i]} :: 0 <= i < |es| ==>
        SafeOrLate(states[i], es[i]) && states[i + 1] == Next(states[i], es[i])
  }

  lemma {:induction false} LateRunsCleanUp(states: seq<Hub>, es: seq<Event>, n: nat)
    requires IsLateRun(states, es) && n <= |es|
    ensures Reachable(Clean(states[n])) && Sound(states[n])
  {
    if n == 0 {
      assert IsRun([QUIET], []);
      assert Clean(QUIET) == QUIET;
      ReachableKeeps(QUIET);
    } else {
      LateRunsCleanUp(states, es, n - 1);
      var h, e := states[n - 1], es[n - 1];
      CleanStep(h, e);
      if !(e.Establish? && e.id !in h.sockets) { StepStaysReachable(Clean(h), e); }
    }
  }

  /** So even with late tails, sockets, rooms, locks and synchronizations are those of a run without them,
      and each user's index entry holds exactly the user's connected sockets besides closed ones. */
  lemma LateTailsAreConfined(states: seq<Hub>, es: seq<Event>, user: UserId, id: SocketId)
    requires IsLateRun(states, es)
    ensures var h := states[|es|];
            && Reachable(Clean(h)) && Clean(h) == h.(index := Clean(h).index)
            && (id in h.sockets ==> (user in h.index && id in h.index[user] <==> h.sockets[id].user == Some(user)))
  {
    LateRunsCleanUp(states, es, |es|);
    var h := states[|es|];
    if id in h.sockets { LiveEntries(h, user, id); }
  }
}
