/** What the events of the room protocol change, field by field. */
module SocketEffects {
  import opened Common
  import opened SocketRooms

  predicate Indexed(h: Hub, user: UserId, id: SocketId) {
    user in h.index && id in h.index[user]
  }

  /** Only the given socket comes, goes or changes. */
  ghost predicate OnlySocket(h: Hub, h': Hub, id: SocketId) {
    forall x :: x != id ==> (x in h.sockets <==> x in h'.sockets) && (x in h.sockets ==> h'.sockets[x] == h.sockets[x])
  }

  lemma OpenEffect(h: Hub, id: SocketId)
    requires id !in h.seen
    ensures var h' := Next(h, Open(id));
            && OnlySocket(h, h', id) && h'.index == h.index && h'.locked == h.locked && h'.flying == h.flying
            && h'.seen == h.seen + {id} && id in h'.sockets
            && h'.sockets[id].user == None && h'.sockets[id].org == None && h'.sockets[id].rooms == {}
  {
  }

  /** The tail of a connection stores user, organization and role, joins the room and enters the index. */
  lemma EstablishEffect(h: Hub, id: SocketId, user: UserId, org: OrgId, role: Role)
    requires id in h.seen
    ensures var h' := Next(h, Establish(id, user, org, role));
            && OnlySocket(h, h', id) && h'.locked == h.locked && h'.flying == h.flying && h'.seen == h.seen
            && (id in h'.sockets <==> id in h.sockets)
            && (id in h.sockets ==>
                  h'.sockets[id].user == Some(user) && h'.sockets[id].org == Some(org) &&
                      h'.sockets[id].role == Some(role) &&
                  h'.sockets[id].rooms == h.sockets[id].rooms + {org})
    ensures forall u: UserId, x: SocketId :: Indexed(Next(h, Establish(id, user, org, role)), u, x) <==>
              Indexed(h, u, x) || (u == user && x == id)
  {
  }

  /** A disconnection takes the socket, its lock and its user's index entry for it. */
  lemma CloseEffect(h: Hub, id: SocketId)
    requires id in h.sockets
    ensures var h' := Next(h, Close(id));
            && OnlySocket(h, h', id) && id !in h'.sockets && h'.seen == h.seen && h'.flying == h.flying
            && h'.locked == h.locked - {id}
    ensures forall u: UserId, x: SocketId :: Indexed(Next(h, Close(id)), u, x) <==>
              Indexed(h, u, x) && !(h.sockets[id].user == Some(u) && x == id)
  {
  }

  /** A synchronization goes in flight, with the lock of its socket, exactly when the lock is free and the
      session names an organization the socket is not in; without an organization the socket is closed. */
  lemma StartEffect(h: Hub, sync: SyncId, id: SocketId, activeOrg: Option<OrgId>, origin: Origin)
    requires sync !in h.flying && id in h.seen
    ensures var h' := Next(h, Start(sync, id, activeOrg, origin));
            && OnlySocket(h, h', id) && h'.seen == h.seen
            && (sync in h'.flying <==>
                  id !in h.locked && activeOrg.Some? && (id in h.sockets ==> h.sockets[id].org != activeOrg))
            && (sync in h'.flying ==>
                  && id in h'.locked && h'.flying[sync].socket == id && h'.flying[sync].origin == origin
                  && activeOrg == Some(h'.flying[sync].wanted)
                  && (id in h.sockets ==> h'.flying[sync].before == h.sockets[id].org))
            && (id in h.sockets ==> (id in h'.sockets <==> id in h.locked || activeOrg.Some?))
            && (id in h'.sockets ==> id in h.sockets && h'.sockets[id] == h.sockets[id])
            && h'.locked - {id} == h.locked - {id} && h'.flying - {sync} == h.flying
  {
    assert h.flying - {sync} == h.flying;
    var h' := Next(h, Start(sync, id, activeOrg, origin));
    if sync in h'.flying { assert h'.flying - {sync} == h.flying; }
  }

  /** Its second half releases the lock.  A membership moves the socket, with its role, and no membership
      closes it; so does a failed lookup on a switch. */
  lemma ResumeEffect(h: Hub, sync: SyncId, lookup: Lookup)
    requires sync in h.flying
    ensures var h', f := Next(h, Resume(sync, lookup)), h.flying[sync];
            && OnlySocket(h, h', f.socket) && h'.seen == h.seen && h'.flying == h.flying - {sync}
            && h'.locked == h.locked - {f.socket}
            && (f.socket in h'.sockets <==>
                  f.socket in h.sockets && lookup != Absent && !(lookup == Failed && f.origin == FromSwitch))
            && (f.socket in h'.sockets && !lookup.Found? ==> h'.sockets[f.socket] == h.sockets[f.socket])
            && (f.socket in h'.sockets && lookup.Found? ==>
                  && h'.sockets[f.socket].user == h.sockets[f.socket].user
                  && h'.sockets[f.socket].org == Some(f.wanted) && h'.sockets[f.socket].role == Some(lookup.role)
                  && (forall o :: o in h'.sockets[f.socket].rooms <==>
                        o == f.wanted || (o in h.sockets[f.socket].rooms && f.before != Some(o))))
  {
  }
}
