/** Several gateway objects over the same sockets.  The application provides the gateway in three modules
    (src/gateway/gateway.module.ts, src/modules/performance/performance.module.ts,
    src/modules/notification/notification.module.ts), and each object has its own index, locks and heartbeat,
    so a lock keeps out only the synchronizations of its own object. */
module SeveralGateways {
  import opened Common
  import opened SocketRooms

  type GatewayId = nat

  /** What one gateway object keeps to itself. */
  datatype Own = Own(index: map<UserId, set<SocketId>>, locked: set<SocketId>, flying: map<SyncId, Sync>)

  datatype Cluster = Cluster(sockets: map<SocketId, Socket>, seen: set<SocketId>, own: map<GatewayId, Own>)

  const IDLE := Own(map[], {}, map[])

  function OwnOf(c: Cluster, g: GatewayId): Own {
    if g in c.own then c.own[g] else IDLE
  }

  /** The protocol state as one gateway object sees it. */
  function View(c: Cluster, g: GatewayId): Hub {
    Hub(c.sockets, c.seen, OwnOf(c, g).index, OwnOf(c, g).locked, OwnOf(c, g).flying)
  }

  /** The disconnection handler of an object, for sockets that another object closed. */
  function Forget(own: Own, sockets: map<SocketId, Socket>, closed: set<SocketId>): Own {
    own.(index := map u | u in own.index && own.index[u] - OfUser(sockets, closed, u) != {} ::
                    own.index[u] - OfUser(sockets, closed, u),
         locked := own.locked - closed)
  }

  function OfUser(sockets: map<SocketId, Socket>, closed: set<SocketId>, user: UserId): set<SocketId> {
    set id | id in closed && id in sockets && sockets[id].user == Some(user)
  }

  /** An event handled by one object.  Whatever sockets it closes, every other object handles that too. */
  function Step(c: Cluster, g: GatewayId, e: Event): Cluster {
    var h := SocketRooms.Next(View(c, g), e);
    var closed := c.sockets.Keys - h.sockets.Keys;
    Cluster(h.sockets, h.seen,
            map x | x in c.own.Keys + {g} ::
              if x == g then Own(h.index, h.locked, h.flying)
              else if closed == {} then c.own[x]
              else Forget(c.own[x], c.sockets, closed))
  }

  /** With a single object this is the protocol of `SocketRooms`. */
  lemma OneGatewayIsTheProtocol(c: Cluster, g: GatewayId, e: Event)
    requires c.own.Keys <= {g}
    ensures View(Step(c, g, e), g) == SocketRooms.Next(View(c, g), e) && Step(c, g, e).own.Keys <= {g}
  {
  }

  /** Every other object drops the lock and the index entry of each socket that went, and nothing else. */
  lemma OthersForget(c: Cluster, g: GatewayId, e: Event, x: GatewayId)
    requires x in c.own && x != g
    ensures var after := Step(c, g, e);
            && x in after.own && after.own[x].flying == c.own[x].flying
            && (forall id :: id in after.own[x].locked <==>
                  id in c.own[x].locked && (id in c.sockets ==> id in after.sockets))
            && forall u: UserId, id: SocketId ::
                 (u in after.own[x].index && id in after.own[x].index[u]) <==>
                   (u in c.own[x].index && id in c.own[x].index[u] &&
                    !(id in c.sockets && id !in after.sockets && c.sockets[id].user == Some(u)))
  {
    var after := Step(c, g, e);
    var closed := c.sockets.Keys - after.sockets.Keys;
    assert forall id :: id in closed <==> id in c.sockets && id !in after.sockets;
    ForgetEffect(c.own[x], c.sockets, closed);
  }

  lemma ForgetEffect(own: Own, sockets: map<SocketId, Socket>, closed: set<SocketId>)
    ensures forall u: UserId, id: SocketId ::
              (u in Forget(own, sockets, closed).index && id in Forget(own, sockets, closed).index[u]) <==>
                (u in own.index && id in own.index[u] &&
                 !(id in closed && id in sockets && sockets[id].user == Some(u)))
  {
    forall u: UserId, id: SocketId
      ensures (u in Forget(own, sockets, closed).index && id in Forget(own, sockets, closed).index[u]) <==>
                (u in own.index && id in own.index[u] &&
                 !(id in closed && id in sockets && sockets[id].user == Some(u)))
    {
      if u in own.index && id in own.index[u] && id !in OfUser(sockets, closed, u) {
        assert id in own.index[u] - OfUser(sockets, closed, u);
      }
    }
  }

  // ------------------------------------------------------------------ what keeps a socket in one room

  ghost predicate AllInOneRoom(c: Cluster) {
    forall id :: id in c.sockets ==> OneRoom(c.sockets[id])
  }

  /** A move leaves the room the socket is in, or finds it in none or already at its goal. */
  predicate Current(s: Socket, before: Option<OrgId>, wanted: OrgId) {
    s.org == None || before == s.org || s.org == Some(wanted)
  }

  /** A move keeps a socket in one room exactly when it is current. */
  lemma MoveIsExact(s: Socket, before: Option<OrgId>, wanted: OrgId, role: Role)
    requires OneRoom(s)
    ensures OneRoom(Move(s, before, wanted, role)) <==> Current(s, before, wanted)
  {
    if !Current(s, before, wanted) { assert s.org.value in Move(s, before, wanted, role).rooms; }
  }

  /** The two kinds of step that put a socket into a room: a tail, and a synchronization whose lookup found
      the membership. */
  predicate IsCurrent(c: Cluster, g: GatewayId, e: Event) {
    match e
    case Establish(id, _, org, _) => id in c.sockets ==> c.sockets[id].org in {None, Some(org)}
    case Resume(sync, lookup) =>
      var flying := OwnOf(c, g).flying;
      sync in flying && flying[sync].socket in c.sockets && lookup.Found? ==>
        Current(c.sockets[flying[sync].socket], flying[sync].before, flying[sync].wanted)
    case _ => true
  }

  /** A step of any object keeps all sockets in one room each exactly when it is current. */
  lemma StepIsExact(c: Cluster, g: GatewayId, e: Event)
    requires AllInOneRoom(c) && c.sockets.Keys <= c.seen
    ensures AllInOneRoom(Step(c, g, e)) <==> IsCurrent(c, g, e)
  {
    var after := Step(c, g, e);
    match e
    case Establish(id, user, org, role) =>
      if !IsCurrent(c, g, e) { assert c.sockets[id].org.value in after.sockets[id].rooms; }
    case Resume(sync, lookup) =>
      var flying := OwnOf(c, g).flying;
      if sync in flying && flying[sync].socket in c.sockets && lookup.Found? {
        var id := flying[sync].socket;
        MoveIsExact(c.sockets[id], flying[sync].before, flying[sync].wanted, lookup.role);
        assert after.sockets[id] == Move(c.sockets[id], flying[sync].before, flying[sync].wanted, lookup.role);
      }
    case _ =>
  }

  // ------------------------------------------------------------------ runs

  const QUIET := Cluster(map[], {}, map[])

  /** The states of a run of any number of objects, safe tails or not. */
  ghost predicate IsRun(states: seq<Cluster>, steps: seq<(GatewayId, Event)>) {
    && |states| == |steps| + 1 && states[0] == QUIET
    && forall i {:trigger steps[i]} :: 0 <= i < |steps| ==> states[i + 1] == Step(states[i], steps[i].0, steps[i].1)
  }

  ghost predicate Reachable(c: Cluster) {
    exists states, steps :: IsRun(states, steps) && states[|steps|] == c
  }

  /** Any event leads from a reachable state to a reachable state. */
  lemma StepStaysReachable(c: Cluster, g: GatewayId, e: Event)
    requires Reachable(c)
    ensures Reachable(Step(c, g, e))
  {
    var states, steps :| IsRun(states, steps) && states[|steps|] == c;
    var longer, more := states + [Step(c, g, e)], steps + [(g, e)];
    forall i {:trigger more[i]} | 0 <= i < |more| ensures longer[i + 1] == Step(longer[i], more[i].0, more[i].1) {
      if i < |steps| { assert more[i] == steps[i]; }
    }
    assert IsRun(longer, more);
  }

  lemma StepKeepsSeen(c: Cluster, g: GatewayId, e: Event)
    requires c.sockets.Keys <= c.seen
    ensures Step(c, g, e).sockets.Keys <= Step(c, g, e).seen
  {
  }

  ghost predicate AlwaysOneRoom(states: seq<Cluster>, n: nat)
    requires n < |states|
  {
    forall i :: 0 <= i <= n ==> AllInOneRoom(states[i])
  }

  ghost predicate AlwaysCurrent(states: seq<Cluster>, steps: seq<(GatewayId, Event)>, n: nat)
    requires n <= |steps| < |states|
  {
    forall i {:trigger steps[i]} :: 0 <= i < n ==> IsCurrent(states[i], steps[i].0, steps[i].1)
  }

  lemma {:induction false} RunKeepsSeen(states: seq<Cluster>, steps: seq<(GatewayId, Event)>, n: nat)
    requires IsRun(states, steps) && n <= |steps|
    ensures states[n].sockets.Keys <= states[n].seen
  {
    if n > 0 {
      RunKeepsSeen(states, steps, n - 1);
      StepKeepsSeen(states[n - 1], steps[n - 1].0, steps[n - 1].1);
    }
  }

  lemma RunStepIsExact(states: seq<Cluster>, steps: seq<(GatewayId, Event)>, i: nat)
    requires IsRun(states, steps) && i < |steps| && AllInOneRoom(states[i])
    ensures AllInOneRoom(states[i + 1]) <==> IsCurrent(states[i], steps[i].0, steps[i].1)
  {
    RunKeepsSeen(states, steps, i);
    StepIsExact(states[i], steps[i].0, steps[i].1);
  }

  /** However many objects there are and however their steps interleave, every socket is in exactly the room
      its data names all along a run, exactly when all steps of the run are current. */
  lemma {:induction false} RunIsExact(states: seq<Cluster>, steps: seq<(GatewayId, Event)>, n: nat)
    requires IsRun(states, steps) && n <= |steps|
    ensures AlwaysOneRoom(states, n) <==> AlwaysCurrent(states, steps, n)
  {
    if n > 0 {
      RunIsExact(states, steps, n - 1);
      assert AlwaysOneRoom(states, n) <==> AlwaysOneRoom(states, n - 1) && AllInOneRoom(states[n]);
      assert AlwaysCurrent(states, steps, n) <==>
             AlwaysCurrent(states, steps, n - 1) && IsCurrent(states[n - 1], steps[n - 1].0, steps[n - 1].1);
      if AllInOneRoom(states[n - 1]) { RunStepIsExact(states, steps, n - 1); }
    }
  }

  // ------------------------------------------------------------------ two locks on one socket

  lemma NobodyLeaves(c: Cluster, g: GatewayId, e: Event, h: Hub)
    requires SocketRooms.Next(View(c, g), e) == h && c.sockets.Keys <= h.sockets.Keys
    ensures Step(c, g, e) == Cluster(h.sockets, h.seen, c.own[g := Own(h.index, h.locked, h.flying)])
  {
    assert c.sockets.Keys - h.sockets.Keys == {};
  }

  /** A cluster of two objects with one socket, which has been established in both of them. */
  function Pair(org: OrgId, rooms: set<OrgId>, first: Option<OrgId>, second: Option<OrgId>): Cluster {
    Cluster(map[0 := Socket(Some(7), Some(org), Some(Member), rooms)], {0}, map[0 := Busy(first), 1 := Busy(second)])
  }

  /** An object that synchronizes the socket from organization 4 to the given one, if any. */
  function Busy(wanted: Option<OrgId>): Own {
    if wanted == None then Own(map[7 := {0}], {}, map[])
    else Own(map[7 := {0}], {0}, map[0 := Sync(0, Some(4), wanted.value, FromHeartbeat)])
  }

  lemma PairEstablished() returns (one: Cluster, first: Cluster)
    ensures Step(QUIET, 0, Open(0)) == one
    ensures Step(one, 0, Establish(0, 7, 4, Member)) == first
    ensures Step(first, 1, Establish(0, 7, 4, Member)) == Pair(4, {4}, None, None)
  {
    one := Cluster(map[0 := Socket(None, None, None, {})], {0}, map[0 := IDLE]);
    NobodyLeaves(QUIET, 0, Open(0), Hub(one.sockets, {0}, map[], {}, map[]));
    assert QUIET.own[0 := IDLE] == one.own;
    var nobody: set<nat> := {};
    assert nobody + {0} == {0} && nobody + {4} == {4};
    first := Cluster(map[0 := Socket(Some(7), Some(4), Some(Member), {4})], {0}, map[0 := Busy(None)]);
    NobodyLeaves(one, 0, Establish(0, 7, 4, Member), Hub(first.sockets, {0}, map[7 := {0}], {}, map[]));
    assert one.own[0 := Busy(None)] == first.own;
    NobodyLeaves(first, 1, Establish(0, 7, 4, Member), Hub(first.sockets, {0}, map[7 := {0}], {}, map[]));
    assert first.own[1 := Busy(None)] == map[0 := Busy(None), 1 := Busy(None)];
  }

  lemma PairLooks(g: GatewayId, wanted: OrgId, first: Option<OrgId>)
    requires (g == 0 && first == None) || g == 1
    ensures Step(Pair(4, {4}, first, None), g, Start(0, 0, Some(wanted), FromHeartbeat))
            == if wanted == 4 then Pair(4, {4}, first, None)
               else Pair(4, {4}, if g == 0 then Some(wanted) else first, if g == 1 then Some(wanted) else None)
  {
    var c := Pair(4, {4}, first, None);
    var own := if wanted == 4 then Busy(None) else Busy(Some(wanted));
    NobodyLeaves(c, g, Start(0, 0, Some(wanted), FromHeartbeat),
                 Hub(c.sockets, {0}, own.index, own.locked, own.flying));
    assert c.own[g := own] == if g == 0 then map[0 := own, 1 := Busy(None)] else map[0 := Busy(first), 1 := own];
  }

  lemma PairMoves(g: GatewayId, org: OrgId, rooms: set<OrgId>, wanted: OrgId, second: Option<OrgId>)
    requires g == 0 || (g == 1 && second == Some(wanted))
    ensures Step(Pair(org, rooms, if g == 0 then Some(wanted) else None, second), g, Resume(0, Found(Member)))
            == Pair(wanted, rooms - {4} + {wanted}, None, if g == 0 then second else None)
  {
    var c := Pair(org, rooms, if g == 0 then Some(wanted) else None, second);
    var after := Pair(wanted, rooms - {4} + {wanted}, None, if g == 0 then second else None);
    NobodyLeaves(c, g, Resume(0, Found(Member)), Hub(after.sockets, {0}, map[7 := {0}], {}, map[]));
    assert c.own[g := Busy(None)] == after.own;
  }

  lemma PairReachable()
    ensures Reachable(Pair(4, {4}, Some(5), Some(6)))
  {
    var one, first := PairEstablished();
    assert IsRun([QUIET], []);
    StepStaysReachable(QUIET, 0, Open(0));
    StepStaysReachable(one, 0, Establish(0, 7, 4, Member));
    StepStaysReachable(first, 1, Establish(0, 7, 4, Member));
    PairLooks(0, 5, None);
    StepStaysReachable(Pair(4, {4}, None, None), 0, Start(0, 0, Some(5), FromHeartbeat));
    PairLooks(1, 6, Some(5));
    StepStaysReachable(Pair(4, {4}, Some(5), None), 1, Start(0, 0, Some(6), FromHeartbeat));
  }

  /** Two objects that synchronize one socket at the same time: the session's organization changes between
      their looks, both hold a lock, and the socket ends in two rooms. */
  lemma TwoLocksMakeTwoRooms() returns (c: Cluster, settled: Cluster)
    ensures Reachable(c) && 0 in c.sockets && 0 in OwnOf(c, 0).locked && 0 in OwnOf(c, 1).locked
    ensures settled == Step(Step(c, 0, Resume(0, Found(Member))), 1, Resume(0, Found(Member)))
    ensures Reachable(settled) && 0 in settled.sockets && settled.sockets[0].rooms == {5, 6}
  {
    PairReachable();
    c := Pair(4, {4}, Some(5), Some(6));
    PairMoves(0, 4, {4}, 5, Some(6));
    PairMoves(1, 5, {5}, 6, Some(6));
    assert {4} - {4} + {5} == {5} && {5} - {4} + {6} == {5, 6};
    StepStaysReachable(c, 0, Resume(0, Found(Member)));
    settled := Pair(6, {5, 6}, None, None);
    StepStaysReachable(Pair(5, {5}, None, Some(6)), 1, Resume(0, Found(Member)));
  }
}
