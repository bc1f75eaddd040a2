/** What every run of task requests keeps: the dependency graph, the completion stamps, and the
    closure of the completed tasks under their prerequisites. */
module TaskLifecycle {
  import opened Common
  import opened TaskModel
  import opened DependencyGraph
  import opened TaskEffects

  // ------------------------------------------------------------------ the dependency guard

  /** On any table at all, an update that re-points a task to a task of its organization is refused
      exactly when writing it would put the task on a cycle. */
  lemma GuardIsExact(s: Store, w: World, org: OrgId, id: TaskId, edit: TaskEdit)
    requires id in s && edit.dependsOn.SetTo? && InOrg(s, edit.dependsOn.parent, org)
    requires s[id].dependsOn != Some(edit.dependsOn.parent)
    ensures CheckDependency(s, org, id, edit.dependsOn).Some?
            <==> OnCycle(s[id := ApplyEdit(s[id], edit)], id)
  {
    var parent := edit.dependsOn.parent;
    var s' := s[id := ApplyEdit(s[id], edit)];
    if parent == id {
      assert Iter(s', id, 1) == Some(id) by { assert Iter(s', id, 0) == Some(id); }
    } else if Reaches(s, parent, id) {
      UnsafeEdge(s, s', id, parent);
    } else if OnCycle(s', id) {
      SafeEdge(s, s', id, parent, id);
    }
  }

  /** On any table, cyclic or not, no accepted request puts a task on a cycle it was not on. */
  lemma NoNewCycles(s: Store, r: Request, x: TaskId)
    requires OnCycle(After(s, r), x)
    ensures OnCycle(s, x)
  {
    var s' := After(s, r);
    if r.Update? && Handle(s, r).Ok? && r.edit.dependsOn.SetTo? && s[r.id].dependsOn != Some(r.edit.dependsOn.parent) {
      SafeEdge(s, s', r.id, r.edit.dependsOn.parent, x);
    } else {
      FewerCycles(s, s', x);
    }
  }

  // ------------------------------------------------------------------ well-formed tables

  ghost predicate PrerequisitesExist(s: Store) {
    forall t :: t in s && s[t].dependsOn.Some? ==>
      s[t].dependsOn.value in s && s[s[t].dependsOn.value].org == s[t].org
  }

  ghost predicate StampedWhenDone(s: Store) {
    forall t :: t in s ==> (s[t].completedAt.Some? <==> Done(s[t]))
  }

  ghost predicate WellFormed(s: Store) {
    Acyclic(s) && PrerequisitesExist(s) && StampedWhenDone(s)
  }

  lemma PrerequisitesStay(s: Store, r: Request)
    requires PrerequisitesExist(s)
    ensures PrerequisitesExist(After(s, r))
  {
  }

  lemma StampsStay(s: Store, r: Request)
    requires StampedWhenDone(s)
    ensures StampedWhenDone(After(s, r))
  {
  }

  lemma StepKeepsWellFormed(s: Store, r: Request)
    requires WellFormed(s)
    ensures WellFormed(After(s, r))
  {
    PrerequisitesStay(s, r);
    StampsStay(s, r);
    forall x ensures !OnCycle(After(s, r), x) {
      if OnCycle(After(s, r), x) { NoNewCycles(s, r, x); }
    }
  }

  /** From the empty table, whatever requests and cron runs interleave: no cycles, no dangling
      pointers, no pointer across organizations, and a completion stamp exactly on completed tasks. */
  lemma ReachableIsWellFormed(s: Store)
    requires Reachable(s)
    ensures WellFormed(s)
    ensures forall path :: Chain(s, path) && |path| > 1 ==> path[0] != path[|path| - 1]
    ensures forall t, p :: DependsOn(s, t, p) ==> p in s && s[p].org == s[t].org
    ensures forall t :: t in s ==> (s[t].completedAt.Some? <==> s[t].status in {Completed, CompletedLate})
  {
    var states, rs :| IsRun(states, rs) && states[|rs|] == s;
    RunsAreWellFormed(states, rs, |rs|);
    forall path | Chain(s, path) && |path| > 1 ensures path[0] != path[|path| - 1] {
      if path[0] == path[|path| - 1] {
        assert ChainBetween(s, path, path[0], path[0]);
        CycleIsChain(s, path[0]);
      }
    }
  }

  lemma {:induction false} RunsAreWellFormed(states: seq<Store>, rs: seq<Request>, n: nat)
    requires IsRun(states, rs) && n <= |rs|
    ensures WellFormed(states[n])
  {
    if n > 0 {
      RunsAreWellFormed(states, rs, n - 1);
      StepKeepsWellFormed(states[n - 1], rs[n - 1]);
    } else {
      forall x: TaskId, n: nat | n > 0 ensures Iter(map[], x, n) != Some(x) { assert Next(map[], x) == None; }
    }
  }

  /** Each operation of the task service, the cron and a department deletion lead from a reachable table to a
      reachable one. */
  lemma OperationsStayReachable(s: Store, w: World, org: OrgId, user: UserId, id: TaskId, dto: NewTask, edit: TaskEdit,
                                wanted: Status, now: Time, role: Role, jobs: seq<Job>, d: DeptId)
    requires Reachable(s)
    ensures CreateTask(s, w, org, user, dto, id).Ok? ==> Reachable(CreateTask(s, w, org, user, dto, id).state.tasks)
    ensures UpdateTask(s, w, org, id, edit).Ok? ==> Reachable(UpdateTask(s, w, org, id, edit).state.tasks)
    ensures wanted in {NotStarted, InProgress, Completed} && UpdateStatus(s, w, org, id, wanted, user, now).Ok? ==>
              Reachable(UpdateStatus(s, w, org, id, wanted, user, now).state.tasks)
    ensures RemoveTask(s, w, org, id, user, role).Ok? ==> Reachable(RemoveTask(s, w, org, id, user, role).state.tasks)
    ensures AddSubTask(s, org, id).Ok? ==> Reachable(AddSubTask(s, org, id).state.tasks)
    ensures GroupsOwners(jobs, s, now) ==> Reachable(MarkExpired(s, now))
    ensures Reachable(WithoutDepartment(s, d))
  {
    StepStaysReachable(s, Create(w, org, user, dto, id));
    StepStaysReachable(s, Update(w, org, id, edit));
    StepStaysReachable(s, SetStatus(w, org, id, wanted, user, now));
    StepStaysReachable(s, Remove(w, org, id, user, role));
    StepStaysReachable(s, SubTask(org, id));
    StepStaysReachable(s, Cron(now, jobs));
    StepStaysReachable(s, DeleteDepartment(d));
  }

  /** The only way out of OVERDUE is COMPLETED_LATE (or deletion). */
  lemma OverdueOnlyCompletesLate(s: Store, r: Request, t: TaskId)
    requires t in s && s[t].status == Overdue
    ensures t in After(s, r) ==> After(s, r)[t].status in {Overdue, CompletedLate}
    ensures t !in After(s, r) ==> r.Remove? && r.id == t
  {
  }

  // ------------------------------------------------------------------ completed prerequisites

  ghost predicate DoneIsClosed(s: Store) {
    forall t :: t in s && Done(s[t]) && s[t].dependsOn.Some? ==>
      s[t].dependsOn.value in s && Done(s[s[t].dependsOn.value])
  }

  /** The two accepted requests that can leave a completed task on an unfinished prerequisite. */
  ghost predicate Undermines(s: Store, r: Request) {
    Handle(s, r).Ok? &&
    match r
    case SetStatus(_, _, id, wanted, _, _) =>
      Done(s[id]) && wanted != Completed && exists d :: d in s && Done(s[d]) && s[d].dependsOn == Some(id)
    case Update(_, _, id, edit) =>
      Done(s[id]) && edit.dependsOn.SetTo? && !(edit.dependsOn.parent in s && Done(s[edit.dependsOn.parent]))
    case _ => false
  }

  /** A step keeps the completed tasks closed under their prerequisites exactly when it neither
      reopens a completed prerequisite of a completed task nor re-points a completed task to an
      unfinished one. */
  lemma ClosureStep(s: Store, r: Request)
    requires WellFormed(s) && DoneIsClosed(s)
    ensures DoneIsClosed(After(s, r)) <==> !Undermines(s, r)
  {
    if Undermines(s, r) { UnderminingOpens(s, r); } else { OthersKeepClosed(s, r); }
  }

  lemma UnderminingOpens(s: Store, r: Request)
    requires WellFormed(s) && Undermines(s, r)
    ensures !DoneIsClosed(After(s, r))
  {
    var s' := After(s, r);
    if r.SetStatus? {
      var d :| d in s && Done(s[d]) && s[d].dependsOn == Some(r.id);
      if d == r.id { SelfPointer(s, d); }
      assert s'[d] == s[d] && !Done(s'[r.id]);
    } else {
      assert s'[r.id].dependsOn == Some(r.edit.dependsOn.parent) && Done(s'[r.id]);
      PrerequisitesStay(s, r);
      NoSelfPointer(s, r);
    }
  }

  lemma SelfPointer(s: Store, x: TaskId)
    requires x in s && s[x].dependsOn == Some(x)
    ensures OnCycle(s, x)
  {
    assert Iter(s, x, 0) == Some(x);
    assert Iter(s, x, 1) == Some(x);
  }

  lemma NoSelfPointer(s: Store, r: Request)
    requires WellFormed(s) && r.Update? && Handle(s, r).Ok? && r.edit.dependsOn.SetTo?
    ensures r.edit.dependsOn.parent != r.id
  {
    StepKeepsWellFormed(s, r);
    if r.edit.dependsOn.parent == r.id { SelfPointer(After(s, r), r.id); }
  }

  lemma OthersKeepClosed(s: Store, r: Request)
    requires WellFormed(s) && DoneIsClosed(s) && !Undermines(s, r)
    ensures DoneIsClosed(After(s, r))
  {
    if r.Update? && Handle(s, r).Ok? && r.edit.dependsOn.SetTo? { NoSelfPointer(s, r); }
  }

  ghost predicate NeverUndermines(states: seq<Store>, rs: seq<Request>)
    requires IsRun(states, rs)
  {
    forall i {:trigger rs[i]} :: 0 <= i < |rs| ==> !Undermines(states[i], rs[i])
  }

  lemma {:induction false} RunsKeepDoneClosed(states: seq<Store>, rs: seq<Request>, n: nat)
    requires IsRun(states, rs) && NeverUndermines(states, rs) && n <= |rs|
    ensures DoneIsClosed(states[n])
  {
    if n > 0 {
      RunsKeepDoneClosed(states, rs, n - 1);
      RunsAreWellFormed(states, rs, n - 1);
      assert !Undermines(states[n - 1], rs[n - 1]);
      ClosureStep(states[n - 1], rs[n - 1]);
    }
  }

  lemma {:induction false} DoneAlongChain(s: Store, t: TaskId, n: nat)
    requires DoneIsClosed(s) && t in s && Done(s[t]) && Iter(s, t, n).Some?
    ensures Iter(s, t, n).value in s && Done(s[Iter(s, t, n).value])
    decreases n
  {
    if n > 0 {
      DoneAlongChain(s, s[t].dependsOn.value, n - 1);
    }
  }

  /** In every run that undermines no completed task, every transitive prerequisite of a completed
      task is completed. */
  lemma PrerequisitesOfDoneAreDone(states: seq<Store>, rs: seq<Request>, path: seq<TaskId>)
    requires IsRun(states, rs) && NeverUndermines(states, rs)
    requires Chain(states[|rs|], path) && path[0] in states[|rs|]
    requires states[|rs|][path[0]].status in {Completed, CompletedLate}
    ensures var last := path[|path| - 1];
            last in states[|rs|] && states[|rs|][last].status in {Completed, CompletedLate}
  {
    RunsKeepDoneClosed(states, rs, |rs|);
    ChainIsWalk(states[|rs|], path);
    DoneAlongChain(states[|rs|], path[0], |path| - 1);
  }

  const STAFF := World(map[(0, 7) := Admin], map[3 := 0], {(3, 7)})
  const OPEN := Task(0, 7, 7, None, NotStarted, Some(9), None, None)
  const DONE := Task(0, 7, 7, None, Completed, Some(9), Some(1), None)

  lemma Visit(s: Store, r: Request, after: Store)
    requires Reachable(s) && After(s, r) == after
    ensures Reachable(after)
  {
    StepStaysReachable(s, r);
  }

  /** Two tasks are created and the second is made to depend on the first. */
  lemma LinkedPair()
    ensures Reachable(map[0 := OPEN, 1 := OPEN.(dependsOn := Some(0))])
  {
    var dto := NewTask(7, None, 9, None);
    assert 3 in STAFF.departmentOrg && STAFF.departmentOrg[3] == 0 && (3, 7) in STAFF.activeStaff;
    assert DepartmentAccepts(STAFF, 0, None, 7);
    assert IsRun([map[]], []);
    Visit(map[], Create(STAFF, 0, 7, dto, 0), map[0 := OPEN]);
    var apart := map[0 := OPEN, 1 := OPEN];
    Visit(map[0 := OPEN], Create(STAFF, 0, 7, dto, 1), apart);
    forall n: nat ensures Iter(apart, 0, n) != Some(1) { assert Next(apart, 0) == None; }
    Visit(apart, Update(STAFF, 0, 1, TaskEdit(None, None, None, SetTo(0))),
          map[0 := OPEN, 1 := OPEN.(dependsOn := Some(0))]);
  }

  /** The closure is not an invariant of all runs: both tasks are completed in order, and the first is
      reopened. */
  lemma ReopeningBreaksClosure() returns (s: Store, r: Request)
    ensures Reachable(s) && DoneIsClosed(s)
    ensures Reachable(After(s, r)) && !DoneIsClosed(After(s, r))
  {
    LinkedPair();
    var half := map[0 := DONE, 1 := OPEN.(dependsOn := Some(0))];
    Visit(map[0 := OPEN, 1 := OPEN.(dependsOn := Some(0))], SetStatus(STAFF, 0, 0, Completed, 7, 1), half);
    s := map[0 := DONE, 1 := DONE.(dependsOn := Some(0))];
    Visit(half, SetStatus(STAFF, 0, 1, Completed, 7, 1), s);
    r := SetStatus(STAFF, 0, 0, InProgress, 7, 2);
    StepStaysReachable(s, r);
    assert 1 in After(s, r) && After(s, r)[1] == s[1] && !Done(After(s, r)[0]);
  }
}
