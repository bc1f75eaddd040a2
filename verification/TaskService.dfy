/** The task service and the overdue cron as code over a mutable table and queue. */
module TaskService {
  import opened Common
  import opened TaskModel
  import opened DependencyGraph
  import opened TaskEffects

  /** A request either has exactly the given effect on table and queue, or throws and has none. */
  ghost predicate Answers(reply: Reply<Effect, TaskError>, s: Store, q: seq<Job>, s': Store, q': seq<Job>,
                          error: Option<TaskError>) {
    match reply
    case Ok(effect) => error == None && s' == effect.tasks && q' == q + effect.jobs
    case Err(e) => error == Some(e) && s' == s && q' == q
  }

  /** So every theorem about reachable tables holds of the object after any calls. */
  lemma AnswersStayReachable(s: Store, q: seq<Job>, s': Store, q': seq<Job>, r: Request, error: Option<TaskError>)
    requires Reachable(s) && Handle(s, r) != Err(InvalidRequest) && Answers(Handle(s, r), s, q, s', q', error)
    ensures Reachable(s')
  {
    StepStaysReachable(s, r);
  }

  class TaskService {
    var tasks: Store
    var queue: seq<Job>

    constructor ()
      ensures tasks == map[] && queue == []
    {
      tasks, queue := map[], [];
    }

    method Create(w: World, org: OrgId, assigner: UserId, dto: NewTask, id: TaskId) returns (error: Option<TaskError>)
      modifies this
      ensures Answers(CreateTask(old(tasks), w, org, assigner, dto, id), old(tasks), old(queue), tasks, queue, error)
    {
      if (org, dto.assignee) !in w.roles { return Some(AssigneeNotMember); }
      if !DepartmentAccepts(w, org, dto.department, dto.assignee) { return Some(BadDepartment); }
      if dto.dependsOn.Some? && !InOrg(tasks, dto.dependsOn.value, org) { return Some(NoSuchDependency); }
      if id in tasks { return Some(DuplicateKey); }
      tasks := tasks[id := Task(org, dto.assignee, assigner, dto.department, NotStarted, Some(dto.deadline), None,
                                None)];
      queue := queue + [Job(org, [dto.assignee])];
      return None;
    }

    /** The visited-set walk up from the proposed parent: it terminates on every table, cyclic or
        not, and finds the edited task exactly when the parent leads to it. */
    method LeadsTo(parent: TaskId, id: TaskId) returns (found: bool)
      ensures found <==> Reaches(tasks, parent, id)
    {
      var current := Some(parent);
      var visited: set<TaskId> := {};
      ghost var n: nat := 0;
      while current.Some?
        invariant current == Iter(tasks, parent, n)
        invariant current.Some? ==> current.value in Universe(tasks, parent)
        invariant parent in visited || current == Some(parent)
        invariant id !in visited && visited <= Universe(tasks, parent)
        invariant forall v :: v in visited && Next(tasks, v).Some? ==>
                    Next(tasks, v).value in visited || Next(tasks, v) == current
        decreases current.Some?, Universe(tasks, parent) - visited
      {
        var here := current.value;
        if here == id { return true; }
        if here in visited { break; }
        visited := visited + {here};
        IterCompose(tasks, parent, n, 1);
        assert Iter(tasks, here, 1) == Next(tasks, here) by {
          if Next(tasks, here).Some? { assert Iter(tasks, Next(tasks, here).value, 0) == Next(tasks, here); }
        }
        current := if here in tasks then tasks[here].dependsOn else None;
        n := n + 1;
      }
      forall m: nat ensures Iter(tasks, parent, m) != Some(id) {
        if Iter(tasks, parent, m).Some? { ClosedHoldsWalks(tasks, visited, parent, m); }
      }
      return false;
    }

    method Update(w: World, org: OrgId, id: TaskId, dto: TaskEdit) returns (error: Option<TaskError>)
      modifies this
      ensures Answers(UpdateTask(old(tasks), w, org, id, dto), old(tasks), old(queue), tasks, queue, error)
    {
      if !InOrg(tasks, id, org) { return Some(NoSuchTask); }
      var task := tasks[id];
      if Reassigns(task, dto) && (org, dto.assignee.value) !in w.roles { return Some(AssigneeNotMember); }
      if MovesDepartment(task, dto) &&
         !(dto.department.value in w.departmentOrg && w.departmentOrg[dto.department.value] == org)
      { return Some(BadDepartment); }
      if dto.dependsOn.SetTo? && task.dependsOn != Some(dto.dependsOn.parent) {
        if !InOrg(tasks, dto.dependsOn.parent, org) { return Some(NoSuchDependency); }
        if dto.dependsOn.parent == id { return Some(SelfDependency); }
        var circular := LeadsTo(dto.dependsOn.parent, id);
        if circular { return Some(CircularDependency); }
      }
      tasks := tasks[id := ApplyEdit(task, dto)];
      queue := queue + ReassignJobs(task, dto);
      return None;
    }

    method UpdateStatus(w: World, org: OrgId, id: TaskId, wanted: Status, user: UserId, now: Time)
        returns (error: Option<TaskError>)
      modifies this
      ensures Answers(TaskModel.UpdateStatus(old(tasks), w, org, id, wanted, user, now), old(tasks), old(queue), tasks,
                      queue, error)
    {
      if !InOrg(tasks, id, org) { return Some(NoSuchTask); }
      var task := tasks[id];
      if (org, user) !in w.roles { return Some(NotMember); }
      if w.roles[(org, user)] == Member && task.assignee != user { return Some(NotYourTask); }
      if task.status == Overdue && (wanted == InProgress || wanted == NotStarted) { return Some(OverdueIsFrozen); }
      if (wanted == InProgress || wanted == Completed || wanted == CompletedLate) && task.dependsOn.Some? {
        var parent := task.dependsOn.value;
        if parent in tasks && !Done(tasks[parent]) { return Some(DependencyNotDone); }
      }
      var final, completedAt := wanted, task.completedAt;
      if wanted == Completed {
        if task.status == Overdue { final := CompletedLate; }
        completedAt := Some(now);
      }
      if wanted == NotStarted || wanted == InProgress { completedAt := None; }
      tasks := tasks[id := task.(status := final, completedAt := completedAt)];
      queue := queue + [Job(org, [task.assignee])];
      return None;
    }

    method Remove(w: World, org: OrgId, id: TaskId, user: UserId, role: Role) returns (error: Option<TaskError>)
      modifies this
      ensures Answers(RemoveTask(old(tasks), w, org, id, user, role), old(tasks), old(queue), tasks, queue, error)
    {
      if !InOrg(tasks, id, org) { return Some(NoSuchTask); }
      var task := tasks[id];
      if task.assigner != user {
        var assignerRole := if (org, task.assigner) in w.roles then w.roles[(org, task.assigner)] else Member;
        if !Outranks(role, assignerRole) { return Some(CannotDelete); }
      }
      if HasDependent(tasks, id) { return Some(HasDependents); }
      tasks := tasks - {id};
      queue := queue + [Job(org, [task.assignee])];
      return None;
    }

    method AddSubTask(org: OrgId, id: TaskId) returns (error: Option<TaskError>)
      modifies this
      ensures Answers(TaskModel.AddSubTask(old(tasks), org, id), old(tasks), old(queue), tasks, queue, error)
    {
      if !InOrg(tasks, id, org) { return Some(NoSuchTask); }
      if Done(tasks[id]) { return Some(TaskIsDone); }
      if tasks[id].status == NotStarted {
        tasks := tasks[id := tasks[id].(status := InProgress)];
      }
      return None;
    }

    /** The cron: mark what expired, group the owners by organization, enqueue one job each. */
    method HandleOverdueDetection(now: Time) returns (ghost jobs: seq<Job>)
      modifies this
      ensures tasks == MarkExpired(old(tasks), now)
      ensures GroupsOwners(jobs, old(tasks), now) && queue == old(queue) + jobs
      ensures tasks.Keys == old(tasks).Keys
      ensures forall t :: t in tasks ==>
                var x, y := old(tasks)[t], tasks[t];
                && y == x.(status := y.status) && (y.status == x.status || y.status == Overdue)
                && (y.status == Overdue <==>
                      x.status == Overdue ||
                      (x.status in {NotStarted, InProgress} && x.deadline.Some? && x.deadline.value < now))
      ensures (set j, u | |old(queue)| <= j < |queue| && u in queue[j].users :: (queue[j].org, u))
              == set t | t in old(tasks) && old(tasks)[t].status in {NotStarted, InProgress} &&
                         old(tasks)[t].deadline.Some? && old(tasks)[t].deadline.value < now ::
                   (old(tasks)[t].org, old(tasks)[t].assignee)
    {
      ghost var s := tasks;
      var rows: seq<TaskId> := Rows(set id: TaskId | id in tasks && Expired(tasks[id], now));
      forall k | 0 <= k < |rows| ensures rows[k] in tasks && Expired(tasks[rows[k]], now) { assert rows[k] in rows; }
      var orgs, users := GroupByOrg(tasks, rows);
      tasks := map id | id in tasks :: if id in rows then tasks[id].(status := Overdue) else tasks[id];
      jobs := [];
      for j := 0 to |orgs|
        invariant queue == old(queue) + jobs && |jobs| == j
        invariant forall k :: 0 <= k < j ==> jobs[k] == Job(orgs[k], users[orgs[k]])
        invariant tasks == MarkExpired(s, now)
      {
        queue := queue + [Job(orgs[j], users[orgs[j]])];
        jobs := jobs + [Job(orgs[j], users[orgs[j]])];
      }
      GroupingMakesJobs(s, now, rows, orgs, users, jobs);
      forall t | t in tasks ensures tasks[t] == MarkExpired(s, now)[t] { MarkingEffect(s, now, t); }
      JobsNameOwners(s, now, old(queue), jobs);
    }
  }

  ghost predicate Owns(s: Store, rows: seq<TaskId>, o: OrgId, u: UserId) {
    exists k :: 0 <= k < |rows| && rows[k] in s && s[rows[k]].org == o && s[rows[k]].assignee == u
  }

  /** `users` lists, for each organization in `orgs`, exactly the owners of its rows, each once. */
  ghost predicate Grouped(s: Store, rows: seq<TaskId>, orgs: seq<OrgId>, users: map<OrgId, seq<UserId>>) {
    && Unique(orgs) && (forall o :: o in users <==> o in orgs)
    && (forall o :: o in users ==> users[o] != [] && Unique(users[o]))
    && (forall o, u :: Listed(users, o, u) <==> Owns(s, rows, o, u))
  }

  ghost predicate Listed(users: map<OrgId, seq<UserId>>, o: OrgId, u: UserId) {
    o in users && u in users[o]
  }

  method GroupByOrg(s: Store, rows: seq<TaskId>) returns (orgs: seq<OrgId>, users: map<OrgId, seq<UserId>>)
    requires forall k :: 0 <= k < |rows| ==> rows[k] in s
    ensures Grouped(s, rows, orgs, users)
  {
    orgs, users := [], map[];
    for i := 0 to |rows|
      invariant Grouped(s, rows[..i], orgs, users)
    {
      var task := s[rows[i]];
      var mine := if task.org in users then users[task.org] else [];
      if task.org !in users { orgs := orgs + [task.org]; }
      if task.assignee !in mine { mine := mine + [task.assignee]; }
      assert task.assignee in mine;
      OneMoreRow(s, rows, i);
      ghost var before := users;
      users := users[task.org := mine];
      assert forall o, u :: Listed(users, o, u) <==> Listed(before, o, u) || (o == task.org && u == task.assignee);
    }
    assert rows[..|rows|] == rows;
  }

  lemma OneMoreRow(s: Store, rows: seq<TaskId>, i: nat)
    requires i < |rows| && rows[i] in s
    ensures forall o, u :: Owns(s, rows[..i + 1], o, u) <==>
              Owns(s, rows[..i], o, u) || (o == s[rows[i]].org && u == s[rows[i]].assignee)
  {
    var more, less := rows[..i + 1], rows[..i];
    assert more[i] == rows[i];
    forall o, u | Owns(s, less, o, u) ensures Owns(s, more, o, u) {
      var k :| 0 <= k < |less| && less[k] in s && s[less[k]].org == o && s[less[k]].assignee == u;
      assert more[k] == less[k];
    }
    forall o, u | Owns(s, more, o, u) && !(o == s[rows[i]].org && u == s[rows[i]].assignee)
        ensures Owns(s, less, o, u) {
      var k :| 0 <= k < |more| && more[k] in s && s[more[k]].org == o && s[more[k]].assignee == u;
      assert less[k] == more[k];
    }
  }

  /** The jobs appended to a queue name, for each organization, exactly the owners of its newly overdue tasks. */
  lemma JobsNameOwners(s: Store, now: Time, before: seq<Job>, jobs: seq<Job>)
    requires GroupsOwners(jobs, s, now)
    ensures var queue := before + jobs;
            (set j, u | |before| <= j < |queue| && u in queue[j].users :: (queue[j].org, u))
            == set t | t in s && s[t].status in {NotStarted, InProgress} && s[t].deadline.Some? &&
                       s[t].deadline.value < now ::
                 (s[t].org, s[t].assignee)
  {
    var queue := before + jobs;
    var named := set j, u | |before| <= j < |queue| && u in queue[j].users :: (queue[j].org, u);
    var owners := set t | t in s && s[t].status in {NotStarted, InProgress} && s[t].deadline.Some? &&
                          s[t].deadline.value < now :: (s[t].org, s[t].assignee);
    forall x | x in named ensures x in owners {
      var j, u :| |before| <= j < |queue| && u in queue[j].users && x == (queue[j].org, u);
      assert jobs[j - |before|] == queue[j];
      assert OwnsExpired(s, now, x.0, x.1);
    }
    forall x | x in owners ensures x in named {
      var t :| t in s && Expired(s[t], now) && x == (s[t].org, s[t].assignee);
      assert Asked(jobs, x.0, x.1);
      var j :| 0 <= j < |jobs| && jobs[j].org == x.0 && x.1 in jobs[j].users;
      assert queue[|before| + j] == jobs[j];
    }
    assert named == owners;
  }

  lemma GroupingMakesJobs(s: Store, now: Time, rows: seq<TaskId>, orgs: seq<OrgId>, users: map<OrgId, seq<UserId>>,
                          jobs: seq<Job>)
    requires forall k :: 0 <= k < |rows| ==> rows[k] in s && Expired(s[rows[k]], now)
    requires forall id :: id in s && Expired(s[id], now) ==> id in rows
    requires Grouped(s, rows, orgs, users) && |jobs| == |orgs|
    requires forall k :: 0 <= k < |orgs| ==> jobs[k] == Job(orgs[k], users[orgs[k]])
    ensures GroupsOwners(jobs, s, now)
  {
    forall id | id in s && Expired(s[id], now)
      ensures Asked(jobs, s[id].org, s[id].assignee)
    {
      var k :| 0 <= k < |rows| && rows[k] == id;
      assert Owns(s, rows, s[id].org, s[id].assignee);
      assert Listed(users, s[id].org, s[id].assignee);
      var j :| 0 <= j < |orgs| && orgs[j] == s[id].org;
      assert jobs[j].org == s[id].org;
    }
    forall j, u | 0 <= j < |jobs| && u in jobs[j].users
      ensures OwnsExpired(s, now, jobs[j].org, u)
    {
      assert Listed(users, orgs[j], u);
    }
  }
}
