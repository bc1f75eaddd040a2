/** What the requests of the task service mean column by column: exactly when each is accepted, and exactly
    which columns of which rows it then changes. */
module TaskEffects {
  import opened Common
  import opened TaskModel
  import opened DependencyGraph

  // ------------------------------------------------------------------ chains of dependencies, as lists

  /** A list of tasks each of which depends on the next. */
  ghost predicate Chain(s: Store, path: seq<TaskId>) {
    path != [] && forall i :: 0 <= i < |path| - 1 ==> DependsOn(s, path[i], path[i + 1])
  }

  ghost predicate DependsOn(s: Store, a: TaskId, b: TaskId) {
    a in s && s[a].dependsOn == Some(b)
  }

  ghost predicate ChainBetween(s: Store, path: seq<TaskId>, a: TaskId, b: TaskId) {
    Chain(s, path) && path[0] == a && path[|path| - 1] == b
  }

  lemma {:induction false} ChainIsWalk(s: Store, path: seq<TaskId>)
    requires Chain(s, path)
    ensures Iter(s, path[0], |path| - 1) == Some(path[|path| - 1])
    decreases |path|
  {
    if |path| > 1 {
      var rest := path[1..];
      forall i | 0 <= i < |rest| - 1 ensures DependsOn(s, rest[i], rest[i + 1]) {
        assert DependsOn(s, path[i + 1], path[i + 2]);
      }
      ChainIsWalk(s, rest);
      assert DependsOn(s, path[0], path[1]);
    }
  }

  lemma {:induction false} WalkIsChain(s: Store, a: TaskId, n: nat) returns (path: seq<TaskId>)
    requires Iter(s, a, n).Some?
    ensures |path| == n + 1 && ChainBetween(s, path, a, Iter(s, a, n).value)
    decreases n
  {
    if n == 0 {
      path := [a];
    } else {
      var rest := WalkIsChain(s, Next(s, a).value, n - 1);
      path := [a] + rest;
      forall i | 0 <= i < |path| - 1 ensures DependsOn(s, path[i], path[i + 1]) {
        if i > 0 { assert path[i] == rest[i - 1] && path[i + 1] == rest[i]; }
      }
    }
  }

  /** A parent leads to a task exactly when a chain of dependencies links them. */
  lemma ReachesIsChain(s: Store, a: TaskId, b: TaskId)
    ensures Reaches(s, a, b) <==> exists path :: ChainBetween(s, path, a, b)
  {
    if Reaches(s, a, b) {
      var n: nat :| Iter(s, a, n) == Some(b);
      var path := WalkIsChain(s, a, n);
      assert ChainBetween(s, path, a, b);
    }
    if path :| ChainBetween(s, path, a, b) { ChainIsWalk(s, path); }
  }

  /** A task is on a cycle exactly when a chain of at least one dependency leads from it back to it. */
  lemma CycleIsChain(s: Store, t: TaskId)
    ensures OnCycle(s, t) <==> exists path :: |path| > 1 && ChainBetween(s, path, t, t)
  {
    if OnCycle(s, t) {
      var n: nat :| n > 0 && Iter(s, t, n) == Some(t);
      var path := WalkIsChain(s, t, n);
      assert |path| > 1 && ChainBetween(s, path, t, t);
    }
    if path :| |path| > 1 && ChainBetween(s, path, t, t) { ChainIsWalk(s, path); }
  }

  // ------------------------------------------------------------------ the requests

  /** The tables agree on every row but one. */
  ghost predicate OthersStand(s: Store, s': Store, id: TaskId) {
    forall t :: t != id ==> (t in s <==> t in s') && (t in s ==> s'[t] == s[t])
  }

  lemma CreateEffect(s: Store, w: World, org: OrgId, assigner: UserId, dto: NewTask, id: TaskId)
    ensures var r := CreateTask(s, w, org, assigner, dto, id);
            && (r.Ok? <==>
                  && (org, dto.assignee) in w.roles
                  && (exists d ::
                        && (d, dto.assignee) in w.activeStaff && d in w.departmentOrg && w.departmentOrg[d] == org
                        && (dto.department.Some? ==> dto.department.value == d))
                  && (dto.dependsOn.Some? ==> dto.dependsOn.value in s && s[dto.dependsOn.value].org == org)
                  && id !in s)
    ensures var r := CreateTask(s, w, org, assigner, dto, id);
            r.Ok? ==> OthersStand(s, r.state.tasks, id) && id in r.state.tasks
    ensures var r := CreateTask(s, w, org, assigner, dto, id);
            r.Ok? ==>
              (var t := r.state.tasks[id];
                  && t.org == org && t.assignee == dto.assignee && t.assigner == assigner
                  && t.department == dto.department
                  && t.status == NotStarted && t.deadline == Some(dto.deadline) && t.completedAt == None
                  && t.dependsOn == None && r.state.jobs == [Job(org, [dto.assignee])])
  {
    if d :| (d, dto.assignee) in w.activeStaff && d in w.departmentOrg && w.departmentOrg[d] == org &&
            (dto.department.Some? ==> dto.department.value == d)
    {
      assert DepartmentAccepts(w, org, dto.department, dto.assignee);
    }
  }

  lemma UpdateIsAccepted(s: Store, w: World, org: OrgId, id: TaskId, dto: TaskEdit)
    ensures UpdateTask(s, w, org, id, dto).Ok? <==>
            && id in s && s[id].org == org
            && (dto.assignee.Some? && dto.assignee.value != s[id].assignee ==> (org, dto.assignee.value) in w.roles)
            && (dto.department.Some? && dto.department != s[id].department ==>
                  dto.department.value in w.departmentOrg && w.departmentOrg[dto.department.value] == org)
            && (dto.dependsOn.SetTo? && s[id].dependsOn != Some(dto.dependsOn.parent) ==>
                  var p := dto.dependsOn.parent;
                  p in s && s[p].org == org && p != id && !exists path :: ChainBetween(s, path, p, id))
  {
    if dto.dependsOn.SetTo? { ReachesIsChain(s, dto.dependsOn.parent, id); }
  }

  lemma UpdateEffect(s: Store, w: World, org: OrgId, id: TaskId, dto: TaskEdit)
    requires UpdateTask(s, w, org, id, dto).Ok?
    ensures var after := UpdateTask(s, w, org, id, dto).state;
            && OthersStand(s, after.tasks, id) && id in after.tasks
            && var x, y := s[id], after.tasks[id];
               && y.org == x.org && y.assigner == x.assigner && y.status == x.status && y.completedAt == x.completedAt
               && (dto.assignee.Some? ==> y.assignee == dto.assignee.value) &&
                   (dto.assignee == None ==> y.assignee == x.assignee)
               && (dto.department.Some? ==> y.department == dto.department)
               && (dto.department == None ==> y.department == x.department)
               && (dto.deadline.Some? ==> y.deadline == dto.deadline) &&
                   (dto.deadline == None ==> y.deadline == x.deadline)
               && (dto.dependsOn == Keep ==> y.dependsOn == x.dependsOn) &&
                   (dto.dependsOn == Clear ==> y.dependsOn == None)
               && (dto.dependsOn.SetTo? ==> y.dependsOn == Some(dto.dependsOn.parent))
    ensures var after := UpdateTask(s, w, org, id, dto).state;
            var x, y := s[id], after.tasks[id];
            if x.assignee == y.assignee then after.jobs == []
            else |after.jobs| == 1 && after.jobs[0].org == org &&
                 forall u :: u in after.jobs[0].users <==> u == x.assignee || u == y.assignee
  {
  }

  lemma StatusIsAccepted(s: Store, w: World, org: OrgId, id: TaskId, wanted: Status, user: UserId, now: Time)
    ensures UpdateStatus(s, w, org, id, wanted, user, now).Ok? <==>
            && id in s && s[id].org == org && (org, user) in w.roles
            && (w.roles[(org, user)] == Member ==> s[id].assignee == user)
            && (s[id].status == Overdue ==> wanted !in {NotStarted, InProgress})
            && (wanted in {InProgress, Completed, CompletedLate} && s[id].dependsOn.Some? &&
                s[id].dependsOn.value in s ==>
                  s[s[id].dependsOn.value].status in {Completed, CompletedLate})
  {
  }

  lemma StatusEffect(s: Store, w: World, org: OrgId, id: TaskId, wanted: Status, user: UserId, now: Time)
    requires UpdateStatus(s, w, org, id, wanted, user, now).Ok?
    ensures var after := UpdateStatus(s, w, org, id, wanted, user, now).state;
            && OthersStand(s, after.tasks, id) && id in after.tasks && after.jobs == [Job(s[id].org, [s[id].assignee])]
            && var x, y := s[id], after.tasks[id];
               && y == x.(status := y.status, completedAt := y.completedAt)
               && (y.status == wanted || (wanted == Completed && y.status == CompletedLate))
               && (wanted == Completed ==> (y.status == CompletedLate <==> x.status == Overdue))
               && (wanted == Completed ==> y.completedAt == Some(now))
               && (wanted in {NotStarted, InProgress} ==> y.completedAt == None)
  {
  }

  lemma RemoveEffect(s: Store, w: World, org: OrgId, id: TaskId, user: UserId, role: Role)
    ensures var r := RemoveTask(s, w, org, id, user, role);
            && (r.Ok? <==>
                  && id in s && s[id].org == org
                  && (user == s[id].assigner ||
                      (if (org, s[id].assigner) !in w.roles then role != Member
                       else var theirs := w.roles[(org, s[id].assigner)];
                            || (theirs == Member && role in {Supervisor, Admin, Owner})
                            || (theirs == Supervisor && role in {Admin, Owner})
                            || (theirs == Admin && role == Owner)))
                  && forall t :: t in s ==> s[t].dependsOn != Some(id))
            && (r.Ok? ==> OthersStand(s, r.state.tasks, id) && id !in r.state.tasks &&
                          r.state.jobs == [Job(org, [s[id].assignee])])
  {
  }

  lemma SubTaskEffect(s: Store, org: OrgId, id: TaskId)
    ensures var r := AddSubTask(s, org, id);
            && (r.Ok? <==> id in s && s[id].org == org && s[id].status !in {Completed, CompletedLate})
            && (r.Ok? ==> OthersStand(s, r.state.tasks, id) && id in r.state.tasks && r.state.jobs == [] &&
                          r.state.tasks[id] == s[id].(status := r.state.tasks[id].status) &&
                          (s[id].status == NotStarted ==> r.state.tasks[id].status == InProgress) &&
                          (s[id].status != NotStarted ==> r.state.tasks[id].status == s[id].status))
  {
  }

  /** A task whose deadline has passed before it was completed or found overdue. */
  lemma MarkingEffect(s: Store, now: Time, t: TaskId)
    ensures (t in s <==> t in MarkExpired(s, now))
    ensures t in s ==>
              var x, y := s[t], MarkExpired(s, now)[t];
              && y == x.(status := y.status)
              && (y.status == x.status || (x.status in {NotStarted, InProgress} && y.status == Overdue))
              && (y.status == Overdue <==>
                    x.status == Overdue ||
                    (x.status in {NotStarted, InProgress} && x.deadline.Some? && x.deadline.value < now))
  {
  }

  lemma DepartmentDeletionEffect(s: Store, d: DeptId, t: TaskId)
    ensures (t in s <==> t in WithoutDepartment(s, d))
    ensures t in s ==>
              var x, y := s[t], WithoutDepartment(s, d)[t];
              y == x.(department := y.department) &&
              (x.department == Some(d) ==> y.department == None) &&
                  (x.department != Some(d) ==> y.department == x.department)
  {
  }
}
