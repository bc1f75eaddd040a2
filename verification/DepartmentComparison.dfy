/** The department comparison (src/modules/analytics/analytics.service.ts, lines 199-321): grouped maps
    filled in one pass over each query result, against each department computed on its own. */
module DepartmentComparison {
  import opened Common
  import opened Arithmetic
  import opened TaskModel

  datatype Department = Department(id: DeptId, name: string)
  datatype Profile = Profile(user: UserId, department: Option<DeptId>)
  datatype TaskRow = TaskRow(department: Option<DeptId>, status: Status)
  datatype TaskGroup = TaskGroup(department: Option<DeptId>, status: Status, count: nat)
  datatype TargetRow = TargetRow(department: Option<DeptId>, current: Option<real>, target: Option<real>)
  datatype Line = Line(id: DeptId, name: string, members: nat, avgScore: real, completionRate: int, targetProgress: int)

  predicate Finished(st: Status) {
    st == Completed || st == CompletedLate
  }

  // ------------------------------------------------------------------ one department on its own

  /** The users whose profile names the department, in row order. */
  function UsersOf(profiles: seq<Profile>, d: DeptId): seq<UserId> {
    if profiles == [] then []
    else
      var p := profiles[|profiles| - 1];
      UsersOf(profiles[..|profiles| - 1], d) + (if p.department == Some(d) then [p.user] else [])
  }

  function ScoreOf(records: seq<(UserId, real)>, u: UserId): Option<real> {
    if records == [] then None
    else if records[|records| - 1].0 == u then Some(records[|records| - 1].1)
    else ScoreOf(records[..|records| - 1], u)
  }

  function ScoresOf(users: seq<UserId>, records: seq<(UserId, real)>): seq<real> {
    if users == [] then []
    else
      var s := ScoreOf(records, users[|users| - 1]);
      ScoresOf(users[..|users| - 1], records) + (if s.Some? then [s.value] else [])
  }

  function CountTasks(tasks: seq<TaskRow>, d: Option<DeptId>, st: Status): nat {
    if tasks == [] then 0
    else CountTasks(tasks[1..], d, st) + (if tasks[0].department == d && tasks[0].status == st then 1 else 0)
  }

  function TasksIn(tasks: seq<TaskRow>, d: DeptId): nat {
    if tasks == [] then 0
    else TasksIn(tasks[1..], d) + (if tasks[0].department == Some(d) then 1 else 0)
  }

  function FinishedIn(tasks: seq<TaskRow>, d: DeptId): nat {
    if tasks == [] then 0
    else FinishedIn(tasks[1..], d) + (if tasks[0].department == Some(d) && Finished(tasks[0].status) then 1 else 0)
  }

  function Average(scores: seq<real>): real {
    if scores == [] then 0.0 else Round2(Sum(scores) / |scores| as real)
  }

  function Rate(done: nat, total: nat): int {
    if total == 0 then 0 else Round((done as real / total as real) * 100.0)
  }

  function TargetOf(targets: seq<TargetRow>, d: DeptId): Option<TargetRow> {
    if targets == [] then None
    else if targets[|targets| - 1].department == Some(d) then Some(targets[|targets| - 1])
    else TargetOf(targets[..|targets| - 1], d)
  }

  function Progress(t: Option<TargetRow>): int {
    if t.Some? && t.value.target.Some? && t.value.target.value > 0.0
    then Round(((if t.value.current.Some? then t.value.current.value else 0.0) / t.value.target.value) * 100.0)
    else 0
  }

  /** One department computed by filtering profiles, records and tasks. */
  function Alone(dept: Department, profiles: seq<Profile>, records: seq<(UserId, real)>, tasks: seq<TaskRow>,
                 targets: seq<TargetRow>): Line {
    var users := UsersOf(profiles, dept.id);
    if users == [] then Line(dept.id, dept.name, 0, 0.0, 0, 0)
    else Line(dept.id, dept.name, |users|, Average(ScoresOf(users, records)),
              Rate(FinishedIn(tasks, dept.id), TasksIn(tasks, dept.id)), Progress(TargetOf(targets, dept.id)))
  }

  // ------------------------------------------------------------------ the grouped query

  /** One row per department and status that occur, in any order. */
  ghost predicate IsGroupBy(groups: seq<TaskGroup>, tasks: seq<TaskRow>) {
    && (forall i, j :: 0 <= i < j < |groups| ==>
        groups[i].department != groups[j].department || groups[i].status != groups[j].status)
    && (forall i :: 0 <= i < |groups| ==> groups[i].count == CountTasks(tasks, groups[i].department, groups[i].status))
    && (forall d, st :: CountTasks(tasks, d, st) > 0 ==>
          exists i :: 0 <= i < |groups| && groups[i].department == d && groups[i].status == st)
  }

  function Total(groups: seq<TaskGroup>, d: DeptId): nat {
    if groups == [] then 0
    else
      var g := groups[|groups| - 1];
      Total(groups[..|groups| - 1], d) + (if g.department == Some(d) then g.count else 0)
  }

  function Done(groups: seq<TaskGroup>, d: DeptId): nat {
    if groups == [] then 0
    else
      var g := groups[|groups| - 1];
      Done(groups[..|groups| - 1], d) + (if g.department == Some(d) && Finished(g.status) then g.count else 0)
  }

  function GroupCount(groups: seq<TaskGroup>, d: DeptId, st: Status): nat {
    if groups == [] then 0
    else
      var g := groups[|groups| - 1];
      if g.department == Some(d) && g.status == st then g.count else GroupCount(groups[..|groups| - 1], d, st)
  }

  lemma {:induction false} GroupCountMissing(groups: seq<TaskGroup>, d: DeptId, st: Status)
    requires forall i :: 0 <= i < |groups| ==> groups[i].department != Some(d) || groups[i].status != st
    ensures GroupCount(groups, d, st) == 0
  {
    if groups != [] { GroupCountMissing(groups[..|groups| - 1], d, st); }
  }

  lemma {:induction false} GroupCountAt(groups: seq<TaskGroup>, i: nat, d: DeptId)
    requires forall i, j :: 0 <= i < j < |groups| ==>
        groups[i].department != groups[j].department || groups[i].status != groups[j].status
    requires i < |groups| && groups[i].department == Some(d)
    ensures GroupCount(groups, d, groups[i].status) == groups[i].count
  {
    if i < |groups| - 1 {
      var g := groups[|groups| - 1];
      assert g.department != groups[i].department || g.status != groups[i].status;
      var front := groups[..|groups| - 1];
      GroupCountAt(front, i, d);
      assert front[i] == groups[i];
    }
  }

  lemma {:induction false} TotalByStatus(groups: seq<TaskGroup>, d: DeptId)
    requires forall i, j :: 0 <= i < j < |groups| ==>
        groups[i].department != groups[j].department || groups[i].status != groups[j].status
    ensures Total(groups, d) == GroupCount(groups, d, NotStarted) + GroupCount(groups, d, InProgress) +
        GroupCount(groups, d, Completed)
                                + GroupCount(groups, d, Overdue) + GroupCount(groups, d, CompletedLate)
    ensures Done(groups, d) == GroupCount(groups, d, Completed) + GroupCount(groups, d, CompletedLate)
  {
    if groups != [] {
      var g := groups[|groups| - 1];
      TotalByStatus(groups[..|groups| - 1], d);
      if g.department == Some(d) { GroupCountMissing(groups[..|groups| - 1], d, g.status); }
    }
  }

  lemma {:induction false} TasksByStatus(tasks: seq<TaskRow>, d: DeptId)
    ensures TasksIn(tasks, d) == CountTasks(tasks, Some(d), NotStarted) + CountTasks(tasks, Some(d), InProgress)
                                 + CountTasks(tasks, Some(d), Completed) + CountTasks(tasks, Some(d), Overdue)
                                 + CountTasks(tasks, Some(d), CompletedLate)
    ensures FinishedIn(tasks, d) == CountTasks(tasks, Some(d), Completed) + CountTasks(tasks, Some(d), CompletedLate)
  {
    if tasks != [] { TasksByStatus(tasks[1..], d); }
  }

  /** The group sums of a department are its tasks and its finished tasks. */
  lemma GroupsCountTasks(groups: seq<TaskGroup>, tasks: seq<TaskRow>, d: DeptId)
    requires IsGroupBy(groups, tasks)
    ensures Total(groups, d) == TasksIn(tasks, d) && Done(groups, d) == FinishedIn(tasks, d)
  {
    forall st: Status ensures GroupCount(groups, d, st) == CountTasks(tasks, Some(d), st) {
      if i :| 0 <= i < |groups| && groups[i].department == Some(d) && groups[i].status == st {
        GroupCountAt(groups, i, d);
      } else {
        GroupCountMissing(groups, d, st);
        assert !(CountTasks(tasks, Some(d), st) > 0);
      }
    }
    TotalByStatus(groups, d);
    TasksByStatus(tasks, d);
  }

  // ------------------------------------------------------------------ totals and rates

  function SumTasks(tasks: seq<TaskRow>, ds: seq<DeptId>): nat {
    if ds == [] then 0 else TasksIn(tasks, ds[0]) + SumTasks(tasks, ds[1..])
  }

  function WithDepartment(tasks: seq<TaskRow>): nat {
    if tasks == [] then 0 else WithDepartment(tasks[1..]) + (if tasks[0].department.Some? then 1 else 0)
  }

  lemma {:induction false} SumTasksStep(tasks: seq<TaskRow>, ds: seq<DeptId>)
    requires tasks != [] && forall i, j :: 0 <= i < j < |ds| ==> ds[i] != ds[j]
    ensures SumTasks(tasks, ds) == SumTasks(tasks[1..], ds)
                                   + (if tasks[0].department.Some? && tasks[0].department.value in ds then 1 else 0)
  {
    if ds != [] { SumTasksStep(tasks, ds[1..]); }
  }

  lemma {:induction false} SumTasksEmpty(ds: seq<DeptId>)
    ensures SumTasks([], ds) == 0
  {
    if ds != [] { SumTasksEmpty(ds[1..]); }
  }

  lemma {:induction false} RowsAddUp(tasks: seq<TaskRow>, ds: seq<DeptId>)
    requires forall i, j :: 0 <= i < j < |ds| ==> ds[i] != ds[j]
    requires forall i :: 0 <= i < |tasks| && tasks[i].department.Some? ==> tasks[i].department.value in ds
    ensures SumTasks(tasks, ds) == WithDepartment(tasks)
  {
    if tasks == [] {
      SumTasksEmpty(ds);
    } else {
      SumTasksStep(tasks, ds);
      assert tasks[0].department.Some? ==> tasks[0].department.value in ds;
      RowsAddUp(tasks[1..], ds);
    }
  }

  function SumTotals(groups: seq<TaskGroup>, ds: seq<DeptId>): nat {
    if ds == [] then 0 else Total(groups, ds[0]) + SumTotals(groups, ds[1..])
  }

  lemma {:induction false} TotalsSumTasks(groups: seq<TaskGroup>, tasks: seq<TaskRow>, ds: seq<DeptId>)
    requires IsGroupBy(groups, tasks)
    ensures SumTotals(groups, ds) == SumTasks(tasks, ds)
  {
    if ds != [] {
      GroupsCountTasks(groups, tasks, ds[0]);
      TotalsSumTasks(groups, tasks, ds[1..]);
    }
  }

  /** Over distinct departments that cover the rows, the totals accumulated from the groups add up to the
      fetched tasks that have a department. */
  lemma TotalsAddUp(groups: seq<TaskGroup>, tasks: seq<TaskRow>, ds: seq<DeptId>)
    requires IsGroupBy(groups, tasks) && Unique(ds)
    requires forall i :: 0 <= i < |tasks| && tasks[i].department.Some? ==> tasks[i].department.value in ds
    ensures SumTotals(groups, ds) == WithDepartment(tasks)
  {
    TotalsSumTasks(groups, tasks, ds);
    RowsAddUp(tasks, ds);
  }

  lemma {:induction false} FinishedAmongTasks(tasks: seq<TaskRow>, d: DeptId)
    ensures FinishedIn(tasks, d) <= TasksIn(tasks, d)
  {
    if tasks != [] { FinishedAmongTasks(tasks[1..], d); }
  }

  lemma RateIsNear(done: nat, total: nat)
    requires done <= total && total > 0
    ensures 0 <= Rate(done, total) <= 100
    ensures -0.5 <= Rate(done, total) as real - (done as real / total as real) * 100.0 <= 0.5
  {
    Between(0.0, 1.0, done as real, total as real);
    var q := done as real / total as real;
    RoundBetween(0, 100, q * 100.0);
    RoundNear(q * 100.0);
  }

  /** A completion rate is a percentage, within half a point of the exact one. */
  lemma RateIsPercentage(tasks: seq<TaskRow>, d: DeptId)
    ensures var done, total := FinishedIn(tasks, d), TasksIn(tasks, d);
            && 0 <= Rate(done, total) <= 100
            && (total > 0 ==> -0.5 <= Rate(done, total) as real - (done as real / total as real) * 100.0 <= 0.5)
  {
    FinishedAmongTasks(tasks, d);
    if TasksIn(tasks, d) > 0 { RateIsNear(FinishedIn(tasks, d), TasksIn(tasks, d)); }
  }

  // ------------------------------------------------------------------ the service's single pass

  function Listed(m: map<DeptId, seq<UserId>>, d: DeptId): seq<UserId> {
    if d in m then m[d] else []
  }

  function Counted(m: map<DeptId, nat>, d: DeptId): nat {
    if d in m then m[d] else 0
  }

  function Found<K, V>(m: map<K, V>, k: K): Option<V> {
    if k in m then Some(m[k]) else None
  }

  method GroupUsers(profiles: seq<Profile>) returns (deptUsers: map<DeptId, seq<UserId>>)
    ensures forall d :: Listed(deptUsers, d) == UsersOf(profiles, d)
  {
    deptUsers := map[];
    for i := 0 to |profiles|
      invariant forall d :: Listed(deptUsers, d) == UsersOf(profiles[..i], d)
    {
      var p := profiles[i];
      assert profiles[..i + 1][..i] == profiles[..i];
      if p.department.Some? {
        deptUsers := deptUsers[p.department.value := Listed(deptUsers, p.department.value) + [p.user]];
      }
    }
    assert profiles[..|profiles|] == profiles;
  }

  method IndexScores(performances: seq<(UserId, real)>) returns (userPerf: map<UserId, real>)
    ensures forall u :: Found(userPerf, u) == ScoreOf(performances, u)
  {
    userPerf := map[];
    for i := 0 to |performances|
      invariant forall u :: Found(userPerf, u) == ScoreOf(performances[..i], u)
    {
      assert performances[..i + 1][..i] == performances[..i];
      userPerf := userPerf[performances[i].0 := performances[i].1];
    }
    assert performances[..|performances|] == performances;
  }

  method SumGroups(groups: seq<TaskGroup>) returns (deptTotal: map<DeptId, nat>, deptDone: map<DeptId, nat>)
    ensures forall d :: Counted(deptTotal, d) == Total(groups, d)
    ensures forall d :: Counted(deptDone, d) == Done(groups, d)
  {
    deptTotal, deptDone := map[], map[];
    for i := 0 to |groups|
      invariant forall d :: Counted(deptTotal, d) == Total(groups[..i], d)
      invariant forall d :: Counted(deptDone, d) == Done(groups[..i], d)
    {
      var g := groups[i];
      assert groups[..i + 1][..i] == groups[..i];
      if g.department.Some? {
        var d := g.department.value;
        deptTotal := deptTotal[d := Counted(deptTotal, d) + g.count];
        if Finished(g.status) { deptDone := deptDone[d := Counted(deptDone, d) + g.count]; }
      }
    }
    assert groups[..|groups|] == groups;
  }

  method IndexTargets(targets: seq<TargetRow>) returns (deptTarget: map<DeptId, TargetRow>)
    ensures forall d :: Found(deptTarget, d) == TargetOf(targets, d)
  {
    deptTarget := map[];
    for i := 0 to |targets|
      invariant forall d :: Found(deptTarget, d) == TargetOf(targets[..i], d)
    {
      assert targets[..i + 1][..i] == targets[..i];
      if targets[i].department.Some? { deptTarget := deptTarget[targets[i].department.value := targets[i]]; }
    }
    assert targets[..|targets|] == targets;
  }

  /** The comparison as the service computes it: maps filled in one pass over each query result, then
      one line per department without further queries.  It is each department computed alone. */
  method GetDepartmentComparison(departments: seq<Department>, profiles: seq<Profile>,
                                 performances: seq<(UserId, real)>,
                                 groups: seq<TaskGroup>, targets: seq<TargetRow>, ghost tasks: seq<TaskRow>)
    returns (result: seq<Line>)
    requires IsGroupBy(groups, tasks)
    ensures |result| == |departments|
    ensures forall i :: 0 <= i < |departments| ==>
        result[i] == Alone(departments[i], profiles, performances, tasks, targets)
  {
    var deptUsers := GroupUsers(profiles);
    var userPerf := IndexScores(performances);
    var deptTotal, deptDone := SumGroups(groups);
    var deptTarget := IndexTargets(targets);
    result := [];
    for i := 0 to |departments|
      invariant |result| == i
      invariant forall j :: 0 <= j < i ==> result[j] == Alone(departments[j], profiles, performances, tasks, targets)
    {
      var dept := departments[i];
      GroupsCountTasks(groups, tasks, dept.id);
      var line := OneLine(dept, deptUsers, userPerf, deptTotal, deptDone, deptTarget, performances);
      result := result + [line];
    }
  }

  /** The line of one department from the filled maps. */
  method OneLine(dept: Department, deptUsers: map<DeptId, seq<UserId>>, userPerf: map<UserId, real>,
                 deptTotal: map<DeptId, nat>, deptDone: map<DeptId, nat>, deptTarget: map<DeptId, TargetRow>,
                     ghost performances: seq<(UserId, real)>)
    returns (line: Line)
    requires forall u :: Found(userPerf, u) == ScoreOf(performances, u)
    ensures var users := Listed(deptUsers, dept.id);
            line == if users == [] then Line(dept.id, dept.name, 0, 0.0, 0, 0)
                    else Line(dept.id, dept.name, |users|, Average(ScoresOf(users, performances)),
                              Rate(Counted(deptDone, dept.id), Counted(deptTotal, dept.id)),
                                  Progress(Found(deptTarget, dept.id)))
  {
    var users := Listed(deptUsers, dept.id);
    if users == [] { return Line(dept.id, dept.name, 0, 0.0, 0, 0); }
    var scores, sum := [], 0.0;
    for i := 0 to |users|
      invariant scores == ScoresOf(users[..i], performances) && sum == Sum(scores)
    {
      assert users[..i + 1][..i] == users[..i] && Found(userPerf, users[i]) == ScoreOf(performances, users[i]);
      if users[i] in userPerf {
        assert (scores + [userPerf[users[i]]])[..|scores|] == scores;
        scores, sum := scores + [userPerf[users[i]]], sum + userPerf[users[i]];
      }
    }
    assert users[..|users|] == users;
    var avgScore := if |scores| > 0 then Round2(sum / |scores| as real) else 0.0;
    var total, done := Counted(deptTotal, dept.id), Counted(deptDone, dept.id);
    var completionRate := if total > 0 then Round((done as real / total as real) * 100.0) else 0;
    var targetProgress := 0;
    if dept.id in deptTarget {
      var t := deptTarget[dept.id];
      if t.target.Some? && t.target.value > 0.0 {
        var current := if t.current.Some? then t.current.value else 0.0;
        targetProgress := Round((current / t.target.value) * 100.0);
      }
    }
    return Line(dept.id, dept.name, |users|, avgScore, completionRate, targetProgress);
  }
}
