/** What the columns of a comparison line mean, over the fetched rows themselves. */
module DepartmentColumns {
  import opened Common
  import opened Arithmetic
  import opened TaskModel
  import opened DepartmentComparison

  lemma SizeOfSnoc(front: set<nat>, n: nat, more: bool)
    requires n !in front
    ensures |if more then front + {n} else front| == |front| + (if more then 1 else 0)
  {
  }

  /** Members are counted by profile. */
  lemma {:induction false} MembersAreProfiles(profiles: seq<Profile>, d: DeptId)
    ensures |UsersOf(profiles, d)| == |set i: nat | i < |profiles| && profiles[i].department == Some(d)|
    ensures forall u :: u in UsersOf(profiles, d) <==>
              exists i :: 0 <= i < |profiles| && profiles[i].department == Some(d) && profiles[i].user == u
  {
    var all := set i: nat | i < |profiles| && profiles[i].department == Some(d);
    if profiles == [] {
      assert all == {};
    } else {
      var front, n := profiles[..|profiles| - 1], |profiles| - 1;
      MembersAreProfiles(front, d);
      var before := set i: nat | i < |front| && front[i].department == Some(d);
      SizeOfSnoc(before, n, profiles[n].department == Some(d));
      assert all == if profiles[n].department == Some(d) then before + {n} else before;
      forall u ensures u in UsersOf(profiles, d) <==>
                         exists i :: 0 <= i < |profiles| && profiles[i].department == Some(d) && profiles[i].user == u
      {
        if i :| 0 <= i < |front| && front[i].department == Some(d) && front[i].user == u {
          assert profiles[i].department == Some(d) && profiles[i].user == u;
        }
        if i :| 0 <= i < |profiles| && profiles[i].department == Some(d) && profiles[i].user == u {
          assert i < |front| ==> front[i] == profiles[i];
        }
      }
    }
  }

  lemma {:induction false} CountedFromTheEnd(tasks: seq<TaskRow>, d: DeptId)
    requires tasks != []
    ensures var front, last := tasks[..|tasks| - 1], tasks[|tasks| - 1];
            && TasksIn(tasks, d) == TasksIn(front, d) + (if last.department == Some(d) then 1 else 0)
            && FinishedIn(tasks, d)
               == FinishedIn(front, d) + (if last.department == Some(d) && Finished(last.status) then 1 else 0)
  {
    if |tasks| > 1 {
      var front, rest := tasks[..|tasks| - 1], tasks[1..];
      CountedFromTheEnd(rest, d);
      assert rest[..|rest| - 1] == front[1..];
    }
  }

  /** The rows of a department, or its finished rows only. */
  function RowsOf(tasks: seq<TaskRow>, d: DeptId, finished: bool): set<nat> {
    set i: nat | i < |tasks| && tasks[i].department == Some(d) &&
                 (finished ==> tasks[i].status in {Completed, CompletedLate})
  }

  lemma RowsSnoc(tasks: seq<TaskRow>, d: DeptId, finished: bool)
    requires tasks != []
    ensures var n := |tasks| - 1;
            |RowsOf(tasks, d, finished)| == |RowsOf(tasks[..n], d, finished)| +
              (if tasks[n].department == Some(d) && (finished ==> tasks[n].status in {Completed, CompletedLate}) then 1
               else 0)
  {
    var front, n := tasks[..|tasks| - 1], |tasks| - 1;
    var mine := tasks[n].department == Some(d) && (finished ==> tasks[n].status in {Completed, CompletedLate});
    SizeOfSnoc(RowsOf(front, d, finished), n, mine);
    assert RowsOf(tasks, d, finished) == if mine then RowsOf(front, d, finished) + {n} else RowsOf(front, d, finished);
  }

  lemma {:induction false} CountsAreRows(tasks: seq<TaskRow>, d: DeptId)
    ensures TasksIn(tasks, d) == |RowsOf(tasks, d, false)| && FinishedIn(tasks, d) == |RowsOf(tasks, d, true)|
  {
    if tasks == [] {
      assert RowsOf(tasks, d, false) == {} && RowsOf(tasks, d, true) == {};
    } else {
      CountsAreRows(tasks[..|tasks| - 1], d);
      CountedFromTheEnd(tasks, d);
      RowsSnoc(tasks, d, false);
      RowsSnoc(tasks, d, true);
    }
  }

  /** Tasks and finished tasks are counted by row. */
  lemma TasksAreRows(tasks: seq<TaskRow>, d: DeptId)
    ensures TasksIn(tasks, d) == |set i: nat | i < |tasks| && tasks[i].department == Some(d)|
    ensures FinishedIn(tasks, d)
            == |set i: nat |
                  i < |tasks| && tasks[i].department == Some(d) && tasks[i].status in {Completed, CompletedLate}|
  {
    CountsAreRows(tasks, d);
    assert RowsOf(tasks, d, false) == set i: nat | i < |tasks| && tasks[i].department == Some(d);
    assert RowsOf(tasks, d, true) == set i: nat |
      i < |tasks| && tasks[i].department == Some(d) && tasks[i].status in {Completed, CompletedLate};
  }

  /** A user's score is that of the last record fetched for the user, if there is one. */
  lemma {:induction false} ScoreIsLastRecord(records: seq<(UserId, real)>, u: UserId) returns (last: int)
    ensures ScoreOf(records, u) == None ==> forall i :: 0 <= i < |records| ==> records[i].0 != u
    ensures ScoreOf(records, u).Some? ==>
              && 0 <= last < |records| && records[last].0 == u && records[last].1 == ScoreOf(records, u).value
              && forall i :: last < i < |records| ==> records[i].0 != u
  {
    last := |records| - 1;
    if records != [] && records[last].0 != u {
      var front := records[..last];
      assert forall i :: 0 <= i < |front| ==> front[i] == records[i];
      last := ScoreIsLastRecord(front, u);
    }
  }

  /** The scores of a list of users are those of its users with a record, one by one. */
  lemma {:induction false} ScoresOneByOne(users: seq<UserId>, u: UserId, records: seq<(UserId, real)>)
    ensures ScoresOf([], records) == []
    ensures ScoresOf(users + [u], records)
            == ScoresOf(users, records) + (match ScoreOf(records, u) case None => [] case Some(x) => [x])
  {
    assert (users + [u])[..|users|] == users;
  }

  /** An average is the mean rounded half up to hundredths, and zero without scores. */
  lemma AverageMeans(scores: seq<real>) returns (hundredths: int)
    ensures scores == [] ==> Average(scores) == 0.0
    ensures scores != [] ==>
              && Average(scores) * 100.0 == hundredths as real
              && IsRoundedMean(hundredths, Sum(scores), |scores|)
  {
    hundredths := 0;
    if scores != [] {
      HalfUp(Sum(scores), |scores|);
      hundredths := Round(Sum(scores) / |scores| as real * 100.0);
    }
  }

  /** A completion rate is the percentage rounded half up, and zero without tasks. */
  lemma RateMeans(done: nat, total: nat)
    ensures total == 0 ==> Rate(done, total) == 0
    ensures total > 0 ==> (2 * Rate(done, total) - 1) * total <= 200 * done < (2 * Rate(done, total) + 1) * total
  {
    if total > 0 {
      HalfUp(done as real, total);
      WholeBounds(Rate(done, total), done, total);
    }
  }

  lemma WholeBounds(r: int, done: nat, total: nat)
    requires (r as real - 0.5) * total as real <= done as real * 100.0 < (r as real + 0.5) * total as real
    ensures (2 * r - 1) * total <= 200 * done < (2 * r + 1) * total
  {
    var t := total as real;
    assert (r as real - 0.5) * t * 2.0 == ((2 * r - 1) * total) as real;
    assert (r as real + 0.5) * t * 2.0 == ((2 * r + 1) * total) as real;
  }

  /** The progress of a department without a target above zero is zero; otherwise it is the average current
      value, or zero, as a percentage of the target, rounded half up. */
  lemma ProgressMeans(t: Option<TargetRow>)
    ensures t == None || t.value.target == None || t.value.target.value <= 0.0 ==> Progress(t) == 0
    ensures t.Some? && t.value.target.Some? && t.value.target.value > 0.0 ==>
              var current := if t.value.current == None then 0.0 else t.value.current.value;
              (Progress(t) as real - 0.5) * t.value.target.value <= current * 100.0
              < (Progress(t) as real + 0.5) * t.value.target.value
  {
    if t.Some? && t.value.target.Some? && t.value.target.value > 0.0 {
      var current := if t.value.current == None then 0.0 else t.value.current.value;
      var goal := t.value.target.value;
      var q := current / goal;
      assert q * goal == current;
      RoundIsHalfUp(q * 100.0);
      assert q * 100.0 * goal == current * 100.0;
      Cancel(Progress(t) as real - 0.5, q * 100.0, goal);
      StrictTimes(Progress(t) as real + 0.5, q * 100.0, goal, current * 100.0);
    }
  }

  /** The target of a department is that of the last row fetched for it, if there is one. */
  lemma {:induction false} TargetIsLastRow(targets: seq<TargetRow>, d: DeptId) returns (last: int)
    ensures TargetOf(targets, d) == None ==> forall i :: 0 <= i < |targets| ==> targets[i].department != Some(d)
    ensures TargetOf(targets, d).Some? ==>
              && 0 <= last < |targets| && targets[last].department == Some(d)
              && targets[last] == TargetOf(targets, d).value
              && forall i :: last < i < |targets| ==> targets[i].department != Some(d)
  {
    last := |targets| - 1;
    if targets != [] && targets[last].department != Some(d) {
      var front := targets[..last];
      assert forall i :: 0 <= i < |front| ==> front[i] == targets[i];
      last := TargetIsLastRow(front, d);
    }
  }

  /** One line: which column holds what. */
  lemma LineMeans(dept: Department, profiles: seq<Profile>, records: seq<(UserId, real)>, tasks: seq<TaskRow>,
                  targets: seq<TargetRow>)
    ensures var line := Alone(dept, profiles, records, tasks, targets);
            && line.id == dept.id && line.name == dept.name
            && line.members == |set i: nat | i < |profiles| && profiles[i].department == Some(dept.id)|
            && (line.members == 0 ==> line.avgScore == 0.0 && line.completionRate == 0 && line.targetProgress == 0)
    ensures var line := Alone(dept, profiles, records, tasks, targets);
            var total := |set i: nat | i < |tasks| && tasks[i].department == Some(dept.id)|;
            var done := |set i: nat | i < |tasks| && tasks[i].department == Some(dept.id) &&
                                      tasks[i].status in {Completed, CompletedLate}|;
            line.members > 0 ==>
              && (if total == 0 then line.completionRate == 0
                  else (2 * line.completionRate - 1) * total <= 200 * done < (2 * line.completionRate + 1) * total)
              && line.avgScore == Average(ScoresOf(UsersOf(profiles, dept.id), records))
              && line.targetProgress == Progress(TargetOf(targets, dept.id))
  {
    MembersAreProfiles(profiles, dept.id);
    TasksAreRows(tasks, dept.id);
    RateMeans(FinishedIn(tasks, dept.id), TasksIn(tasks, dept.id));
  }
}
