/** The recalculation and the job loop as code (src/modules/performance/performance.service.ts and
    performance.processor.ts), and how single task steps move a score. */
module PerformanceWorker {
  import opened Common
  import opened TaskModel
  import opened Performance

  class PerformanceWorker {
    var records: Records

    constructor ()
      ensures records == map[]
    {
      records := map[];
    }

    /** Whatever order the grouped query answers in, the record becomes the fold of the user's tasks. */
    method RecalculateForUser(tasks: Store, org: OrgId, user: UserId)
      modifies this
      ensures records == Recalculated(old(records), (org, user), MetricsOf(CountsOf(tasks, (org, user))))
      ensures (org, user) in records
      ensures var m := records[(org, user)].metrics;
              && m.total == |set t | t in tasks && tasks[t].org == org && tasks[t].assignee == user|
              && m.onTime
                 == |set t | t in tasks && tasks[t].org == org && tasks[t].assignee == user &&
                     tasks[t].status == Completed|
              && m.completedLate
                 == |set t | t in tasks && tasks[t].org == org && tasks[t].assignee == user &&
                     tasks[t].status == CompletedLate|
              && m.overdue
                 == |set t | t in tasks && tasks[t].org == org && tasks[t].assignee == user &&
                     tasks[t].status == Overdue|
              && m.completed == m.onTime + m.completedLate
              && (m.total == 0 ==> m == Metrics(0, 0, 0, 0, 0, 50.0, Average))
    {
      var k := (org, user);
      var rows := GroupByStatus(tasks, k);
      TallyCountsTheTable(rows, tasks, k);
      CountsAreSane(tasks, k);
      ColumnsAreCounts(tasks, k);
      var total, onTime, late, overdue := RowSum(rows), Find(rows, Completed), Find(rows, CompletedLate),
          Find(rows, Overdue);
      if total == 0 {
        // the update branch writes the column defaults out, the create branch relies on them
        records := records[k := if k in records then records[k].(metrics := Metrics(0, 0, 0, 0, 0, 50.0, Average))
                                else Record(DEFAULTS, None, None)];
      } else {
        var t := total as real;
        var score := 50.0 + (onTime as real / t) * 50.0 - (overdue as real / t) * 40.0
                     + ((onTime + late) as real / t) * 10.0 + (late as real / t) * 10.0;
        score := Max(0.0, Min(100.0, score));
        var rating := if score >= 90.0 then Excellent else if score >= 75.0 then Good
                      else if score >= 50.0 then Average else NeedsImprovement;
        var metrics := Metrics(total, onTime + late, onTime, late, overdue, score, rating);
        records := records[k := if k in records then records[k].(metrics := metrics) else Record(metrics, None, None)];
      }
    }

    /** The users of a job in turn, stopping at the first failure: those before it now show the fold
        of their tasks, every other record is untouched, and calibration columns survive. */
    method Process(tasks: Store, job: Job, failsAt: Option<nat>) returns (ok: bool)
      modifies this
      ensures ok <==> failsAt == None || failsAt.value >= |job.users|
      ensures var stop := if ok then |job.users| else failsAt.value;
              && (forall i :: 0 <= i < stop ==> Refreshed(records, tasks, (job.org, job.users[i])))
              && (forall k: Key :: (k.0 == job.org && k.1 in job.users[..stop]) || SameRecord(old(records), records, k))
      ensures KeepsCalibration(old(records), records)
    {
      var i := 0;
      while i < |job.users|
        invariant 0 <= i <= |job.users| && (failsAt.Some? ==> i <= failsAt.value)
        invariant forall j :: 0 <= j < i ==> Refreshed(records, tasks, (job.org, job.users[j]))
        invariant forall k: Key :: (k.0 == job.org && k.1 in job.users[..i]) || SameRecord(old(records), records, k)
        invariant KeepsCalibration(old(records), records)
      {
        if failsAt == Some(i) { return false; }
        assert job.users[..i + 1] == job.users[..i] + [job.users[i]];
        RecalculateForUser(tasks, job.org, job.users[i]);
        i := i + 1;
      }
      return true;
    }
  }

  predicate Refreshed(records: Records, tasks: Store, k: Key) {
    Shown(records, k) == MetricsOf(CountsOf(tasks, k))
  }

  predicate SameRecord(a: Records, b: Records, k: Key) {
    (k in a <==> k in b) && (k in a ==> a[k] == b[k])
  }

  ghost predicate KeepsCalibration(a: Records, b: Records) {
    forall k :: k in a ==> (k in b && b[k].reviewScore == a[k].reviewScore && b[k].lastCycle == a[k].lastCycle)
  }

  /** The grouped query: one row per status that occurs, in no particular order. */
  method GroupByStatus(s: Store, k: Key) returns (rows: seq<(Status, nat)>)
    ensures IsGroupBy(rows, s, k)
  {
    rows := [];
    var rest := {NotStarted, InProgress, Completed, Overdue, CompletedLate};
    while rest != {}
      invariant forall i, j :: 0 <= i < j < |rows| ==> rows[i].0 != rows[j].0
      invariant forall i :: 0 <= i < |rows| ==> rows[i].0 !in rest && rows[i].1 == |TasksWith(s, k, rows[i].0)|
      invariant forall st :: st !in rest && TasksWith(s, k, st) != {} ==> exists i :: 0 <= i < |rows| && rows[i].0 == st
    {
      var st :| st in rest;
      ghost var before := rows;
      if TasksWith(s, k, st) != {} { rows := rows + [(st, |TasksWith(s, k, st)|)]; }
      rest := rest - {st};
      forall x | x !in rest && TasksWith(s, k, x) != {} ensures exists i :: 0 <= i < |rows| && rows[i].0 == x {
        if x == st { assert rows[|rows| - 1].0 == x; }
        else { var i :| 0 <= i < |before| && before[i].0 == x; assert rows[i].0 == x; }
      }
    }
  }

  // ------------------------------------------------------------------ how steps move a score

  /** Marking tasks overdue raises nobody's score. */
  lemma MarkingNeverRaises(s: Store, now: Time, k: Key)
    ensures Score(CountsOf(MarkExpired(s, now), k)) <= Score(CountsOf(s, k))
  {
    var s' := MarkExpired(s, now);
    assert TasksOf(s', k) == TasksOf(s, k);
    assert TasksWith(s', k, Completed) == TasksWith(s, k, Completed);
    assert TasksWith(s', k, CompletedLate) == TasksWith(s, k, CompletedLate);
    Subset(TasksWith(s, k, Overdue), TasksWith(s', k, Overdue));
    ScoreMonotone(CountsOf(s', k), CountsOf(s, k));
  }

  lemma Subset(a: set<TaskId>, b: set<TaskId>)
    requires a <= b
    ensures |a| <= |b|
  {
    assert b == a + (b - a);
    assert |b| == |a| + |b - a|;
  }

  lemma WithAndWithout(s: Store, id: TaskId, k: Key, st: Status)
    requires id in s
    ensures |TasksWith(s, k, st)|
            == |TasksWith(s, k, st) - {id}| + (if id in TasksOf(s, k) && st == s[id].status then 1 else 0)
  {
    var all := TasksWith(s, k, st);
    assert id in all <==> id in TasksOf(s, k) && st == s[id].status;
    if id in all { assert all == all - {id} + {id}; } else { assert all == all - {id}; }
  }

  /** How the counts of a user move when one task changes nothing but its status and stamp. */
  lemma Recount(s: Store, s': Store, id: TaskId, k: Key, st: Status)
    requires id in s && s'.Keys == s.Keys && (forall t :: t in s && t != id ==> s'[t] == s[t])
    requires s'[id].org == s[id].org && s'[id].assignee == s[id].assignee
    ensures TasksOf(s', k) == TasksOf(s, k)
    ensures |TasksWith(s', k, st)| == |TasksWith(s, k, st)|
              + (if id in TasksOf(s, k) && st == s'[id].status then 1 else 0)
              - (if id in TasksOf(s, k) && st == s[id].status then 1 else 0)
  {
    assert TasksOf(s', k) == TasksOf(s, k);
    assert TasksWith(s', k, st) - {id} == TasksWith(s, k, st) - {id};
    WithAndWithout(s, id, k, st);
    WithAndWithout(s', id, k, st);
  }

  /** Completing a task, on time or late, lowers nobody's score. */
  lemma CompletingNeverLowers(s: Store, w: World, org: OrgId, id: TaskId, user: UserId, now: Time, k: Key)
    requires UpdateStatus(s, w, org, id, Completed, user, now).Ok?
    ensures Score(CountsOf(UpdateStatus(s, w, org, id, Completed, user, now).state.tasks, k)) >= Score(CountsOf(s, k))
  {
    var s' := UpdateStatus(s, w, org, id, Completed, user, now).state.tasks;
    Recount(s, s', id, k, Completed);
    Recount(s, s', id, k, CompletedLate);
    Recount(s, s', id, k, Overdue);
    ScoreMonotone(CountsOf(s, k), CountsOf(s', k));
  }
}
