/** The performance table as a cache of the task table.  Task requests, the overdue cron, calibration
    upserts and one queue worker interleave; the worker reads a user's counts in one step and writes the
    record in a later one.  A job that fails goes back on the queue or, where the queue allows no further
    attempt, is dropped. */
module PerformanceCache {
  import opened Common
  import opened TaskModel
  import opened Performance

  datatype Phase = Reading | Writing(snapshot: Counts)

  datatype Worker = Idle | Busy(job: Job, index: nat, phase: Phase)

  datatype System = System(tasks: Store, records: Records, queue: seq<Job>, worker: Worker)

  const EMPTY := System(map[], map[], [], Idle)

  datatype Step =
    | Serve(r: Request)
    | RecalculateAll(org: OrgId, users: seq<UserId>)
    | Calibrate(key: Key, score: Option<real>, cycle: CycleId)
    | Fail
    | Drop
    | Work

  /** The distinct assignees of an organization, in some order. */
  ghost predicate Assignees(s: Store, org: OrgId, users: seq<UserId>) {
    && (forall u :: u in users <==> exists t :: t in s && s[t].org == org && s[t].assignee == u)
    && (forall i, j :: 0 <= i < j < |users| ==> users[i] != users[j])
  }

  /** What the worker does when nothing fails: take a job, then read and write its users in turn. */
  function WorkerStep(y: System): System {
    match y.worker
    case Idle =>
      if y.queue == [] then y
      else y.(queue := y.queue[1..], worker := Busy(y.queue[0], 0, Reading))
    case Busy(job, i, phase) =>
      if i >= |job.users| then y.(worker := Idle)
      else
        var k := (job.org, job.users[i]);
        match phase
        case Reading => y.(worker := Busy(job, i, Writing(CountsOf(y.tasks, k))))
        case Writing(c) => y.(records := Recalculated(y.records, k, MetricsOf(c)), worker := Busy(job, i + 1, Reading))
  }

  ghost function Next(y: System, step: Step): System {
    match step
    case Serve(r) => y.(tasks := After(y.tasks, r), queue := y.queue + TaskModel.Jobs(y.tasks, r))
    case RecalculateAll(org, users) =>
      if Assignees(y.tasks, org, users) && users != [] then y.(queue := y.queue + [Job(org, users)]) else y
    case Calibrate(k, score, cycle) => y.(records := Calibrated(y.records, k, score, cycle))
    case Fail => if y.worker.Busy? then y.(queue := y.queue + [y.worker.job], worker := Idle) else y
    case Drop => y.(worker := Idle)
    case Work => WorkerStep(y)
  }

  /** What the steps that are not the worker's change: a request writes the task table and appends its jobs, an
      administrator's recalculation appends one job for everyone with a task, a calibration writes one record's
      calibration columns, a failed job goes back whole or is dropped. */
  lemma StepEffects(y: System, r: Request, org: OrgId, users: seq<UserId>, k: Key, score: Option<real>, cycle: CycleId)
    ensures Next(y, Serve(r)) == y.(tasks := After(y.tasks, r), queue := Next(y, Serve(r)).queue)
    ensures Next(y, Serve(r)).queue == y.queue + if Handle(y.tasks, r).Ok? then Handle(y.tasks, r).state.jobs else []
    ensures (forall u :: u in users <==> exists t ::
             t in y.tasks && y.tasks[t].org == org && y.tasks[t].assignee == u) &&
            Unique(users) && users != [] ==>
              Next(y, RecalculateAll(org, users)) == y.(queue := y.queue + [Job(org, users)])
    ensures Next(y, Calibrate(k, score, cycle)) == y.(records := Next(y, Calibrate(k, score, cycle)).records)
    ensures var after := Next(y, Calibrate(k, score, cycle)).records;
            k in after && after[k].reviewScore == score && after[k].lastCycle == Some(cycle) &&
                Shown(after, k) == Shown(y.records, k)
    ensures y.worker.Busy? ==> Next(y, Fail) == y.(queue := y.queue + [y.worker.job], worker := Idle)
    ensures y.worker.Busy? ==> Next(y, Drop) == y.(worker := Idle)
  {
  }

  // ------------------------------------------------------------------ the invariant

  ghost predicate Agrees(y: System, k: Key) {
    Shown(y.records, k) == MetricsOf(CountsOf(y.tasks, k))
  }

  predicate Covers(job: Job, k: Key) {
    job.org == k.0 && k.1 in job.users
  }

  ghost predicate Queued(y: System, k: Key) {
    exists i :: 0 <= i < |y.queue| && Covers(y.queue[i], k)
  }

  /** The worker will still read this user, or holds counts that are still current. */
  ghost predicate InHand(y: System, k: Key) {
    && y.worker.Busy? && y.worker.job.org == k.0
    && exists j :: y.worker.index <= j < |y.worker.job.users| && y.worker.job.users[j] == k.1 &&
                   (j > y.worker.index || y.worker.phase == Reading || y.worker.phase == Writing(CountsOf(y.tasks, k)))
  }

  /** Counts that the worker holds for this user, if they went stale, have a newer job behind them. */
  ghost predicate StaleIsQueued(y: System, k: Key) {
    y.worker.Busy? && y.worker.phase.Writing? && y.worker.index < |y.worker.job.users| &&
    k == (y.worker.job.org, y.worker.job.users[y.worker.index]) ==>
      y.worker.phase.snapshot == CountsOf(y.tasks, k) || Queued(y, k)
  }

  ghost predicate Fresh(y: System, k: Key) {
    (Agrees(y, k) || Queued(y, k) || InHand(y, k)) && StaleIsQueued(y, k)
  }

  /** The record is wrong, and no job that would put it right is waiting or under way. */
  ghost predicate Lost(y: System, k: Key) {
    !Agrees(y, k) && !Queued(y, k) && !(y.worker.Busy? && Covers(y.worker.job, k))
  }

  /** The step drops a job while the user's record is wrong and no other job for the user is waiting. */
  ghost predicate Harms(y: System, step: Step, k: Key) {
    step == Drop && y.worker.Busy? && !Agrees(y, k) && !Queued(y, k)
  }

  // ------------------------------------------------------------------ runs

  /** The states a run goes through: the empty one first, then one step after another. */
  ghost predicate IsRun(states: seq<System>, steps: seq<Step>) {
    && |states| == |steps| + 1 && states[0] == EMPTY
    && forall i {:trigger steps[i]} :: 0 <= i < |steps| ==> states[i + 1] == Next(states[i], steps[i])
  }

  ghost predicate Reachable(y: System) {
    exists states, steps :: IsRun(states, steps) && states[|steps|] == y
  }

  /** Any step leads from a reachable state to a reachable state. */
  lemma StepStaysReachable(y: System, step: Step)
    requires Reachable(y)
    ensures Reachable(Next(y, step))
  {
    var states, steps :| IsRun(states, steps) && states[|steps|] == y;
    var longer, more := states + [Next(y, step)], steps + [step];
    forall i {:trigger more[i]} | 0 <= i < |more| ensures longer[i + 1] == Next(longer[i], more[i]) {
      if i < |steps| { assert more[i] == steps[i]; }
    }
    assert IsRun(longer, more);
  }

  // ------------------------------------------------------------------ what a request leaves alone

  predicate Mine(s: Store, t: TaskId, k: Key) {
    t in s && s[t].org == k.0 && s[t].assignee == k.1
  }

  predicate SameWeight(a: Status, b: Status) {
    a == b || (a in {NotStarted, InProgress} && b in {NotStarted, InProgress})
  }

  lemma SameCounts(s: Store, s': Store, k: Key)
    requires forall t :: Mine(s, t, k) <==> Mine(s', t, k)
    requires forall t :: Mine(s, t, k) && Mine(s', t, k) ==> SameWeight(s[t].status, s'[t].status)
    ensures CountsOf(s, k) == CountsOf(s', k)
  {
    assert forall t :: t in TasksOf(s, k) <==> Mine(s, t, k);
    assert forall t :: t in TasksOf(s', k) <==> Mine(s', t, k);
    assert TasksOf(s, k) == TasksOf(s', k);
    forall st | st in {Completed, CompletedLate, Overdue} ensures TasksWith(s, k, st) == TasksWith(s', k, st) {
      assert forall t :: t in TasksWith(s, k, st) <==> Mine(s, t, k) && s[t].status == st;
      assert forall t :: t in TasksWith(s', k, st) <==> Mine(s', t, k) && s'[t].status == st;
    }
  }

  /** A request that changes the counts of a user enqueues a job for that user. */
  lemma ChangesAreEnqueued(s: Store, r: Request, k: Key)
    requires forall j :: 0 <= j < |TaskModel.Jobs(s, r)| ==> !Covers(TaskModel.Jobs(s, r)[j], k)
    ensures CountsOf(After(s, r), k) == CountsOf(s, k)
  {
    var s', jobs := After(s, r), TaskModel.Jobs(s, r);
    if Handle(s, r).Ok? {
      if !r.Cron? && |jobs| > 0 { assert !Covers(jobs[0], k); }
      SameCounts(s, s', k);
    }
  }

  // ------------------------------------------------------------------ every step keeps the invariant

  lemma QueueGrows(y: System, more: seq<Job>, k: Key)
    requires Queued(y, k)
    ensures Queued(y.(queue := y.queue + more), k)
  {
    var i :| 0 <= i < |y.queue| && Covers(y.queue[i], k);
    assert (y.queue + more)[i] == y.queue[i];
  }

  lemma NewestJob(y: System, more: seq<Job>, j: nat, k: Key)
    requires j < |more| && Covers(more[j], k)
    ensures Queued(y.(queue := y.queue + more), k)
  {
    assert (y.queue + more)[|y.queue| + j] == more[j];
  }

  lemma TaskKeepsFresh(y: System, r: Request, k: Key)
    requires Fresh(y, k)
    ensures Fresh(Next(y, Serve(r)), k)
  {
    var jobs := TaskModel.Jobs(y.tasks, r);
    if j :| 0 <= j < |jobs| && Covers(jobs[j], k) {
      NewestJob(y.(tasks := After(y.tasks, r)), jobs, j, k);
    } else {
      ChangesAreEnqueued(y.tasks, r, k);
      if Queued(y, k) { QueueGrows(y.(tasks := After(y.tasks, r)), jobs, k); }
    }
  }

  /** A failed job goes back whole, so whatever the worker still owed is queued again. */
  lemma FailKeepsFresh(y: System, k: Key)
    requires Fresh(y, k)
    ensures Fresh(Next(y, Fail), k)
  {
    if y.worker.Busy? {
      if InHand(y, k) { NewestJob(y.(worker := Idle), [y.worker.job], 0, k); }
      else if Queued(y, k) { QueueGrows(y.(worker := Idle), [y.worker.job], k); }
    }
  }

  lemma WorkKeepsFresh(y: System, k: Key)
    requires Fresh(y, k)
    ensures Fresh(WorkerStep(y), k)
  {
    var y' := WorkerStep(y);
    if y.worker == Idle && y.queue != [] {
      if Queued(y, k) {
        var i :| 0 <= i < |y.queue| && Covers(y.queue[i], k);
        if i > 0 {
          assert y'.queue[i - 1] == y.queue[i];
        } else {
          var j :| 0 <= j < |y.queue[0].users| && y.queue[0].users[j] == k.1;
          assert y'.worker.job.users[j] == k.1;
        }
      }
    } else if y.worker.Busy? {
      if Queued(y, k) { assert Queued(y', k); }
      else if InHand(y, k) {
        var j :| y.worker.index <= j < |y.worker.job.users| && y.worker.job.users[j] == k.1 &&
                 (j > y.worker.index || y.worker.phase == Reading || y.worker.phase == Writing(CountsOf(y.tasks, k)));
        if y.worker.phase == Reading || j > y.worker.index { assert y'.worker.job.users[j] == k.1; }
      }
    }
  }

  lemma EnqueueKeepsFresh(y: System, more: seq<Job>, k: Key)
    requires Fresh(y, k)
    ensures Fresh(y.(queue := y.queue + more), k)
  {
    if Queued(y, k) { QueueGrows(y, more, k); }
  }

  /** Every step but a harmful drop keeps track of the user. */
  lemma StepKeepsFresh(y: System, step: Step, k: Key)
    requires Fresh(y, k) && !Harms(y, step, k)
    ensures Fresh(Next(y, step), k)
  {
    match step
    case Serve(r) => TaskKeepsFresh(y, r, k);
    case RecalculateAll(org, users) => EnqueueKeepsFresh(y, [Job(org, users)], k);
    case Calibrate(_, _, _) => assert Queued(y, k) ==> Queued(Next(y, step), k);
    case Fail => FailKeepsFresh(y, k);
    case Drop => assert Queued(y, k) ==> Queued(Next(y, step), k);
    case Work => WorkKeepsFresh(y, k);
  }

  /** A harmful drop loses the user, for as long as no step puts a job for the user on the queue: no other
      request, cron, calibration or work of the worker repairs the record. */
  lemma LostStaysLost(y: System, step: Step, k: Key)
    requires Harms(y, step, k) || Lost(y, k)
    ensures if Queued(Next(y, step), k) then Fresh(Next(y, step), k) else Lost(Next(y, step), k)
  {
    if Harms(y, step, k) { assert Next(y, step).queue == y.queue; }
    else if !Queued(Next(y, step), k) { UnqueuedStepKeepsLost(y, step, k); }
  }

  lemma UnqueuedStepKeepsLost(y: System, step: Step, k: Key)
    requires Lost(y, k) && !Queued(Next(y, step), k)
    ensures Lost(Next(y, step), k)
  {
    match step
    case Serve(r) =>
      var jobs := TaskModel.Jobs(y.tasks, r);
      if j :| 0 <= j < |jobs| && Covers(jobs[j], k) { NewestJob(y.(tasks := After(y.tasks, r)), jobs, j, k); }
      else { ChangesAreEnqueued(y.tasks, r, k); }
    case Work =>
      if y.worker == Idle && y.queue != [] { assert !Covers(y.queue[0], k); }
    case _ =>
  }

  /** A step leaves the user tracked exactly when it leaves a job for the user on the queue, or the user was
      tracked and the step is no harmful drop. */
  lemma TrackingStep(y: System, step: Step, k: Key)
    requires Fresh(y, k) || Lost(y, k)
    ensures Fresh(Next(y, step), k) || Lost(Next(y, step), k)
    ensures Fresh(Next(y, step), k) <==> Queued(Next(y, step), k) || (Fresh(y, k) && !Harms(y, step, k))
  {
    if Fresh(y, k) && !Harms(y, step, k) { StepKeepsFresh(y, step, k); } else { LostStaysLost(y, step, k); }
  }

  /** After every harmful drop among the first `n` steps, a job for the user has been queued again. */
  ghost predicate Recovers(states: seq<System>, steps: seq<Step>, n: nat, k: Key)
    requires IsRun(states, steps) && n <= |steps|
  {
    forall i {:trigger steps[i]} :: 0 <= i < n && Harms(states[i], steps[i], k) ==> QueuedBetween(states, i + 1, n, k)
  }

  ghost predicate QueuedBetween(states: seq<System>, from: nat, to: nat, k: Key)
    requires to < |states|
  {
    exists j :: from <= j <= to && Queued(states[j], k)
  }

  lemma RecoversStep(states: seq<System>, steps: seq<Step>, n: nat, k: Key)
    requires IsRun(states, steps) && n < |steps|
    ensures Recovers(states, steps, n + 1, k)
            <==> Queued(states[n + 1], k) || (Recovers(states, steps, n, k) && !Harms(states[n], steps[n], k))
  {
    if Recovers(states, steps, n + 1, k) && !Queued(states[n + 1], k) {
      forall i {:trigger steps[i]} | 0 <= i < n && Harms(states[i], steps[i], k)
          ensures QueuedBetween(states, i + 1, n, k) {
        var j :| i + 1 <= j <= n + 1 && Queued(states[j], k);
      }
      assert Harms(states[n], steps[n], k) ==> QueuedBetween(states, n + 1, n + 1, k);
    }
    if Recovers(states, steps, n, k) && !Harms(states[n], steps[n], k) {
      forall i {:trigger steps[i]} | 0 <= i < n + 1 && Harms(states[i], steps[i], k)
        ensures QueuedBetween(states, i + 1, n + 1, k)
      {
        assert QueuedBetween(states, i + 1, n, k);
        var j :| i + 1 <= j <= n && Queued(states[j], k);
      }
    }
  }

  /** In every run whatever, with jobs dropped or not: the user is tracked or lost, and tracked exactly when a
      job for the user was queued again after every harmful drop. */
  lemma {:induction false} RunsAreFresh(states: seq<System>, steps: seq<Step>, n: nat, k: Key)
    requires IsRun(states, steps) && n <= |steps|
    ensures Fresh(states[n], k) || Lost(states[n], k)
    ensures Fresh(states[n], k) <==> Recovers(states, steps, n, k)
  {
    if n > 0 {
      RunsAreFresh(states, steps, n - 1, k);
      RecoversStep(states, steps, n - 1, k);
      TrackingStep(states[n - 1], steps[n - 1], k);
    }
  }

  /** In every reachable state, the record is the fold of the user's tasks, or a job for the user is queued, or
      the worker still owes the user a write that will be current, or the user is lost. */
  lemma ReachableIsFreshOrLost(y: System, k: Key)
    requires Reachable(y)
    ensures Fresh(y, k) <==> !Lost(y, k)
  {
    var states, steps :| IsRun(states, steps) && states[|steps|] == y;
    RunsAreFresh(states, steps, |steps|, k);
  }

  /** With the queue empty and the worker idle, the user's record agrees with the task table exactly when a job
      for the user was queued again after every harmful drop; where no job was dropped, it always does. */
  lemma DrainedMeansAgreed(states: seq<System>, steps: seq<Step>, k: Key)
    requires IsRun(states, steps) && states[|steps|].queue == [] && states[|steps|].worker == Idle
    ensures var y := states[|steps|];
            Shown(y.records, k) == MetricsOf(CountsOf(y.tasks, k)) <==> Recovers(states, steps, |steps|, k)
    ensures (forall i :: 0 <= i < |steps| ==> steps[i] != Drop) ==> Recovers(states, steps, |steps|, k)
  {
    RunsAreFresh(states, steps, |steps|, k);
  }

  // ------------------------------------------------------------------ the queue does drain

  function Cost(queue: seq<Job>): nat {
    if queue == [] then 0 else 2 * |queue[0].users| + 2 + Cost(queue[1..])
  }

  /** Worker steps still to do if nothing new arrives and nothing fails. */
  function Backlog(y: System): nat {
    Cost(y.queue) +
    match y.worker
    case Idle => 0
    case Busy(job, i, phase) =>
      if i >= |job.users| then 1 else 2 * (|job.users| - i) + 1 - (if phase.Writing? then 1 else 0)
  }

  function Drain(y: System): System
    decreases Backlog(y)
  {
    if y.queue == [] && y.worker == Idle then y else Drain(WorkerStep(y))
  }

  lemma {:induction false} DrainKeeps(y: System, k: Key)
    requires Fresh(y, k)
    ensures Drain(y).tasks == y.tasks && Drain(y).queue == [] && Drain(y).worker == Idle && Agrees(Drain(y), k)
    decreases Backlog(y)
  {
    if !(y.queue == [] && y.worker == Idle) {
      WorkKeepsFresh(y, k);
      DrainKeeps(WorkerStep(y), k);
    }
  }

  lemma {:induction false} DrainKeepsLost(y: System, k: Key)
    requires Lost(y, k)
    ensures !Agrees(Drain(y), k)
    decreases Backlog(y)
  {
    if !(y.queue == [] && y.worker == Idle) {
      assert forall j :: 0 <= j < |y.queue| ==> !Covers(y.queue[j], k);
      assert !Queued(WorkerStep(y), k);
      UnqueuedStepKeepsLost(y, Work, k);
      DrainKeepsLost(WorkerStep(y), k);
    }
  }

  /** After any run at all, finitely many undisturbed worker steps empty the queue, and bring the user's record
      into agreement exactly when a job for the user was queued again after every harmful drop. */
  lemma EveryRunConverges(states: seq<System>, steps: seq<Step>, k: Key)
    requires IsRun(states, steps)
    ensures var y := states[|steps|];
            Drain(y).tasks == y.tasks && Drain(y).queue == [] && Drain(y).worker == Idle
    ensures var y := states[|steps|];
            Shown(Drain(y).records, k) == MetricsOf(CountsOf(y.tasks, k)) <==> Recovers(states, steps, |steps|, k)
  {
    var y := states[|steps|];
    RunsAreFresh(states, steps, |steps|, k);
    DrainKeepsTasks(y);
    if Fresh(y, k) { DrainKeeps(y, k); } else { DrainKeepsLost(y, k); }
  }

  lemma {:induction false} DrainKeepsTasks(y: System)
    ensures Drain(y).tasks == y.tasks && Drain(y).queue == [] && Drain(y).worker == Idle
    decreases Backlog(y)
  {
    if !(y.queue == [] && y.worker == Idle) { DrainKeepsTasks(WorkerStep(y)); }
  }

  // ------------------------------------------------------------------ a dropped job

  /** From any reachable state, if the job in hand is dropped and nothing more happens, the user's record ends
      in agreement exactly when it was right already or another job for the user was waiting. */
  lemma DropIsExact(y: System, k: Key)
    requires Reachable(y) && y.worker.Busy?
    ensures Agrees(Drain(Next(y, Drop)), k) <==> Agrees(y, k) || Queued(y, k)
  {
    var after := Next(y, Drop);
    StepStaysReachable(y, Drop);
    ReachableIsFreshOrLost(after, k);
    assert Queued(after, k) <==> Queued(y, k) by { assert after.queue == y.queue; }
    if Fresh(after, k) { DrainKeeps(after, k); } else { DrainKeepsLost(after, k); }
  }

  /** A failed job that is handed back is never missed: its users' records end in agreement. */
  lemma RequeuedConverges(y: System, k: Key)
    requires Reachable(y) && y.worker.Busy? && Covers(y.worker.job, k)
    ensures Agrees(Drain(Next(y, Fail)), k)
  {
    var after := Next(y, Fail);
    assert Covers(after.queue[|y.queue|], k);
    StepStaysReachable(y, Fail);
    ReachableIsFreshOrLost(after, k);
    DrainKeeps(after, k);
  }

  /** A task is created, and the worker takes its job. */
  lemma OneJobTaken() returns (y: System, k: Key)
    ensures Reachable(y) && y.worker.Busy? && Covers(y.worker.job, k) && y.queue == []
    ensures !Agrees(y, k)
  {
    k := (0, 7);
    var w := World(map[(0, 7) := Admin], map[3 := 0], {(3, 7)});
    assert 3 in w.departmentOrg && w.departmentOrg[3] == 0 && (3, 7) in w.activeStaff;
    assert DepartmentAccepts(w, 0, None, 7);
    var request := Create(w, 0, 7, NewTask(7, None, 9, None), 0);
    assert IsRun([EMPTY], []);
    StepStaysReachable(EMPTY, Serve(request));
    var tasks := map[0 := Task.Task(0, 7, 7, None, NotStarted, Some(9), None, None)];
    var created := System(tasks, map[], [Job(0, [7])], Idle);
    assert Next(EMPTY, Serve(request)) == created;
    StepStaysReachable(created, Work);
    y := System(tasks, map[], [], Busy(Job(0, [7]), 0, Reading));
    assert TasksOf(tasks, k) == {0};
  }

  /** The queue must hand a failed job back: if this one fails and is dropped, an idle system is left with no
      record for a user who has a task. */
  lemma DroppedJobIsLost() returns (y: System, k: Key)
    ensures Reachable(y) && Harms(y, Drop, k)
    ensures var after := Next(y, Drop); after.queue == [] && after.worker == Idle && !Agrees(after, k)
    ensures Agrees(Drain(Next(y, Fail)), k)
  {
    y, k := OneJobTaken();
    RequeuedConverges(y, k);
  }
}
