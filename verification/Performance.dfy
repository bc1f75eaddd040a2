/** The performance record: how counts of a user's tasks become a score and a rating
    (src/modules/performance/performance.service.ts), over exact rationals. */
module Performance {
  import opened Common
  import opened TaskModel
  import opened Arithmetic

  /** A record belongs to a user in an organization. */
  type Key = (OrgId, UserId)

  datatype Rating = Excellent | Good | Average | NeedsImprovement

  datatype Counts = Counts(total: nat, onTime: nat, late: nat, overdue: nat)

  datatype Metrics = Metrics(
    total: nat, completed: nat, onTime: nat, completedLate: nat, overdue: nat, score: real, rating: Rating)

  datatype Record = Record(metrics: Metrics, reviewScore: Option<real>, lastCycle: Option<CycleId>)

  type Records = map<Key, Record>

  /** The column defaults of the table. */
  const DEFAULTS := Metrics(0, 0, 0, 0, 0, 50.0, Average)

  /** The upsert of a recalculation leaves the calibration columns alone. */
  function Recalculated(records: Records, k: Key, m: Metrics): Records {
    records[k := if k in records then records[k].(metrics := m) else Record(m, None, None)]
  }

  /** The upsert of a calibration leaves the task columns alone, or creates them with their defaults. */
  function Calibrated(records: Records, k: Key, score: Option<real>, cycle: CycleId): Records {
    records[k := if k in records then records[k].(reviewScore := score, lastCycle := Some(cycle))
                 else Record(DEFAULTS, score, Some(cycle))]
  }

  /** What a reader sees: an absent record stands for the defaults. */
  function Shown(records: Records, k: Key): Metrics {
    if k in records then records[k].metrics else DEFAULTS
  }

  // ------------------------------------------------------------------ the fold over the task table

  function TasksOf(s: Store, k: Key): set<TaskId> {
    set t | t in s && s[t].org == k.0 && s[t].assignee == k.1
  }

  function TasksWith(s: Store, k: Key, st: Status): set<TaskId> {
    set t | t in s && s[t].org == k.0 && s[t].assignee == k.1 && s[t].status == st
  }

  function CountsOf(s: Store, k: Key): Counts {
    Counts(|TasksOf(s, k)|, |TasksWith(s, k, Completed)|, |TasksWith(s, k, CompletedLate)|, |TasksWith(s, k, Overdue)|)
  }

  // ------------------------------------------------------------------ the grouped query

  /** One row per status that occurs, in any order. */
  ghost predicate IsGroupBy(rows: seq<(Status, nat)>, s: Store, k: Key) {
    && (forall i, j :: 0 <= i < j < |rows| ==> rows[i].0 != rows[j].0)
    && (forall i :: 0 <= i < |rows| ==> rows[i].1 == |TasksWith(s, k, rows[i].0)|)
    && (forall st :: TasksWith(s, k, st) != {} ==> exists i :: 0 <= i < |rows| && rows[i].0 == st)
  }

  function RowSum(rows: seq<(Status, nat)>): nat {
    if rows == [] then 0 else rows[0].1 + RowSum(rows[1..])
  }

  /** The count of the first row with the status, or 0. */
  function Find(rows: seq<(Status, nat)>, st: Status): nat {
    if rows == [] then 0 else if rows[0].0 == st then rows[0].1 else Find(rows[1..], st)
  }

  function Tally(rows: seq<(Status, nat)>): Counts {
    Counts(RowSum(rows), Find(rows, Completed), Find(rows, CompletedLate), Find(rows, Overdue))
  }

  lemma {:induction false} FindMissing(rows: seq<(Status, nat)>, st: Status)
    requires forall i :: 0 <= i < |rows| ==> rows[i].0 != st
    ensures Find(rows, st) == 0
  {
    if rows != [] { FindMissing(rows[1..], st); }
  }

  lemma {:induction false} FindRow(rows: seq<(Status, nat)>, i: nat)
    requires forall a, b :: 0 <= a < b < |rows| ==> rows[a].0 != rows[b].0
    requires i < |rows|
    ensures Find(rows, rows[i].0) == rows[i].1
  {
    if i > 0 { FindRow(rows[1..], i - 1); }
  }

  lemma {:induction false} SumByStatus(rows: seq<(Status, nat)>)
    requires forall i, j :: 0 <= i < j < |rows| ==> rows[i].0 != rows[j].0
    ensures RowSum(rows) == Find(rows, NotStarted) + Find(rows, InProgress) + Find(rows, Completed)
                         + Find(rows, Overdue) + Find(rows, CompletedLate)
  {
    if rows != [] {
      SumByStatus(rows[1..]);
      FindMissing(rows[1..], rows[0].0);
    }
  }

  lemma StatusesPartition(s: Store, k: Key)
    ensures |TasksOf(s, k)| == |TasksWith(s, k, NotStarted)| + |TasksWith(s, k, InProgress)| +
        |TasksWith(s, k, Completed)|
                               + |TasksWith(s, k, Overdue)| + |TasksWith(s, k, CompletedLate)|
  {
    StatusesCover(s, k);
    StatusesDisjoint(s, k);
    DisjointSizes(TasksWith(s, k, NotStarted), TasksWith(s, k, InProgress), TasksWith(s, k, Completed),
                  TasksWith(s, k, Overdue), TasksWith(s, k, CompletedLate));
  }

  lemma StatusesCover(s: Store, k: Key)
    ensures TasksOf(s, k) == TasksWith(s, k, NotStarted) + TasksWith(s, k, InProgress) + TasksWith(s, k, Completed)
                             + TasksWith(s, k, Overdue) + TasksWith(s, k, CompletedLate)
  {
  }

  lemma StatusesDisjoint(s: Store, k: Key)
    ensures TasksWith(s, k, NotStarted) !! TasksWith(s, k, InProgress) !! TasksWith(s, k, Completed)
            !! TasksWith(s, k, Overdue) !! TasksWith(s, k, CompletedLate)
  {
  }

  lemma DisjointSizes(a: set<TaskId>, b: set<TaskId>, c: set<TaskId>, d: set<TaskId>, e: set<TaskId>)
    requires a !! b !! c !! d !! e
    ensures |a + b + c + d + e| == |a| + |b| + |c| + |d| + |e|
  {
  }

  /** Whatever order the groups come back in, summing and searching them counts the table. */
  lemma TallyCountsTheTable(rows: seq<(Status, nat)>, s: Store, k: Key)
    requires IsGroupBy(rows, s, k)
    ensures Tally(rows) == CountsOf(s, k)
  {
    forall st: Status ensures Find(rows, st) == |TasksWith(s, k, st)| {
      if i :| 0 <= i < |rows| && rows[i].0 == st {
        FindRow(rows, i);
      } else {
        FindMissing(rows, st);
        assert TasksWith(s, k, st) == {};
      }
    }
    SumByStatus(rows);
    StatusesPartition(s, k);
  }

  // ------------------------------------------------------------------ score and rating

  function Min(a: real, b: real): real { if a < b then a else b }
  function Max(a: real, b: real): real { if a > b then a else b }

  function RawScore(c: Counts): real
    requires c.total > 0
  {
    var t := c.total as real;
    var onTimeBonus := (c.onTime as real / t) * 50.0;
    var overduePenalty := (c.overdue as real / t) * 40.0;
    var completionBonus := ((c.onTime + c.late) as real / t) * 10.0;
    var lateCompletionCredit := (c.late as real / t) * 10.0;
    50.0 + onTimeBonus - overduePenalty + completionBonus + lateCompletionCredit
  }

  function Score(c: Counts): real {
    if c.total == 0 then 50.0 else Max(0.0, Min(100.0, RawScore(c)))
  }

  function RatingFor(score: real): Rating {
    if score >= 90.0 then Excellent else if score >= 75.0 then Good else if score >= 50.0 then Average
        else NeedsImprovement
  }

  function MetricsOf(c: Counts): Metrics {
    if c.total == 0 then DEFAULTS
    else Metrics(c.total, c.onTime + c.late, c.onTime, c.late, c.overdue, Score(c), RatingFor(Score(c)))
  }

  /** Counts that come from disjoint groups of tasks. */
  predicate Sane(c: Counts) {
    c.onTime + c.late + c.overdue <= c.total
  }

  lemma CountsAreSane(s: Store, k: Key)
    ensures Sane(CountsOf(s, k))
  {
    StatusesPartition(s, k);
  }

  lemma Quotient(a: real, t: real, f: real)
    requires t > 0.0
    ensures (a / t) * f * t == a * f
  {
    assert (a / t) * t == a;
  }

  /** The score times the number of tasks is a linear form in the counts. */
  lemma ScaledScore(c: Counts)
    requires c.total > 0
    ensures RawScore(c) * c.total as real
            == (50 * c.total + 60 * c.onTime + 20 * c.late - 40 * c.overdue) as real
  {
    var t := c.total as real;
    Quotient(c.onTime as real, t, 50.0);
    Quotient(c.overdue as real, t, 40.0);
    Quotient((c.onTime + c.late) as real, t, 10.0);
    Quotient(c.late as real, t, 10.0);
  }

  lemma AtLeast(c: Counts, bound: int)
    requires c.total > 0
    ensures RawScore(c) >= bound as real
            <==> 60 * c.onTime + 20 * c.late - 40 * c.overdue >= (bound - 50) * c.total
  {
    ScaledScore(c);
    Cancel(bound as real, RawScore(c), c.total as real);
  }

  /** Every score of a task table lies in [10, 100]: the lower clamp never acts. */
  lemma ScoreRange(s: Store, k: Key)
    ensures 10.0 <= Score(CountsOf(s, k)) <= 100.0
    ensures CountsOf(s, k).total > 0 ==> Score(CountsOf(s, k)) == Min(100.0, RawScore(CountsOf(s, k)))
  {
    CountsAreSane(s, k);
    if CountsOf(s, k).total > 0 { AtLeast(CountsOf(s, k), 10); }
  }

  /** The rating bands are integer inequalities between the counts. */
  lemma RatingBands(c: Counts)
    requires c.total > 0
    ensures var v := 60 * c.onTime + 20 * c.late - 40 * c.overdue;
            && (MetricsOf(c).rating == Excellent <==> v >= 40 * c.total)
            && (MetricsOf(c).rating == Good <==> 25 * c.total <= v < 40 * c.total)
            && (MetricsOf(c).rating == Average <==> 0 <= v < 25 * c.total)
            && (MetricsOf(c).rating == NeedsImprovement <==> v < 0)
  {
    AtLeast(c, 90);
    AtLeast(c, 75);
    AtLeast(c, 50);
  }

  /** What the columns of a record that agrees with a task table count: set sizes over the table, and the sum
      of the two completed counts; without tasks, zeros, a score of 50 and an average rating. */
  lemma ColumnsAreCounts(s: Store, k: Key)
    ensures var m := MetricsOf(CountsOf(s, k));
            && m.total == |set t | t in s && s[t].org == k.0 && s[t].assignee == k.1|
            && m.onTime == |set t | t in s && s[t].org == k.0 && s[t].assignee == k.1 && s[t].status == Completed|
            && m.completedLate == |set t | t in s && s[t].org == k.0 && s[t].assignee == k.1
            && s[t].status == CompletedLate|
            && m.overdue == |set t | t in s && s[t].org == k.0 && s[t].assignee == k.1 && s[t].status == Overdue|
            && m.completed == m.onTime + m.completedLate
            && (m.total == 0 ==> m == Metrics(0, 0, 0, 0, 0, 50.0, Average))
  {
    assert TasksOf(s, k) == set t | t in s && s[t].org == k.0 && s[t].assignee == k.1;
    WithStatus(s, k, Completed);
    WithStatus(s, k, CompletedLate);
    WithStatus(s, k, Overdue);
    CountsAreSane(s, k);
  }

  lemma WithStatus(s: Store, k: Key, st: Status)
    ensures TasksWith(s, k, st) == set t | t in s && s[t].org == k.0 && s[t].assignee == k.1 && s[t].status == st
  {
  }

  /** A score for so many tasks: 50 and the weight by task, capped at 100. */
  predicate ScoreFits(score: real, total: nat, weight: int) {
    if weight >= 50 * total then score == 100.0 else score * total as real == (50 * total + weight) as real
  }

  lemma ClampedScore(c: Counts)
    requires Sane(c) && c.total > 0
    ensures ScoreFits(Score(c), c.total, 60 * c.onTime + 20 * c.late - 40 * c.overdue)
  {
    ScaledScore(c);
    AtLeast(c, 100);
    AtLeast(c, 0);
  }

  /** The score and the rating in terms of the count columns of the same record. */
  lemma ScoreColumns(s: Store, k: Key)
    requires MetricsOf(CountsOf(s, k)).total > 0
    ensures var m := MetricsOf(CountsOf(s, k));
            ScoreFits(m.score, m.total, 60 * m.onTime + 20 * m.completedLate - 40 * m.overdue)
    ensures var m := MetricsOf(CountsOf(s, k));
            && (m.rating == Excellent <==> m.score >= 90.0) && (m.rating == Good <==> 75.0 <= m.score < 90.0)
            && (m.rating == Average <==> 50.0 <= m.score < 75.0) && (m.rating == NeedsImprovement <==> m.score < 50.0)
  {
    CountsAreSane(s, k);
    ClampedScore(CountsOf(s, k));
  }

  /** A recalculation writes the metrics of one record, a calibration its calibration columns; what is not
      written stays, or is created with the column defaults, and no other record changes. */
  lemma UpsertEffects(records: Records, k: Key, m: Metrics, score: Option<real>, cycle: CycleId)
    ensures var after := Recalculated(records, k, m);
            && k in after && after[k].metrics == m
            && (k in records ==>
                  after[k].reviewScore == records[k].reviewScore && after[k].lastCycle == records[k].lastCycle)
            && (k !in records ==> after[k].reviewScore == None && after[k].lastCycle == None)
            && forall x :: x != k ==> (x in after <==> x in records) && (x in after ==> after[x] == records[x])
    ensures var after := Calibrated(records, k, score, cycle);
            && k in after && after[k].reviewScore == score && after[k].lastCycle == Some(cycle)
            && (k in records ==> after[k].metrics == records[k].metrics)
            && (k !in records ==> after[k].metrics == Metrics(0, 0, 0, 0, 0, 50.0, Average))
            && forall x :: x != k ==> (x in after <==> x in records) && (x in after ==> after[x] == records[x])
  {
  }

  /** For a fixed number of tasks the score follows the weighted count. */
  lemma ScoreMonotone(c: Counts, d: Counts)
    requires c.total == d.total
    requires 60 * c.onTime + 20 * c.late - 40 * c.overdue <= 60 * d.onTime + 20 * d.late - 40 * d.overdue
    ensures Score(c) <= Score(d)
  {
    if c.total > 0 {
      ScaledScore(c);
      ScaledScore(d);
      FromScaled(RawScore(c), RawScore(d), c.total as real,
                 50 * c.total + 60 * c.onTime + 20 * c.late - 40 * c.overdue,
                 50 * d.total + 60 * d.onTime + 20 * d.late - 40 * d.overdue);
      ClampMonotone(RawScore(c), RawScore(d));
    }
  }

  lemma FromScaled(x: real, y: real, t: real, a: int, b: int)
    requires t > 0.0 && x * t == a as real && y * t == b as real && a <= b
    ensures x <= y
  {
    Cancel(x, y, t);
  }

  lemma ClampMonotone(x: real, y: real)
    requires x <= y
    ensures Max(0.0, Min(100.0, x)) <= Max(0.0, Min(100.0, y))
  {
  }
}
