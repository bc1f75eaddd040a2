/** The loops of the review service, each against the function it computes. */
module ReviewLoops {
  import opened Common
  import opened Arithmetic
  import opened ReviewModel
  import opened ReviewScores
  import opened ReviewSubmission

  // ------------------------------------------------------------------ validation and scoring loops

  method ValidateQuestions(qs: seq<Question>, rs: Responses) returns (error: Option<ReviewError>)
    ensures error == CheckQuestions(qs, rs)
  {
    for j := 0 to |qs|
      invariant CheckQuestions(qs, rs) == CheckQuestions(qs[j..], rs)
    {
      var q := qs[j];
      if q.isRating {
        var response := Find(rs, q.id);
        if response == None || !response.value.value.Number? { return Some(NeedsNumber); }
        var n := response.value.value.n;
        if n != n.Floor as real || n < 1.0 || n > 5.0 { return Some(OutOfScale); }
      }
    }
    return None;
  }

  /** The two nested loops over sections and questions, stopping at the first complaint. */
  method Validate(snapshot: Option<Sections>, rs: Responses) returns (error: Option<ReviewError>)
    ensures error == Check(snapshot, rs)
    ensures error == None <==>
              (snapshot.Some? ==>
                 forall i, j ::
                   0 <= i < |snapshot.value| && 0 <= j < |snapshot.value[i]| && snapshot.value[i][j].isRating ==>
                     exists n :: 0 <= n < |rs| && rs[n].question == snapshot.value[i][j].id && rs[n].value.Number? &&
                                 rs[n].value.n in {1.0, 2.0, 3.0, 4.0, 5.0})
  {
    ValidationMeans(snapshot, rs);
    if snapshot == None { return None; }
    var sections := snapshot.value;
    for i := 0 to |sections|
      invariant CheckSections(sections, rs) == CheckSections(sections[i..], rs)
    {
      error := ValidateQuestions(sections[i], rs);
      if error.Some? { return; }
    }
    return None;
  }

  method ComputeScore(rs: Responses) returns (score: Option<real>)
    ensures score == OverallScore(rs)
  {
    var values: seq<real>, sum := [], 0.0;
    for i := 0 to |rs|
      invariant values == RatingValues(rs[..i]) && sum == Sum(values)
    {
      assert rs[..i + 1][..i] == rs[..i];
      if rs[i].labelled && rs[i].value.Number? {
        assert (values + [rs[i].value.n])[..|values|] == values;
        values, sum := values + [rs[i].value.n], sum + rs[i].value.n;
      }
    }
    assert rs[..|rs|] == rs;
    score := if |values| > 0 then Some(Round2(sum / |values| as real)) else None;
  }

  // ------------------------------------------------------------------ activation loops

  method PushAssignments(users: seq<UserId>, supervisor: map<UserId, Option<UserId>>) returns (xs: seq<Assignment>)
    requires forall u :: u in users ==> u in supervisor
    ensures xs == Assignments(users, supervisor)
  {
    xs := [];
    for i := 0 to |users|
      invariant xs == Assignments(users[..i], supervisor)
    {
      assert users[..i + 1][..i] == users[..i];
      var u := users[i];
      ghost var before := xs;
      xs := xs + [Assignment(u, u, SelfReview)];
      if supervisor[u].Some? {
        var sup := supervisor[u].value;
        xs := xs + [Assignment(u, sup, ManagerReview)];
        xs := xs + [Assignment(sup, u, UpwardReview)];
      }
      assert xs == before + AssignmentsFor(u, supervisor[u]);
    }
    assert users[..|users|] == users;
  }

  /** The filter with its set of seen pairs. */
  method FilterSeen(xs: seq<Assignment>) returns (deduped: seq<Assignment>)
    ensures deduped == Dedup(xs)
  {
    deduped := [];
    var seen: set<(UserId, UserId)> := {};
    for i := 0 to |xs|
      invariant deduped == Dedup(xs[..i])
      invariant forall a: UserId, b: UserId :: (a, b) in seen <==> Wanted(xs[..i], a, b)
    {
      assert xs[..i + 1][..i] == xs[..i];
      var x := xs[i];
      if (x.about, x.author) !in seen {
        seen := seen + {(x.about, x.author)};
        deduped := deduped + [x];
      }
      WantedMore(xs, i);
    }
    assert xs[..|xs|] == xs;
  }

  lemma WantedMore(xs: seq<Assignment>, i: nat)
    requires i < |xs|
    ensures forall a, b :: Wanted(xs[..i + 1], a, b) <==>
        Wanted(xs[..i], a, b) || (a == xs[i].about && b == xs[i].author)
  {
    var more, less := xs[..i + 1], xs[..i];
    assert more[i] == xs[i];
    forall a, b ensures Wanted(more, a, b) <==> Wanted(less, a, b) || (a == xs[i].about && b == xs[i].author) {
      if j :| 0 <= j < |less| && less[j].about == a && less[j].author == b { assert more[j] == less[j]; }
      if j :| 0 <= j < |more| && more[j].about == a && more[j].author == b { assert j < i ==> less[j] == more[j]; }
    }
  }

  /** The eligible users in some row order, and the review requests that order leads to. */
  method RequestReviews(w: World, org: OrgId, excluded: set<UserId>)
      returns (users: seq<UserId>, deduped: seq<Assignment>)
    ensures Lists(users, Eligible(w, org, excluded))
    ensures deduped == Requested(w, org, excluded, users)
  {
    var eligible := Eligible(w, org, excluded);
    users := Rows(eligible);
    var xs := PushAssignments(users, Supervisors(w, org, eligible));
    deduped := FilterSeen(xs);
  }

  // ------------------------------------------------------------------ calibration loops

  /** The part of the counted scores of a user that has been read so far. */
  function Part(s: State, org: OrgId, cycle: CycleId, u: UserId, rows: set<Slot>): map<Slot, real> {
    map k | k in ScoresOf(s, org, cycle, u) && k in rows :: s.reviews[k].score.value
  }

  /** The list holds the value of every key of the map once; `from` names the key of each. */
  ghost predicate Drawn(list: seq<real>, from: seq<Slot>, m: map<Slot, real>) {
    |list| == |from| && Lists(from, m.Keys) && forall i :: 0 <= i < |list| ==> from[i] in m && list[i] == m[from[i]]
  }

  ghost predicate Collected(scoreMap: map<UserId, seq<real>>, from: map<UserId, seq<Slot>>, s: State, org: OrgId,
                            cycle: CycleId, u: UserId, rows: set<Slot>) {
    var m := Part(s, org, cycle, u, rows);
    if u in scoreMap then m != map[] && u in from && Drawn(scoreMap[u], from[u], m) else m == map[] && u !in from
  }

  /** The user's list holds the score of each counted review among the rows once. */
  ghost predicate Enumerated(scoreMap: map<UserId, seq<real>>, s: State, org: OrgId, cycle: CycleId, u: UserId,
                             rows: set<Slot>) {
    var m := Part(s, org, cycle, u, rows);
    if u in scoreMap then m != map[] && exists from :: Drawn(scoreMap[u], from, m) else m == map[]
  }

  lemma DrawOneMore(list: seq<real>, from: seq<Slot>, m: map<Slot, real>, k: Slot, x: real)
    requires Drawn(list, from, m) && k !in m
    ensures Drawn(list + [x], from + [k], m[k := x])
  {
    assert forall y :: y in from + [k] <==> y in from || y == k;
  }

  lemma DrawnFront(list: seq<real>, from: seq<Slot>, m: map<Slot, real>)
    requires Drawn(list, from, m) && list != []
    ensures var n := |list| - 1;
            from[n] in m && list[n] == m[from[n]] && Drawn(list[..n], from[..n], m - {from[n]})
  {
    var n := |list| - 1;
    assert from == from[..n] + [from[n]];
    forall y ensures y in from[..n] <==> y in (m - {from[n]}).Keys {
      assert y in from <==> y in m.Keys;
    }
  }

  /** A drawn list has the size and the sum of its map. */
  lemma {:induction false} DrawnSum(list: seq<real>, from: seq<Slot>, m: map<Slot, real>)
    requires Drawn(list, from, m)
    ensures |list| == |m| && Sum(list) == MapSum(m)
    decreases |list|
  {
    if list == [] {
      assert m.Keys == {};
    } else {
      var n := |list| - 1;
      DrawnFront(list, from, m);
      DrawnSum(list[..n], from[..n], m - {from[n]});
      Without(m, from[n]);
      MapSumStep(m, from[n]);
    }
  }

  lemma OneMoreRow(scoreMap: map<UserId, seq<real>>, from: map<UserId, seq<Slot>>, s: State, org: OrgId, cycle: CycleId,
                   u: UserId, rows: set<Slot>, k: Slot)
    requires Collected(scoreMap, from, s, org, cycle, u, rows) && k !in rows && k in s.reviews
    ensures k.about != u || k !in ScoresOf(s, org, cycle, u) ==> Collected(scoreMap, from, s, org, cycle, u, rows + {k})
    ensures k.about == u && k in ScoresOf(s, org, cycle, u) ==>
              Collected(scoreMap[u := (if u in scoreMap then scoreMap[u] else []) + [s.reviews[k].score.value]],
                        from[u := (if u in from then from[u] else []) + [k]], s, org, cycle, u, rows + {k})
  {
    var m, m' := Part(s, org, cycle, u, rows), Part(s, org, cycle, u, rows + {k});
    if k in ScoresOf(s, org, cycle, u) {
      assert m' == m[k := s.reviews[k].score.value];
      var list, keys := if u in scoreMap then scoreMap[u] else [], if u in from then from[u] else [];
      DrawOneMore(list, keys, m, k, s.reviews[k].score.value);
    } else {
      assert m' == m;
    }
  }

  /** The submitted reviews a session query returns. */
  function SessionRows(s: State, w: World, org: OrgId, cycle: CycleId, department: Option<DeptId>): set<Slot> {
    set k | k in s.reviews && k.cycle == cycle && s.reviews[k].org == org && s.reviews[k].status == Submitted &&
            (department.Some? ==> (org, k.about) in w.profiles && w.profiles[(org, k.about)].department == department)
  }

  /** Scores grouped by reviewee in one pass over the rows, in whatever order they come. */
  method CollectScores(s: State, w: World, org: OrgId, cycle: CycleId, department: Option<DeptId>)
    returns (scoreMap: map<UserId, seq<real>>)
    ensures forall u :: Enumerated(scoreMap, s, org, cycle, u, SessionRows(s, w, org, cycle, department))
  {
    var rows := SessionRows(s, w, org, cycle, department);
    ghost var from: map<UserId, seq<Slot>> := map[];
    scoreMap := map[];
    var rest := rows;
    assert forall u :: Part(s, org, cycle, u, rows - rest) == map[];
    while rest != {}
      invariant rest <= rows
      invariant forall u :: Collected(scoreMap, from, s, org, cycle, u, rows - rest)
    {
      var k :| k in rest;
      ghost var done, before, keys := rows - rest, scoreMap, from;
      if s.reviews[k].score.Some? {
        if k.about !in scoreMap { scoreMap := scoreMap[k.about := []]; }
        scoreMap := scoreMap[k.about := scoreMap[k.about] + [s.reviews[k].score.value]];
        from := from[k.about := (if k.about in from then from[k.about] else []) + [k]];
      }
      rest := rest - {k};
      assert rows - rest == done + {k};
      forall u ensures Collected(scoreMap, from, s, org, cycle, u, rows - rest) {
        OneMoreRow(before, keys, s, org, cycle, u, done, k);
      }
    }
    assert rows - rest == rows;
    forall u ensures Enumerated(scoreMap, s, org, cycle, u, rows) {
      assert Collected(scoreMap, from, s, org, cycle, u, rows);
    }
  }

  lemma AllRowsRead(s: State, w: World, org: OrgId, cycle: CycleId, department: Option<DeptId>, u: UserId)
    ensures var m := Part(s, org, cycle, u, SessionRows(s, w, org, cycle, department));
            if u in SessionUsers(s, w, org, cycle, department) then m == ScoresOf(s, org, cycle, u) else m == map[]
  {
    var rows, users := SessionRows(s, w, org, cycle, department), SessionUsers(s, w, org, cycle, department);
    var m, all := Part(s, org, cycle, u, rows), ScoresOf(s, org, cycle, u);
    if u in users {
      forall k | k in all ensures k in rows {}
    } else {
      assert forall k :: k in m ==>
        k in s.reviews && k in ScoresOf(s, org, cycle, k.about) && k in rows && k.about == u;
      assert forall k :: k !in m;
    }
  }

  method AverageScores(s: State, w: World, org: OrgId, cycle: CycleId, department: Option<DeptId>)
      returns (scores: map<UserId, Entry>)
    ensures scores == OriginalScores(s, org, cycle, SessionUsers(s, w, org, cycle, department))
  {
    var scoreMap := CollectScores(s, w, org, cycle, department);
    scores := map[];
    var rest := scoreMap.Keys;
    while rest != {}
      invariant rest <= scoreMap.Keys && scores.Keys == scoreMap.Keys - rest
      invariant forall u :: u in scores ==>
        scoreMap[u] != [] && scores[u] == Entry(Round2(Sum(scoreMap[u]) / |scoreMap[u]| as real), None, None)
    {
      var u :| u in rest;
      assert Enumerated(scoreMap, s, org, cycle, u, SessionRows(s, w, org, cycle, department));
      var avg := Sum(scoreMap[u]) / |scoreMap[u]| as real;
      scores := scores[u := Entry(Round2(avg), None, None)];
      rest := rest - {u};
    }
    AveragesAreOriginals(scoreMap, scores, s, w, org, cycle, department);
  }

  lemma AveragesAreOriginals(scoreMap: map<UserId, seq<real>>, scores: map<UserId, Entry>,
                             s: State, w: World, org: OrgId, cycle: CycleId, department: Option<DeptId>)
    requires forall u :: Enumerated(scoreMap, s, org, cycle, u, SessionRows(s, w, org, cycle, department))
    requires scores.Keys == scoreMap.Keys
    requires forall u :: u in scores ==>
      scoreMap[u] != [] && scores[u] == Entry(Round2(Sum(scoreMap[u]) / |scoreMap[u]| as real), None, None)
    ensures scores == OriginalScores(s, org, cycle, SessionUsers(s, w, org, cycle, department))
  {
    forall u
      ensures u in scores <==> u in SessionUsers(s, w, org, cycle, department)
      ensures u in scores ==>
                Part(s, org, cycle, u, SessionRows(s, w, org, cycle, department)) == ScoresOf(s, org, cycle, u)
    {
      AllRowsRead(s, w, org, cycle, department, u);
      assert Enumerated(scoreMap, s, org, cycle, u, SessionRows(s, w, org, cycle, department));
    }
    forall u | u in scores ensures scores[u] == Entry(Round2(MapMean(ScoresOf(s, org, cycle, u))), None, None) {
      assert Enumerated(scoreMap, s, org, cycle, u, SessionRows(s, w, org, cycle, department));
      var m := Part(s, org, cycle, u, SessionRows(s, w, org, cycle, department));
      var from :| Drawn(scoreMap[u], from, m);
      DrawnSum(scoreMap[u], from, m);
    }
  }
}
