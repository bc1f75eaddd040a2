/** Sums over rows in any order, and how far the two roundings of a review score can stray. */
module ReviewScores {
  import opened Common
  import opened Arithmetic
  import opened ReviewModel

  // ------------------------------------------------------------------ sums over rows

  /** The sum does not depend on the order in which the rows are added. */
  lemma {:induction false} MapSumStep(m: map<Slot, real>, k: Slot)
    requires k in m
    ensures MapSum(m) == m[k] + MapSum(m - {k})
    decreases |m|
  {
    var j :| j in m && MapSum(m) == m[j] + MapSum(m - {j});
    if j != k {
      assert (m - {j}).Keys == m.Keys - {j} && (m - {k}).Keys == m.Keys - {k};
      MapSumStep(m - {j}, k);
      MapSumStep(m - {k}, j);
      assert m - {j} - {k} == m - {k} - {j};
    }
  }

  lemma Without(m: map<Slot, real>, k: Slot)
    requires k in m
    ensures (m - {k}).Keys == m.Keys - {k} && |m - {k}| + 1 == |m|
  {
    var rest := m - {k};
    assert rest.Keys == m.Keys - {k};
    assert |rest| == |rest.Keys| && |m| == |m.Keys|;
  }

  lemma {:induction false} MapSumBetween(m: map<Slot, real>, lo: real, hi: real)
    requires forall k :: k in m ==> lo <= m[k] <= hi
    ensures Times(lo, |m|) <= MapSum(m) <= Times(hi, |m|)
    decreases |m|
  {
    if m != map[] {
      var k :| k in m;
      Without(m, k);
      MapSumBetween(m - {k}, lo, hi);
      MapSumStep(m, k);
    }
  }

  lemma {:induction false} MapSumNear(a: map<Slot, real>, b: map<Slot, real>, e: real)
    requires a.Keys == b.Keys && forall k :: k in a ==> a[k] - e <= b[k] <= a[k] + e
    ensures MapSum(a) - Times(e, |a|) <= MapSum(b) <= MapSum(a) + Times(e, |a|)
    decreases |a|
  {
    if a == map[] {
      assert b == map[];
    } else {
      var k :| k in a;
      Without(a, k);
      Without(b, k);
      MapSumNear(a - {k}, b - {k}, e);
      MapSumStep(a, k);
      MapSumStep(b, k);
    }
  }

  lemma SizeOfKeys(a: map<Slot, real>, b: map<Slot, real>)
    requires a.Keys == b.Keys
    ensures |a| == |b|
  {
    assert |a| == |a.Keys| && |b| == |b.Keys|;
  }

  /** A rounded mean of numbers in [1, 5] lies in [1, 5]. */
  lemma MeanInScale(m: map<Slot, real>)
    requires m != map[] && forall k :: k in m ==> 1.0 <= m[k] <= 5.0
    ensures 1.0 <= Round2(MapMean(m)) <= 5.0
  {
    MapSumBetween(m, 1.0, 5.0);
    TimesIsProduct(1.0, |m|);
    TimesIsProduct(5.0, |m|);
    Between(1.0, 5.0, MapSum(m), |m| as real);
    Round2Between(1, 5, MapMean(m));
  }

  /** Means of numbers that differ by at most `e` differ by at most `e`. */
  lemma MeansAreNear(a: map<Slot, real>, b: map<Slot, real>, e: real)
    requires a != map[] && a.Keys == b.Keys && forall k :: k in a ==> a[k] - e <= b[k] <= a[k] + e
    ensures b != map[] && MapMean(a) - e <= MapMean(b) <= MapMean(a) + e
  {
    var k :| k in a;
    assert k in b;
    SizeOfKeys(a, b);
    MapSumNear(a, b, e);
    NearMeans(MapSum(a), MapSum(b), |a|, e);
  }

  // ------------------------------------------------------------------ what an accepted submission scores

  predicate IsRatingQuestion(sections: Sections, q: QuestionId) {
    exists i, j :: 0 <= i < |sections| && 0 <= j < |sections[i]| && sections[i][j].isRating && sections[i][j].id == q
  }

  /** The questions whose numeric responses the sender labelled as ratings. */
  function Labels(rs: seq<Answer>): set<QuestionId> {
    set i | 0 <= i < |rs| && rs[i].labelled && rs[i].value.Number? :: rs[i].question
  }

  /** Every number labelled a rating answers a rating question of the snapshot. */
  predicate Honest(sections: Sections, rs: seq<Answer>) {
    forall q :: q in Labels(rs) ==> IsRatingQuestion(sections, q)
  }

  predicate InScale(xs: seq<real>) {
    forall i :: 0 <= i < |xs| ==> 1.0 <= xs[i] <= 5.0
  }

  lemma {:induction false} FindAt(rs: seq<Answer>, i: nat)
    requires OnePerQuestion(rs) && i < |rs|
    ensures Find(rs, rs[i].question) == Some(rs[i])
  {
    if i > 0 { FindAt(rs[1..], i - 1); }
  }

  lemma {:induction false} QuestionsPass(qs: seq<Question>, rs: seq<Answer>)
    ensures CheckQuestions(qs, rs) == None <==> forall j :: 0 <= j < |qs| ==> CheckQuestion(qs[j], rs) == None
  {
    if qs != [] {
      QuestionsPass(qs[1..], rs);
      assert forall j :: 0 < j < |qs| ==> qs[j] == qs[1..][j - 1];
    }
  }

  /** A submission is accepted exactly when every rating question of the snapshot is answered with an
      integer from 1 to 5. */
  lemma {:induction false} SectionsPass(sections: Sections, rs: seq<Answer>)
    ensures CheckSections(sections, rs) == None
            <==> forall i, j :: 0 <= i < |sections| && 0 <= j < |sections[i]| ==>
                CheckQuestion(sections[i][j], rs) == None
  {
    if sections != [] {
      QuestionsPass(sections[0], rs);
      SectionsPass(sections[1..], rs);
      assert forall i :: 0 < i < |sections| ==> sections[i] == sections[1..][i - 1];
    }
  }

  lemma {:induction false} ValuesInScale(rs: seq<Answer>)
    requires forall i :: 0 <= i < |rs| && rs[i].labelled && rs[i].value.Number? ==> 1.0 <= rs[i].value.n <= 5.0
    ensures InScale(RatingValues(rs))
  {
    if rs != [] { ValuesInScale(rs[..|rs| - 1]); }
  }

  lemma HonestValues(sections: Sections, rs: Responses)
    requires CheckSections(sections, rs) == None && Honest(sections, rs)
    ensures InScale(RatingValues(rs))
  {
    SectionsPass(sections, rs);
    forall i | 0 <= i < |rs| && rs[i].labelled && rs[i].value.Number? ensures 1.0 <= rs[i].value.n <= 5.0 {
      FindAt(rs, i);
      assert rs[i].question in Labels(rs);
      var a, b :| 0 <= a < |sections| && 0 <= b < |sections[a]| && sections[a][b].isRating &&
          sections[a][b].id == rs[i].question;
      assert CheckQuestion(sections[a][b], rs) == None;
    }
    ValuesInScale(rs);
  }

  lemma {:induction false} SumInScale(xs: seq<real>)
    requires InScale(xs)
    ensures |xs| as real <= Sum(xs) <= 5.0 * |xs| as real
  {
    if xs != [] { SumInScale(xs[..|xs| - 1]); }
  }

  /** When every labelled response answers a rating question, an accepted submission scores within
      [1, 5], and within half a hundredth of the exact mean of its ratings. */
  lemma HonestScore(sections: Sections, rs: Responses)
    requires CheckSections(sections, rs) == None && Honest(sections, rs) && OverallScore(rs).Some?
    ensures 1.0 <= OverallScore(rs).value <= 5.0
    ensures -0.005 <= OverallScore(rs).value - Mean(RatingValues(rs)) <= 0.005
  {
    var xs := RatingValues(rs);
    HonestValues(sections, rs);
    SumInScale(xs);
    Between(1.0, 5.0, Sum(xs), |xs| as real);
    Round2Between(1, 5, Mean(xs));
    Round2Near(Mean(xs));
  }

  // ------------------------------------------------------------------ exactly when a score stays in scale

  function RatingIds(sections: Sections): set<QuestionId> {
    set i, j | 0 <= i < |sections| && 0 <= j < |sections[i]| && sections[i][j].isRating :: sections[i][j].id
  }

  lemma {:induction false} Enumerate(ids: set<QuestionId>) returns (order: seq<QuestionId>)
    ensures Lists(order, ids)
    decreases |ids|
  {
    if ids == {} {
      order := [];
    } else {
      var q :| q in ids;
      var rest := Enumerate(ids - {q});
      order := rest + [q];
      assert forall x :: x in order <==> x in rest || x == q;
    }
  }

  lemma {:induction false} BigSum(rs: seq<Answer>, i: nat, big: real)
    requires forall j :: 0 <= j < |rs| && rs[j].value.Number? ==> rs[j].value.n >= 0.0
    requires i < |rs| && rs[i].labelled && rs[i].value.Number? && rs[i].value.n >= big >= 0.0
    ensures 0 < |RatingValues(rs)| <= |rs| && Sum(RatingValues(rs)) >= big
  {
    var front := rs[..|rs| - 1];
    ValuesNonNegative(front);
    if i < |rs| - 1 {
      assert front[i] == rs[i];
      BigSum(front, i, big);
    }
    var xs := RatingValues(front);
    var a := rs[|rs| - 1];
    if a.labelled && a.value.Number? { assert (xs + [a.value.n])[..|xs|] == xs; }
  }

  lemma {:induction false} ValuesNonNegative(rs: seq<Answer>)
    requires forall j :: 0 <= j < |rs| && rs[j].value.Number? ==> rs[j].value.n >= 0.0
    ensures Sum(RatingValues(rs)) >= 0.0 && |RatingValues(rs)| <= |rs|
  {
    if rs != [] {
      var front := rs[..|rs| - 1];
      ValuesNonNegative(front);
      var xs, a := RatingValues(front), rs[|rs| - 1];
      if a.labelled && a.value.Number? { assert (xs + [a.value.n])[..|xs|] == xs; }
    }
  }

  /** Three for every rating question, and enough for every other label to carry the mean past five. */
  function Inflated(sections: Sections, labels: set<QuestionId>, order: seq<QuestionId>): seq<Answer> {
    seq(|order|, i requires 0 <= i < |order| =>
      Answer(order[i], Number(if order[i] in RatingIds(sections) then 3.0 else 6.0 * |order| as real),
             order[i] in labels))
  }

  lemma InflatedIsAccepted(sections: Sections, labels: set<QuestionId>, order: seq<QuestionId>)
    requires Lists(order, RatingIds(sections) + labels)
    ensures var rs := Inflated(sections, labels, order);
            OnePerQuestion(rs) && CheckSections(sections, rs) == None && Labels(rs) == labels
  {
    var rs := Inflated(sections, labels, order);
    assert OnePerQuestion(rs);
    forall i, j | 0 <= i < |sections| && 0 <= j < |sections[i]| ensures CheckQuestion(sections[i][j], rs) == None {
      if sections[i][j].isRating {
        assert sections[i][j].id in RatingIds(sections) && sections[i][j].id in order;
        var n :| 0 <= n < |order| && order[n] == sections[i][j].id;
        FindAt(rs, n);
      }
    }
    SectionsPass(sections, rs);
    forall q | q in labels ensures q in Labels(rs) {
      assert q in order;
      var n :| 0 <= n < |order| && order[n] == q;
      assert rs[n].question == q;
    }
  }

  lemma FalseLabelEscapes(sections: Sections, labels: set<QuestionId>, bad: QuestionId) returns (rs: Responses)
    requires bad in labels && !IsRatingQuestion(sections, bad)
    ensures CheckSections(sections, rs) == None && Labels(rs) == labels
    ensures OverallScore(rs).Some? && OverallScore(rs).value > 5.0
  {
    var order := Enumerate(RatingIds(sections) + labels);
    InflatedIsAccepted(sections, labels, order);
    rs := Inflated(sections, labels, order);
    assert bad in order;
    var n :| 0 <= n < |order| && order[n] == bad;
    var size := |order| as real;
    BigSum(rs, n, 6.0 * size);
    var xs := RatingValues(rs);
    Exceeds(Sum(xs), |xs| as real, size);
    Round2Near(Mean(xs));
  }

  lemma Exceeds(sum: real, n: real, size: real)
    requires 0.0 < n <= size && sum >= 6.0 * size
    ensures sum / n >= 6.0
  {
    assert sum / n * n == sum;
    Cancel(6.0, sum / n, n);
  }

  /** The service trusts the sender's labels.  For a given set of labelled questions, every accepted
      submission scores within [1, 5] exactly when each of them is a rating question of the snapshot. */
  lemma LabelsDecideTheScale(sections: Sections, labels: set<QuestionId>)
    ensures (forall rs: Responses ::
               Labels(rs) == labels && CheckSections(sections, rs) == None && OverallScore(rs).Some? ==>
                 1.0 <= OverallScore(rs).value <= 5.0)
            <==> (forall q :: q in labels ==> IsRatingQuestion(sections, q))
  {
    if bad :| bad in labels && !IsRatingQuestion(sections, bad) {
      var rs := FalseLabelEscapes(sections, labels, bad);
    } else {
      forall rs: Responses | Labels(rs) == labels && CheckSections(sections, rs) == None && OverallScore(rs).Some?
        ensures 1.0 <= OverallScore(rs).value <= 5.0
      {
        HonestScore(sections, rs);
      }
    }
  }
}
