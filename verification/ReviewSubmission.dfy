/** What the validation and the scoring of a submission mean, over the responses themselves. */
module ReviewSubmission {
  import opened Common
  import opened Arithmetic
  import opened ReviewModel
  import opened ReviewScores

  // ------------------------------------------------------------------ validation

  lemma {:induction false} FindIsAnswer(rs: seq<Answer>, q: QuestionId)
    ensures Find(rs, q).Some? ==> exists n :: 0 <= n < |rs| && rs[n].question == q && rs[n] == Find(rs, q).value
    ensures Find(rs, q) == None ==> forall n :: 0 <= n < |rs| ==> rs[n].question != q
  {
    if rs != [] && rs[0].question != q {
      FindIsAnswer(rs[1..], q);
      if Find(rs, q).Some? {
        var n :| 0 <= n < |rs[1..]| && rs[1..][n].question == q && rs[1..][n] == Find(rs[1..], q).value;
        assert rs[n + 1] == rs[1..][n];
      } else {
        assert forall n :: 0 < n < |rs| ==> rs[n] == rs[1..][n - 1];
      }
    }
  }

  lemma WholeNumbers(x: real)
    ensures (x == x.Floor as real && 1.0 <= x <= 5.0) <==> x in {1.0, 2.0, 3.0, 4.0, 5.0}
  {
  }

  /** A question passes exactly when it is no rating, or one of the responses answers it with 1, 2, 3, 4 or 5. */
  lemma QuestionPasses(q: Question, rs: Responses)
    ensures CheckQuestion(q, rs) == None <==>
              (q.isRating ==>
                 exists n :: 0 <= n < |rs| && rs[n].question == q.id && rs[n].value.Number? &&
                             rs[n].value.n in {1.0, 2.0, 3.0, 4.0, 5.0})
    ensures q.isRating && CheckQuestion(q, rs) == Some(NeedsNumber) ==>
              !exists n :: 0 <= n < |rs| && rs[n].question == q.id && rs[n].value.Number?
    ensures CheckQuestion(q, rs) == Some(OutOfScale) ==>
              exists n :: 0 <= n < |rs| && rs[n].question == q.id && rs[n].value.Number? &&
                          rs[n].value.n !in {1.0, 2.0, 3.0, 4.0, 5.0}
    ensures CheckQuestion(q, rs) in {None, Some(NeedsNumber), Some(OutOfScale)}
  {
    FindIsAnswer(rs, q.id);
    if q.isRating && Find(rs, q.id).Some? {
      var n :| 0 <= n < |rs| && rs[n].question == q.id && rs[n] == Find(rs, q.id).value;
      if rs[n].value.Number? { WholeNumbers(rs[n].value.n); }
      assert forall m :: 0 <= m < |rs| && rs[m].question == q.id ==> m == n;
    }
  }

  /** A submission is valid exactly when every rating question of the snapshot is answered with 1, 2, 3, 4
      or 5; a cycle without a snapshot asks nothing. */
  lemma ValidationMeans(snapshot: Option<Sections>, rs: Responses)
    ensures Check(snapshot, rs) == None <==>
              (snapshot.Some? ==>
                 forall i, j ::
                   0 <= i < |snapshot.value| && 0 <= j < |snapshot.value[i]| && snapshot.value[i][j].isRating ==>
                     exists n :: 0 <= n < |rs| && rs[n].question == snapshot.value[i][j].id && rs[n].value.Number? &&
                                 rs[n].value.n in {1.0, 2.0, 3.0, 4.0, 5.0})
  {
    if snapshot.Some? {
      SectionsPass(snapshot.value, rs);
      forall i, j | 0 <= i < |snapshot.value| && 0 <= j < |snapshot.value[i]|
        ensures CheckQuestion(snapshot.value[i][j], rs) == None <==>
                  (snapshot.value[i][j].isRating ==>
                     exists n :: 0 <= n < |rs| && rs[n].question == snapshot.value[i][j].id && rs[n].value.Number? &&
                                 rs[n].value.n in {1.0, 2.0, 3.0, 4.0, 5.0})
      {
        QuestionPasses(snapshot.value[i][j], rs);
      }
    }
  }

  lemma {:induction false} FirstQuestion(qs: seq<Question>, rs: seq<Answer>) returns (j: nat)
    requires CheckQuestions(qs, rs).Some?
    ensures j < |qs| && CheckQuestions(qs, rs) == CheckQuestion(qs[j], rs)
    ensures forall y :: 0 <= y < j ==> CheckQuestion(qs[y], rs) == None
  {
    if CheckQuestion(qs[0], rs).Some? {
      j := 0;
    } else {
      var k := FirstQuestion(qs[1..], rs);
      j := k + 1;
      assert forall y :: 0 < y < j ==> qs[y] == qs[1..][y - 1];
    }
  }

  /** A complaint is about the first question, section by section, that does not pass. */
  lemma {:induction false} FirstComplaint(sections: Sections, rs: seq<Answer>) returns (i: nat, j: nat)
    requires CheckSections(sections, rs).Some?
    ensures i < |sections| && j < |sections[i]| && CheckSections(sections, rs) == CheckQuestion(sections[i][j], rs)
    ensures forall x, y :: 0 <= x <= i && 0 <= y < |sections[x]| && (x < i || y < j) ==>
              CheckQuestion(sections[x][y], rs) == None
  {
    if CheckQuestions(sections[0], rs).Some? {
      i := 0;
      j := FirstQuestion(sections[0], rs);
    } else {
      var k;
      k, j := FirstComplaint(sections[1..], rs);
      i := k + 1;
      QuestionsPass(sections[0], rs);
      assert forall x :: 0 < x <= i ==> sections[x] == sections[1..][x - 1];
    }
  }

  // ------------------------------------------------------------------ the score

  /** The rating values are the numbers labelled as ratings, in order and one by one. */
  lemma {:induction false} RatingValuesMeans(rs: seq<Answer>, a: Answer)
    ensures RatingValues([]) == []
    ensures RatingValues(rs + [a]) == RatingValues(rs) + (if a.labelled && a.value.Number? then [a.value.n] else [])
  {
    assert (rs + [a])[..|rs|] == rs;
  }

  /** The score is the mean of the rating values, rounded half up to hundredths; without values there is none. */
  lemma ScoreMeans(rs: seq<Answer>) returns (hundredths: int)
    ensures OverallScore(rs) == None <==> forall n :: 0 <= n < |rs| ==> !(rs[n].labelled && rs[n].value.Number?)
    ensures OverallScore(rs).Some? ==>
              var xs := RatingValues(rs);
              && xs != [] && OverallScore(rs).value * 100.0 == hundredths as real
              && IsRoundedMean(hundredths, Sum(xs), |xs|)
  {
    NoValues(rs);
    hundredths := 0;
    if OverallScore(rs).Some? {
      var xs := RatingValues(rs);
      HalfUp(Sum(xs), |xs|);
      hundredths := Round(Sum(xs) / |xs| as real * 100.0);
    }
  }

  lemma {:induction false} NoValues(rs: seq<Answer>)
    ensures RatingValues(rs) == [] <==> forall n :: 0 <= n < |rs| ==> !(rs[n].labelled && rs[n].value.Number?)
  {
    if rs != [] {
      var front := rs[..|rs| - 1];
      NoValues(front);
      assert forall n :: 0 <= n < |front| ==> front[n] == rs[n];
    }
  }
}
