/** What holds in every reachable state of the review cycle, whatever requests and crons interleave. */
module ReviewTheorems {
  import opened Common
  import opened Arithmetic
  import opened Performance
  import opened ReviewModel
  import opened ReviewGeneration
  import opened ReviewInvariants
  import RS = ReviewScores

  // ------------------------------------------------------------------ the cycle only moves forward

  function Stage(st: CycleStatus): nat {
    match st
    case Draft => 0
    case Active => 1
    case Calibrating => 2
    case Closed => 3
  }

  /** A cycle's status never goes back and moves one stage at a time; only a DRAFT cycle disappears. */
  lemma StatusMovesForward(s: State, r: Request, c: CycleId)
    requires c in s.cycles
    ensures c in After(s, r).cycles ==>
              var before, after := Stage(s.cycles[c].status), Stage(After(s, r).cycles[c].status);
              before <= after <= before + 1
    ensures c !in After(s, r).cycles ==> s.cycles[c].status == Draft && r.DeleteCycle?
  {
  }

  // ------------------------------------------------------------------ templates and DRAFT cycles

  /** A DRAFT cycle has no reviews, nominations, sessions or linked performance records, and every other
      cycle carries exactly its template's current sections. */
  lemma DraftsAreBare(s: State, c: CycleId)
    requires Reachable(s)
    requires c in s.cycles
    ensures if s.cycles[c].status == Draft then
              && (forall k :: k in s.reviews ==> k.cycle != c) && (forall k :: k in s.nominations ==> k.cycle != c)
              && (forall i :: i in s.sessions ==> s.sessions[i].cycle != c)
              && (forall k :: k in s.performance ==> s.performance[k].lastCycle != Some(c))
            else
              s.cycles[c].template in s.templates &&
                  s.cycles[c].snapshot == Some(s.templates[s.cycles[c].template].sections)
  {
    ReachableKeeps(s);
    if s.cycles[c].status == Draft {
      forall k | k in s.performance ensures s.performance[k].lastCycle != Some(c) {
        assert RecordOk(s, s.performance[k], k.0);
      }
    }
  }

  /** So deleting a DRAFT cycle deletes one row and cascades to nothing. */
  lemma DeletionDestroysNothing(s: State, org: OrgId, c: CycleId)
    requires Reachable(s)
    requires RemoveCycle(s, org, c).Ok?
    ensures RemoveCycle(s, org, c).state == s.(cycles := s.cycles - {c})
  {
    ReachableKeeps(s);
    RemovalDestroysNothing(s, org, c);
  }

  // ------------------------------------------------------------------ activation

  lemma InsertedSlots(reviews: map<Slot, Review>, org: OrgId, c: CycleId, xs: seq<Assignment>, k: Slot)
    requires NoRepeats(xs) && NoPeers(xs) && SelfIsSelf(xs) && k.cycle == c && k !in reviews
    ensures var after := Inserted(reviews, org, c, xs);
            && (k in after <==> Wanted(xs, k.about, k.author))
            && (k in after ==> Assignment(k.about, k.author, after[k].kind) in xs)
            && (k in after && k.about == k.author ==> after[k].kind == SelfReview)
  {
    InsertedRows(reviews, org, c, xs, k);
    if Wanted(xs, k.about, k.author) {
      var i :| 0 <= i < |xs| && xs[i].about == k.about && xs[i].author == k.author;
      InsertedKinds(reviews, org, c, xs, i);
      assert xs[i] == Assignment(k.about, k.author, xs[i].kind);
    }
  }

  lemma ExactSlots(reviews: map<Slot, Review>, org: OrgId, c: CycleId, users: seq<UserId>,
                   sup: map<UserId, Option<UserId>>, k: Slot)
    requires Covers(users, sup) && Unique(users) && k.cycle == c && k !in reviews
    ensures var after := Inserted(reviews, org, c, Dedup(Assignments(users, sup)));
            && (k in after <==> Due(users, sup, k.about, k.author))
            && (k in after ==> Fits(Assignment(k.about, k.author, after[k].kind), users, sup))
            && (k in after && k.about == k.author ==> after[k].kind == SelfReview)
  {
    GenerationIsExact(users, sup);
    InsertedSlots(reviews, org, c, Dedup(Assignments(users, sup)), k);
  }

  /** Activating a reachable cycle never trips the unique constraint of the review table. */
  lemma ActivationNeverCollides(s: State, w: World, org: OrgId, c: CycleId, order: seq<UserId>)
    requires Reachable(s)
    ensures ActivateCycle(s, w, org, c, order) != Err(UniqueViolation)
  {
    if c in s.cycles && s.cycles[c].status == Draft { DraftsAreBare(s, c); }
  }

  /** Who takes part in an activation: the members of the organization with an active profile that the cycle
      does not exclude. */
  lemma ActivationIsExact(s: State, w: World, org: OrgId, c: CycleId, order: seq<UserId>, u: UserId, v: UserId)
    requires Reachable(s)
    requires ActivateCycle(s, w, org, c, order).Ok?
    ensures var after := ActivateCycle(s, w, org, c, order).state.reviews;
            Slot(c, u, u) in after <==>
              && (org, u) in w.roles && u !in s.cycles[c].excluded
              && (org, u) in w.profiles && w.profiles[(org, u)].active
    ensures var after := ActivateCycle(s, w, org, c, order).state.reviews;
            u != v ==>
              (Slot(c, u, v) in after <==>
                 || ((org, u) in w.roles && u !in s.cycles[c].excluded && (org, u) in w.profiles &&
                     w.profiles[(org, u)].active && w.profiles[(org, u)].supervisor == Some(v))
                 || ((org, v) in w.roles && v !in s.cycles[c].excluded && (org, v) in w.profiles &&
                     w.profiles[(org, v)].active && w.profiles[(org, v)].supervisor == Some(u)))
  {
    DraftsAreBare(s, c);
    SlotsOfActivation(s, w, org, c, order, Slot(c, u, u));
    SlotsOfActivation(s, w, org, c, order, Slot(c, u, v));
    assert forall x :: x in order <==> x in Eligible(w, org, s.cycles[c].excluded);
    EligibleMeans(w, org, s.cycles[c].excluded, u);
    EligibleMeans(w, org, s.cycles[c].excluded, v);
  }

  lemma EligibleMeans(w: World, org: OrgId, excluded: set<UserId>, u: UserId)
    ensures u in Eligible(w, org, excluded) <==>
              (org, u) in w.roles && u !in excluded && (org, u) in w.profiles && w.profiles[(org, u)].active
  {
  }

  lemma SlotsOfActivation(s: State, w: World, org: OrgId, c: CycleId, order: seq<UserId>, k: Slot)
    requires ActivateCycle(s, w, org, c, order).Ok? && k.cycle == c && k !in s.reviews
    ensures var after := ActivateCycle(s, w, org, c, order).state.reviews;
            var sup := Supervisors(w, org, Eligible(w, org, s.cycles[c].excluded));
            && (k in after <==> Due(order, sup, k.about, k.author))
            && (k in after ==> Fits(Assignment(k.about, k.author, after[k].kind), order, sup))
            && (k in after && k.about == k.author ==> after[k].kind == SelfReview)
  {
    ExactSlots(s.reviews, org, c, order, Supervisors(w, org, Eligible(w, org, s.cycles[c].excluded)), k);
  }

  /** What the new reviews are: blank, a self review of each participant, a manager review by the supervisor of
      the reviewee, an upward review about the supervisor of the reviewer.  All other reviews stand. */
  lemma ActivationEffect(s: State, w: World, org: OrgId, c: CycleId, order: seq<UserId>, k: Slot)
    requires Reachable(s)
    requires ActivateCycle(s, w, org, c, order).Ok?
    ensures var after := ActivateCycle(s, w, org, c, order).state.reviews;
            && (k.cycle != c ==> (k in after <==> k in s.reviews) && (k in after ==> after[k] == s.reviews[k]))
            && (k.cycle == c && k in after ==>
                  && after[k].org == org && after[k].status == Pending && after[k].responses == None
                  && after[k].score == None
                  && (after[k].kind == SelfReview <==> k.about == k.author)
                  && (after[k].kind == ManagerReview ==>
                        (org, k.about) in w.profiles && w.profiles[(org, k.about)].supervisor == Some(k.author))
                  && (after[k].kind == UpwardReview ==>
                        (org, k.author) in w.profiles && w.profiles[(org, k.author)].supervisor == Some(k.about))
                  && after[k].kind != PeerReview)
  {
    DraftsAreBare(s, c);
    ActivationRows(s, w, org, c, order, k);
    if k.cycle == c {
      SlotsOfActivation(s, w, org, c, order, k);
      assert forall x :: x in order <==> x in Eligible(w, org, s.cycles[c].excluded);
    }
  }

  /** The cycle is then ACTIVE with its template's sections, and nothing else changes. */
  lemma ActivatedCycle(s: State, w: World, org: OrgId, c: CycleId, order: seq<UserId>)
    requires ActivateCycle(s, w, org, c, order).Ok?
    ensures var s' := ActivateCycle(s, w, org, c, order).state;
            && s' == s.(cycles := s'.cycles, reviews := s'.reviews) && s'.cycles.Keys == s.cycles.Keys
            && (forall x :: x in s.cycles && x != c ==> s'.cycles[x] == s.cycles[x])
            && s'.cycles[c] == s.cycles[c].(status := Active, snapshot := s'.cycles[c].snapshot)
            && s'.cycles[c].snapshot == Some(s.templates[s.cycles[c].template].sections)
  {
  }

  /** When an activation of a reachable state is accepted: the cycle is a draft of the organization, and the
      participants and their supervisors are users. */
  lemma ActivationIsAccepted(s: State, w: World, org: OrgId, c: CycleId, order: seq<UserId>)
    requires Reachable(s)
    ensures ActivateCycle(s, w, org, c, order).Ok? ==>
              c in s.cycles && s.cycles[c].org == org && s.cycles[c].status == Draft
    ensures c in s.cycles && s.cycles[c].org == org && s.cycles[c].status == Draft &&
            Lists(order, Eligible(w, org, s.cycles[c].excluded)) ==>
              (ActivateCycle(s, w, org, c, order).Ok? <==>
                 forall u :: u in order ==> u in w.users && SupervisorKnown(w, org, u))
  {
    if c in s.cycles && s.cycles[c].org == org && s.cycles[c].status == Draft &&
       Lists(order, Eligible(w, org, s.cycles[c].excluded))
    {
      ReachableKeeps(s);
      ActivationNeverCollides(s, w, org, c, order);
      KnownUsers(w, org, s.cycles[c].excluded, order);
    }
  }

  predicate SupervisorKnown(w: World, org: OrgId, u: UserId) {
    (org, u) in w.profiles && w.profiles[(org, u)].supervisor.Some? ==> w.profiles[(org, u)].supervisor.value in w.users
  }

  lemma KnownUsers(w: World, org: OrgId, excluded: set<UserId>, order: seq<UserId>)
    requires Lists(order, Eligible(w, org, excluded))
    ensures AllKnown(w, Requested(w, org, excluded, order)) <==>
              forall u :: u in order ==> u in w.users && SupervisorKnown(w, org, u)
  {
    var sup := Supervisors(w, org, Eligible(w, org, excluded));
    assert forall u :: u in order ==> u in sup && sup[u] == w.profiles[(org, u)].supervisor;
    GenerationIsExact(order, sup);
    KnownAssignments(w, Requested(w, org, excluded, order), order, sup);
  }

  lemma KnownAssignments(w: World, xs: seq<Assignment>, users: seq<UserId>, sup: map<UserId, Option<UserId>>)
    requires Covers(users, sup) && (forall a, b :: Wanted(xs, a, b) <==> Due(users, sup, a, b))
    requires forall x :: x in xs ==> Fits(x, users, sup)
    ensures AllKnown(w, xs) <==>
              forall u :: u in users ==> u in w.users && (sup[u].Some? ==> sup[u].value in w.users)
  {
    if AllKnown(w, xs) {
      forall u | u in users ensures u in w.users && (sup[u].Some? ==> sup[u].value in w.users) {
        assert Due(users, sup, u, u) && Wanted(xs, u, u);
        if sup[u].Some? { assert Due(users, sup, u, sup[u].value) && Wanted(xs, u, sup[u].value); }
      }
    } else {
      var i :| 0 <= i < |xs| && !(xs[i].about in w.users && xs[i].author in w.users);
      assert xs[i] in xs && Fits(xs[i], users, sup);
    }
  }

  // ------------------------------------------------------------------ peers

  /** The approved nominations of a cycle are, slot for slot, its peer reviews. */
  lemma ApprovedAreThePeerReviews(s: State, c: CycleId)
    requires Reachable(s)
    ensures (set k | k in s.nominations && k.cycle == c && s.nominations[k].status == Approved)
            == (set k | k in s.reviews && k.cycle == c && s.reviews[k].kind == PeerReview)
  {
    ReachableKeeps(s);
  }

  function PeerReviewsOf(s: State, c: CycleId, u: UserId): set<Slot> {
    set k | k in s.reviews && k.cycle == c && k.about == u && s.reviews[k].kind == PeerReview
  }

  /** Nobody gets more than three peer reviews in a cycle, and nobody peer-reviews themselves. */
  lemma AtMostThreePeers(s: State, c: CycleId, u: UserId)
    requires Reachable(s)
    ensures |PeerReviewsOf(s, c, u)| <= 3
    ensures forall k :: k in PeerReviewsOf(s, c, u) ==> k.author != u
  {
    ReachableKeeps(s);
    assert PeerReviewsOf(s, c, u) <= NominationsBy(s, c, u);
    SubsetSize(PeerReviewsOf(s, c, u), NominationsBy(s, c, u));
  }

  // ------------------------------------------------------------------ calibration

  /** In every reachable state a session has an entry for exactly the users with a non-null score in a
      submitted review of the cycle, within the members its department had when it was opened if it was opened
      for one; and each original score is the rounded mean of those scores as they stand now. */
  lemma OriginalScoresAreCurrentMeans(s: State, i: SessionId, u: UserId)
    requires Reachable(s)
    requires i in s.sessions
    ensures var x := s.sessions[i];
            && (u in x.scores <==> ScoresOf(s, x.org, x.cycle, u) != map[] && (x.scope == None || u in x.scope.value))
            && (u in x.scores ==> x.scores[u].original == Round2(MapMean(ScoresOf(s, x.org, x.cycle, u))))
  {
    ReachableKeeps(s);
    assert OriginalOk(s, s.sessions[i]);
  }

  /** A closed cycle has only finalized sessions, and a finalized session has a score and a note for
      every user. */
  lemma ClosedMeansFinalized(s: State, i: SessionId)
    requires Reachable(s)
    requires i in s.sessions
    ensures var x := s.sessions[i];
            && x.cycle in s.cycles && s.cycles[x.cycle].status in {Calibrating, Closed}
            && (s.cycles[x.cycle].status == Closed ==> x.finalized)
            && (x.finalized ==> forall u :: u in x.scores ==>
                x.scores[u].calibrated.Some? && x.scores[u].note.Some? && x.scores[u].note.value != "")
  {
    ReachableKeeps(s);
    var x := s.sessions[i];
    assert x.finalized ==> AllDecided(x.scores);
    forall u | x.finalized && u in x.scores ensures Decided(x.scores[u]) {}
  }

  /** Adjusting and finalizing never look at the cycle, yet they succeed only while it is CALIBRATING. */
  lemma OnlyWhileCalibrating(s: State, w: World, org: OrgId, user: UserId, id: SessionId, target: UserId, score: real,
                             note: Option<string>)
    requires Reachable(s)
    requires AdjustScore(s, w, org, user, id, target, score, note).Ok? || FinalizeSession(s, w, org, user, id).Ok?
    ensures s.sessions[id].cycle in s.cycles && s.cycles[s.sessions[id].cycle].status == Calibrating
  {
    ClosedMeansFinalized(s, id);
  }

  /** The same session but for a department column that a deletion may clear. */
  predicate SameButDepartment(x: Session, y: Session, r: Request) {
    y == x || (r.DeleteDepartment? && x.department == Some(r.gone) && y == x.(department := None))
  }

  lemma FinalizedStep(s: State, r: Request, i: SessionId)
    requires i in s.sessions && s.sessions[i].finalized
    requires s.sessions[i].cycle in s.cycles && s.cycles[s.sessions[i].cycle].status != Draft
    ensures i in After(s, r).sessions && SameButDepartment(s.sessions[i], After(s, r).sessions[i], r)
  {
  }

  /** A finalized session is never changed or deleted again; the deletion of its department clears that one
      column. */
  lemma FinalizedIsFrozen(s: State, r: Request, i: SessionId)
    requires Reachable(s)
    requires i in s.sessions && s.sessions[i].finalized
    ensures i in After(s, r).sessions && SameButDepartment(s.sessions[i], After(s, r).sessions[i], r)
  {
    ClosedMeansFinalized(s, i);
    FinalizedStep(s, r, i);
  }

  /** Completion writes no null: each session it goes through has a score for every user. */
  lemma CompletionWritesScores(s: State, org: OrgId, c: CycleId, i: SessionId, u: UserId)
    requires Reachable(s)
    requires i in FinalizedSessions(s, org, c) && u in s.sessions[i].scores
    ensures s.sessions[i].scores[u].calibrated.Some?
  {
    ClosedMeansFinalized(s, i);
  }

  // ------------------------------------------------------------------ completion as a last-writer fold

  predicate Rates(s: State, order: seq<SessionId>, j: nat, u: UserId) {
    j < |order| && order[j] in s.sessions && u in s.sessions[order[j]].scores
  }

  /** One session's writes, seen at one record. */
  lemma WriteAt(records: Records, org: OrgId, c: CycleId, scores: map<UserId, Entry>, k: Key)
    ensures var after := WriteScores(records, org, c, scores);
            if k.0 == org && k.1 in scores then k in after &&
                after[k] == Performance.Calibrated(records, k, scores[k.1].calibrated, c)[k]
            else (k in after <==> k in records) && (k in after ==> after[k] == records[k])
  {
  }

  /** A later write overrides an earlier one. */
  lemma RewriteAt(records: Records, later: Records, k: Key, x: Option<real>, y: Option<real>, c: CycleId)
    requires k in later && later[k] == Performance.Calibrated(records, k, x, c)[k]
    ensures Performance.Calibrated(later, k, y, c)[k] == Performance.Calibrated(records, k, y, c)[k]
  {
  }

  lemma RatesFront(s: State, order: seq<SessionId>, u: UserId)
    requires order != []
    ensures forall j: nat :: j < |order| - 1 ==> (Rates(s, order[..|order| - 1], j, u) <==> Rates(s, order, j, u))
  {
  }

  /** The nested loops leave each user of the organization with the entry of the last session that rates
      them, and everybody else alone. */
  lemma {:induction false} LastWriterWins(s: State, org: OrgId, c: CycleId, order: seq<SessionId>, k: Key)
      returns (last: Option<nat>)
    requires forall i :: i in order ==> i in s.sessions
    ensures var after := WriteSessions(s, org, c, order);
            match last
            case None => (k.0 == org ==> forall j: nat :: !Rates(s, order, j, k.1)) &&
                         (k in after <==> k in s.performance) && (k in after ==> after[k] == s.performance[k])
            case Some(j) =>
              && k.0 == org && Rates(s, order, j, k.1) && (forall n: nat :: n > j ==> !Rates(s, order, n, k.1))
              && var score := s.sessions[order[j]].scores[k.1].calibrated;
                 k in after && after[k] == Performance.Calibrated(s.performance, k, score, c)[k]
  {
    if order == [] {
      last := None;
    } else {
      var n := |order| - 1;
      var front := order[..n];
      assert order[n] in order && forall i :: i in front ==> i in order;
      last := LastWriterWins(s, org, c, front, k);
      RatesFront(s, order, k.1);
      var before, scores := WriteSessions(s, org, c, front), s.sessions[order[n]].scores;
      WriteAt(before, org, c, scores, k);
      if k.0 == org && k.1 in scores {
        if last.Some? {
          RewriteAt(s.performance, before, k, s.sessions[front[last.value]].scores[k.1].calibrated,
                    scores[k.1].calibrated, c);
        }
        last := Some(n);
      }
    }
  }

  /** After a completion, every user of a finalized session of the cycle has the cycle as last cycle and
      the calibrated score of one of its sessions (where sessions do not overlap, of the only one); and
      nobody else's record changed. */
  lemma CompletionIsLastWriter(s: State, org: OrgId, c: CycleId, order: seq<SessionId>, k: Key)
    requires Reachable(s)
    requires CompleteCycle(s, org, c, order).Ok?
    ensures var after := CompleteCycle(s, org, c, order).state.performance;
            if k.0 == org && exists i :: i in FinalizedSessions(s, org, c) && k.1 in s.sessions[i].scores then
              && k in after && after[k].lastCycle == Some(c) && after[k].reviewScore.Some? &&
                  Shown(after, k) == Shown(s.performance, k)
              && exists i :: i in FinalizedSessions(s, org, c) && k.1 in s.sessions[i].scores &&
                  after[k].reviewScore == s.sessions[i].scores[k.1].calibrated
            else (k in after <==> k in s.performance) && (k in after ==> after[k] == s.performance[k])
  {
    var last := LastWriterWins(s, org, c, order, k);
    if k.0 == org {
      if i :| i in FinalizedSessions(s, org, c) && k.1 in s.sessions[i].scores {
        assert i in order;
        var j: nat :| j < |order| && order[j] == i;
        assert Rates(s, order, j, k.1);
      }
      if last.Some? {
        assert order[last.value] in order;
        CompletionWritesScores(s, org, c, order[last.value], k.1);
      }
    }
  }

  // ------------------------------------------------------------------ the scale

  /** Every review that counts for the user labels only rating questions of the snapshot. */
  ghost predicate HonestReviews(s: State, c: CycleId, u: UserId)
    requires c in s.cycles && s.cycles[c].snapshot.Some?
  {
    forall k ::
      k in s.reviews && k.cycle == c && k.about == u && s.reviews[k].status == Submitted &&
      s.reviews[k].responses.Some? ==>
        RS.Honest(s.cycles[c].snapshot.value, s.reviews[k].responses.value)
  }

  /** The exact means behind the scores that count for a user. */
  function ExactMeans(s: State, org: OrgId, c: CycleId, u: UserId): map<Slot, real> {
    map k | k in ScoresOf(s, org, c, u) ::
      if s.reviews[k].responses.Some? && RatingValues(s.reviews[k].responses.value) != []
      then Mean(RatingValues(s.reviews[k].responses.value)) else 0.0
  }

  /** An exact mean times the number of rating values is their sum. */
  lemma ExactMeansMean(s: State, org: OrgId, c: CycleId, u: UserId, k: Slot)
    requires k in ScoresOf(s, org, c, u) && s.reviews[k].responses.Some? &&
        RatingValues(s.reviews[k].responses.value) != []
    ensures var xs := RatingValues(s.reviews[k].responses.value);
            ExactMeans(s, org, c, u)[k] * |xs| as real == Sum(xs)
  {
  }

  lemma CountedScore(s: State, org: OrgId, c: CycleId, u: UserId, k: Slot)
    requires ReviewsOk(s) && c in s.cycles && s.cycles[c].snapshot.Some? && HonestReviews(s, c, u) &&
        k in ScoresOf(s, org, c, u)
    ensures 1.0 <= ScoresOf(s, org, c, u)[k] <= 5.0
    ensures ScoresOf(s, org, c, u)[k] - 0.005 <= ExactMeans(s, org, c, u)[k] <= ScoresOf(s, org, c, u)[k] + 0.005
  {
    var r := s.reviews[k];
    assert ReviewOk(r, s.cycles[c].snapshot);
    RS.HonestScore(s.cycles[c].snapshot.value, r.responses.value);
  }

  lemma AccurateEntry(s: State, x: Session, u: UserId)
    requires ReviewsOk(s) && OriginalOk(s, x) && u in x.scores
    requires x.cycle in s.cycles && s.cycles[x.cycle].snapshot.Some? && HonestReviews(s, x.cycle, u)
    ensures 1.0 <= x.scores[u].original <= 5.0
    ensures ExactMeans(s, x.org, x.cycle, u) != map[]
    ensures -0.01 <= x.scores[u].original - MapMean(ExactMeans(s, x.org, x.cycle, u)) <= 0.01
  {
    var m, e := ScoresOf(s, x.org, x.cycle, u), ExactMeans(s, x.org, x.cycle, u);
    forall k | k in m ensures 1.0 <= m[k] <= 5.0 && m[k] - 0.005 <= e[k] <= m[k] + 0.005 {
      CountedScore(s, x.org, x.cycle, u, k);
    }
    assert e.Keys == m.Keys;
    RS.MeanInScale(m);
    RS.MeansAreNear(m, e, 0.005);
    Round2Near(MapMean(m));
  }

  /** If every submitted review of the user labels only rating questions, the original score of the user's
      session entry lies in [1, 5] and within 0.01 of the mean of the exact means. */
  lemma OriginalScoreIsAccurate(s: State, i: SessionId, u: UserId)
    requires Reachable(s)
    requires i in s.sessions && u in s.sessions[i].scores
    ensures s.sessions[i].cycle in s.cycles && s.cycles[s.sessions[i].cycle].snapshot.Some?
    ensures var x := s.sessions[i];
            HonestReviews(s, x.cycle, u) ==>
              && 1.0 <= x.scores[u].original <= 5.0
              && ExactMeans(s, x.org, x.cycle, u) != map[]
              && -0.01 <= x.scores[u].original - MapMean(ExactMeans(s, x.org, x.cycle, u)) <= 0.01
  {
    var x := s.sessions[i];
    ClosedMeansFinalized(s, i);
    DraftsAreBare(s, x.cycle);
    if HonestReviews(s, x.cycle, u) {
      Parts(s, i);
      AccurateEntry(s, x, u);
    }
  }

  lemma Parts(s: State, i: SessionId)
    requires Reachable(s)
    requires i in s.sessions
    ensures ReviewsOk(s) && OriginalOk(s, s.sessions[i])
  {
    ReachableKeeps(s);
  }

  /** Every stored review score is on the scale, and it is set exactly when a last cycle is. */
  lemma RecordsAreOnTheScale(s: State, k: Key)
    requires Reachable(s)
    requires k in s.performance
    ensures var r := s.performance[k];
            && (r.reviewScore.Some? <==> r.lastCycle.Some?)
            && (r.reviewScore.Some? ==> 1.0 <= r.reviewScore.value <= 5.0)
            && (r.lastCycle.Some? ==>
                  r.lastCycle.value in s.cycles && s.cycles[r.lastCycle.value].status in {Calibrating, Closed})
  {
    ReachableKeeps(s);
    assert RecordOk(s, s.performance[k], k.0);
  }
}
