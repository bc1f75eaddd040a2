/** The review service as code over its mutable tables. */
module ReviewService {
  import opened Common
  import opened ReviewModel
  import opened ReviewLoops
  import opened ReviewInvariants
  import opened ReviewSubmission
  import P = Performance

  /** A request either leads to exactly the given tables, or throws and leaves them alone. */
  ghost predicate Answers(reply: Answered, before: State, after: State, error: Option<ReviewError>) {
    match reply
    case Ok(s) => error == None && after == s
    case Err(e) => error == Some(e) && after == before
  }

  /** So whatever a method does to reachable tables leaves them reachable, and every theorem about
      reachable tables holds of the object after any calls. */
  lemma AnswersStayReachable(before: State, after: State, r: Request, error: Option<ReviewError>)
    requires Reachable(before) && Admissible(r) && Answers(Serve(before, r), before, after, error)
    ensures Reachable(after)
  {
    StepStaysReachable(before, r);
  }

  // ------------------------------------------------------------------ partial effects of the loops

  function Only(scores: map<UserId, Entry>, users: set<UserId>): map<UserId, Entry> {
    map u | u in scores && u in users :: scores[u]
  }

  lemma OneMoreWrite(records: P.Records, org: OrgId, cycle: CycleId, scores: map<UserId, Entry>, done: set<UserId>,
                     u: UserId)
    requires u in scores && u !in done
    ensures P.Calibrated(WriteScores(records, org, cycle, Only(scores, done)), (org, u), scores[u].calibrated, cycle)
            == WriteScores(records, org, cycle, Only(scores, done + {u}))
  {
    var less, more := Only(scores, done), Only(scores, done + {u});
    var before, after := WriteScores(records, org, cycle, less), WriteScores(records, org, cycle, more);
    var next := P.Calibrated(before, (org, u), scores[u].calibrated, cycle);
    assert forall v :: v in more <==> v in less || v == u;
    forall k ensures k in next <==> k in after {}
    forall k | k in next ensures next[k] == after[k] {
      if k != (org, u) { assert next[k] == before[k]; }
    }
    assert next == after;
  }

  /** The tables when some pending nominations have been approved. */
  function WithApproved(s: State, org: OrgId, done: set<Slot>): State {
    s.(nominations := map k | k in s.nominations :: if k in done then s.nominations[k].(status := Approved)
       else s.nominations[k],
       reviews := s.reviews + map k | k in done :: Review(org, PeerReview, Pending, None, None))
  }

  function PendingNominations(s: State, org: OrgId, cycle: CycleId): set<Slot> {
    set k | k in s.nominations && k.cycle == cycle && s.nominations[k].org == org && s.nominations[k].status == Proposed
  }

  lemma NoneApproved(s: State, org: OrgId)
    ensures WithApproved(s, org, {}) == s
  {
    var some := WithApproved(s, org, {});
    assert some.reviews == s.reviews && some.nominations == s.nominations;
  }

  lemma ApproveOneMore(s: State, org: OrgId, done: set<Slot>, k: Slot)
    requires k in s.nominations && s.nominations[k].org == org && s.nominations[k].status == Proposed && k !in done
    ensures ApproveNomination(WithApproved(s, org, done), org, k)
            == if k in s.reviews then Err(UniqueViolation) else Ok(WithApproved(s, org, done + {k}))
  {
    var some := WithApproved(s, org, done);
    if k !in s.reviews {
      var more := WithApproved(s, org, done + {k});
      assert some.nominations[k := some.nominations[k].(status := Approved)] == more.nominations;
      assert some.reviews[k := Review(org, PeerReview, Pending, None, None)] == more.reviews;
    }
  }

  /** A bulk approval is a run of single approvals. */
  lemma {:induction false} BulkStaysReachable(s: State, org: OrgId, cycle: CycleId, done: set<Slot>)
    requires Reachable(s) && done <= PendingNominations(s, org, cycle) && forall k :: k in done ==> k !in s.reviews
    ensures Reachable(WithApproved(s, org, done))
    decreases |done|
  {
    if done == {} {
      NoneApproved(s, org);
    } else {
      var k :| k in done;
      BulkStaysReachable(s, org, cycle, done - {k});
      ApproveOneMore(s, org, done - {k}, k);
      assert done - {k} + {k} == done;
      ApprovalStaysReachable(WithApproved(s, org, done - {k}), org, k);
    }
  }

  lemma ApprovalStaysReachable(s: State, org: OrgId, k: Slot)
    requires Reachable(s) && ApproveNomination(s, org, k).Ok?
    ensures Reachable(ApproveNomination(s, org, k).state)
  {
    StepStaysReachable(s, Approve(org, k));
  }

  /** What a bulk approval finds and what it does, column by column. */
  lemma BulkEffect(s: State, org: OrgId, cycle: CycleId, k: Slot)
    ensures var pending := PendingNominations(s, org, cycle);
            && (k in pending <==>
                  k in s.nominations && k.cycle == cycle && s.nominations[k].org == org &&
                      s.nominations[k].status == Proposed)
            && var s' := WithApproved(s, org, pending);
               && s' == s.(nominations := s'.nominations, reviews := s'.reviews)
               && (k in s'.nominations <==> k in s.nominations)
               && (k in s'.reviews <==> k in s.reviews || k in pending)
               && (k in pending ==>
                     && s'.nominations[k] == s.nominations[k].(status := Approved)
                     && s'.reviews[k].kind == PeerReview && s'.reviews[k].status == Pending && s'.reviews[k].org == org
                     && s'.reviews[k].responses == None && s'.reviews[k].score == None)
               && (k !in pending ==>
                     && (k in s.nominations ==> s'.nominations[k] == s.nominations[k])
                     && (k in s.reviews ==> s'.reviews[k] == s.reviews[k]))
  {
  }

  lemma NothingLeft(s: State, org: OrgId, cycle: CycleId)
    ensures PendingNominations(WithApproved(s, org, PendingNominations(s, org, cycle)), org, cycle) == {}
  {
  }

  /** The reviews when the overdue cron has gone through some cycles. */
  function Swept(s: State, now: Time, cycles: set<CycleId>): map<Slot, Review> {
    map k | k in s.reviews :: if k.cycle in cycles && Lapsed(s, k, now) then s.reviews[k].(status := Late)
        else s.reviews[k]
  }

  function LapsedIn(s: State, now: Time, cycles: set<CycleId>): set<Slot> {
    set k | k in s.reviews && k.cycle in cycles && Lapsed(s, k, now)
  }

  function Due(reviews: map<Slot, Review>, c: CycleId): set<Slot> {
    set k | k in reviews && k.cycle == c && reviews[k].status == Pending
  }

  function Marked(reviews: map<Slot, Review>, c: CycleId): map<Slot, Review> {
    map k | k in reviews :: if k in Due(reviews, c) then reviews[k].(status := Late) else reviews[k]
  }

  lemma SweepOne(s: State, now: Time, done: set<CycleId>, c: CycleId)
    requires c !in done && c in ExpiredCycles(s, now)
    ensures |LapsedIn(s, now, done + {c})| == |LapsedIn(s, now, done)| + |Due(Swept(s, now, done), c)|
    ensures Swept(s, now, done + {c}) == Marked(Swept(s, now, done), c)
  {
    var some := Swept(s, now, done);
    forall k ensures k in Due(some, c) <==> k in s.reviews && k.cycle == c && Lapsed(s, k, now) {}
    assert LapsedIn(s, now, done + {c}) == LapsedIn(s, now, done) + Due(some, c);
  }

  function ExpiredCycles(s: State, now: Time): set<CycleId> {
    set c | c in s.cycles && s.cycles[c].status == Active && s.cycles[c].endDate < now
  }

  lemma SweepNoneOrAll(s: State, now: Time, expired: set<CycleId>)
    requires expired == ExpiredCycles(s, now)
    ensures LapsedIn(s, now, {}) == {} && Swept(s, now, {}) == s.reviews
    ensures s.(reviews := Swept(s, now, expired)) == ReviewModel.MarkOverdueReviews(s, now)
    ensures LapsedIn(s, now, expired) == set k | k in s.reviews && Lapsed(s, k, now)
  {
    forall k | Lapsed(s, k, now) ensures k.cycle in expired {}
  }

  class ReviewService {
    var templates: map<TemplateId, Template>
    var cycles: map<CycleId, Cycle>
    var reviews: map<Slot, Review>
    var nominations: map<Slot, Nomination>
    var sessions: map<SessionId, Session>
    var performance: P.Records

    ghost function Tables(): State
      reads this
    {
      State(templates, cycles, reviews, nominations, sessions, performance)
    }

    constructor ()
      ensures Tables() == EMPTY
    {
      templates, cycles, reviews := map[], map[], map[];
      nominations, sessions, performance := map[], map[], map[];
    }

    // ---------------------------------------------------------------- templates and cycles

    method CreateTemplate(w: World, org: OrgId, user: UserId, sections: Sections, id: TemplateId)
        returns (error: Option<ReviewError>)
      modifies this`templates
      ensures Answers(ReviewModel.CreateTemplate(old(Tables()), w, org, user, sections, id), old(Tables()), Tables(),
                      error)
    {
      if (org, user) !in w.roles { return Some(NotMember); }
      if id in templates { return Some(UniqueViolation); }
      templates := templates[id := Template(org, sections)];
      return None;
    }

    method UpdateTemplate(org: OrgId, id: TemplateId, sections: Option<Sections>) returns (error: Option<ReviewError>)
      modifies this`templates
      ensures Answers(ReviewModel.UpdateTemplate(old(Tables()), org, id, sections), old(Tables()), Tables(), error)
    {
      if id !in templates || templates[id].org != org { return Some(NoSuchTemplate); }
      if exists c :: c in cycles && cycles[c].org == org && cycles[c].template == id &&
          cycles[c].status in {Active, Calibrating, Closed} {
        assert UsedBy(Tables(), org, id, var c :| c in cycles && cycles[c].org == org && cycles[c].template == id &&
                      cycles[c].status != Draft; c);
        return Some(TemplateInUse);
      }
      if sections.Some? { templates := templates[id := templates[id].(sections := sections.value)]; }
      return None;
    }

    method RemoveTemplate(org: OrgId, id: TemplateId) returns (error: Option<ReviewError>)
      modifies this`templates
      ensures Answers(ReviewModel.RemoveTemplate(old(Tables()), org, id), old(Tables()), Tables(), error)
    {
      if id !in templates || templates[id].org != org { return Some(NoSuchTemplate); }
      if exists c :: c in cycles && cycles[c].template == id && cycles[c].org == org {
        assert UsedBy(Tables(), org, id, var c :| c in cycles && cycles[c].template == id && cycles[c].org == org; c);
        return Some(TemplateInUse);
      }
      templates := templates - {id};
      return None;
    }

    method CreateCycle(w: World, org: OrgId, user: UserId, template: TemplateId, start: Time, end: Time,
                       excluded: set<UserId>, id: CycleId)
      returns (error: Option<ReviewError>)
      modifies this`cycles
      ensures Answers(ReviewModel.CreateCycle(old(Tables()), w, org, user, template, start, end, excluded, id),
                      old(Tables()), Tables(), error)
    {
      if (org, user) !in w.roles { return Some(NotMember); }
      if end <= start { return Some(BadDates); }
      if template !in templates || templates[template].org != org { return Some(NoSuchTemplate); }
      if id in cycles { return Some(UniqueViolation); }
      cycles := cycles[id := Cycle(org, template, Draft, None, excluded, end)];
      return None;
    }

    method UpdateCycle(org: OrgId, id: CycleId, template: Option<TemplateId>, start: Option<Time>, end: Option<Time>,
                       excluded: Option<set<UserId>>)
      returns (error: Option<ReviewError>)
      modifies this`cycles
      ensures Answers(ReviewModel.UpdateCycle(old(Tables()), org, id, template, start, end, excluded), old(Tables()),
                      Tables(), error)
    {
      if id !in cycles || cycles[id].org != org { return Some(NoSuchCycle); }
      var cycle := cycles[id];
      if cycle.status != Draft { return Some(NotDraft); }
      if end.Some? && start.Some? && end.value <= start.value { return Some(BadDates); }
      if template.Some? && (template.value !in templates || templates[template.value].org != org) {
        return Some(NoSuchTemplate);
      }
      if template.Some? { cycle := cycle.(template := template.value); }
      if end.Some? { cycle := cycle.(endDate := end.value); }
      if excluded.Some? { cycle := cycle.(excluded := excluded.value); }
      cycles := cycles[id := cycle];
      return None;
    }

    method RemoveCycle(org: OrgId, id: CycleId) returns (error: Option<ReviewError>)
      modifies this
      ensures Answers(ReviewModel.RemoveCycle(old(Tables()), org, id), old(Tables()), Tables(), error)
    {
      if id !in cycles || cycles[id].org != org { return Some(NoSuchCycle); }
      if cycles[id].status != Draft { return Some(NotDraft); }
      cycles := cycles - {id};
      reviews := map k | k in reviews && k.cycle != id :: reviews[k];
      nominations := map k | k in nominations && k.cycle != id :: nominations[k];
      sessions := map i | i in sessions && sessions[i].cycle != id :: sessions[i];
      performance := map k | k in performance ::
        if performance[k].lastCycle == Some(id) then performance[k].(lastCycle := None) else performance[k];
      return None;
    }

    /** The bulk insert of an activation. */
    method InsertReviews(org: OrgId, id: CycleId, xs: seq<Assignment>)
      modifies this`reviews
      ensures reviews == Inserted(old(reviews), org, id, xs)
    {
      for i := 0 to |xs|
        invariant reviews == Inserted(old(reviews), org, id, xs[..i])
      {
        assert xs[..i + 1][..i] == xs[..i];
        reviews := reviews[Slot(id, xs[i].about, xs[i].author) := Review(org, xs[i].kind, Pending, None, None)];
      }
      assert xs[..|xs|] == xs;
    }

    method ActivateCycle(w: World, org: OrgId, id: CycleId)
        returns (error: Option<ReviewError>, ghost order: seq<UserId>)
      modifies this`cycles, this`reviews
      ensures CycleIn(old(Tables()), id, org) ==> Lists(order, Eligible(w, org, old(cycles)[id].excluded))
      ensures Answers(ReviewModel.ActivateCycle(old(Tables()), w, org, id, order), old(Tables()), Tables(), error)
    {
      order := [];
      if id !in cycles || cycles[id].org != org { return Some(NoSuchCycle), []; }
      var cycle := cycles[id];
      var users, deduped := RequestReviews(w, org, cycle.excluded);
      order := users;
      if cycle.status != Draft { return Some(WrongStatus), users; }
      if cycle.template !in templates || templates[cycle.template].org != org { return Some(NoSuchTemplate), users; }
      if Collides(reviews, id, deduped) { return Some(UniqueViolation), users; }
      if !AllKnown(w, deduped) { return Some(DeadReference), users; }
      InsertReviews(org, id, deduped);
      cycles := cycles[id := cycle.(status := Active, snapshot := Some(templates[cycle.template].sections))];
      return None, users;
    }

    method TransitionToCalibrating(org: OrgId, id: CycleId) returns (error: Option<ReviewError>)
      modifies this`cycles
      ensures Answers(ReviewModel.TransitionToCalibrating(old(Tables()), org, id), old(Tables()), Tables(), error)
    {
      if id !in cycles || cycles[id].org != org { return Some(NoSuchCycle); }
      if cycles[id].status != Active { return Some(WrongStatus); }
      cycles := cycles[id := cycles[id].(status := Calibrating)];
      return None;
    }

    // ---------------------------------------------------------------- reviews and nominations

    method SubmitReview(org: OrgId, user: UserId, k: Slot, rs: Responses) returns (error: Option<ReviewError>)
      modifies this`reviews
      ensures Answers(ReviewModel.SubmitReview(old(Tables()), org, user, k, rs), old(Tables()), Tables(), error)
      ensures error == None ==> k.cycle in old(cycles)
      ensures error == None && old(cycles)[k.cycle].snapshot.Some? ==>
                var asked := old(cycles)[k.cycle].snapshot.value;
                forall i, j :: 0 <= i < |asked| && 0 <= j < |asked[i]| && asked[i][j].isRating ==>
                  exists n :: 0 <= n < |rs| && rs[n].question == asked[i][j].id && rs[n].value.Number? &&
                              rs[n].value.n in {1.0, 2.0, 3.0, 4.0, 5.0}
      ensures error in {Some(NeedsNumber), Some(OutOfScale)} ==>
                && k.cycle in old(cycles) && old(cycles)[k.cycle].snapshot.Some?
                && var asked := old(cycles)[k.cycle].snapshot.value;
                   exists i, j :: 0 <= i < |asked| && 0 <= j < |asked[i]| && asked[i][j].isRating &&
                     !exists n :: 0 <= n < |rs| && rs[n].question == asked[i][j].id && rs[n].value.Number? &&
                                  rs[n].value.n in {1.0, 2.0, 3.0, 4.0, 5.0}
    {
      if k !in reviews || reviews[k].org != org || k.cycle !in cycles { return Some(NoSuchReview); }
      if k.author != user { return Some(NotReviewer); }
      if cycles[k.cycle].status != Active { return Some(WrongStatus); }
      if reviews[k].status == Submitted { return Some(AlreadySubmitted); }
      error := Validate(cycles[k.cycle].snapshot, rs);
      if error.Some? { return; }
      var score := ComputeScore(rs);
      reviews := reviews[k := reviews[k].(responses := Some(rs), score := score, status := Submitted)];
      return None;
    }

    /** The bulk insert of a nomination request. */
    method InsertNominations(org: OrgId, user: UserId, cycle: CycleId, nominees: seq<UserId>)
      modifies this`nominations
      ensures nominations == old(nominations) + map k | k in Slots(cycle, user, nominees) :: Nomination(org, Proposed)
    {
      ghost var before := nominations;
      for i := 0 to |nominees|
        invariant nominations.Keys == before.Keys + Slots(cycle, user, nominees[..i])
        invariant forall k :: k in nominations ==>
                    nominations[k] == if k in Slots(cycle, user, nominees[..i]) then Nomination(org, Proposed)
                        else before[k]
      {
        nominations := nominations[Slot(cycle, user, nominees[i]) := Nomination(org, Proposed)];
        assert Slots(cycle, user, nominees[..i + 1])
            == Slots(cycle, user, nominees[..i]) + {Slot(cycle, user, nominees[i])} by {
          assert nominees[..i + 1] == nominees[..i] + [nominees[i]];
        }
      }
      assert nominees[..|nominees|] == nominees;
    }

    method CreateNominations(w: World, org: OrgId, user: UserId, cycle: CycleId, nominees: seq<UserId>)
        returns (error: Option<ReviewError>)
      modifies this`nominations
      ensures Answers(ReviewModel.CreateNominations(old(Tables()), w, org, user, cycle, nominees), old(Tables()),
                      Tables(), error)
    {
      if cycle !in cycles || cycles[cycle].org != org { return Some(NoSuchCycle); }
      if cycles[cycle].status != Active { return Some(WrongStatus); }
      if user in nominees { return Some(SelfNomination); }
      var mine := set k | k in nominations && k.cycle == cycle && k.about == user;
      assert mine == NominationsBy(Tables(), cycle, user);
      if |mine| + |nominees| > 3 { return Some(TooManyNominations); }
      if exists u :: u in nominees && Slot(cycle, user, u) in nominations { return Some(DuplicateNomination); }
      if exists i, j :: 0 <= i < j < |nominees| && nominees[i] == nominees[j] { return Some(UniqueViolation); }
      if exists u :: u in nominees && u !in w.users { return Some(DeadReference); }
      InsertNominations(org, user, cycle, nominees);
      return None;
    }

    method ApproveNomination(org: OrgId, k: Slot) returns (error: Option<ReviewError>)
      modifies this`nominations, this`reviews
      ensures Answers(ReviewModel.ApproveNomination(old(Tables()), org, k), old(Tables()), Tables(), error)
    {
      if k !in nominations || nominations[k].org != org { return Some(NoSuchNomination); }
      if nominations[k].status != Proposed { return Some(NotPending); }
      if k in reviews { return Some(UniqueViolation); }
      nominations := nominations[k := nominations[k].(status := Approved)];
      reviews := reviews[k := Review(org, PeerReview, Pending, None, None)];
      return None;
    }

    method RejectNomination(org: OrgId, k: Slot) returns (error: Option<ReviewError>)
      modifies this`nominations
      ensures Answers(ReviewModel.RejectNomination(old(Tables()), org, k), old(Tables()), Tables(), error)
    {
      if k !in nominations || nominations[k].org != org { return Some(NoSuchNomination); }
      if nominations[k].status != Proposed { return Some(NotPending); }
      nominations := nominations[k := nominations[k].(status := Rejected)];
      return None;
    }

    method FindPending(org: OrgId, cycle: CycleId) returns (pending: set<Slot>)
      ensures pending == PendingNominations(Tables(), org, cycle)
    {
      pending := set k | k in nominations && k.cycle == cycle && nominations[k].org == org &&
          nominations[k].status == Proposed;
    }

    /** Pending nominations are approved one transaction at a time; the first that collides with an
        existing review stops the loop and the ones before it stay.  The call succeeds exactly when none
        collides, and then it leaves nothing pending and returns how many there were. */
    method BulkApproveNominations(org: OrgId, cycle: CycleId)
        returns (error: Option<ReviewError>, approved: nat, ghost done: set<Slot>)
      modifies this`nominations, this`reviews
      ensures done <= PendingNominations(old(Tables()), org, cycle) && (forall k :: k in done ==> k !in old(reviews))
      ensures Tables() == WithApproved(old(Tables()), org, done)
      ensures error == None <==> forall k :: k in PendingNominations(old(Tables()), org, cycle) ==> k !in old(reviews)
      ensures error.Some? ==> error == Some(UniqueViolation)
      ensures error == None ==> done == PendingNominations(old(Tables()), org, cycle) && approved == |done|
      ensures error == None ==> PendingNominations(Tables(), org, cycle) == {}
    {
      ghost var s := Tables();
      var pending := FindPending(org, cycle);
      var rest := pending;
      approved, done := 0, {};
      NoneApproved(s, org);
      while rest != {}
        invariant rest !! done && rest + done == pending && approved == |done|
        invariant Tables() == WithApproved(s, org, done)
        invariant forall k :: k in done ==> k !in s.reviews
      {
        var k :| k in rest;
        assert k in PendingNominations(s, org, cycle);
        ApproveOneMore(s, org, done, k);
        error := ApproveNomination(org, k);
        if error.Some? { return; }
        MoveOne(rest, done, k);
        done := done + {k};
        rest := rest - {k};
        approved := approved + 1;
      }
      assert done == pending;
      NothingLeft(s, org, cycle);
      error := None;
    }

    // ---------------------------------------------------------------- calibration

    method CreateCalibrationSession(w: World, org: OrgId, user: UserId, cycle: CycleId, department: Option<DeptId>,
                                    id: SessionId)
      returns (error: Option<ReviewError>)
      modifies this`sessions
      ensures Answers(CreateSession(old(Tables()), w, org, user, cycle, department, id), old(Tables()), Tables(), error)
    {
      if cycle !in cycles || cycles[cycle].org != org { return Some(NoSuchCycle); }
      if cycles[cycle].status != Calibrating { return Some(WrongStatus); }
      var s := State(templates, cycles, reviews, nominations, sessions, performance);
      var scores := AverageScores(s, w, org, cycle, department);
      if department.Some? && department.value !in w.departments { return Some(DeadReference); }
      if id in sessions { return Some(UniqueViolation); }
      sessions := sessions[id := Session(cycle, org, department, user, scores, false, ScopeOf(w, org, department))];
      return None;
    }

    method AdjustScore(w: World, org: OrgId, user: UserId, id: SessionId, target: UserId, score: real,
                       note: Option<string>)
      returns (error: Option<ReviewError>)
      modifies this`sessions
      ensures Answers(ReviewModel.AdjustScore(old(Tables()), w, org, user, id, target, score, note), old(Tables()),
                      Tables(), error)
    {
      if id !in sessions || sessions[id].org != org { return Some(NoSuchSession); }
      var session := sessions[id];
      if session.facilitator != user && !((org, user) in w.roles && w.roles[(org, user)] == Owner) {
        return Some(NotFacilitator);
      }
      if session.finalized { return Some(SessionFinalized); }
      var scores := session.scores;
      if target !in scores { return Some(NotInSession); }
      scores := scores[target := scores[target].(calibrated := Some(score))];
      scores := scores[target := scores[target].(note := note)];
      assert scores == session.scores[target := session.scores[target].(calibrated := Some(score), note := note)];
      sessions := sessions[id := session.(scores := scores)];
      return None;
    }

    /** The upserts of one session, in whatever order its entries come. */
    method UpsertScores(org: OrgId, cycle: CycleId, scores: map<UserId, Entry>)
      modifies this`performance
      ensures performance == WriteScores(old(performance), org, cycle, scores)
    {
      ghost var before := performance;
      var rest := scores.Keys;
      assert Only(scores, scores.Keys - rest) == map[];
      while rest != {}
        invariant rest <= scores.Keys
        invariant performance == WriteScores(before, org, cycle, Only(scores, scores.Keys - rest))
      {
        var u :| u in rest;
        OneMoreWrite(before, org, cycle, scores, scores.Keys - rest, u);
        var k := (org, u);
        performance := performance[k :=
          if k in performance then performance[k].(reviewScore := scores[u].calibrated, lastCycle := Some(cycle))
          else P.Record(P.DEFAULTS, scores[u].calibrated, Some(cycle))];
        assert scores.Keys - rest + {u} == scores.Keys - (rest - {u});
        rest := rest - {u};
      }
      assert Only(scores, scores.Keys - rest) == scores;
    }

    method FinalizeSession(w: World, org: OrgId, user: UserId, id: SessionId) returns (error: Option<ReviewError>)
      modifies this`sessions, this`performance
      ensures Answers(ReviewModel.FinalizeSession(old(Tables()), w, org, user, id), old(Tables()), Tables(), error)
    {
      if id !in sessions || sessions[id].org != org { return Some(NoSuchSession); }
      var session := sessions[id];
      if session.facilitator != user && !((org, user) in w.roles && w.roles[(org, user)] == Owner) {
        return Some(NotFacilitator);
      }
      if session.finalized { return Some(SessionFinalized); }
      var missing, rest := 0, session.scores.Keys;
      while rest != {}
        invariant missing >= 0 && rest <= session.scores.Keys
        invariant missing == 0 <==> forall u :: u in session.scores && u !in rest ==> Decided(session.scores[u])
      {
        var u :| u in rest;
        var data := session.scores[u];
        if data.calibrated == None { missing := missing + 1; }
        if data.note == None || data.note.value == "" { missing := missing + 1; }
        rest := rest - {u};
      }
      if missing > 0 { return Some(MissingScores); }
      UpsertScores(org, session.cycle, session.scores);
      sessions := sessions[id := session.(finalized := true)];
      return None;
    }

    /** The nested loops over the finalized sessions and their entries. */
    method CompleteCycle(org: OrgId, id: CycleId) returns (error: Option<ReviewError>, ghost order: seq<SessionId>)
      modifies this`cycles, this`performance
      ensures Lists(order, FinalizedSessions(old(Tables()), org, id))
      ensures Answers(ReviewModel.CompleteCycle(old(Tables()), org, id, order), old(Tables()), Tables(), error)
    {
      ghost var s := Tables();
      var finalized: set<SessionId> := set i | i in sessions && sessions[i].cycle == id && sessions[i].org == org &&
          sessions[i].finalized;
      var rows: seq<SessionId> := Rows(finalized);
      order := rows;
      if id !in cycles || cycles[id].org != org { return Some(NoSuchCycle), rows; }
      if cycles[id].status != Calibrating { return Some(WrongStatus), rows; }
      if exists i :: i in sessions && sessions[i].cycle == id && sessions[i].org == org && !sessions[i].finalized {
        return Some(UnfinalizedSessions), rows;
      }
      for j := 0 to |rows|
        invariant forall i :: i in rows[..j] ==> i in s.sessions
        invariant performance == WriteSessions(s, org, id, rows[..j]) && cycles == s.cycles
      {
        assert rows[j] in rows;
        assert rows[..j + 1][..j] == rows[..j] && forall i :: i in rows[..j + 1] ==> i in rows;
        UpsertScores(org, id, sessions[rows[j]].scores);
      }
      assert rows[..|rows|] == rows;
      cycles := cycles[id := cycles[id].(status := Closed)];
      return None, rows;
    }

    method FindExpired(now: Time) returns (expired: set<CycleId>)
      ensures expired == ExpiredCycles(Tables(), now)
    {
      expired := set c | c in cycles && cycles[c].status == Active && cycles[c].endDate < now;
    }

    /** The bulk update of one cycle. */
    method MarkCycle(c: CycleId) returns (count: nat)
      modifies this`reviews
      ensures count == |Due(old(reviews), c)| && reviews == Marked(old(reviews), c)
    {
      count := |Due(reviews, c)|;
      reviews := map k | k in reviews :: if k in Due(reviews, c) then reviews[k].(status := Late) else reviews[k];
    }

    /** The cron goes cycle by cycle and returns how many reviews it marked. */
    method MarkOverdueReviews(now: Time) returns (marked: nat)
      modifies this`reviews
      ensures Tables() == ReviewModel.MarkOverdueReviews(old(Tables()), now)
      ensures marked == |set k | k in old(reviews) && Lapsed(old(Tables()), k, now)|
    {
      ghost var s := Tables();
      var rest := FindExpired(now);
      ghost var expired, done := rest, {};
      SweepNoneOrAll(s, now, expired);
      marked := 0;
      while rest != {}
        invariant rest !! done && rest + done == expired
        invariant reviews == Swept(s, now, done) && marked == |LapsedIn(s, now, done)|
      {
        var c :| c in rest;
        SweepOne(s, now, done, c);
        var count := MarkCycle(c);
        marked := marked + count;
        MoveOne(rest, done, c);
        done := done + {c};
        rest := rest - {c};
      }
      assert done == expired;
    }
  }
}
