/** What the requests of the review service mean column by column: exactly when each is accepted, and exactly
    which columns of which rows it then changes. */
module ReviewEffects {
  import opened Common
  import opened Arithmetic
  import opened ReviewModel
  import opened ReviewScores
  import opened ReviewInvariants
  import opened ReviewLoops
  import P = Performance

  // ------------------------------------------------------------------ every operation is served

  /** Each operation of the service, and each outside write, leads from reachable tables to reachable ones. */
  lemma Served(s: State, r: Request, after: State)
    requires Reachable(s) && Handle(s, r) == Ok(after)
    ensures Reachable(after)
  {
    StepStaysReachable(s, r);
  }

  lemma SetupStaysReachable(s: State, w: World, org: OrgId, user: UserId, sections: Sections, edit: Option<Sections>,
                            template: TemplateId, move: Option<TemplateId>, start: Time, end: Time,
                                dates: (Option<Time>, Option<Time>),
                            excluded: set<UserId>, others: Option<set<UserId>>, cycle: CycleId)
    requires Reachable(s)
    ensures CreateTemplate(s, w, org, user, sections, template).Ok? ==>
              Reachable(CreateTemplate(s, w, org, user, sections, template).state)
    ensures UpdateTemplate(s, org, template, edit).Ok? ==> Reachable(UpdateTemplate(s, org, template, edit).state)
    ensures RemoveTemplate(s, org, template).Ok? ==> Reachable(RemoveTemplate(s, org, template).state)
    ensures CreateCycle(s, w, org, user, template, start, end, excluded, cycle).Ok? ==>
              Reachable(CreateCycle(s, w, org, user, template, start, end, excluded, cycle).state)
    ensures UpdateCycle(s, org, cycle, move, dates.0, dates.1, others).Ok? ==>
              Reachable(UpdateCycle(s, org, cycle, move, dates.0, dates.1, others).state)
    ensures RemoveCycle(s, org, cycle).Ok? ==> Reachable(RemoveCycle(s, org, cycle).state)
  {
    if CreateTemplate(s, w, org, user, sections, template).Ok? {
      Served(s, NewTemplate(w, org, user, sections, template),
             CreateTemplate(s, w, org, user, sections, template).state);
    }
    if UpdateTemplate(s, org, template, edit).Ok? {
      Served(s, EditTemplate(org, template, edit), UpdateTemplate(s, org, template, edit).state);
    }
    if RemoveTemplate(s, org, template).Ok? {
      Served(s, DeleteTemplate(org, template), RemoveTemplate(s, org, template).state);
    }
    if CreateCycle(s, w, org, user, template, start, end, excluded, cycle).Ok? {
      Served(s, NewCycle(w, org, user, template, start, end, excluded, cycle),
             CreateCycle(s, w, org, user, template, start, end, excluded, cycle).state);
    }
    if UpdateCycle(s, org, cycle, move, dates.0, dates.1, others).Ok? {
      Served(s, EditCycle(org, cycle, move, dates.0, dates.1, others),
             UpdateCycle(s, org, cycle, move, dates.0, dates.1, others).state);
    }
    if RemoveCycle(s, org, cycle).Ok? {
      Served(s, DeleteCycle(org, cycle), RemoveCycle(s, org, cycle).state);
    }
  }

  lemma CourseStaysReachable(s: State, w: World, org: OrgId, cycle: CycleId, users: seq<UserId>,
                             sessions: seq<SessionId>)
    requires Reachable(s)
    ensures ActivateCycle(s, w, org, cycle, users).Ok? ==> Reachable(ActivateCycle(s, w, org, cycle, users).state)
    ensures TransitionToCalibrating(s, org, cycle).Ok? ==> Reachable(TransitionToCalibrating(s, org, cycle).state)
    ensures CompleteCycle(s, org, cycle, sessions).Ok? ==> Reachable(CompleteCycle(s, org, cycle, sessions).state)
  {
    var a := ActivateCycle(s, w, org, cycle, users);
    if a.Ok? { Served(s, Activate(w, org, cycle, users), a.state); }
    var b := TransitionToCalibrating(s, org, cycle);
    if b.Ok? { Served(s, Calibrate(org, cycle), b.state); }
    var c := CompleteCycle(s, org, cycle, sessions);
    if c.Ok? { Served(s, Complete(org, cycle, sessions), c.state); }
  }

  lemma ReviewsStayReachable(s: State, w: World, org: OrgId, user: UserId, cycle: CycleId, k: Slot, rs: Responses,
                             nominees: seq<UserId>, now: Time)
    requires Reachable(s)
    ensures SubmitReview(s, org, user, k, rs).Ok? ==> Reachable(SubmitReview(s, org, user, k, rs).state)
    ensures CreateNominations(s, w, org, user, cycle, nominees).Ok? && 1 <= |nominees| <= 3 ==>
              Reachable(CreateNominations(s, w, org, user, cycle, nominees).state)
    ensures Reachable(MarkOverdueReviews(s, now))
  {
    var a := SubmitReview(s, org, user, k, rs);
    if a.Ok? { Served(s, Submit(org, user, k, rs), a.state); }
    var b := CreateNominations(s, w, org, user, cycle, nominees);
    if b.Ok? && 1 <= |nominees| <= 3 { Served(s, Nominate(w, org, user, cycle, nominees), b.state); }
    Served(s, Cron(now), MarkOverdueReviews(s, now));
  }

  lemma DecisionsStayReachable(s: State, org: OrgId, k: Slot)
    requires Reachable(s)
    ensures ApproveNomination(s, org, k).Ok? ==> Reachable(ApproveNomination(s, org, k).state)
    ensures RejectNomination(s, org, k).Ok? ==> Reachable(RejectNomination(s, org, k).state)
  {
    var a := ApproveNomination(s, org, k);
    if a.Ok? { Served(s, Approve(org, k), a.state); }
    var b := RejectNomination(s, org, k);
    if b.Ok? { Served(s, Reject(org, k), b.state); }
  }

  lemma OpeningsStayReachable(s: State, w: World, org: OrgId, user: UserId, cycle: CycleId, department: Option<DeptId>,
                              id: SessionId)
    requires Reachable(s) && CreateSession(s, w, org, user, cycle, department, id).Ok?
    ensures Reachable(CreateSession(s, w, org, user, cycle, department, id).state)
  {
    Served(s, OpenSession(w, org, user, cycle, department, id),
           CreateSession(s, w, org, user, cycle, department, id).state);
  }

  lemma FinalizationsStayReachable(s: State, w: World, org: OrgId, user: UserId, id: SessionId)
    requires Reachable(s) && FinalizeSession(s, w, org, user, id).Ok?
    ensures Reachable(FinalizeSession(s, w, org, user, id).state)
  {
    Served(s, Finalize(w, org, user, id), FinalizeSession(s, w, org, user, id).state);
  }

  lemma AdjustmentsStayReachable(s: State, w: World, org: OrgId, user: UserId, id: SessionId, target: UserId,
                                 score: real, note: string)
    requires Reachable(s) && 1.0 <= score <= 5.0 && note != ""
    ensures AdjustScore(s, w, org, user, id, target, score, Some(note)).Ok? ==>
              Reachable(AdjustScore(s, w, org, user, id, target, score, Some(note)).state)
  {
    var a := AdjustScore(s, w, org, user, id, target, score, Some(note));
    if a.Ok? { Served(s, Adjust(w, org, user, id, target, score, Some(note)), a.state); }
  }

  lemma OutsideWritesStayReachable(s: State, k: P.Key, m: P.Metrics, d: DeptId)
    requires Reachable(s)
    ensures Reachable(s.(performance := P.Recalculated(s.performance, k, m))) && Reachable(WithoutDepartment(s, d))
  {
    Served(s, Recalculate(k, m), s.(performance := P.Recalculated(s.performance, k, m)));
    Served(s, DeleteDepartment(d), WithoutDepartment(s, d));
  }

  /** The maps agree on every key but one. */
  ghost predicate OthersStand<K(!new), V>(m: map<K, V>, m': map<K, V>, k: K) {
    forall x :: x != k ==> (x in m <==> x in m') && (x in m ==> m'[x] == m[x])
  }

  // ------------------------------------------------------------------ templates and cycles

  lemma CreateTemplateEffect(s: State, w: World, org: OrgId, user: UserId, sections: Sections, id: TemplateId)
    ensures var r := CreateTemplate(s, w, org, user, sections, id);
            && (r.Ok? <==> (org, user) in w.roles && id !in s.templates)
            && (r.Ok? ==>
                  && r.state == s.(templates := r.state.templates) && OthersStand(s.templates, r.state.templates, id)
                  && id in r.state.templates && r.state.templates[id].org == org
                  && r.state.templates[id].sections == sections)
  {
  }

  lemma UpdateTemplateEffect(s: State, org: OrgId, id: TemplateId, sections: Option<Sections>)
    ensures var r := UpdateTemplate(s, org, id, sections);
            && (r.Ok? <==>
                  && id in s.templates && s.templates[id].org == org
                  && forall c :: c in s.cycles && s.cycles[c].org == org && s.cycles[c].template == id ==>
                       s.cycles[c].status !in {Active, Calibrating, Closed})
            && (r.Ok? ==>
                  && r.state == s.(templates := r.state.templates) && OthersStand(s.templates, r.state.templates, id)
                  && id in r.state.templates && r.state.templates[id].org == org
                  && (sections.Some? ==> r.state.templates[id].sections == sections.value)
                  && (sections == None ==> r.state.templates[id].sections == s.templates[id].sections))
  {
    assert forall c :: c in s.cycles ==> (UsedBy(s, org, id, c) <==>
                                          s.cycles[c].org == org && s.cycles[c].template == id);
  }

  lemma RemoveTemplateEffect(s: State, org: OrgId, id: TemplateId)
    ensures var r := RemoveTemplate(s, org, id);
            && (r.Ok? <==>
                  && id in s.templates && s.templates[id].org == org
                  && forall c :: c in s.cycles && s.cycles[c].org == org ==> s.cycles[c].template != id)
            && (r.Ok? ==>
                  r.state == s.(templates := r.state.templates) && OthersStand(s.templates, r.state.templates, id) &&
                  id !in r.state.templates)
  {
    assert forall c :: c in s.cycles ==> (UsedBy(s, org, id, c) <==>
                                          s.cycles[c].org == org && s.cycles[c].template == id);
  }

  lemma CreateCycleEffect(s: State, w: World, org: OrgId, user: UserId, template: TemplateId, start: Time, end: Time,
                          excluded: set<UserId>, id: CycleId)
    ensures var r := CreateCycle(s, w, org, user, template, start, end, excluded, id);
            && (r.Ok? <==>
                  && (org, user) in w.roles && start < end && template in s.templates
                  && s.templates[template].org == org
                  && id !in s.cycles)
            && (r.Ok? ==>
                  && r.state == s.(cycles := r.state.cycles) && OthersStand(s.cycles, r.state.cycles, id)
                  && id in r.state.cycles
                  && r.state.cycles[id].org == org && r.state.cycles[id].template == template
                  && r.state.cycles[id].status == Draft && r.state.cycles[id].snapshot == None
                  && r.state.cycles[id].excluded == excluded && r.state.cycles[id].endDate == end)
  {
  }

  lemma UpdateCycleEffect(s: State, org: OrgId, id: CycleId, template: Option<TemplateId>, start: Option<Time>,
                          end: Option<Time>, excluded: Option<set<UserId>>)
    ensures var r := UpdateCycle(s, org, id, template, start, end, excluded);
            && (r.Ok? <==>
                  && id in s.cycles && s.cycles[id].org == org && s.cycles[id].status == Draft
                  && (start.Some? && end.Some? ==> start.value < end.value)
                  && (template.Some? ==> template.value in s.templates && s.templates[template.value].org == org))
            && (r.Ok? ==>
                  && r.state == s.(cycles := r.state.cycles) && OthersStand(s.cycles, r.state.cycles, id)
                  && id in r.state.cycles
                  && var x, y := s.cycles[id], r.state.cycles[id];
                     && y.org == x.org && y.status == x.status && y.snapshot == x.snapshot
                     && (if template == None then y.template == x.template else template == Some(y.template))
                     && (if end == None then y.endDate == x.endDate else end == Some(y.endDate))
                     && (if excluded == None then y.excluded == x.excluded else excluded == Some(y.excluded)))
  {
  }

  lemma RemoveCycleIsAccepted(s: State, org: OrgId, id: CycleId)
    ensures RemoveCycle(s, org, id).Ok? <==> id in s.cycles && s.cycles[id].org == org && s.cycles[id].status == Draft
  {
  }

  lemma CalibrateEffect(s: State, org: OrgId, id: CycleId)
    ensures var r := TransitionToCalibrating(s, org, id);
            && (r.Ok? <==> id in s.cycles && s.cycles[id].org == org && s.cycles[id].status == Active)
            && (r.Ok? ==>
                  && r.state == s.(cycles := r.state.cycles) && OthersStand(s.cycles, r.state.cycles, id)
                  && id in r.state.cycles
                  && r.state.cycles[id].status == Calibrating
                  && r.state.cycles[id] == s.cycles[id].(status := r.state.cycles[id].status))
  {
  }

  // ------------------------------------------------------------------ nominations and reviews

  lemma NominateEffect(s: State, w: World, org: OrgId, user: UserId, cycle: CycleId, nominees: seq<UserId>)
    ensures var r := CreateNominations(s, w, org, user, cycle, nominees);
            && (r.Ok? <==>
                  && cycle in s.cycles && s.cycles[cycle].org == org && s.cycles[cycle].status == Active
                  && |set k | k in s.nominations && k.cycle == cycle && k.about == user| + |nominees| <= 3
                  && (forall i :: 0 <= i < |nominees| ==>
                        nominees[i] != user && nominees[i] in w.users &&
                            Slot(cycle, user, nominees[i]) !in s.nominations)
                  && forall i, j :: 0 <= i < j < |nominees| ==> nominees[i] != nominees[j])
            && (r.Ok? ==>
                  && r.state == s.(nominations := r.state.nominations)
                  && (forall k :: k in r.state.nominations <==>
                        k in s.nominations || (k.cycle == cycle && k.about == user && k.author in nominees))
                  && forall k :: k in r.state.nominations ==>
                       if k in s.nominations then r.state.nominations[k] == s.nominations[k]
                       else r.state.nominations[k].org == org && r.state.nominations[k].status == Proposed)
  {
    assert NominationsBy(s, cycle, user) == set k | k in s.nominations && k.cycle == cycle && k.about == user;
  }

  lemma ApproveEffect(s: State, org: OrgId, k: Slot)
    ensures var r := ApproveNomination(s, org, k);
            && (r.Ok? <==>
                  k in s.nominations && s.nominations[k].org == org && s.nominations[k].status == Proposed &&
                      k !in s.reviews)
            && (r.Ok? ==>
                  && r.state == s.(nominations := r.state.nominations, reviews := r.state.reviews)
                  && OthersStand(s.nominations, r.state.nominations, k) && OthersStand(s.reviews, r.state.reviews, k)
                  && k in r.state.nominations && r.state.nominations[k].status == Approved
                  && r.state.nominations[k].org == org
                  && k in r.state.reviews && r.state.reviews[k].kind == PeerReview && r.state.reviews[k].org == org
                  && r.state.reviews[k].status == Pending && r.state.reviews[k].responses == None
                  && r.state.reviews[k].score == None)
  {
  }

  lemma RejectEffect(s: State, org: OrgId, k: Slot)
    ensures var r := RejectNomination(s, org, k);
            && (r.Ok? <==> k in s.nominations && s.nominations[k].org == org && s.nominations[k].status == Proposed)
            && (r.Ok? ==>
                  && r.state == s.(nominations := r.state.nominations)
                  && OthersStand(s.nominations, r.state.nominations, k)
                  && k in r.state.nominations && r.state.nominations[k].status == Rejected
                  && r.state.nominations[k].org == org)
  {
  }

  lemma SubmitEffect(s: State, org: OrgId, user: UserId, k: Slot, rs: Responses)
    ensures var r := SubmitReview(s, org, user, k, rs);
            && (r.Ok? <==>
                  && k in s.reviews && s.reviews[k].org == org && k.author == user && s.reviews[k].status != Submitted
                  && k.cycle in s.cycles && s.cycles[k.cycle].status == Active
                  && Check(s.cycles[k.cycle].snapshot, rs) == None)
            && (r.Ok? ==>
                  && r.state == s.(reviews := r.state.reviews) && OthersStand(s.reviews, r.state.reviews, k)
                  && k in r.state.reviews && r.state.reviews[k].status == Submitted
                  && r.state.reviews[k].responses == Some(rs) && r.state.reviews[k].score == OverallScore(rs)
                  && r.state.reviews[k].org == s.reviews[k].org && r.state.reviews[k].kind == s.reviews[k].kind)
  {
  }

  /** The cron: exactly the pending reviews of active cycles that have ended become overdue. */
  lemma SweepEffect(s: State, now: Time, k: Slot)
    ensures var s' := MarkOverdueReviews(s, now);
            && s' == s.(reviews := s'.reviews) && (k in s'.reviews <==> k in s.reviews)
            && (k in s.reviews ==>
                  && s'.reviews[k] == s.reviews[k].(status := s'.reviews[k].status)
                  && (s'.reviews[k].status == s.reviews[k].status ||
                      (s.reviews[k].status == Pending && s'.reviews[k].status == Late))
                  && (s'.reviews[k].status == Late <==>
                        s.reviews[k].status == Late ||
                        (s.reviews[k].status == Pending && k.cycle in s.cycles && s.cycles[k.cycle].status == Active &&
                         s.cycles[k.cycle].endDate < now)))
  {
  }

  // ------------------------------------------------------------------ calibration

  /** A session is opened over the users with a counted score, in the department if one is named. */
  lemma OpenIsAccepted(s: State, w: World, org: OrgId, user: UserId, cycle: CycleId, department: Option<DeptId>,
                       id: SessionId)
    ensures CreateSession(s, w, org, user, cycle, department, id).Ok? <==>
              && cycle in s.cycles && s.cycles[cycle].org == org && s.cycles[cycle].status == Calibrating
              && (department.Some? ==> department.value in w.departments) && id !in s.sessions
  {
  }

  lemma OpenEffect(s: State, w: World, org: OrgId, user: UserId, cycle: CycleId, department: Option<DeptId>,
                   id: SessionId)
    requires CreateSession(s, w, org, user, cycle, department, id).Ok?
    ensures var s' := CreateSession(s, w, org, user, cycle, department, id).state;
            && s' == s.(sessions := s'.sessions) && OthersStand(s.sessions, s'.sessions, id) && id in s'.sessions
            && s'.sessions[id].cycle == cycle && s'.sessions[id].org == org && s'.sessions[id].department == department
            && s'.sessions[id].facilitator == user && !s'.sessions[id].finalized
    ensures var x := CreateSession(s, w, org, user, cycle, department, id).state.sessions[id];
            forall u ::
              && (u in x.scores <==>
                    && (exists a :: CountsFor(s, org, Slot(cycle, u, a)))
                    && (department.Some? ==> (org, u) in w.profiles && w.profiles[(org, u)].department == department))
              && (u in x.scores ==> x.scores[u].calibrated == None && x.scores[u].note == None)
  {
    var x := CreateSession(s, w, org, user, cycle, department, id).state.sessions[id];
    forall u
      ensures u in x.scores <==>
                && (exists a :: CountsFor(s, org, Slot(cycle, u, a)))
                && (department.Some? ==> (org, u) in w.profiles && w.profiles[(org, u)].department == department)
    {
      if a :| CountsFor(s, org, Slot(cycle, u, a)) { assert Slot(cycle, u, a) in ScoresOf(s, org, cycle, u); }
      if u in x.scores {
        var k :| k in s.reviews && k in ScoresOf(s, org, cycle, k.about) && k.about == u;
        assert k == Slot(cycle, u, k.author) && CountsFor(s, org, k);
      }
    }
  }

  /** A submitted review with a score. */
  ghost predicate CountsFor(s: State, org: OrgId, k: Slot) {
    k in s.reviews && s.reviews[k].org == org && s.reviews[k].status == Submitted && s.reviews[k].score.Some?
  }

  /** The scores behind an original score: those of the submitted reviews of the user in the cycle. */
  lemma CountedScores(s: State, org: OrgId, cycle: CycleId, user: UserId, k: Slot)
    ensures k in ScoresOf(s, org, cycle, user) <==>
              && k in s.reviews && k.cycle == cycle && k.about == user && s.reviews[k].org == org
              && s.reviews[k].status == Submitted && s.reviews[k].score.Some?
    ensures k in ScoresOf(s, org, cycle, user) ==> Some(ScoresOf(s, org, cycle, user)[k]) == s.reviews[k].score
  {
  }

  lemma AdjustIsAccepted(s: State, w: World, org: OrgId, user: UserId, id: SessionId, target: UserId, score: real,
                         note: Option<string>)
    ensures AdjustScore(s, w, org, user, id, target, score, note).Ok? <==>
              && id in s.sessions && s.sessions[id].org == org && !s.sessions[id].finalized
              && target in s.sessions[id].scores
              && (s.sessions[id].facilitator == user || ((org, user) in w.roles && w.roles[(org, user)] == Owner))
  {
  }

  lemma AdjustEffect(s: State, w: World, org: OrgId, user: UserId, id: SessionId, target: UserId, score: real,
                     note: Option<string>)
    requires AdjustScore(s, w, org, user, id, target, score, note).Ok?
    ensures var s' := AdjustScore(s, w, org, user, id, target, score, note).state;
            && s' == s.(sessions := s'.sessions) && OthersStand(s.sessions, s'.sessions, id) && id in s'.sessions
            && s'.sessions[id] == s.sessions[id].(scores := s'.sessions[id].scores)
            && OthersStand(s.sessions[id].scores, s'.sessions[id].scores, target) && target in s'.sessions[id].scores
            && s'.sessions[id].scores[target].original == s.sessions[id].scores[target].original
            && s'.sessions[id].scores[target].calibrated == Some(score) && s'.sessions[id].scores[target].note == note
  {
  }

  lemma FinalizeIsAccepted(s: State, w: World, org: OrgId, user: UserId, id: SessionId)
    ensures FinalizeSession(s, w, org, user, id).Ok? <==>
              && id in s.sessions && s.sessions[id].org == org && !s.sessions[id].finalized
              && (s.sessions[id].facilitator == user || ((org, user) in w.roles && w.roles[(org, user)] == Owner))
              && forall u :: u in s.sessions[id].scores ==>
                   s.sessions[id].scores[u].calibrated.Some? && s.sessions[id].scores[u].note !in {None, Some("")}
  {
    if id in s.sessions {
      var scores := s.sessions[id].scores;
      assert forall u :: u in scores ==>
        (Decided(scores[u]) <==> scores[u].calibrated.Some? && scores[u].note !in {None, Some("")});
    }
  }

  /** Finalization closes the session and writes each user's calibrated score, with the cycle, to the user's
      record; task columns and all other records stand. */
  lemma FinalizeEffect(s: State, w: World, org: OrgId, user: UserId, id: SessionId, k: P.Key)
    requires FinalizeSession(s, w, org, user, id).Ok?
    ensures var s' := FinalizeSession(s, w, org, user, id).state;
            && s' == s.(sessions := s'.sessions, performance := s'.performance)
            && OthersStand(s.sessions, s'.sessions, id) && id in s'.sessions
            && s'.sessions[id].finalized && s'.sessions[id] == s.sessions[id].(finalized := true)
    ensures var x, after := s.sessions[id], FinalizeSession(s, w, org, user, id).state.performance;
            if k.0 == org && k.1 in x.scores then
              && k in after && after[k].reviewScore == x.scores[k.1].calibrated && after[k].lastCycle == Some(x.cycle)
              && P.Shown(after, k) == P.Shown(s.performance, k)
            else (k in after <==> k in s.performance) && (k in after ==> after[k] == s.performance[k])
  {
  }

  lemma CompleteIsAccepted(s: State, org: OrgId, id: CycleId, order: seq<SessionId>)
    requires Lists(order, set i | i in s.sessions && s.sessions[i].cycle == id && s.sessions[i].org == org &&
                   s.sessions[i].finalized)
    ensures CompleteCycle(s, org, id, order).Ok? <==>
              && id in s.cycles && s.cycles[id].org == org && s.cycles[id].status == Calibrating
              && forall i :: i in s.sessions && s.sessions[i].cycle == id && s.sessions[i].org == org ==>
                  s.sessions[i].finalized
    ensures var r := CompleteCycle(s, org, id, order);
            r.Ok? ==>
              && r.state == s.(cycles := r.state.cycles, performance := r.state.performance)
              && OthersStand(s.cycles, r.state.cycles, id) && id in r.state.cycles
              && r.state.cycles[id].status == Closed
              && r.state.cycles[id] == s.cycles[id].(status := Closed)
  {
    assert FinalizedSessions(s, org, id) ==
      set i | i in s.sessions && s.sessions[i].cycle == id && s.sessions[i].org == org && s.sessions[i].finalized;
  }

  lemma DepartmentDeletionEffect(s: State, d: DeptId, i: SessionId)
    ensures var s' := WithoutDepartment(s, d);
            && s' == s.(sessions := s'.sessions) && (i in s'.sessions <==> i in s.sessions)
            && (i in s.sessions ==>
                  && s'.sessions[i] == s.sessions[i].(department := s'.sessions[i].department)
                  && (s.sessions[i].department == Some(d) ==> s'.sessions[i].department == None)
                  && (s.sessions[i].department != Some(d) ==> s'.sessions[i].department == s.sessions[i].department))
  {
  }

  // ------------------------------------------------------------------ what an original score is

  lemma {:induction false} Draw(m: map<Slot, real>) returns (list: seq<real>, from: seq<Slot>)
    ensures Drawn(list, from, m)
    decreases |m|
  {
    if m == map[] {
      list, from := [], [];
    } else {
      var k :| k in m;
      Without(m, k);
      list, from := Draw(m - {k});
      DrawOneMore(list, from, m - {k}, k, m[k]);
      list, from := list + [m[k]], from + [k];
      assert (m - {k})[k := m[k]] == m;
    }
  }

  lemma DrawScores(s: State, org: OrgId, cycle: CycleId, u: UserId) returns (list: seq<real>, from: seq<Slot>)
    ensures Drawn(list, from, ScoresOf(s, org, cycle, u)) && |list| == |from| && Unique(from)
    ensures forall k :: k in from <==>
              && k in s.reviews && k.cycle == cycle && k.about == u && s.reviews[k].org == org
              && s.reviews[k].status == Submitted && s.reviews[k].score.Some?
    ensures forall n :: 0 <= n < |list| ==> from[n] in s.reviews && s.reviews[from[n]].score == Some(list[n])
  {
    var m := ScoresOf(s, org, cycle, u);
    list, from := Draw(m);
    assert forall k :: k in from <==> k in m.Keys;
  }

  lemma MeanHalfUp(m: map<Slot, real>, sum: real, n: nat) returns (hundredths: int)
    requires m != map[] && MapSum(m) == sum && |m| == n
    ensures n > 0 && Round2(MapMean(m)) * 100.0 == hundredths as real
    ensures IsRoundedMean(hundredths, sum, n)
  {
    HalfUp(sum, n);
    hundredths := Round(sum / n as real * 100.0);
  }

  lemma DrawnMean(list: seq<real>, from: seq<Slot>, m: map<Slot, real>) returns (hundredths: int)
    requires Drawn(list, from, m) && m != map[]
    ensures list != [] && Round2(MapMean(m)) * 100.0 == hundredths as real
    ensures IsRoundedMean(hundredths, Sum(list), |list|)
  {
    DrawnSum(list, from, m);
    hundredths := MeanHalfUp(m, Sum(list), |list|);
  }

  lemma OriginalIsMean(s: State, i: SessionId, u: UserId)
    requires Reachable(s) && i in s.sessions && u in s.sessions[i].scores
    ensures var m := ScoresOf(s, s.sessions[i].org, s.sessions[i].cycle, u);
            m != map[] && s.sessions[i].scores[u].original == Round2(MapMean(m))
  {
    ReachableKeeps(s);
    assert OriginalOk(s, s.sessions[i]);
  }

  /** The scores that count for a user, listed in any order, and their mean rounded half up to hundredths. */
  lemma OriginalScoreMeans(s: State, i: SessionId, u: UserId)
      returns (list: seq<real>, from: seq<Slot>, hundredths: int)
    requires Reachable(s) && i in s.sessions && u in s.sessions[i].scores
    ensures list != [] && |list| == |from| && Unique(from)
    ensures forall k :: k in from <==>
              && k in s.reviews && k.cycle == s.sessions[i].cycle && k.about == u
              && s.reviews[k].org == s.sessions[i].org
              && s.reviews[k].status == Submitted && s.reviews[k].score.Some?
    ensures forall n :: 0 <= n < |list| ==> from[n] in s.reviews && s.reviews[from[n]].score == Some(list[n])
    ensures s.sessions[i].scores[u].original * 100.0 == hundredths as real
    ensures IsRoundedMean(hundredths, Sum(list), |list|)
  {
    OriginalIsMean(s, i, u);
    list, from := DrawScores(s, s.sessions[i].org, s.sessions[i].cycle, u);
    hundredths := DrawnMean(list, from, ScoresOf(s, s.sessions[i].org, s.sessions[i].cycle, u));
  }
}
