/** What every request of the review cycle keeps.  Several requests never look at the cycle's status;
    the invariants say why they still cannot do harm. */
module ReviewInvariants {
  import opened Common
  import opened Arithmetic
  import opened Performance
  import opened ReviewModel
  import opened ReviewGeneration

  /** Cycles stay in their template's organization, and a cycle that left DRAFT holds its template's
      current sections. */
  ghost predicate CyclesOk(s: State) {
    forall c :: c in s.cycles ==>
      TemplateIn(s, s.cycles[c].template, s.cycles[c].org) &&
      (s.cycles[c].status != Draft ==> s.cycles[c].snapshot == Some(s.templates[s.cycles[c].template].sections))
  }

  predicate Calibrated(s: State, c: CycleId) {
    c in s.cycles && s.cycles[c].status in {Calibrating, Closed}
  }

  /** Nothing hangs on a DRAFT cycle; sessions only hang on cycles that reached calibration. */
  ghost predicate LinksOk(s: State) {
    && (forall k :: k in s.reviews ==> CycleIn(s, k.cycle, s.reviews[k].org) && s.cycles[k.cycle].status != Draft)
    && (forall k :: k in s.nominations ==>
          CycleIn(s, k.cycle, s.nominations[k].org) && s.cycles[k.cycle].status != Draft && k.about != k.author)
    && (forall i :: i in s.sessions ==>
          CycleIn(s, s.sessions[i].cycle, s.sessions[i].org) && Calibrated(s, s.sessions[i].cycle))
  }

  predicate ReviewOk(r: Review, snapshot: Option<Sections>) {
    if r.status == Submitted
    then r.responses.Some? && Check(snapshot, r.responses.value) == None && r.score == OverallScore(r.responses.value)
    else r.responses == None && r.score == None
  }

  /** A submitted review was accepted by the snapshot and carries the score of its responses. */
  ghost predicate ReviewsOk(s: State) {
    forall k :: k in s.reviews && k.cycle in s.cycles ==> ReviewOk(s.reviews[k], s.cycles[k.cycle].snapshot)
  }

  /** The approved nominations are the peer reviews. */
  ghost predicate PeersOk(s: State) {
    forall k :: (k in s.nominations && s.nominations[k].status == Approved) <==>
        (k in s.reviews && s.reviews[k].kind == PeerReview)
  }

  ghost predicate QuotaOk(s: State) {
    forall c, u :: |NominationsBy(s, c, u)| <= 3
  }

  /** A session has an entry for exactly the users of its scope with a score that counts, and the original
      score of each is the rounded mean of the scores that count. */
  ghost predicate OriginalOk(s: State, x: Session) {
    && (forall u :: u in x.scores <==> ScoresOf(s, x.org, x.cycle, u) != map[] && InScope(x, u))
    && (forall u :: u in x.scores ==> x.scores[u].original == Round2(MapMean(ScoresOf(s, x.org, x.cycle, u))))
  }

  ghost predicate OriginalsOk(s: State) {
    forall i :: i in s.sessions ==> OriginalOk(s, s.sessions[i])
  }

  predicate InScale(x: Option<real>) {
    x.Some? ==> 1.0 <= x.value <= 5.0
  }

  /** A closed cycle has only finalized sessions, a finalized session is fully decided, and every
      calibrated score is on the scale. */
  ghost predicate SessionsOk(s: State) {
    && (forall i ::
          i in s.sessions && s.sessions[i].cycle in s.cycles && s.cycles[s.sessions[i].cycle].status == Closed ==>
            s.sessions[i].finalized)
    && (forall i :: i in s.sessions && s.sessions[i].finalized ==> AllDecided(s.sessions[i].scores))
    && (forall i, u :: i in s.sessions && u in s.sessions[i].scores ==> InScale(s.sessions[i].scores[u].calibrated))
  }

  predicate RecordOk(s: State, r: Record, org: OrgId) {
    (r.reviewScore.Some? <==> r.lastCycle.Some?) && InScale(r.reviewScore) &&
    (r.lastCycle.Some? ==> CycleIn(s, r.lastCycle.value, org) && Calibrated(s, r.lastCycle.value))
  }

  /** Calibration columns are set together, on the scale, and name a calibrated cycle of the organization. */
  ghost predicate RecordsOk(s: State) {
    forall k :: k in s.performance ==> RecordOk(s, s.performance[k], k.0)
  }

  ghost predicate Inv(s: State) {
    CyclesOk(s) && LinksOk(s) && ReviewsOk(s) && PeersOk(s) && QuotaOk(s) && OriginalsOk(s) && SessionsOk(s) &&
        RecordsOk(s)
  }

  // ------------------------------------------------------------------ activation

  /** The rows an activation inserts: blank reviews of the cycle, none of them a peer review. */
  lemma ActivationRows(s: State, w: World, org: OrgId, id: CycleId, order: seq<UserId>, k: Slot)
    requires ActivateCycle(s, w, org, id, order).Ok?
    ensures var s' := ActivateCycle(s, w, org, id, order).state;
            if k in s.reviews then k in s'.reviews && s'.reviews[k] == s.reviews[k]
            else k in s'.reviews ==> k.cycle == id && IsInserted(s'.reviews[k], org)
  {
    var users := Eligible(w, org, s.cycles[id].excluded);
    var sup := Supervisors(w, org, users);
    var xs := Requested(w, org, s.cycles[id].excluded, order);
    SelfFirst(order, sup);
    InsertedRows(s.reviews, org, id, xs, k);
  }

  // ------------------------------------------------------------------ templates and cycles

  lemma TemplatesKeep(s: State, s': State)
    requires Inv(s) && CyclesOk(s') && s' == s.(templates := s'.templates)
    ensures Inv(s')
  {
    QuotaFrame(s, s');
    SessionsFrame(s, s');
    OriginalsFrame(s, s');
  }

  lemma QuotaFrame(s: State, s': State)
    requires QuotaOk(s) && s'.nominations.Keys == s.nominations.Keys
    ensures QuotaOk(s')
  {
    forall c, u ensures |NominationsBy(s', c, u)| <= 3 {
      assert NominationsBy(s', c, u) == NominationsBy(s, c, u);
    }
  }

  lemma SessionsFrame(s: State, s': State)
    requires SessionsOk(s) && RecordsOk(s)
    requires s'.cycles == s.cycles && s'.sessions == s.sessions && s'.performance == s.performance
    ensures SessionsOk(s') && RecordsOk(s')
  {
  }

  predicate Counts(s: State, k: Slot) {
    k in s.reviews && s.reviews[k].status == Submitted && s.reviews[k].score.Some?
  }

  /** The two states count the same reviews, with the same scores, in the cycle. */
  ghost predicate SameCounted(s: State, s': State, c: CycleId) {
    forall k: Slot :: k.cycle == c ==>
      (Counts(s, k) <==> Counts(s', k)) && (Counts(s, k) ==> s.reviews[k] == s'.reviews[k])
  }

  /** The same session as far as its users and their original scores go. */
  predicate SameOriginals(x: Session, y: Session) {
    && y.cycle == x.cycle && y.org == x.org && y.scope == x.scope && y.scores.Keys == x.scores.Keys
    && (forall u :: u in x.scores ==> y.scores[u].original == x.scores[u].original)
  }

  lemma OriginalFrame(s: State, s': State, x: Session, y: Session)
    requires OriginalOk(s, x) && SameOriginals(x, y) && SameCounted(s, s', x.cycle)
    ensures OriginalOk(s', y)
  {
    forall u ensures ScoresOf(s', y.org, y.cycle, u) == ScoresOf(s, x.org, x.cycle, u) {}
  }

  /** Original scores stand as long as the reviews that count for them stand. */
  lemma OriginalsFrame(s: State, s': State)
    requires OriginalsOk(s)
    requires forall i :: i in s'.sessions ==> i in s.sessions && SameOriginals(s.sessions[i], s'.sessions[i])
    requires forall i :: i in s'.sessions ==> SameCounted(s, s', s'.sessions[i].cycle)
    ensures OriginalsOk(s')
  {
    forall i | i in s'.sessions ensures OriginalOk(s', s'.sessions[i]) {
      assert SameCounted(s, s', s'.sessions[i].cycle);
      OriginalFrame(s, s', s.sessions[i], s'.sessions[i]);
    }
  }

  lemma CreateTemplateKeeps(s: State, w: World, org: OrgId, user: UserId, sections: Sections, id: TemplateId)
    requires Inv(s) && CreateTemplate(s, w, org, user, sections, id).Ok?
    ensures Inv(CreateTemplate(s, w, org, user, sections, id).state)
  {
    TemplatesKeep(s, CreateTemplate(s, w, org, user, sections, id).state);
  }

  lemma UpdateTemplateKeeps(s: State, org: OrgId, id: TemplateId, sections: Option<Sections>)
    requires Inv(s) && UpdateTemplate(s, org, id, sections).Ok?
    ensures Inv(UpdateTemplate(s, org, id, sections).state)
  {
    assert forall c :: c in s.cycles && s.cycles[c].template == id ==> UsedBy(s, org, id, c);
    TemplatesKeep(s, UpdateTemplate(s, org, id, sections).state);
  }

  lemma RemoveTemplateKeeps(s: State, org: OrgId, id: TemplateId)
    requires Inv(s) && RemoveTemplate(s, org, id).Ok?
    ensures Inv(RemoveTemplate(s, org, id).state)
  {
    assert forall c :: c in s.cycles && s.cycles[c].template == id ==> UsedBy(s, org, id, c);
    TemplatesKeep(s, RemoveTemplate(s, org, id).state);
  }

  /** Changing a cycle within its organization without taking back a status that others rely on. */
  predicate CycleMayBecome(s: State, id: CycleId, c: Cycle) {
    && TemplateIn(s, c.template, c.org) && (c.status != Draft ==> c.snapshot == Some(s.templates[c.template].sections))
    && (id in s.cycles ==> c.org == s.cycles[id].org)
    && (id in s.cycles && s.cycles[id].status != Draft ==> c.snapshot == s.cycles[id].snapshot && c.status != Draft)
    && (Calibrated(s, id) ==> c.status in {Calibrating, Closed})
  }

  lemma CycleKeepsLinks(s: State, id: CycleId, c: Cycle)
    requires LinksOk(s) && CycleMayBecome(s, id, c)
    ensures LinksOk(SetCycle(s, id, c))
  {
  }

  lemma CycleKeepsReviews(s: State, id: CycleId, c: Cycle)
    requires ReviewsOk(s) && LinksOk(s) && CycleMayBecome(s, id, c)
    ensures ReviewsOk(SetCycle(s, id, c))
  {
  }

  lemma CycleKeepsRecords(s: State, id: CycleId, c: Cycle)
    requires RecordsOk(s) && CycleMayBecome(s, id, c)
    ensures RecordsOk(SetCycle(s, id, c))
  {
  }

  lemma CycleKeeps(s: State, id: CycleId, c: Cycle)
    requires Inv(s) && CycleMayBecome(s, id, c)
    requires c.status == Closed ==> forall i :: i in s.sessions && s.sessions[i].cycle == id ==> s.sessions[i].finalized
    ensures Inv(SetCycle(s, id, c))
  {
    var s' := SetCycle(s, id, c);
    CycleKeepsLinks(s, id, c);
    CycleKeepsReviews(s, id, c);
    CycleKeepsRecords(s, id, c);
    QuotaFrame(s, s');
    OriginalsFrame(s, s');
  }

  /** Deleting a DRAFT cycle removes that one row: no review, nomination, session or performance record
      hangs on it. */
  lemma RemovalDestroysNothing(s: State, org: OrgId, id: CycleId)
    requires Inv(s) && RemoveCycle(s, org, id).Ok?
    ensures RemoveCycle(s, org, id).state == s.(cycles := s.cycles - {id})
  {
    var s' := WithoutCycle(s, id);
    assert s'.reviews == s.reviews;
    assert s'.nominations == s.nominations;
    assert s'.sessions == s.sessions;
    assert forall k :: k in s.performance ==> RecordOk(s, s.performance[k], k.0);
    assert s'.performance == s.performance;
  }

  lemma FewerCyclesKeepLinks(s: State, id: CycleId)
    requires LinksOk(s) && ReviewsOk(s) && id in s.cycles && s.cycles[id].status == Draft
    ensures LinksOk(s.(cycles := s.cycles - {id})) && ReviewsOk(s.(cycles := s.cycles - {id}))
  {
  }

  lemma FewerCyclesKeepRecords(s: State, id: CycleId)
    requires RecordsOk(s) && SessionsOk(s) && id in s.cycles && s.cycles[id].status == Draft
    ensures RecordsOk(s.(cycles := s.cycles - {id})) && SessionsOk(s.(cycles := s.cycles - {id}))
  {
  }

  lemma FewerCyclesKeep(s: State, id: CycleId)
    requires Inv(s) && id in s.cycles && s.cycles[id].status == Draft
    ensures Inv(s.(cycles := s.cycles - {id}))
  {
    var s' := s.(cycles := s.cycles - {id});
    FewerCyclesKeepLinks(s, id);
    FewerCyclesKeepRecords(s, id);
    QuotaFrame(s, s');
    OriginalsFrame(s, s');
  }

  lemma CreateCycleKeeps(s: State, w: World, org: OrgId, user: UserId, template: TemplateId, start: Time, end: Time,
                         excluded: set<UserId>, id: CycleId)
    requires Inv(s) && CreateCycle(s, w, org, user, template, start, end, excluded, id).Ok?
    ensures Inv(CreateCycle(s, w, org, user, template, start, end, excluded, id).state)
  {
    CycleKeeps(s, id, Cycle(org, template, Draft, None, excluded, end));
  }

  lemma UpdateCycleKeeps(s: State, org: OrgId, id: CycleId, template: Option<TemplateId>, start: Option<Time>,
                         end: Option<Time>, excluded: Option<set<UserId>>)
    requires Inv(s) && UpdateCycle(s, org, id, template, start, end, excluded).Ok?
    ensures Inv(UpdateCycle(s, org, id, template, start, end, excluded).state)
  {
    CycleKeeps(s, id, UpdateCycle(s, org, id, template, start, end, excluded).state.cycles[id]);
  }

  lemma CalibratingKeeps(s: State, org: OrgId, id: CycleId)
    requires Inv(s) && TransitionToCalibrating(s, org, id).Ok?
    ensures Inv(TransitionToCalibrating(s, org, id).state)
  {
    CycleKeeps(s, id, s.cycles[id].(status := Calibrating));
  }

  lemma RemoveCycleKeeps(s: State, org: OrgId, id: CycleId)
    requires Inv(s) && RemoveCycle(s, org, id).Ok?
    ensures Inv(RemoveCycle(s, org, id).state)
  {
    RemovalDestroysNothing(s, org, id);
    FewerCyclesKeep(s, id);
  }

  // ------------------------------------------------------------------ reviews

  /** A change of the review table that leaves kinds, organizations and the counted reviews of every
      calibrated cycle alone, and adds blank reviews at most to cycles that left DRAFT. */
  ghost predicate ReviewsMayBecome(s: State, reviews: map<Slot, Review>) {
    && (forall k :: k in s.reviews ==>
          k in reviews && reviews[k].kind == s.reviews[k].kind && reviews[k].org == s.reviews[k].org)
    && (forall k :: k in reviews && k !in s.reviews ==>
          IsInserted(reviews[k], reviews[k].org) && CycleIn(s, k.cycle, reviews[k].org) &&
              s.cycles[k.cycle].status != Draft)
    && (forall k :: k in s.reviews && Calibrated(s, k.cycle) ==> reviews[k] == s.reviews[k])
    && (forall k :: k in reviews && k.cycle in s.cycles ==> ReviewOk(reviews[k], s.cycles[k.cycle].snapshot))
  }

  lemma ReviewsKeepLinks(s: State, reviews: map<Slot, Review>)
    requires LinksOk(s) && ReviewsMayBecome(s, reviews)
    ensures LinksOk(s.(reviews := reviews)) && ReviewsOk(s.(reviews := reviews))
  {
    var s' := s.(reviews := reviews);
    forall k | k in s'.reviews ensures CycleIn(s', k.cycle, s'.reviews[k].org) && s'.cycles[k.cycle].status != Draft {}
  }

  lemma ReviewsKeepPeers(s: State, reviews: map<Slot, Review>)
    requires PeersOk(s) && ReviewsMayBecome(s, reviews)
    ensures PeersOk(s.(reviews := reviews))
  {
    forall k ensures k in reviews && reviews[k].kind == PeerReview <==>
        k in s.reviews && s.reviews[k].kind == PeerReview {}
  }

  lemma ReviewsKeepOriginals(s: State, reviews: map<Slot, Review>)
    requires OriginalsOk(s) && LinksOk(s) && ReviewsMayBecome(s, reviews)
    ensures OriginalsOk(s.(reviews := reviews))
  {
    var s' := s.(reviews := reviews);
    forall i | i in s'.sessions ensures SameCounted(s, s', s'.sessions[i].cycle) {
      assert Calibrated(s, s.sessions[i].cycle);
    }
    OriginalsFrame(s, s');
  }

  lemma ReviewsKeep(s: State, reviews: map<Slot, Review>)
    requires Inv(s) && ReviewsMayBecome(s, reviews)
    ensures Inv(s.(reviews := reviews))
  {
    var s' := s.(reviews := reviews);
    ReviewsKeepLinks(s, reviews);
    ReviewsKeepPeers(s, reviews);
    ReviewsKeepOriginals(s, reviews);
    QuotaFrame(s, s');
    SessionsFrame(s, s');
  }

  lemma SubmitKeeps(s: State, org: OrgId, user: UserId, k: Slot, rs: Responses)
    requires Inv(s) && SubmitReview(s, org, user, k, rs).Ok?
    ensures Inv(SubmitReview(s, org, user, k, rs).state)
  {
    ReviewsKeep(s, SubmitReview(s, org, user, k, rs).state.reviews);
  }

  lemma CronIsAChange(s: State, now: Time)
    requires LinksOk(s) && ReviewsOk(s)
    ensures ReviewsMayBecome(s, MarkOverdueReviews(s, now).reviews)
  {
  }

  lemma CronKeeps(s: State, now: Time)
    requires Inv(s)
    ensures Inv(MarkOverdueReviews(s, now))
  {
    CronIsAChange(s, now);
    ReviewsKeep(s, MarkOverdueReviews(s, now).reviews);
  }

  /** An activation adds blank reviews of its cycle and leaves the others alone. */
  ghost predicate AddsBlanks(s: State, reviews: map<Slot, Review>, org: OrgId, id: CycleId) {
    && (forall k :: k in s.reviews ==> k in reviews && reviews[k] == s.reviews[k])
    && (forall k :: k in reviews && k !in s.reviews ==> k.cycle == id && IsInserted(reviews[k], org))
  }

  lemma ActivationAddsBlanks(s: State, w: World, org: OrgId, id: CycleId, order: seq<UserId>)
    requires ActivateCycle(s, w, org, id, order).Ok?
    ensures AddsBlanks(s, ActivateCycle(s, w, org, id, order).state.reviews, org, id)
  {
    var s' := ActivateCycle(s, w, org, id, order).state;
    forall k | k in s.reviews || k in s'.reviews
      ensures if k in s.reviews then k in s'.reviews && s'.reviews[k] == s.reviews[k]
          else k.cycle == id && IsInserted(s'.reviews[k], org)
    {
      ActivationRows(s, w, org, id, order, k);
    }
  }

  lemma BlanksAreAChange(s: State, reviews: map<Slot, Review>, org: OrgId, id: CycleId)
    requires ReviewsOk(s) && LinksOk(s) && AddsBlanks(s, reviews, org, id)
    requires CycleIn(s, id, org) && s.cycles[id].status != Draft
    ensures ReviewsMayBecome(s, reviews)
  {
  }

  lemma BlanksKeep(s: State, c: Cycle, reviews: map<Slot, Review>, org: OrgId, id: CycleId)
    requires Inv(s) && CycleIn(s, id, org) && CycleMayBecome(s, id, c) && c.org == org && c.status == Active
    requires AddsBlanks(s, reviews, org, id)
    ensures Inv(SetCycle(s, id, c).(reviews := reviews))
  {
    CycleKeeps(s, id, c);
    BlanksAreAChange(SetCycle(s, id, c), reviews, org, id);
    ReviewsKeep(SetCycle(s, id, c), reviews);
  }

  lemma ActivateKeeps(s: State, w: World, org: OrgId, id: CycleId, order: seq<UserId>)
    requires Inv(s) && ActivateCycle(s, w, org, id, order).Ok?
    ensures Inv(ActivateCycle(s, w, org, id, order).state)
  {
    var s' := ActivateCycle(s, w, org, id, order).state;
    ActivationAddsBlanks(s, w, org, id, order);
    BlanksKeep(s, s'.cycles[id], s'.reviews, org, id);
  }

  // ------------------------------------------------------------------ nominations

  lemma {:induction false} SlotsSize(cycle: CycleId, user: UserId, nominees: seq<UserId>)
    ensures |Slots(cycle, user, nominees)| <= |nominees|
  {
    if nominees == [] {
      assert Slots(cycle, user, nominees) == {};
    } else {
      SlotsSize(cycle, user, nominees[1..]);
      assert Slots(cycle, user, nominees) == Slots(cycle, user, nominees[1..]) + {Slot(cycle, user, nominees[0])};
    }
  }

  /** The nominations that a request adds. */
  predicate AddsNominations(s: State, s': State, org: OrgId, cycle: CycleId, user: UserId, nominees: seq<UserId>) {
    && s' == s.(nominations := s'.nominations)
    && (forall k :: k in s.nominations ==> k in s'.nominations && s'.nominations[k] == s.nominations[k])
    && (forall k :: k in s'.nominations && k !in s.nominations ==>
        k in Slots(cycle, user, nominees) && s'.nominations[k] == Nomination(org, Proposed))
  }

  lemma NominationsAdded(s: State, w: World, org: OrgId, user: UserId, cycle: CycleId, nominees: seq<UserId>)
    requires CreateNominations(s, w, org, user, cycle, nominees).Ok?
    ensures AddsNominations(s, CreateNominations(s, w, org, user, cycle, nominees).state, org, cycle, user, nominees)
  {
  }

  lemma QuotaAfter(s: State, s': State, org: OrgId, cycle: CycleId, user: UserId, nominees: seq<UserId>, c: CycleId,
                   u: UserId)
    requires AddsNominations(s, s', org, cycle, user, nominees)
    requires |NominationsBy(s, cycle, user)| + |nominees| <= 3 && |NominationsBy(s, c, u)| <= 3
    ensures |NominationsBy(s', c, u)| <= 3
  {
    if c == cycle && u == user {
      SlotsSize(cycle, user, nominees);
      var both := NominationsBy(s, c, u) + Slots(cycle, user, nominees);
      assert NominationsBy(s', c, u) <= both;
      SubsetSize(NominationsBy(s', c, u), both);
    } else {
      assert NominationsBy(s', c, u) == NominationsBy(s, c, u);
    }
  }

  lemma SubsetSize(a: set<Slot>, b: set<Slot>)
    requires a <= b
    ensures |a| <= |b|
  {
    assert b == a + (b - a);
    assert |b| == |a| + |b - a|;
  }

  lemma NominateKeeps(s: State, w: World, org: OrgId, user: UserId, cycle: CycleId, nominees: seq<UserId>)
    requires Inv(s) && CreateNominations(s, w, org, user, cycle, nominees).Ok?
    ensures Inv(CreateNominations(s, w, org, user, cycle, nominees).state)
  {
    var s' := CreateNominations(s, w, org, user, cycle, nominees).state;
    NominationsAdded(s, w, org, user, cycle, nominees);
    forall c, u ensures |NominationsBy(s', c, u)| <= 3 { QuotaAfter(s, s', org, cycle, user, nominees, c, u); }
    AddedKeep(s, s', org, cycle, user, nominees);
    OriginalsFrame(s, s');
  }

  lemma AddedKeep(s: State, s': State, org: OrgId, cycle: CycleId, user: UserId, nominees: seq<UserId>)
    requires AddsNominations(s, s', org, cycle, user, nominees) && LinksOk(s) && PeersOk(s)
    requires CycleIn(s, cycle, org) && s.cycles[cycle].status != Draft && user !in nominees
    ensures LinksOk(s') && PeersOk(s')
  {
  }

  lemma ApproveKeepsLinks(s: State, org: OrgId, k: Slot)
    requires LinksOk(s) && ApproveNomination(s, org, k).Ok?
    ensures LinksOk(ApproveNomination(s, org, k).state)
  {
  }

  lemma ApproveKeepsReviews(s: State, org: OrgId, k: Slot)
    requires ReviewsOk(s) && ApproveNomination(s, org, k).Ok?
    ensures ReviewsOk(ApproveNomination(s, org, k).state)
  {
  }

  lemma ApproveKeepsPeers(s: State, org: OrgId, k: Slot)
    requires PeersOk(s) && ApproveNomination(s, org, k).Ok?
    ensures PeersOk(ApproveNomination(s, org, k).state)
  {
  }

  lemma ApproveKeepsOriginals(s: State, org: OrgId, k: Slot)
    requires OriginalsOk(s) && ApproveNomination(s, org, k).Ok?
    ensures OriginalsOk(ApproveNomination(s, org, k).state)
  {
    var s' := ApproveNomination(s, org, k).state;
    forall c ensures SameCounted(s, s', c) {}
    OriginalsFrame(s, s');
  }

  lemma ApproveKeeps(s: State, org: OrgId, k: Slot)
    requires Inv(s) && ApproveNomination(s, org, k).Ok?
    ensures Inv(ApproveNomination(s, org, k).state)
  {
    var s' := ApproveNomination(s, org, k).state;
    ApproveKeepsLinks(s, org, k);
    ApproveKeepsReviews(s, org, k);
    ApproveKeepsPeers(s, org, k);
    ApproveKeepsOriginals(s, org, k);
    QuotaFrame(s, s');
    SessionsFrame(s, s');
  }

  lemma RejectKeepsLinks(s: State, org: OrgId, k: Slot)
    requires LinksOk(s) && PeersOk(s) && RejectNomination(s, org, k).Ok?
    ensures LinksOk(RejectNomination(s, org, k).state) && PeersOk(RejectNomination(s, org, k).state)
  {
  }

  lemma RejectKeeps(s: State, org: OrgId, k: Slot)
    requires Inv(s) && RejectNomination(s, org, k).Ok?
    ensures Inv(RejectNomination(s, org, k).state)
  {
    var s' := RejectNomination(s, org, k).state;
    RejectKeepsLinks(s, org, k);
    QuotaFrame(s, s');
    SessionsFrame(s, s');
    OriginalsFrame(s, s');
  }

  // ------------------------------------------------------------------ calibration

  lemma NewSessionOk(s: State, w: World, org: OrgId, user: UserId, cycle: CycleId, department: Option<DeptId>)
    ensures var users := SessionUsers(s, w, org, cycle, department);
            OriginalOk(s, Session(cycle, org, department, user, OriginalScores(s, org, cycle, users), false,
                                  ScopeOf(w, org, department)))
  {
    var users := SessionUsers(s, w, org, cycle, department);
    var x := Session(cycle, org, department, user, OriginalScores(s, org, cycle, users), false,
                     ScopeOf(w, org, department));
    forall u | ScoresOf(s, org, cycle, u) != map[] && InScope(x, u) ensures u in users {
      var k :| k in ScoresOf(s, org, cycle, u);
    }
    forall u | u in users ensures InScope(x, u) {
      if department.Some? { assert (org, u) in w.profiles; }
    }
  }

  lemma CreateSessionKeepsOriginals(s: State, w: World, org: OrgId, user: UserId, cycle: CycleId,
                                    department: Option<DeptId>, id: SessionId)
    requires OriginalsOk(s) && CreateSession(s, w, org, user, cycle, department, id).Ok?
    ensures OriginalsOk(CreateSession(s, w, org, user, cycle, department, id).state)
  {
    var s' := CreateSession(s, w, org, user, cycle, department, id).state;
    NewSessionOk(s, w, org, user, cycle, department);
    forall i | i in s'.sessions ensures OriginalOk(s', s'.sessions[i]) {
      OriginalFrame(s, s', s'.sessions[i], s'.sessions[i]);
    }
  }

  lemma CreateSessionKeepsSessions(s: State, w: World, org: OrgId, user: UserId, cycle: CycleId,
                                   department: Option<DeptId>, id: SessionId)
    requires LinksOk(s) && SessionsOk(s) && RecordsOk(s) && CreateSession(s, w, org, user, cycle, department, id).Ok?
    ensures var s' := CreateSession(s, w, org, user, cycle, department, id).state;
            LinksOk(s') && SessionsOk(s') && RecordsOk(s')
  {
    var s' := CreateSession(s, w, org, user, cycle, department, id).state;
    assert s'.sessions[id].scores == OriginalScores(s, org, cycle, SessionUsers(s, w, org, cycle, department));
  }

  lemma CreateSessionKeeps(s: State, w: World, org: OrgId, user: UserId, cycle: CycleId, department: Option<DeptId>,
                           id: SessionId)
    requires Inv(s) && CreateSession(s, w, org, user, cycle, department, id).Ok?
    ensures Inv(CreateSession(s, w, org, user, cycle, department, id).state)
  {
    var s' := CreateSession(s, w, org, user, cycle, department, id).state;
    CreateSessionKeepsOriginals(s, w, org, user, cycle, department, id);
    CreateSessionKeepsSessions(s, w, org, user, cycle, department, id);
    QuotaFrame(s, s');
  }

  /** Nobody but finalization closes a session, and nothing ever reopens one or changes its originals. */
  predicate SessionMayBecome(x: Session, y: Session) {
    && SameOriginals(x, y) && (forall u :: u in y.scores ==> InScale(y.scores[u].calibrated))
    && (x.finalized ==> y.finalized) && (y.finalized ==> AllDecided(y.scores))
  }

  lemma SessionKeeps(s: State, id: SessionId, y: Session)
    requires Inv(s) && id in s.sessions && SessionMayBecome(s.sessions[id], y)
    ensures Inv(s.(sessions := s.sessions[id := y]))
  {
    var s' := s.(sessions := s.sessions[id := y]);
    SessionKeepsSessions(s, id, y);
    QuotaFrame(s, s');
    forall c ensures SameCounted(s, s', c) {}
    OriginalsFrame(s, s');
  }

  lemma SessionKeepsSessions(s: State, id: SessionId, y: Session)
    requires SessionsOk(s) && LinksOk(s) && RecordsOk(s) && id in s.sessions && SessionMayBecome(s.sessions[id], y)
    ensures var s' := s.(sessions := s.sessions[id := y]); SessionsOk(s') && LinksOk(s') && RecordsOk(s')
  {
  }

  lemma AdjustIsAChange(s: State, w: World, org: OrgId, user: UserId, id: SessionId, target: UserId, score: real,
                        note: Option<string>)
    requires SessionsOk(s) && 1.0 <= score <= 5.0 && AdjustScore(s, w, org, user, id, target, score, note).Ok?
    ensures SessionMayBecome(s.sessions[id], AdjustScore(s, w, org, user, id, target, score, note).state.sessions[id])
  {
  }

  lemma AdjustKeeps(s: State, w: World, org: OrgId, user: UserId, id: SessionId, target: UserId, score: real,
                    note: Option<string>)
    requires Inv(s) && 1.0 <= score <= 5.0 && AdjustScore(s, w, org, user, id, target, score, note).Ok?
    ensures Inv(AdjustScore(s, w, org, user, id, target, score, note).state)
  {
    AdjustIsAChange(s, w, org, user, id, target, score, note);
    SessionKeeps(s, id, AdjustScore(s, w, org, user, id, target, score, note).state.sessions[id]);
  }

  /** Writing decided scores of a calibrated cycle keeps every record in order. */
  lemma WritesKeepRecords(s: State, records: Records, org: OrgId, cycle: CycleId, scores: map<UserId, Entry>)
    requires forall k :: k in records ==> RecordOk(s, records[k], k.0)
    requires CycleIn(s, cycle, org) && Calibrated(s, cycle) && AllDecided(scores)
    requires forall u :: u in scores ==> InScale(scores[u].calibrated)
    ensures var after := WriteScores(records, org, cycle, scores); forall k :: k in after ==> RecordOk(s, after[k], k.0)
  {
    var after := WriteScores(records, org, cycle, scores);
    forall k | k in after ensures RecordOk(s, after[k], k.0) {
      if k.0 == org && k.1 in scores { assert Decided(scores[k.1]); }
    }
  }

  lemma PerformanceKeeps(s: State, records: Records)
    requires Inv(s) && forall k :: k in records ==> RecordOk(s, records[k], k.0)
    ensures Inv(s.(performance := records))
  {
    var s' := s.(performance := records);
    QuotaFrame(s, s');
    forall c ensures SameCounted(s, s', c) {}
    OriginalsFrame(s, s');
  }

  lemma FinalizeKeeps(s: State, w: World, org: OrgId, user: UserId, id: SessionId)
    requires Inv(s) && FinalizeSession(s, w, org, user, id).Ok?
    ensures Inv(FinalizeSession(s, w, org, user, id).state)
  {
    var x := s.sessions[id];
    WritesKeepRecords(s, s.performance, org, x.cycle, x.scores);
    PerformanceKeeps(s, WriteScores(s.performance, org, x.cycle, x.scores));
    SessionKeeps(s.(performance := WriteScores(s.performance, org, x.cycle, x.scores)), id, x.(finalized := true));
  }

  lemma {:induction false} CompletionKeepsRecords(s: State, org: OrgId, id: CycleId, order: seq<SessionId>)
    requires RecordsOk(s) && SessionsOk(s) && CycleIn(s, id, org) && Calibrated(s, id)
    requires forall i :: i in order ==> i in s.sessions && s.sessions[i].finalized
    ensures var after := WriteSessions(s, org, id, order); forall k :: k in after ==> RecordOk(s, after[k], k.0)
  {
    if order != [] {
      var front, last := order[..|order| - 1], order[|order| - 1];
      assert last in order && forall i :: i in front ==> i in order;
      CompletionKeepsRecords(s, org, id, front);
      WritesKeepRecords(s, WriteSessions(s, org, id, front), org, id, s.sessions[last].scores);
    }
  }

  lemma CompleteKeeps(s: State, org: OrgId, id: CycleId, order: seq<SessionId>)
    requires Inv(s) && CompleteCycle(s, org, id, order).Ok?
    ensures Inv(CompleteCycle(s, org, id, order).state)
  {
    var mid := s.(performance := WriteSessions(s, org, id, order));
    CompletionKeepsRecords(s, org, id, order);
    PerformanceKeeps(s, WriteSessions(s, org, id, order));
    CycleKeeps(mid, id, s.cycles[id].(status := Closed));
  }

  // ------------------------------------------------------------------ writes of other services

  lemma DepartmentKeepsSessions(s: State, d: DeptId)
    requires SessionsOk(s) && LinksOk(s) && RecordsOk(s)
    ensures var s' := WithoutDepartment(s, d); SessionsOk(s') && LinksOk(s') && RecordsOk(s')
  {
  }

  lemma DepartmentKeeps(s: State, d: DeptId)
    requires Inv(s)
    ensures Inv(WithoutDepartment(s, d))
  {
    var s' := WithoutDepartment(s, d);
    DepartmentKeepsSessions(s, d);
    QuotaFrame(s, s');
    forall c ensures SameCounted(s, s', c) {}
    OriginalsFrame(s, s');
  }

  lemma RecalculationKeeps(s: State, k: Key, metrics: Metrics)
    requires Inv(s)
    ensures Inv(s.(performance := Recalculated(s.performance, k, metrics)))
  {
    PerformanceKeeps(s, Recalculated(s.performance, k, metrics));
  }

  // ------------------------------------------------------------------ every request, every run

  /** The requests about templates and about the course of a cycle. */
  predicate IsSetup(r: Request) {
    r.NewTemplate? || r.EditTemplate? || r.DeleteTemplate? || r.NewCycle? || r.EditCycle? || r.DeleteCycle? ||
    r.Activate? || r.Calibrate? || r.Complete?
  }

  lemma SetupKeeps(s: State, r: Request)
    requires Inv(s) && IsSetup(r) && Handle(s, r).Ok?
    ensures Inv(After(s, r))
  {
    match r
    case NewTemplate(w, org, user, sections, id) => CreateTemplateKeeps(s, w, org, user, sections, id);
    case EditTemplate(org, id, sections) => UpdateTemplateKeeps(s, org, id, sections);
    case DeleteTemplate(org, id) => RemoveTemplateKeeps(s, org, id);
    case NewCycle(w, org, user, template, start, end, excluded, id) =>
        CreateCycleKeeps(s, w, org, user, template, start, end, excluded, id);
    case EditCycle(org, id, template, start, end, excluded) =>
        UpdateCycleKeeps(s, org, id, template, start, end, excluded);
    case DeleteCycle(org, id) => RemoveCycleKeeps(s, org, id);
    case Activate(w, org, id, users) => ActivateKeeps(s, w, org, id, users);
    case Calibrate(org, id) => CalibratingKeeps(s, org, id);
    case Complete(org, id, order) => CompleteKeeps(s, org, id, order);
    case _ =>
  }

  lemma StepKeeps(s: State, r: Request)
    requires Inv(s)
    ensures Inv(After(s, r))
  {
    if Handle(s, r).Err? { return; }
    match r
    case Submit(org, user, k, rs) => SubmitKeeps(s, org, user, k, rs);
    case Nominate(w, org, user, id, nominees) => NominateKeeps(s, w, org, user, id, nominees);
    case Approve(org, k) => ApproveKeeps(s, org, k);
    case Reject(org, k) => RejectKeeps(s, org, k);
    case OpenSession(w, org, user, id, department, session) =>
        CreateSessionKeeps(s, w, org, user, id, department, session);
    case Adjust(w, org, user, id, target, score, note) => AdjustKeeps(s, w, org, user, id, target, score, note);
    case Finalize(w, org, user, id) => FinalizeKeeps(s, w, org, user, id);
    case Cron(now) => CronKeeps(s, now);
    case DeleteDepartment(d) => DepartmentKeeps(s, d);
    case Recalculate(k, metrics) => RecalculationKeeps(s, k, metrics);
    case _ => SetupKeeps(s, r);
  }

  lemma {:induction false} RunsKeep(states: seq<State>, rs: seq<Request>, n: nat)
    requires IsRun(states, rs) && n <= |rs|
    ensures Inv(states[n])
  {
    if n == 0 {
      assert forall c, u :: NominationsBy(EMPTY, c, u) == {};
    } else {
      RunsKeep(states, rs, n - 1);
      StepKeeps(states[n - 1], rs[n - 1]);
    }
  }

  /** Every reachable state satisfies the invariant. */
  lemma ReachableKeeps(s: State)
    requires Reachable(s)
    ensures Inv(s)
  {
    var states, rs :| IsRun(states, rs) && states[|rs|] == s;
    RunsKeep(states, rs, |rs|);
  }
}
