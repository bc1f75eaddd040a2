/** The 360-degree review cycle (src/modules/review/review.service.ts): templates, cycles, reviews,
    nominations, calibration sessions and the calibration columns of the performance table, with every
    request as one atomic step. */
module ReviewModel {
  import opened Common
  import opened Arithmetic
  import opened Performance

  type TemplateId = nat
  type SessionId = nat
  type QuestionId = nat

  datatype Question = Question(id: QuestionId, isRating: bool)

  /** The sections of a template, each with its questions. */
  type Sections = seq<seq<Question>>

  datatype Template = Template(org: OrgId, sections: Sections)

  datatype CycleStatus = Draft | Active | Calibrating | Closed

  datatype Cycle = Cycle(
    org: OrgId, template: TemplateId, status: CycleStatus, snapshot: Option<Sections>, excluded: set<UserId>,
        endDate: Time)

  /** The natural key of reviews and of nominations, by their unique constraints.  A review is about its
      reviewee, by its reviewer; a nomination asks for a review about the nominator by the nominee. */
  datatype Slot = Slot(cycle: CycleId, about: UserId, author: UserId)

  datatype ReviewType = SelfReview | ManagerReview | PeerReview | UpwardReview
  datatype ReviewStatus = Pending | Submitted | Late

  datatype Value = Number(n: real) | Words

  /** One response: the question it names, its value, and whether the sender labelled it a rating. */
  datatype Answer = Answer(question: QuestionId, value: Value, labelled: bool)

  predicate OnePerQuestion(rs: seq<Answer>) {
    forall i, j :: 0 <= i < j < |rs| ==> rs[i].question != rs[j].question
  }

  /** A JSON object of responses: one per question id, in the order they were sent. */
  type Responses = rs: seq<Answer> | OnePerQuestion(rs) witness []

  datatype Review = Review(org: OrgId, kind: ReviewType, status: ReviewStatus, responses: Option<Responses>,
                           score: Option<real>)

  datatype NominationStatus = Proposed | Approved | Rejected
  datatype Nomination = Nomination(org: OrgId, status: NominationStatus)

  datatype Entry = Entry(original: real, calibrated: Option<real>, note: Option<string>)

  /** `scope` is no column: it records whom the session was opened for, the whole organization or the members
      its department had then.  The department column cannot tell once the department has been deleted. */
  datatype Session = Session(
    cycle: CycleId, org: OrgId, department: Option<DeptId>, facilitator: UserId, scores: map<UserId, Entry>,
        finalized: bool,
    scope: Option<set<UserId>>)

  datatype State = State(
    templates: map<TemplateId, Template>, cycles: map<CycleId, Cycle>, reviews: map<Slot, Review>,
    nominations: map<Slot, Nomination>, sessions: map<SessionId, Session>, performance: Records)

  const EMPTY := State(map[], map[], map[], map[], map[], map[])

  datatype Profile = Profile(supervisor: Option<UserId>, department: Option<DeptId>, active: bool)

  /** The rows a request reads from tables it does not own. */
  datatype World = World(
    users: set<UserId>, departments: set<DeptId>, roles: map<(OrgId, UserId), Role>,
        profiles: map<(OrgId, UserId), Profile>)

  datatype ReviewError =
    | NotMember | NoSuchTemplate | TemplateInUse | BadDates | NoSuchCycle | NotDraft | WrongStatus | NoSuchReview
    | NotReviewer | AlreadySubmitted | NeedsNumber | OutOfScale | SelfNomination | TooManyNominations |
        DuplicateNomination
    | NoSuchNomination | NotPending | NoSuchSession | NotFacilitator | SessionFinalized | NotInSession | MissingScores
    | UnfinalizedSessions | UniqueViolation | DeadReference | InvalidRequest

  type Answered = Reply<State, ReviewError>

  predicate TemplateIn(s: State, id: TemplateId, org: OrgId) { id in s.templates && s.templates[id].org == org }
  predicate CycleIn(s: State, id: CycleId, org: OrgId) { id in s.cycles && s.cycles[id].org == org }
  predicate ReviewIn(s: State, k: Slot, org: OrgId) { k in s.reviews && s.reviews[k].org == org }
  predicate NominationIn(s: State, k: Slot, org: OrgId) { k in s.nominations && s.nominations[k].org == org }
  predicate SessionIn(s: State, id: SessionId, org: OrgId) { id in s.sessions && s.sessions[id].org == org }

  // ------------------------------------------------------------------ templates

  function CreateTemplate(s: State, w: World, org: OrgId, user: UserId, sections: Sections, id: TemplateId): Answered {
    if (org, user) !in w.roles then Err(NotMember)
    else if id in s.templates then Err(UniqueViolation)
    else Ok(s.(templates := s.templates[id := Template(org, sections)]))
  }

  predicate UsedBy(s: State, org: OrgId, id: TemplateId, c: CycleId) {
    CycleIn(s, c, org) && s.cycles[c].template == id
  }

  function UpdateTemplate(s: State, org: OrgId, id: TemplateId, sections: Option<Sections>): Answered {
    if !TemplateIn(s, id, org) then Err(NoSuchTemplate)
    else if exists c :: c in s.cycles && UsedBy(s, org, id, c) && s.cycles[c].status != Draft then Err(TemplateInUse)
    else if sections == None then Ok(s)
    else Ok(s.(templates := s.templates[id := s.templates[id].(sections := sections.value)]))
  }

  function RemoveTemplate(s: State, org: OrgId, id: TemplateId): Answered {
    if !TemplateIn(s, id, org) then Err(NoSuchTemplate)
    else if exists c :: c in s.cycles && UsedBy(s, org, id, c) then Err(TemplateInUse)
    else Ok(s.(templates := s.templates - {id}))
  }

  // ------------------------------------------------------------------ cycles

  function CreateCycle(s: State, w: World, org: OrgId, user: UserId, template: TemplateId, start: Time, end: Time,
                       excluded: set<UserId>, id: CycleId): Answered {
    if (org, user) !in w.roles then Err(NotMember)
    else if end <= start then Err(BadDates)
    else if !TemplateIn(s, template, org) then Err(NoSuchTemplate)
    else if id in s.cycles then Err(UniqueViolation)
    else Ok(s.(cycles := s.cycles[id := Cycle(org, template, Draft, None, excluded, end)]))
  }

  function UpdateCycle(s: State, org: OrgId, id: CycleId, template: Option<TemplateId>, start: Option<Time>,
                       end: Option<Time>, excluded: Option<set<UserId>>): Answered {
    if !CycleIn(s, id, org) then Err(NoSuchCycle)
    else if s.cycles[id].status != Draft then Err(NotDraft)
    else if start.Some? && end.Some? && end.value <= start.value then Err(BadDates)
    else if template.Some? && !TemplateIn(s, template.value, org) then Err(NoSuchTemplate)
    else
      var c := s.cycles[id];
      Ok(s.(cycles := s.cycles[id := c.(template := if template.Some? then template.value else c.template,
                                        endDate := if end.Some? then end.value else c.endDate,
                                        excluded := if excluded.Some? then excluded.value else c.excluded)]))
  }

  /** Deletion cascades to everything that hangs on the cycle and clears the links to it. */
  function WithoutCycle(s: State, id: CycleId): State {
    State(s.templates, s.cycles - {id},
          map k | k in s.reviews && k.cycle != id :: s.reviews[k],
          map k | k in s.nominations && k.cycle != id :: s.nominations[k],
          map i | i in s.sessions && s.sessions[i].cycle != id :: s.sessions[i],
          map k | k in s.performance ::
            if s.performance[k].lastCycle == Some(id) then s.performance[k].(lastCycle := None) else s.performance[k])
  }

  function RemoveCycle(s: State, org: OrgId, id: CycleId): Answered {
    if !CycleIn(s, id, org) then Err(NoSuchCycle)
    else if s.cycles[id].status != Draft then Err(NotDraft)
    else Ok(WithoutCycle(s, id))
  }

  function SetCycle(s: State, id: CycleId, c: Cycle): State {
    s.(cycles := s.cycles[id := c])
  }

  // ------------------------------------------------------------------ activation

  /** The members that are not excluded and have an active profile. */
  function Eligible(w: World, org: OrgId, excluded: set<UserId>): set<UserId> {
    set k | k in w.roles && k.0 == org && k.1 !in excluded && k in w.profiles && w.profiles[k].active :: k.1
  }

  datatype Assignment = Assignment(about: UserId, author: UserId, kind: ReviewType)

  function AssignmentsFor(u: UserId, supervisor: Option<UserId>): seq<Assignment> {
    [Assignment(u, u, SelfReview)] +
    if supervisor.Some?
    then [Assignment(u, supervisor.value, ManagerReview), Assignment(supervisor.value, u, UpwardReview)]
    else []
  }

  /** The review requests of the eligible users in turn. */
  function Assignments(users: seq<UserId>, supervisor: map<UserId, Option<UserId>>): seq<Assignment>
    requires forall u :: u in users ==> u in supervisor
  {
    if users == [] then []
    else
      var front, u := users[..|users| - 1], users[|users| - 1];
      assert u in users;
      Assignments(front, supervisor) + AssignmentsFor(u, supervisor[u])
  }

  predicate Wanted(xs: seq<Assignment>, about: UserId, author: UserId) {
    exists i :: 0 <= i < |xs| && xs[i].about == about && xs[i].author == author
  }

  /** Keep the first request of every pair. */
  function Dedup(xs: seq<Assignment>): seq<Assignment> {
    if xs == [] then []
    else
      var front, x := xs[..|xs| - 1], xs[|xs| - 1];
      if Wanted(front, x.about, x.author) then Dedup(front) else Dedup(front) + [x]
  }

  /** Insert the requests as pending reviews. */
  function Inserted(reviews: map<Slot, Review>, org: OrgId, cycle: CycleId, xs: seq<Assignment>): map<Slot, Review> {
    if xs == [] then reviews
    else
      var x := xs[|xs| - 1];
      var row := Review(org, x.kind, Pending, None, None);
      Inserted(reviews, org, cycle, xs[..|xs| - 1])[Slot(cycle, x.about, x.author) := row]
  }

  function Supervisors(w: World, org: OrgId, users: set<UserId>): map<UserId, Option<UserId>>
    requires forall u :: u in users ==> (org, u) in w.profiles
  {
    map u | u in users :: w.profiles[(org, u)].supervisor
  }

  /** The requests of an activation, with the profiles in the given row order. */
  ghost function Requested(w: World, org: OrgId, excluded: set<UserId>, order: seq<UserId>): seq<Assignment>
    requires Lists(order, Eligible(w, org, excluded))
  {
    Dedup(Assignments(order, Supervisors(w, org, Eligible(w, org, excluded))))
  }

  predicate Collides(reviews: map<Slot, Review>, cycle: CycleId, xs: seq<Assignment>) {
    exists i :: 0 <= i < |xs| && Slot(cycle, xs[i].about, xs[i].author) in reviews
  }

  predicate AllKnown(w: World, xs: seq<Assignment>) {
    forall i :: 0 <= i < |xs| ==> xs[i].about in w.users && xs[i].author in w.users
  }

  ghost function ActivateCycle(s: State, w: World, org: OrgId, id: CycleId, order: seq<UserId>): Answered {
    if !CycleIn(s, id, org) then Err(NoSuchCycle)
    else if s.cycles[id].status != Draft then Err(WrongStatus)
    else if !TemplateIn(s, s.cycles[id].template, org) then Err(NoSuchTemplate)
    else if !Lists(order, Eligible(w, org, s.cycles[id].excluded)) then Err(InvalidRequest)
    else
      var xs := Requested(w, org, s.cycles[id].excluded, order);
      if Collides(s.reviews, id, xs) then Err(UniqueViolation)
      else if !AllKnown(w, xs) then Err(DeadReference)
      else
        var c := s.cycles[id].(status := Active, snapshot := Some(s.templates[s.cycles[id].template].sections));
        Ok(SetCycle(s, id, c).(reviews := Inserted(s.reviews, org, id, xs)))
  }

  function TransitionToCalibrating(s: State, org: OrgId, id: CycleId): Answered {
    if !CycleIn(s, id, org) then Err(NoSuchCycle)
    else if s.cycles[id].status != Active then Err(WrongStatus)
    else Ok(SetCycle(s, id, s.cycles[id].(status := Calibrating)))
  }

  // ------------------------------------------------------------------ submission

  function Find(rs: seq<Answer>, q: QuestionId): Option<Answer> {
    if rs == [] then None else if rs[0].question == q then Some(rs[0]) else Find(rs[1..], q)
  }

  function CheckQuestion(q: Question, rs: seq<Answer>): Option<ReviewError> {
    if !q.isRating then None
    else
      var a := Find(rs, q.id);
      if a == None || !a.value.value.Number? then Some(NeedsNumber)
      else if a.value.value.n != a.value.value.n.Floor as real || a.value.value.n < 1.0 || a.value.value.n > 5.0
          then Some(OutOfScale)
      else None
  }

  function CheckQuestions(qs: seq<Question>, rs: seq<Answer>): Option<ReviewError> {
    if qs == [] then None
    else if CheckQuestion(qs[0], rs).Some? then CheckQuestion(qs[0], rs)
    else CheckQuestions(qs[1..], rs)
  }

  /** The complaint about the first rating question left without an integer from 1 to 5, if any. */
  function CheckSections(sections: Sections, rs: seq<Answer>): Option<ReviewError> {
    if sections == [] then None
    else if CheckQuestions(sections[0], rs).Some? then CheckQuestions(sections[0], rs)
    else CheckSections(sections[1..], rs)
  }

  function Check(snapshot: Option<Sections>, rs: seq<Answer>): Option<ReviewError> {
    if snapshot == None then None else CheckSections(snapshot.value, rs)
  }

  /** The numeric values of the responses that the sender labelled as ratings. */
  function RatingValues(rs: seq<Answer>): seq<real> {
    if rs == [] then []
    else
      var front, a := RatingValues(rs[..|rs| - 1]), rs[|rs| - 1];
      if a.labelled && a.value.Number? then front + [a.value.n] else front
  }

  function Mean(xs: seq<real>): real
    requires xs != []
  {
    Sum(xs) / |xs| as real
  }

  function OverallScore(rs: seq<Answer>): Option<real> {
    if RatingValues(rs) == [] then None else Some(Round2(Mean(RatingValues(rs))))
  }

  function SubmitReview(s: State, org: OrgId, user: UserId, k: Slot, rs: Responses): Answered {
    if !ReviewIn(s, k, org) || k.cycle !in s.cycles then Err(NoSuchReview)
    else if k.author != user then Err(NotReviewer)
    else if s.cycles[k.cycle].status != Active then Err(WrongStatus)
    else if s.reviews[k].status == Submitted then Err(AlreadySubmitted)
    else if Check(s.cycles[k.cycle].snapshot, rs).Some? then Err(Check(s.cycles[k.cycle].snapshot, rs).value)
    else
      var r := s.reviews[k].(responses := Some(rs), score := OverallScore(rs), status := Submitted);
      Ok(s.(reviews := s.reviews[k := r]))
  }

  // ------------------------------------------------------------------ nominations

  function NominationsBy(s: State, cycle: CycleId, user: UserId): set<Slot> {
    set k | k in s.nominations && k.cycle == cycle && k.about == user
  }

  function Slots(cycle: CycleId, user: UserId, nominees: seq<UserId>): set<Slot> {
    set u | u in nominees :: Slot(cycle, user, u)
  }

  function CreateNominations(s: State, w: World, org: OrgId, user: UserId, cycle: CycleId,
                             nominees: seq<UserId>): Answered {
    if !CycleIn(s, cycle, org) then Err(NoSuchCycle)
    else if s.cycles[cycle].status != Active then Err(WrongStatus)
    else if user in nominees then Err(SelfNomination)
    else if |NominationsBy(s, cycle, user)| + |nominees| > 3 then Err(TooManyNominations)
    else if exists u :: u in nominees && Slot(cycle, user, u) in s.nominations then Err(DuplicateNomination)
    else if exists i, j :: 0 <= i < j < |nominees| && nominees[i] == nominees[j] then Err(UniqueViolation)
    else if exists u :: u in nominees && u !in w.users then Err(DeadReference)
    else Ok(s.(nominations := s.nominations + map k | k in Slots(cycle, user, nominees) :: Nomination(org, Proposed)))
  }

  /** Approval and the peer review it creates are one transaction; the cycle's status is not looked at. */
  function ApproveNomination(s: State, org: OrgId, k: Slot): Answered {
    if !NominationIn(s, k, org) then Err(NoSuchNomination)
    else if s.nominations[k].status != Proposed then Err(NotPending)
    else if k in s.reviews then Err(UniqueViolation)
    else Ok(s.(nominations := s.nominations[k := s.nominations[k].(status := Approved)],
               reviews := s.reviews[k := Review(org, PeerReview, Pending, None, None)]))
  }

  function RejectNomination(s: State, org: OrgId, k: Slot): Answered {
    if !NominationIn(s, k, org) then Err(NoSuchNomination)
    else if s.nominations[k].status != Proposed then Err(NotPending)
    else Ok(s.(nominations := s.nominations[k := s.nominations[k].(status := Rejected)]))
  }

  // ------------------------------------------------------------------ calibration

  /** The scores that count for a user: submitted reviews of the cycle with a score. */
  function ScoresOf(s: State, org: OrgId, cycle: CycleId, user: UserId): map<Slot, real> {
    map k | k in s.reviews && k.cycle == cycle && k.about == user && s.reviews[k].org == org &&
            s.reviews[k].status == Submitted && s.reviews[k].score.Some? :: s.reviews[k].score.value
  }

  ghost function MapSum(m: map<Slot, real>): real
    decreases |m|
  {
    if m == map[] then 0.0
    else
      var k :| k in m;
      assert (m - {k}).Keys == m.Keys - {k};
      m[k] + MapSum(m - {k})
  }

  ghost function MapMean(m: map<Slot, real>): real
    requires m != map[]
  {
    MapSum(m) / |m| as real
  }

  /** The users a session is about: those with a score, in the department if one is given. */
  function SessionUsers(s: State, w: World, org: OrgId, cycle: CycleId, department: Option<DeptId>): set<UserId> {
    set k | k in s.reviews && k in ScoresOf(s, org, cycle, k.about) &&
            (department.Some? ==>
               (org, k.about) in w.profiles && w.profiles[(org, k.about)].department == department) :: k.about
  }

  ghost function OriginalScores(s: State, org: OrgId, cycle: CycleId, users: set<UserId>): map<UserId, Entry>
    requires forall u :: u in users ==> ScoresOf(s, org, cycle, u) != map[]
  {
    map u | u in users :: Entry(Round2(MapMean(ScoresOf(s, org, cycle, u))), None, None)
  }

  function ScopeOf(w: World, org: OrgId, department: Option<DeptId>): Option<set<UserId>> {
    if department == None then None
    else Some(set k | k in w.profiles && k.0 == org && w.profiles[k].department == department :: k.1)
  }

  predicate InScope(x: Session, u: UserId) {
    x.scope == None || u in x.scope.value
  }

  ghost function CreateSession(s: State, w: World, org: OrgId, user: UserId, cycle: CycleId, department: Option<DeptId>,
                               id: SessionId): Answered {
    if !CycleIn(s, cycle, org) then Err(NoSuchCycle)
    else if s.cycles[cycle].status != Calibrating then Err(WrongStatus)
    else if department.Some? && department.value !in w.departments then Err(DeadReference)
    else if id in s.sessions then Err(UniqueViolation)
    else
      var scores := OriginalScores(s, org, cycle, SessionUsers(s, w, org, cycle, department));
      Ok(s.(sessions := s.sessions[id := Session(cycle, org, department, user, scores, false,
                                                 ScopeOf(w, org, department))]))
  }

  predicate Leads(w: World, session: Session, org: OrgId, user: UserId) {
    session.facilitator == user || ((org, user) in w.roles && w.roles[(org, user)] == Owner)
  }

  function AdjustScore(s: State, w: World, org: OrgId, user: UserId, id: SessionId, target: UserId, score: real,
                       note: Option<string>): Answered {
    if !SessionIn(s, id, org) then Err(NoSuchSession)
    else if !Leads(w, s.sessions[id], org, user) then Err(NotFacilitator)
    else if s.sessions[id].finalized then Err(SessionFinalized)
    else if target !in s.sessions[id].scores then Err(NotInSession)
    else
      var x := s.sessions[id];
      var e := x.scores[target].(calibrated := Some(score), note := note);
      Ok(s.(sessions := s.sessions[id := x.(scores := x.scores[target := e])]))
  }

  predicate Decided(e: Entry) {
    e.calibrated.Some? && e.note.Some? && e.note.value != ""
  }

  predicate AllDecided(scores: map<UserId, Entry>) {
    forall u :: u in scores ==> Decided(scores[u])
  }

  /** Upsert the calibrated score of every user of a session. */
  function WriteScores(records: Records, org: OrgId, cycle: CycleId, scores: map<UserId, Entry>): Records {
    map k | k in records.Keys + (set u | u in scores :: (org, u)) ::
      if k.0 == org && k.1 in scores then Calibrated(records, k, scores[k.1].calibrated, cycle)[k] else records[k]
  }

  function FinalizeSession(s: State, w: World, org: OrgId, user: UserId, id: SessionId): Answered {
    if !SessionIn(s, id, org) then Err(NoSuchSession)
    else if !Leads(w, s.sessions[id], org, user) then Err(NotFacilitator)
    else if s.sessions[id].finalized then Err(SessionFinalized)
    else if !AllDecided(s.sessions[id].scores) then Err(MissingScores)
    else
      var x := s.sessions[id];
      Ok(s.(performance := WriteScores(s.performance, org, x.cycle, x.scores),
            sessions := s.sessions[id := x.(finalized := true)]))
  }

  /** The sessions that completion goes through. */
  function FinalizedSessions(s: State, org: OrgId, cycle: CycleId): set<SessionId> {
    set i | i in s.sessions && s.sessions[i].cycle == cycle && s.sessions[i].org == org && s.sessions[i].finalized
  }

  function WriteSessions(s: State, org: OrgId, cycle: CycleId, order: seq<SessionId>): Records
    requires forall i :: i in order ==> i in s.sessions
  {
    if order == [] then s.performance
    else
      var last := order[|order| - 1];
      assert last in order;
      WriteScores(WriteSessions(s, org, cycle, order[..|order| - 1]), org, cycle, s.sessions[last].scores)
  }

  ghost function CompleteCycle(s: State, org: OrgId, id: CycleId, order: seq<SessionId>): Answered {
    if !CycleIn(s, id, org) then Err(NoSuchCycle)
    else if s.cycles[id].status != Calibrating then Err(WrongStatus)
    else if exists i ::
              i in s.sessions && s.sessions[i].cycle == id && s.sessions[i].org == org && !s.sessions[i].finalized
    then Err(UnfinalizedSessions)
    else if !Lists(order, FinalizedSessions(s, org, id)) then Err(InvalidRequest)
    else Ok(SetCycle(s, id, s.cycles[id].(status := Closed)).(performance := WriteSessions(s, org, id, order)))
  }

  /** The daily cron: pending reviews of active cycles past their end become overdue. */
  predicate Lapsed(s: State, k: Slot, now: Time) {
    k in s.reviews && s.reviews[k].status == Pending && k.cycle in s.cycles &&
    s.cycles[k.cycle].status == Active && s.cycles[k.cycle].endDate < now
  }

  function MarkOverdueReviews(s: State, now: Time): State {
    s.(reviews := map k | k in s.reviews :: if Lapsed(s, k, now) then s.reviews[k].(status := Late) else s.reviews[k])
  }

  // ------------------------------------------------------------------ what other services write

  /** Deleting a department clears the column of its sessions. */
  function WithoutDepartment(s: State, d: DeptId): State {
    s.(sessions := map i | i in s.sessions ::
        if s.sessions[i].department == Some(d) then s.sessions[i].(department := None) else s.sessions[i])
  }

  // ------------------------------------------------------------------ one request

  /** A request of the review service, the daily cron, or a write of another service to these tables: the
      deletion of a department, and the upsert of the recalculation worker, with whatever it has counted. */
  datatype Request =
    | NewTemplate(w: World, org: OrgId, user: UserId, sections: Sections, template: TemplateId)
    | EditTemplate(org: OrgId, template: TemplateId, newSections: Option<Sections>)
    | DeleteTemplate(org: OrgId, template: TemplateId)
    | NewCycle(w: World, org: OrgId, user: UserId, template: TemplateId, start: Time, end: Time, excluded: set<UserId>,
               cycle: CycleId)
    | EditCycle(org: OrgId, cycle: CycleId, newTemplate: Option<TemplateId>, newStart: Option<Time>,
                newEnd: Option<Time>, newExcluded: Option<set<UserId>>)
    | DeleteCycle(org: OrgId, cycle: CycleId)
    | Activate(w: World, org: OrgId, cycle: CycleId, users: seq<UserId>)
    | Calibrate(org: OrgId, cycle: CycleId)
    | Complete(org: OrgId, cycle: CycleId, order: seq<SessionId>)
    | Submit(org: OrgId, user: UserId, slot: Slot, responses: Responses)
    | Nominate(w: World, org: OrgId, user: UserId, cycle: CycleId, nominees: seq<UserId>)
    | Approve(org: OrgId, slot: Slot)
    | Reject(org: OrgId, slot: Slot)
    | OpenSession(w: World, org: OrgId, user: UserId, cycle: CycleId, department: Option<DeptId>, session: SessionId)
    | Adjust(w: World, org: OrgId, user: UserId, session: SessionId, target: UserId, score: real, note: Option<string>)
    | Finalize(w: World, org: OrgId, user: UserId, session: SessionId)
    | Cron(now: Time)
    | DeleteDepartment(gone: DeptId)
    | Recalculate(key: Key, metrics: Metrics)

  /** What the request validator enforces before the service runs. */
  predicate Admissible(r: Request) {
    match r
    case Nominate(_, _, _, _, nominees) => 1 <= |nominees| <= 3
    case Adjust(_, _, _, _, _, score, note) => 1.0 <= score <= 5.0 && note.Some? && note.value != ""
    case _ => true
  }

  ghost function Serve(s: State, r: Request): Answered {
    match r
    case NewTemplate(w, org, user, sections, id) => CreateTemplate(s, w, org, user, sections, id)
    case EditTemplate(org, id, sections) => UpdateTemplate(s, org, id, sections)
    case DeleteTemplate(org, id) => RemoveTemplate(s, org, id)
    case NewCycle(w, org, user, template, start, end, excluded, id) =>
        CreateCycle(s, w, org, user, template, start, end, excluded, id)
    case EditCycle(org, id, template, start, end, excluded) => UpdateCycle(s, org, id, template, start, end, excluded)
    case DeleteCycle(org, id) => RemoveCycle(s, org, id)
    case Activate(w, org, id, users) => ActivateCycle(s, w, org, id, users)
    case Calibrate(org, id) => TransitionToCalibrating(s, org, id)
    case Complete(org, id, order) => CompleteCycle(s, org, id, order)
    case Submit(org, user, k, rs) => SubmitReview(s, org, user, k, rs)
    case Nominate(w, org, user, id, nominees) => CreateNominations(s, w, org, user, id, nominees)
    case Approve(org, k) => ApproveNomination(s, org, k)
    case Reject(org, k) => RejectNomination(s, org, k)
    case OpenSession(w, org, user, id, department, session) => CreateSession(s, w, org, user, id, department, session)
    case Adjust(w, org, user, id, target, score, note) => AdjustScore(s, w, org, user, id, target, score, note)
    case Finalize(w, org, user, id) => FinalizeSession(s, w, org, user, id)
    case Cron(now) => Ok(MarkOverdueReviews(s, now))
    case DeleteDepartment(d) => Ok(WithoutDepartment(s, d))
    case Recalculate(k, metrics) => Ok(s.(performance := Recalculated(s.performance, k, metrics)))
  }

  ghost function Handle(s: State, r: Request): Answered {
    if Admissible(r) then Serve(s, r) else Err(InvalidRequest)
  }

  ghost function After(s: State, r: Request): State {
    if Handle(s, r).Ok? then Handle(s, r).state else s
  }

  /** The tables a run goes through: the empty ones first, then one request after another. */
  ghost predicate IsRun(states: seq<State>, rs: seq<Request>) {
    && |states| == |rs| + 1 && states[0] == EMPTY
    && forall i {:trigger rs[i]} :: 0 <= i < |rs| ==> states[i + 1] == After(states[i], rs[i])
  }

  ghost predicate Reachable(s: State) {
    exists states, rs :: IsRun(states, rs) && states[|rs|] == s
  }

  /** Any request leads from a reachable state to a reachable state. */
  lemma StepStaysReachable(s: State, r: Request)
    requires Reachable(s)
    ensures Reachable(After(s, r))
  {
    var states, rs :| IsRun(states, rs) && states[|rs|] == s;
    var longer, more := states + [After(s, r)], rs + [r];
    forall i {:trigger more[i]} | 0 <= i < |more| ensures longer[i + 1] == After(longer[i], more[i]) {
      if i < |rs| { assert more[i] == rs[i]; }
    }
    assert IsRun(longer, more);
  }
}
