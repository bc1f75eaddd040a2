/** Why a session's department column does not tell whom the session covers: a run in which the department of
    a session is deleted, and the session looks like one over the whole organization. */
module ReviewScope {
  import opened Common
  import opened ReviewModel

  const STAFF := World({7}, {3}, map[(0, 7) := Owner], map[(0, 7) := Profile(None, None, true)])
  const SELF := Slot(0, 7, 7)
  const THREE: Responses := [Answer(0, Number(3.0), true)]

  const TEMPLATES: map<TemplateId, Template> := map[0 := Template(0, [])]

  function InCycle(status: CycleStatus): State {
    State(TEMPLATES, map[0 := Cycle(0, 0, status, if status == Draft then None else Some([]), {}, 9)], map[], map[],
          map[], map[])
  }

  const BLANK: map<Slot, Review> := map[SELF := Review(0, SelfReview, Pending, None, None)]

  function Submission(): map<Slot, Review> {
    map[SELF := Review(0, SelfReview, Submitted, Some(THREE), OverallScore(THREE))]
  }

  function Opened(department: Option<DeptId>): State {
    InCycle(Calibrating).(reviews := Submission(),
                          sessions := map[0 := Session(0, 0, department, 7, map[], false, Some({}))])
  }

  lemma Visit(s: State, r: Request, after: State)
    requires Reachable(s) && After(s, r) == after
    ensures Reachable(after)
  {
    StepStaysReachable(s, r);
  }

  lemma OnlyOneRequest()
    ensures Lists([7], Eligible(STAFF, 0, {}))
    ensures Requested(STAFF, 0, {}, [7]) == [Assignment(7, 7, SelfReview)]
  {
    assert Eligible(STAFF, 0, {}) == {7} by {
      assert (0, 7) in STAFF.roles;
    }
    var sup := Supervisors(STAFF, 0, Eligible(STAFF, 0, {}));
    assert [7][..0] == [] && Assignments([], sup) == [];
    var xs := Assignments([7], sup);
    assert xs == [Assignment(7, 7, SelfReview)];
    assert xs[..0] == [];
  }

  lemma Drafted()
    ensures Reachable(InCycle(Draft))
  {
    assert IsRun([EMPTY], []);
    Visit(EMPTY, NewTemplate(STAFF, 0, 7, [], 0), EMPTY.(templates := TEMPLATES));
    Visit(EMPTY.(templates := TEMPLATES), NewCycle(STAFF, 0, 7, 0, 1, 9, {}, 0), InCycle(Draft));
  }

  /** The cycle is activated for one employee, who belongs to no department. */
  lemma Activated()
    ensures Reachable(InCycle(Active).(reviews := BLANK))
  {
    Drafted();
    OnlyOneRequest();
    assert [Assignment(7, 7, SelfReview)][..0] == [];
    Visit(InCycle(Draft), Activate(STAFF, 0, 0, [7]), InCycle(Active).(reviews := BLANK));
  }

  lemma ThreeCounts()
    ensures RatingValues(THREE) == [3.0] && OverallScore(THREE).Some? && Check(Some([]), THREE) == None
  {
    assert THREE[..0] == [];
  }

  /** The employee submits, and the cycle goes to calibration. */
  lemma SubmittedReview()
    ensures Reachable(InCycle(Calibrating).(reviews := Submission()))
  {
    Activated();
    ThreeCounts();
    Visit(InCycle(Active).(reviews := BLANK), Submit(0, 7, SELF, THREE), InCycle(Active).(reviews := Submission()));
    Visit(InCycle(Active).(reviews := Submission()), Calibrate(0, 0), InCycle(Calibrating).(reviews := Submission()));
  }

  lemma NobodyInDepartment(s: State)
    ensures SessionUsers(s, STAFF, 0, 0, Some(3)) == {} && ScopeOf(STAFF, 0, Some(3)) == Some({})
  {
    assert forall k :: k in STAFF.profiles ==> STAFF.profiles[k].department != Some(3);
    assert ScopeOf(STAFF, 0, Some(3)).value == {};
  }

  /** A session is opened over a department without scores. */
  lemma SessionOpened()
    ensures Reachable(Opened(Some(3)))
  {
    SubmittedReview();
    var s := InCycle(Calibrating).(reviews := Submission());
    NobodyInDepartment(s);
    assert OriginalScores(s, 0, 0, {}) == map[];
    Visit(s, OpenSession(STAFF, 0, 7, 0, Some(3), 0), Opened(Some(3)));
  }

  lemma SubmissionCounts(s: State)
    requires s.reviews == Submission()
    ensures ScoresOf(s, 0, 0, 7) != map[]
  {
    ThreeCounts();
    assert SELF in ScoresOf(s, 0, 0, 7);
  }

  /** Then the department is deleted: the session names none, and leaves out a user with a score. */
  lemma ClearedDepartmentHidesScope() returns (s: State, u: UserId)
    ensures Reachable(s) && 0 in s.sessions && s.sessions[0].department == None && s.sessions[0].scope != None
    ensures u !in s.sessions[0].scores && ScoresOf(s, s.sessions[0].org, s.sessions[0].cycle, u) != map[]
  {
    SessionOpened();
    s, u := Opened(None), 7;
    Visit(Opened(Some(3)), DeleteDepartment(3), s);
    SubmissionCounts(s);
  }
}
