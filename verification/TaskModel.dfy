/** The task table and the requests that write it: src/modules/task/task.service.ts and the
    overdue cron of src/scheduler/performance.task.ts.  Each request is one atomic step; its
    effect is the new table together with the recalculation jobs it puts on the queue. */
module TaskModel {
  import opened Common

  datatype Status = NotStarted | InProgress | Completed | Overdue | CompletedLate

  datatype Task = Task(
    org: OrgId, assignee: UserId, assigner: UserId, department: Option<DeptId>, status: Status,
    deadline: Option<Time>, completedAt: Option<Time>, dependsOn: Option<TaskId>)

  type Store = map<TaskId, Task>

  /** A recalculation job: one organization and the users whose records are to be recomputed. */
  datatype Job = Job(org: OrgId, users: seq<UserId>)

  /** The rows a request reads from tables it does not own. */
  datatype World = World(
    roles: map<(OrgId, UserId), Role>,
    departmentOrg: map<DeptId, OrgId>,
    activeStaff: set<(DeptId, UserId)>)

  datatype TaskError =
    | AssigneeNotMember | BadDepartment | NoSuchDependency | SelfDependency | CircularDependency
    | NoSuchTask | NotMember | NotYourTask | OverdueIsFrozen | DependencyNotDone
    | CannotDelete | HasDependents | TaskIsDone | DuplicateKey | InvalidRequest

  datatype Effect = Effect(tasks: Store, jobs: seq<Job>)

  predicate Done(t: Task) {
    t.status == Completed || t.status == CompletedLate
  }

  predicate InOrg(s: Store, id: TaskId, org: OrgId) {
    id in s && s[id].org == org
  }

  // ------------------------------------------------------------------ create

  datatype NewTask = NewTask(
    assignee: UserId, department: Option<DeptId>, deadline: Time, dependsOn: Option<TaskId>)

  /** An undefined department id drops out of the query, so any department will do. */
  predicate DepartmentAccepts(w: World, org: OrgId, department: Option<DeptId>, user: UserId) {
    exists d :: d in w.departmentOrg && w.departmentOrg[d] == org && (d, user) in w.activeStaff &&
                (department == None || department == Some(d))
  }

  function CreateTask(s: Store, w: World, org: OrgId, assigner: UserId, dto: NewTask, id: TaskId)
    : Reply<Effect, TaskError>
  {
    if (org, dto.assignee) !in w.roles then Err(AssigneeNotMember)
    else if !DepartmentAccepts(w, org, dto.department, dto.assignee) then Err(BadDepartment)
    else if dto.dependsOn.Some? && !InOrg(s, dto.dependsOn.value, org) then Err(NoSuchDependency)
    else if id in s then Err(DuplicateKey)
    else
      // the dependency is validated but never stored
      var task := Task(org, dto.assignee, assigner, dto.department, NotStarted, Some(dto.deadline), None, None);
      Ok(Effect(s[id := task], [Job(org, [dto.assignee])]))
  }

  // ------------------------------------------------------------------ update

  /** The dependency field of an update: absent, null, or a task id. */
  datatype DependencyEdit = Keep | Clear | SetTo(parent: TaskId)

  datatype TaskEdit = TaskEdit(
    assignee: Option<UserId>, department: Option<DeptId>, deadline: Option<Time>, dependsOn: DependencyEdit)

  /** The row a task points at, if any; an id with no row points nowhere. */
  function Next(s: Store, t: TaskId): Option<TaskId> {
    if t in s then s[t].dependsOn else None
  }

  /** Where `n` steps along the dependency pointers lead. */
  function Iter(s: Store, t: TaskId, n: nat): Option<TaskId>
    decreases n
  {
    if n == 0 then Some(t)
    else if Next(s, t) == None then None
    else Iter(s, Next(s, t).value, n - 1)
  }

  ghost predicate Reaches(s: Store, a: TaskId, b: TaskId) {
    exists n: nat :: Iter(s, a, n) == Some(b)
  }

  ghost function CheckDependency(s: Store, org: OrgId, id: TaskId, edit: DependencyEdit): Option<TaskError>
    requires id in s
  {
    if !edit.SetTo? || s[id].dependsOn == Some(edit.parent) then None
    else if !InOrg(s, edit.parent, org) then Some(NoSuchDependency)
    else if edit.parent == id then Some(SelfDependency)
    else if Reaches(s, edit.parent, id) then Some(CircularDependency)
    else None
  }

  function ApplyEdit(t: Task, dto: TaskEdit): Task {
    t.(assignee := if dto.assignee.Some? then dto.assignee.value else t.assignee,
       department := if dto.department.Some? then dto.department else t.department,
       deadline := if dto.deadline.Some? then dto.deadline else t.deadline,
       dependsOn := match dto.dependsOn
                    case Keep => t.dependsOn
                    case Clear => None
                    case SetTo(p) => Some(p))
  }

  predicate Reassigns(t: Task, dto: TaskEdit) {
    dto.assignee.Some? && dto.assignee.value != t.assignee
  }

  predicate MovesDepartment(t: Task, dto: TaskEdit) {
    dto.department.Some? && dto.department != t.department
  }

  /** The reassignment event is built with its two user arguments exchanged; both users still get a job. */
  function ReassignJobs(t: Task, dto: TaskEdit): seq<Job> {
    if Reassigns(t, dto) then [Job(t.org, [dto.assignee.value, t.assignee])] else []
  }

  ghost function UpdateTask(s: Store, w: World, org: OrgId, id: TaskId, dto: TaskEdit): Reply<Effect, TaskError> {
    if !InOrg(s, id, org) then Err(NoSuchTask)
    else if Reassigns(s[id], dto) && (org, dto.assignee.value) !in w.roles then Err(AssigneeNotMember)
    else if MovesDepartment(s[id], dto) &&
            !(dto.department.value in w.departmentOrg && w.departmentOrg[dto.department.value] == org)
    then Err(BadDepartment)
    else if CheckDependency(s, org, id, dto.dependsOn).Some? then Err(CheckDependency(s, org, id, dto.dependsOn).value)
    else Ok(Effect(s[id := ApplyEdit(s[id], dto)], ReassignJobs(s[id], dto)))
  }

  // ------------------------------------------------------------------ updateStatus

  /** The three statuses the request validator lets through. */
  predicate Requestable(st: Status) {
    st == NotStarted || st == InProgress || st == Completed
  }

  predicate Blocked(s: Store, t: Task, wanted: Status) {
    wanted != NotStarted && wanted != Overdue && t.dependsOn.Some? &&
    t.dependsOn.value in s && !Done(s[t.dependsOn.value])
  }

  function WithStatus(t: Task, wanted: Status, now: Time): Task {
    var final := if wanted == Completed && t.status == Overdue then CompletedLate else wanted;
    var at := if wanted == Completed then Some(now)
              else if wanted == NotStarted || wanted == InProgress then None
              else t.completedAt;
    t.(status := final, completedAt := at)
  }

  function UpdateStatus(s: Store, w: World, org: OrgId, id: TaskId, wanted: Status, user: UserId,
                        now: Time): Reply<Effect, TaskError> {
    if !InOrg(s, id, org) then Err(NoSuchTask)
    else if (org, user) !in w.roles then Err(NotMember)
    else if w.roles[(org, user)] == Member && s[id].assignee != user then Err(NotYourTask)
    else if s[id].status == Overdue && (wanted == InProgress || wanted == NotStarted) then Err(OverdueIsFrozen)
    else if Blocked(s, s[id], wanted) then Err(DependencyNotDone)
    else Ok(Effect(s[id := WithStatus(s[id], wanted, now)], [Job(org, [s[id].assignee])]))
  }

  // ------------------------------------------------------------------ remove, addSubTask

  predicate MayDelete(w: World, t: Task, user: UserId, role: Role) {
    t.assigner == user ||
    Outranks(role, if (t.org, t.assigner) in w.roles then w.roles[(t.org, t.assigner)] else Member)
  }

  predicate HasDependent(s: Store, id: TaskId) {
    exists d :: d in s && s[d].dependsOn == Some(id)
  }

  function RemoveTask(s: Store, w: World, org: OrgId, id: TaskId, user: UserId, role: Role): Reply<Effect, TaskError> {
    if !InOrg(s, id, org) then Err(NoSuchTask)
    else if !MayDelete(w, s[id], user, role) then Err(CannotDelete)
    else if HasDependent(s, id) then Err(HasDependents)
    else Ok(Effect(s - {id}, [Job(org, [s[id].assignee])]))
  }

  /** The first subtask starts the task, without the dependency check and without an event. */
  function AddSubTask(s: Store, org: OrgId, id: TaskId): Reply<Effect, TaskError> {
    if !InOrg(s, id, org) then Err(NoSuchTask)
    else if Done(s[id]) then Err(TaskIsDone)
    else if s[id].status == NotStarted then Ok(Effect(s[id := s[id].(status := InProgress)], []))
    else Ok(Effect(s, []))
  }

  // ------------------------------------------------------------------ overdue cron

  predicate Expired(t: Task, now: Time) {
    t.deadline.Some? && t.deadline.value < now && !Done(t) && t.status != Overdue
  }

  function MarkExpired(s: Store, now: Time): Store {
    map id | id in s :: if Expired(s[id], now) then s[id].(status := Overdue) else s[id]
  }

  /** The jobs group the owners of the expired tasks: one job per organization, each user once,
      in whatever order the rows came back. */
  ghost predicate GroupsOwners(jobs: seq<Job>, s: Store, now: Time) {
    && (forall id :: id in s && Expired(s[id], now) ==> Asked(jobs, s[id].org, s[id].assignee))
    && (forall j, u :: 0 <= j < |jobs| && u in jobs[j].users ==> OwnsExpired(s, now, jobs[j].org, u))
    && (forall j, k :: 0 <= j < k < |jobs| ==> jobs[j].org != jobs[k].org)
    && (forall j :: 0 <= j < |jobs| ==> jobs[j].users != [] && Unique(jobs[j].users))
  }

  ghost predicate Asked(jobs: seq<Job>, org: OrgId, user: UserId) {
    exists j :: 0 <= j < |jobs| && jobs[j].org == org && user in jobs[j].users
  }

  ghost predicate OwnsExpired(s: Store, now: Time, org: OrgId, user: UserId) {
    exists id :: id in s && Expired(s[id], now) && s[id].org == org && s[id].assignee == user
  }

  /** Deleting a department, in its own service, clears the column of its tasks. */
  function WithoutDepartment(s: Store, d: DeptId): Store {
    map id | id in s :: if s[id].department == Some(d) then s[id].(department := None) else s[id]
  }

  // ------------------------------------------------------------------ one request

  datatype Request =
    | Create(w: World, org: OrgId, user: UserId, dto: NewTask, id: TaskId)
    | Update(w: World, org: OrgId, id: TaskId, edit: TaskEdit)
    | SetStatus(w: World, org: OrgId, id: TaskId, wanted: Status, user: UserId, now: Time)
    | Remove(w: World, org: OrgId, id: TaskId, user: UserId, role: Role)
    | SubTask(org: OrgId, id: TaskId)
    | Cron(now: Time, jobs: seq<Job>)
    | DeleteDepartment(department: DeptId)

  /** A request as it arrives from outside: the validator screens statuses first, and a cron run
      is only possible with jobs that group the owners of the tasks it marks. */
  ghost function Handle(s: Store, r: Request): Reply<Effect, TaskError> {
    match r
    case Create(w, org, user, dto, id) => CreateTask(s, w, org, user, dto, id)
    case Update(w, org, id, edit) => UpdateTask(s, w, org, id, edit)
    case SetStatus(w, org, id, wanted, user, now) =>
      if Requestable(wanted) then UpdateStatus(s, w, org, id, wanted, user, now) else Err(InvalidRequest)
    case Remove(w, org, id, user, role) => RemoveTask(s, w, org, id, user, role)
    case SubTask(org, id) => AddSubTask(s, org, id)
    case Cron(now, jobs) =>
      if GroupsOwners(jobs, s, now) then Ok(Effect(MarkExpired(s, now), jobs)) else Err(InvalidRequest)
    case DeleteDepartment(d) => Ok(Effect(WithoutDepartment(s, d), []))
  }

  ghost function After(s: Store, r: Request): Store {
    if Handle(s, r).Ok? then Handle(s, r).state.tasks else s
  }

  ghost function Jobs(s: Store, r: Request): seq<Job> {
    if Handle(s, r).Ok? then Handle(s, r).state.jobs else []
  }

  /** The tables a run goes through: the empty table first, then one request after another. */
  ghost predicate IsRun(states: seq<Store>, rs: seq<Request>) {
    && |states| == |rs| + 1 && states[0] == map[]
    && forall i {:trigger rs[i]} :: 0 <= i < |rs| ==> states[i + 1] == After(states[i], rs[i])
  }

  ghost predicate Reachable(s: Store) {
    exists states, rs :: IsRun(states, rs) && states[|rs|] == s
  }

  /** Any request leads from a reachable state to a reachable state. */
  lemma StepStaysReachable(s: Store, r: Request)
    requires Reachable(s)
    ensures Reachable(After(s, r))
  {
    var states, rs :| IsRun(states, rs) && states[|rs|] == s;
    var longer, more := states + [After(s, r)], rs + [r];
    forall i {:trigger more[i]} | 0 <= i < |more| ensures longer[i + 1] == After(longer[i], more[i]) {
      if i < |rs| { assert more[i] == rs[i]; }
    }
    assert IsRun(longer, more);
  }
}
