/**
 The tables of the application and, for every lifecycle request and sweep, the response and the
 tables it leaves behind. Each request is atomic and total: a refused one answers with a status
 and leaves the tables alone. A request carries the facts it reads from the user directory
 (organisation of the actor, mail address of the leader), so the directory may change in between.
 */
module Store {
  import opened Domain
  import Progress
  import Rows = IncidentRows

  datatype Collab = Collab(role: Role, status: CollabStatus, endDate: Option<int>)

  datatype Assignment = Assignment(
    incident: IncidentId,
    organisation: OrgId,
    status: AssignmentStatus,
    createdAt: Time,
    deadline: Time,
    respondedAt: Option<Time>,
    declineReason: Option<string>)

  datatype Task = Task(
    incident: IncidentId,
    start: int,
    end: int,
    state: TaskState,
    proofImage: bool,
    proofVideo: bool,
    failureReason: string,
    confirmed: bool)

  datatype SuggestionStatus = Offered | Adopted | Dismissed

  /** A partner suggested to the leader; who suggested it and why is not modelled. */
  datatype Suggestion = Suggestion(role: Role, status: SuggestionStatus)

  /** Collaborations and suggestions are unique per (incident, user), so that pair is their key. */
  type CollabKey = (IncidentId, UserId)
  type Suggestions = map<CollabKey, Suggestion>
  type Incidents = map<IncidentId, Rows.Incident>
  type Collabs = map<CollabKey, Collab>
  type Assignments = map<AssignmentId, Assignment>
  type Tasks = map<TaskId, Task>

  datatype State = State(
    incidents: Incidents,
    collabs: Collabs,
    assignments: Assignments,
    tasks: Tasks,
    suggestions: Suggestions)

  const EMPTY := State(map[], map[], map[], map[], map[])

  datatype Response = Ok | BadRequest | Forbidden | NotFound | ServerError

  datatype Outcome = Outcome(response: Response, state: State)

  // ---- Requests ------------------------------------------------------------------------------

  datatype LifeOp =
    | Handle(user: UserId, target: Option<Etat>)
    | TakeInCharge(user: UserId, mode: Option<Mode>, role: Option<Role>, leaderMail: bool)
    | Close(user: UserId, start: Option<int>, end: Option<int>)
    | Prepare(user: UserId)
    | ReturnForCompletion
    | DeclareResolved
    | Disengage(user: UserId)
    | Validate
    | Reject(motif: string)

  datatype CollabOp =
    | Request(role: Option<Role>, endDate: Option<int>, leaderMail: bool)
    | Decide(actor: UserId, accept: bool)
    | Accept(actor: UserId)
    | Decline(actor: UserId)
    | Suggest(actor: UserId, superAdmin: bool, sameOrganisation: bool, named: IncidentId, role: Option<Role>)
    | AdoptSuggestion(actor: UserId, superAdmin: bool, leaderMail: bool)
    | DismissSuggestion(actor: UserId, superAdmin: bool)
    | Discuss(sameOrganisation: bool)

  /** AssignTo names an existing organisation or none. */
  datatype AssignOp =
    | AssignTo(organisation: Option<OrgId>)
    | AcceptAssignment(user: UserId, userOrg: Option<OrgId>)
    | DeclineAssignment(userOrg: Option<OrgId>, reason: string)

  /** Deletions are open to all users and refused one incident at a time to all but Super Admins. */
  datatype TrashOp = Delete(superAdmin: bool) | BulkDelete(superAdmin: bool) | Restore | ForceDelete

  /** The body of a task request: an absent key keeps the stored value (or the default on creation). */
  datatype TaskPatch = TaskPatch(
    start: Option<int>,
    end: Option<int>,
    state: Option<TaskState>,
    proofImage: Option<bool>,
    proofVideo: Option<bool>,
    failureReason: Option<string>)

  datatype TaskOp =
    | Create(start: int, end: int, body: TaskPatch)
    | Update(body: TaskPatch)
    | Confirm
    | Complete(image: bool, video: bool)
    | Fail(reason: string)
    | Relaunch
    | Remove

  datatype Sweep =
    | AutoValidate
    | AntiGel
    | PurgeTrash
    | AutoAccept(firstAdmin: map<OrgId, UserId>)

  datatype Op =
    | Report(incident: IncidentId, severity: Option<Severity>)
    | Life(incident: IncidentId, life: LifeOp)
    | Collaborate(incident: IncidentId, user: UserId, collab: CollabOp)
    | Assign(assignment: AssignmentId, incident: IncidentId, assign: AssignOp)
    | Bin(incident: IncidentId, bin: TrashOp)
    | OnTask(incident: IncidentId, task: TaskId, taskOp: TaskOp)
    | Run(sweep: Sweep)

  // ---- Small steps on the tables -------------------------------------------------------------

  function Act(s: State, i: IncidentId, now: Time, a: Rows.Action): State
    requires i in s.incidents
  {
    s.(incidents := s.incidents[i := Rows.Next(s.incidents[i], now, a)])
  }

  /** The leader is taken_by, or any user with an accepted 'leader' collaboration. */
  predicate IsLeader(s: State, i: IncidentId, u: UserId) {
    && i in s.incidents
    && (|| s.incidents[i].takenBy == Some(u)
        || ((i, u) in s.collabs && s.collabs[(i, u)].role.Leader? && s.collabs[(i, u)].status.Accepted?))
  }

  /** The post-save signal: a new collaboration survives only if there is a leader to be told of it. */
  predicate CollabSurvives(takenBy: Option<UserId>, u: UserId, role: Role, leaderMail: bool) {
    takenBy.Some? && (takenBy.value == u || role.Leader? || leaderMail)
  }

  function WithCollab(cs: Collabs, k: CollabKey, c: Collab, takenBy: Option<UserId>, leaderMail: bool): Collabs {
    if CollabSurvives(takenBy, k.1, c.role, leaderMail) then cs[k := c] else cs
  }

  /** get_or_create with the leader's defaults. */
  function LeaderCollab(cs: Collabs, k: CollabKey): Collabs {
    if k in cs then cs else cs[k := Collab(Leader, Accepted, None)]
  }

  function AcceptedCollab(cs: Collabs, k: CollabKey): Collabs
    requires k in cs
  {
    cs[k := cs[k].(status := Accepted)]
  }

  predicate IsContributorOf(k: CollabKey, c: Collab, i: IncidentId) {
    k.0 == i && c.role.Contributor? && c.status.Accepted?
  }

  /** terminate_active_collaborations */
  function CollabsTerminated(cs: Collabs, i: IncidentId): Collabs {
    map k | k in cs :: if k.0 == i && cs[k].status.Accepted? then cs[k].(status := Terminated) else cs[k]
  }

  function ContributorsPending(cs: Collabs, i: IncidentId, leader: UserId): Collabs {
    map k | k in cs ::
      if IsContributorOf(k, cs[k], i) && k.1 != leader then cs[k].(status := Pending) else cs[k]
  }

  function ContributorsProposed(cs: Collabs, i: IncidentId, leaving: UserId): Collabs {
    map k | k in cs ::
      if IsContributorOf(k, cs[k], i) && k.1 != leaving then cs[k].(role := Leader, status := Pending) else cs[k]
  }

  function WithoutLeaver(cs: Collabs, i: IncidentId, leaving: UserId): Collabs {
    if (i, leaving) in cs then cs[(i, leaving) := cs[(i, leaving)].(status := Terminated)] else cs
  }

  predicate HasCandidates(cs: Collabs, i: IncidentId, leaving: UserId) {
    exists k | k in cs :: IsContributorOf(k, cs[k], i) && k.1 != leaving
  }

  // ---- Progress ------------------------------------------------------------------------------

  function ConfirmedTasks(ts: Tasks, i: IncidentId): set<TaskId> {
    set t | t in ts && ts[t].incident == i && ts[t].confirmed
  }

  function DoneTasks(ts: Tasks, i: IncidentId): set<TaskId> {
    set t | t in ts && ts[t].incident == i && ts[t].confirmed && ts[t].state.Done?
  }

  /** What the progress column ought to hold. */
  function ProgressOf(etat: Etat, ts: Tasks, i: IncidentId): nat {
    if Closed(etat) then 100 else Progress.Percentage(|DoneTasks(ts, i)|, |ConfirmedTasks(ts, i)|)
  }

  /** Incident.update_progress */
  function Refreshed(s: State, i: IncidentId, now: Time): State
    requires i in s.incidents
  {
    Act(s, i, now, Rows.Recount(ProgressOf(s.incidents[i].etat, s.tasks, i)))
  }

  // ---- Lifecycle requests --------------------------------------------------------------------

  function ApplyHandle(s: State, now: Time, i: IncidentId, u: UserId, target: Option<Etat>): Outcome {
    if i !in s.incidents then Outcome(NotFound, s)
    else if target == Some(Taken) && s.incidents[i].etat.Declared? then
      Outcome(Ok, Act(s, i, now, Rows.LegacyTake(u)))
    else if target == Some(Resolved) && s.incidents[i].etat.Taken? then
      Outcome(Ok, Act(s, i, now, Rows.LegacyResolve))
    else Outcome(BadRequest, s)
  }

  function ApplyTakeInternal(s: State, now: Time, i: IncidentId, u: UserId): Outcome
    requires i in s.incidents
  {
    if !Rows.Enabled(s.incidents[i], Rows.TakeInternal(u)) then Outcome(BadRequest, s)
    else
      Outcome(Ok, Act(s, i, now, Rows.TakeInternal(u)).(collabs := LeaderCollab(s.collabs, (i, u))))
  }

  function ApplyLead(s: State, now: Time, i: IncidentId, u: UserId): Outcome
    requires i in s.incidents
  {
    if !Rows.Enabled(s.incidents[i], Rows.Lead(u)) || (i, u) in s.collabs then Outcome(BadRequest, s)
    else
      var joined := s.collabs[(i, u) := Collab(Leader, Accepted, None)];
      Outcome(Ok, Act(s, i, now, Rows.Lead(u)).(collabs := ContributorsPending(joined, i, u)))
  }

  /** A collaboration that opens the incident to others when no mode was chosen yet. */
  function Opened(s: State, i: IncidentId, now: Time): State
    requires i in s.incidents
  {
    if s.incidents[i].mode.None? then Act(s, i, now, Rows.OpenToOthers) else s
  }

  function ApplyJoin(s: State, now: Time, i: IncidentId, u: UserId, role: Role, leaderMail: bool): Outcome
    requires i in s.incidents
  {
    var r := s.incidents[i];
    if r.mode == Some(Internal) || (i, u) in s.collabs then Outcome(BadRequest, s)
    else
      var status := if role.Observer? || r.takenBy.None? then Accepted else Pending;
      var cs := WithCollab(s.collabs, (i, u), Collab(role, status, None), r.takenBy, leaderMail);
      Outcome(Ok, Opened(s, i, now).(collabs := cs))
  }

  function ApplyTakeInCharge(s: State, now: Time, i: IncidentId, u: UserId,
                             mode: Option<Mode>, role: Option<Role>, leaderMail: bool): Outcome {
    if i !in s.incidents then Outcome(NotFound, s)
    else if s.incidents[i].etat.Resolved? || mode.None? then Outcome(BadRequest, s)
    else if mode.value.Internal? then ApplyTakeInternal(s, now, i, u)
    else if role.None? then Outcome(BadRequest, s)
    else if role.value.Leader? then ApplyLead(s, now, i, u)
    else ApplyJoin(s, now, i, u, role.value, leaderMail)
  }

  predicate HasOpenTask(ts: Tasks, i: IncidentId) {
    exists t | t in ts :: ts[t].incident == i && !ts[t].state.Done? && !ts[t].state.Failed?
  }

  function ApplyClose(s: State, now: Time, i: IncidentId, u: UserId, start: Option<int>, end: Option<int>): Outcome {
    if i !in s.incidents then Outcome(NotFound, s)
    else if !IsLeader(s, i, u) then Outcome(Forbidden, s)
    else if s.incidents[i].etat.Resolved? || start.None? || end.None? || HasOpenTask(s.tasks, i) then
      Outcome(BadRequest, s)
    else Outcome(Ok, Act(s, i, now, Rows.Close(start.value, end.value)))
  }

  function ApplyDisengage(s: State, now: Time, i: IncidentId, u: UserId): Outcome {
    if i !in s.incidents then Outcome(NotFound, s)
    else if !IsLeader(s, i, u) then Outcome(Forbidden, s)
    else if !s.incidents[i].etat.Taken? then Outcome(BadRequest, s)
    else
      var cs := WithoutLeaver(s.collabs, i, u);
      if HasCandidates(cs, i, u) then
        Outcome(Ok, Act(s, i, now, Rows.DisengageWithCandidates).(collabs := ContributorsProposed(cs, i, u)))
      else
        Outcome(Ok, Act(s, i, now, Rows.DisengageAlone).(collabs := CollabsTerminated(cs, i)))
  }

  /** The requests whose only guard is the row's state. */
  function ApplyGuarded(s: State, now: Time, i: IncidentId, a: Rows.Action): Outcome {
    if i !in s.incidents then Outcome(NotFound, s)
    else if !Rows.Enabled(s.incidents[i], a) then Outcome(BadRequest, s)
    else Outcome(Ok, Act(s, i, now, a))
  }

  function ApplyValidate(s: State, now: Time, i: IncidentId): Outcome {
    var o := ApplyGuarded(s, now, i, Rows.Validate);
    if o.response.Ok? then o.(state := o.state.(collabs := CollabsTerminated(s.collabs, i))) else o
  }

  function ApplyLife(s: State, now: Time, i: IncidentId, op: LifeOp): Outcome {
    match op
    case Handle(u, target) => ApplyHandle(s, now, i, u, target)
    case TakeInCharge(u, mode, role, mail) => ApplyTakeInCharge(s, now, i, u, mode, role, mail)
    case Close(u, start, end) => ApplyClose(s, now, i, u, start, end)
    case Prepare(u) => ApplyGuarded(s, now, i, Rows.Prepare(u))
    case ReturnForCompletion => ApplyGuarded(s, now, i, Rows.ReturnForCompletion)
    case DeclareResolved => ApplyGuarded(s, now, i, Rows.DeclareResolved)
    case Disengage(u) => ApplyDisengage(s, now, i, u)
    case Validate => ApplyValidate(s, now, i)
    case Reject(motif) => ApplyGuarded(s, now, i, Rows.Reject(motif))
  }

  // ---- Collaboration requests ----------------------------------------------------------------

  function ApplyRequest(s: State, now: Time, i: IncidentId, u: UserId,
                        role: Option<Role>, endDate: Option<int>, leaderMail: bool): Outcome {
    if || i !in s.incidents
       || role == Some(Leader)
       || (endDate.Some? && endDate.value <= DateOf(now))
       || s.incidents[i].etat.Resolved?
       || ((i, u) in s.collabs && (s.collabs[(i, u)].status.Pending? || s.collabs[(i, u)].status.Accepted?))
    then Outcome(BadRequest, s)
    else
      var r := s.incidents[i];
      var status :=
        if r.mode == Some(Internal) then Pending
        else if role == Some(Observer) then Accepted
        else if role == Some(Contributor) && r.takenBy.None? then Accepted
        else Pending;
      var c := Collab(if role.None? then Contributor else role.value, status, endDate);
      var cs := WithCollab(s.collabs - {(i, u)}, (i, u), c, r.takenBy, leaderMail);
      Outcome(Ok, (if status.Accepted? then Opened(s, i, now) else s).(collabs := cs))
  }

  /** Accepting an outsider ends the internal mode. */
  function Unlocked(s: State, i: IncidentId, now: Time): State
    requires i in s.incidents
  {
    if s.incidents[i].mode == Some(Internal) then Act(s, i, now, Rows.LeaveInternal) else s
  }

  function ApplyDecide(s: State, now: Time, i: IncidentId, u: UserId, actor: UserId, accept: bool): Outcome {
    if i !in s.incidents || (i, u) !in s.collabs then Outcome(NotFound, s)
    else if !IsLeader(s, i, actor) then Outcome(Forbidden, s)
    else if accept then
      Outcome(Ok, Unlocked(s, i, now).(collabs := AcceptedCollab(s.collabs, (i, u))))
    else
      Outcome(Ok, s.(collabs := s.collabs[(i, u) := s.collabs[(i, u)].(status := Declined)]))
  }

  function ApplyAccept(s: State, now: Time, i: IncidentId, u: UserId, actor: UserId): Outcome {
    if i !in s.incidents || (i, u) !in s.collabs then Outcome(NotFound, s)
    else if !IsLeader(s, i, actor) then Outcome(Forbidden, s)
    else if s.collabs[(i, u)].status.Accepted? then Outcome(BadRequest, s)
    else if s.collabs[(i, u)].endDate.Some? && s.collabs[(i, u)].endDate.value <= DateOf(now) then
      Outcome(BadRequest, s)
    else ApplyDecide(s, now, i, u, actor, true)
  }

  /** IsIncidentLeaderOrContributor; here an accepted leader collaboration is not enough. */
  predicate MaySuggest(s: State, i: IncidentId, actor: UserId, superAdmin: bool, sameOrganisation: bool)
    requires i in s.incidents
  {
    var r := s.incidents[i];
    || superAdmin
    || r.takenBy == Some(actor)
    || (r.mode == Some(Internal) && r.takenBy.Some? && sameOrganisation)
    || ((i, actor) in s.collabs && IsContributorOf((i, actor), s.collabs[(i, actor)], i))
  }

  /** The body names an incident too: it is the one that the form checks, while the URL's gets the suggestion. */
  predicate SuggestionFormValid(s: State, named: IncidentId, u: UserId, role: Option<Role>) {
    && (role == Some(Contributor) || role == Some(Observer))
    && named in s.incidents && !s.incidents[named].etat.Resolved?
    && ((named, u) in s.collabs ==> !s.collabs[(named, u)].status.Accepted?)
    && (named, u) !in s.suggestions
  }

  function ApplySuggest(s: State, i: IncidentId, u: UserId, actor: UserId, superAdmin: bool, sameOrganisation: bool,
                        named: IncidentId, role: Option<Role>): Outcome {
    if i in s.incidents && !MaySuggest(s, i, actor, superAdmin, sameOrganisation) then Outcome(Forbidden, s)
    else if !SuggestionFormValid(s, named, u, role) then Outcome(BadRequest, s)
    else if i !in s.incidents then Outcome(ServerError, s)
    else if s.incidents[i].etat.Resolved? then Outcome(BadRequest, s)
    else if (i, u) in s.suggestions then Outcome(ServerError, s)
    else Outcome(Ok, s.(suggestions := s.suggestions[(i, u) := Suggestion(role.value, Offered)]))
  }

  /** What accepting and rejecting a suggestion refuse alike. */
  function SuggestionRefusal(s: State, i: IncidentId, u: UserId, actor: UserId, superAdmin: bool): Option<Response> {
    if i in s.incidents && !superAdmin && !IsLeader(s, i, actor) then Some(Forbidden)
    else if i !in s.incidents || (i, u) !in s.suggestions then Some(NotFound)
    else if !s.suggestions[(i, u)].status.Offered? then Some(BadRequest)
    else None
  }

  function Treated(s: State, k: CollabKey, status: SuggestionStatus): State
    requires k in s.suggestions
  {
    s.(suggestions := s.suggestions[k := s.suggestions[k].(status := status)])
  }

  function ApplyAdopt(s: State, i: IncidentId, u: UserId, actor: UserId, superAdmin: bool, leaderMail: bool): Outcome {
    var refusal := SuggestionRefusal(s, i, u, actor, superAdmin);
    if refusal.Some? then Outcome(refusal.value, s)
    else
      var role := s.suggestions[(i, u)].role;
      var cs := if (i, u) in s.collabs then s.collabs[(i, u) := s.collabs[(i, u)].(role := role, status := Accepted)]
                else WithCollab(s.collabs, (i, u), Collab(role, Accepted, None), s.incidents[i].takenBy, leaderMail);
      Outcome(Ok, Treated(s, (i, u), Adopted).(collabs := cs))
  }

  function ApplyDismiss(s: State, i: IncidentId, u: UserId, actor: UserId, superAdmin: bool): Outcome {
    var refusal := SuggestionRefusal(s, i, u, actor, superAdmin);
    if refusal.Some? then Outcome(refusal.value, s) else Outcome(Ok, Treated(s, (i, u), Dismissed))
  }

  function ApplyDiscuss(s: State, i: IncidentId, u: UserId, sameOrganisation: bool): Outcome {
    if i !in s.incidents then Outcome(NotFound, s)
    else
      var r := s.incidents[i];
      if (if r.mode == Some(Internal) then r.takenBy.Some? && sameOrganisation else r.takenBy == Some(u)) then
        Outcome(Ok, s.(collabs := AcceptedCollab(LeaderCollab(s.collabs, (i, u)), (i, u))))
      else if !(r.mode == Some(Internal)) && (i, u) in s.collabs && s.collabs[(i, u)].status.Accepted? then
        Outcome(Ok, s)
      else Outcome(NotFound, s)
  }

  function ApplyCollab(s: State, now: Time, i: IncidentId, u: UserId, op: CollabOp): Outcome {
    match op
    case Request(role, endDate, mail) => ApplyRequest(s, now, i, u, role, endDate, mail)
    case Decide(actor, accept) => ApplyDecide(s, now, i, u, actor, accept)
    case Accept(actor) => ApplyAccept(s, now, i, u, actor)
    case Decline(actor) => ApplyDecide(s, now, i, u, actor, false)
    case Suggest(actor, superAdmin, same, named, role) => ApplySuggest(s, i, u, actor, superAdmin, same, named, role)
    case AdoptSuggestion(actor, superAdmin, mail) => ApplyAdopt(s, i, u, actor, superAdmin, mail)
    case DismissSuggestion(actor, superAdmin) => ApplyDismiss(s, i, u, actor, superAdmin)
    case Discuss(same) => ApplyDiscuss(s, i, u, same)
  }

  // ---- Assignment to an organisation ---------------------------------------------------------

  predicate HasWaiting(asg: Assignments, i: IncidentId) {
    exists a | a in asg :: asg[a].incident == i && asg[a].status.Waiting?
  }

  /** A fresh identifier is drawn for every assignment: reusing one is not a request. */
  function ApplyAssignTo(s: State, now: Time, a: AssignmentId, i: IncidentId, org: Option<OrgId>): Outcome {
    if i !in s.incidents then Outcome(NotFound, s)
    else if org.None? then Outcome(BadRequest, s)
    else if a in s.assignments || HasWaiting(s.assignments, i) then Outcome(BadRequest, s)
    else
      var row := Assignment(i, org.value, Waiting, now, now + RESPONSE_DELAY, None, None);
      Outcome(Ok, s.(assignments := s.assignments[a := row]))
  }

  /** engage_incident: only a declared incident moves. */
  function Engaged(s: State, i: IncidentId, now: Time, a: Rows.Action): State {
    if i in s.incidents && s.incidents[i].etat.Declared? then Act(s, i, now, a) else s
  }

  function ApplyAcceptAssignment(s: State, now: Time, a: AssignmentId, i: IncidentId,
                                 u: UserId, userOrg: Option<OrgId>): Outcome {
    if a !in s.assignments || s.assignments[a].incident != i then Outcome(NotFound, s)
    else if userOrg != Some(s.assignments[a].organisation) then Outcome(Forbidden, s)
    else if !s.assignments[a].status.Waiting? then Outcome(BadRequest, s)
    else
      var row := s.assignments[a].(status := Agreed, respondedAt := Some(now));
      Outcome(Ok, Engaged(s, i, now, Rows.EngageByAssignment(u)).(assignments := s.assignments[a := row]))
  }

  function ApplyDeclineAssignment(s: State, now: Time, a: AssignmentId, i: IncidentId,
                                  userOrg: Option<OrgId>, reason: string): Outcome {
    if a !in s.assignments || s.assignments[a].incident != i then Outcome(NotFound, s)
    else if userOrg != Some(s.assignments[a].organisation) then Outcome(Forbidden, s)
    else if !s.assignments[a].status.Waiting? then Outcome(BadRequest, s)
    else
      var row := s.assignments[a].(status := Refused, respondedAt := Some(now),
                                   declineReason := if reason == "" then None else Some(reason));
      Outcome(Ok, s.(assignments := s.assignments[a := row]))
  }

  function ApplyAssign(s: State, now: Time, a: AssignmentId, i: IncidentId, op: AssignOp): Outcome {
    match op
    case AssignTo(org) => ApplyAssignTo(s, now, a, i, org)
    case AcceptAssignment(u, org) => ApplyAcceptAssignment(s, now, a, i, u, org)
    case DeclineAssignment(org, reason) => ApplyDeclineAssignment(s, now, a, i, org, reason)
  }

  // ---- Trash ---------------------------------------------------------------------------------

  /** Deleting incidents for good takes everything attached to them along. */
  function Erased(s: State, gone: set<IncidentId>): State {
    State(
      map i | i in s.incidents && i !in gone :: s.incidents[i],
      map k | k in s.collabs && k.0 !in gone :: s.collabs[k],
      map a | a in s.assignments && s.assignments[a].incident !in gone :: s.assignments[a],
      map t | t in s.tasks && s.tasks[t].incident !in gone :: s.tasks[t],
      map k | k in s.suggestions && k.0 !in gone :: s.suggestions[k])
  }

  function ApplyBin(s: State, now: Time, i: IncidentId, op: TrashOp): Outcome {
    if i !in s.incidents then Outcome(NotFound, s)
    else if (op.Restore? || op.ForceDelete?) && !s.incidents[i].isDeleted then Outcome(NotFound, s)
    else
      match op
      case Delete(superAdmin) =>
        if superAdmin then Outcome(Ok, Act(s, i, now, Rows.Trash)) else Outcome(Forbidden, s)
      case BulkDelete(superAdmin) =>
        if !superAdmin then Outcome(Forbidden, s)
        else Outcome(Ok, if s.incidents[i].isDeleted then s else Act(s, i, now, Rows.Trash))
      case Restore => Outcome(Ok, Act(s, i, now, Rows.Restore))
      case ForceDelete => Outcome(Ok, Erased(s, {i}))
  }

  // ---- Tasks ---------------------------------------------------------------------------------

  function Or<T>(o: Option<T>, default: T): T {
    if o.Some? then o.value else default
  }

  function Patched(t: Task, b: TaskPatch): Task {
    t.(start := Or(b.start, t.start), end := Or(b.end, t.end), state := Or(b.state, t.state),
       proofImage := Or(b.proofImage, t.proofImage), proofVideo := Or(b.proofVideo, t.proofVideo),
       failureReason := Or(b.failureReason, t.failureReason))
  }

  /** IncidentTask.clean, which IncidentTaskSerializer.validate repeats on the merged values. */
  predicate Clean(t: Task) {
    && t.start <= t.end
    && (t.state.Done? ==> t.proofImage || t.proofVideo)
    && (t.state.Failed? ==> t.failureReason != "")
  }

  /** IncidentTask.save: store the row, then refresh the incident's progress. */
  function TaskSaved(s: State, now: Time, t: TaskId, row: Task): Outcome
    requires row.incident in s.incidents
  {
    Outcome(Ok, Refreshed(s.(tasks := s.tasks[t := row]), row.incident, now))
  }

  function ApplyTaskCreate(s: State, now: Time, i: IncidentId, t: TaskId, start: int, end: int, b: TaskPatch): Outcome {
    var blank := Task(i, start, end, Todo, false, false, "", false);
    var row := Patched(blank, b.(start := Some(start), end := Some(end)));
    if i !in s.incidents then Outcome(NotFound, s)
    else if t in s.tasks || !Clean(row) || s.incidents[i].etat.Resolved? then Outcome(BadRequest, s)
    else TaskSaved(s, now, t, row)
  }

  function ApplyTask(s: State, now: Time, i: IncidentId, t: TaskId, op: TaskOp): Outcome {
    if op.Create? then ApplyTaskCreate(s, now, i, t, op.start, op.end, op.body)
    else if i !in s.incidents || t !in s.tasks || s.tasks[t].incident != i then Outcome(NotFound, s)
    else
      var row := s.tasks[t];
      match op
      case Update(b) =>
        if s.incidents[i].etat.Resolved? || !Clean(Patched(row, b)) then Outcome(BadRequest, s)
        else TaskSaved(s, now, t, Patched(row, b))
      case Confirm => TaskSaved(s, now, t, row.(confirmed := true))
      case Complete(image, video) =>
        if !image && !video then Outcome(BadRequest, s)
        else
          TaskSaved(s, now, t, row.(state := Done, proofImage := image || row.proofImage,
                                    proofVideo := video || row.proofVideo))
      case Fail(reason) =>
        if reason == "" then Outcome(BadRequest, s)
        else TaskSaved(s, now, t, row.(state := Failed, failureReason := reason))
      case Relaunch =>
        if !row.state.Failed? then Outcome(BadRequest, s) else TaskSaved(s, now, t, row.(state := Todo))
      case Remove => Outcome(Ok, Refreshed(s.(tasks := s.tasks - {t}), i, now))
  }

  // ---- Sweeps --------------------------------------------------------------------------------

  predicate ValidationOverdue(r: Rows.Incident, now: Time) {
    r.etat.InValidation? && r.file.validationDeadline.Some? && r.file.validationDeadline.value < now
  }

  predicate TrashExpired(r: Rows.Incident, now: Time) {
    r.isDeleted && r.deletedAt.Some? && r.deletedAt.value < now - TRASH_DELAY
  }

  predicate AnswerOverdue(a: Assignment, now: Time) {
    a.status.Waiting? && a.deadline < now
  }

  function OverdueValidations(s: State, now: Time): set<IncidentId> {
    set i | i in s.incidents && ValidationOverdue(s.incidents[i], now)
  }

  function ExpiredTrash(s: State, now: Time): set<IncidentId> {
    set i | i in s.incidents && TrashExpired(s.incidents[i], now)
  }

  function OverdueAnswers(s: State, now: Time): set<AssignmentId> {
    set a | a in s.assignments && AnswerOverdue(s.assignments[a], now)
  }

  function SweepValidate(s: State, now: Time): State {
    var due := OverdueValidations(s, now);
    s.(incidents := map i | i in s.incidents ::
                      if i in due then Rows.Next(s.incidents[i], now, Rows.Validate) else s.incidents[i],
       collabs := map k | k in s.collabs ::
                    if k.0 in due && s.collabs[k].status.Accepted? then s.collabs[k].(status := Terminated)
                    else s.collabs[k])
  }

  function SweepAntiGel(s: State, now: Time): State {
    s.(incidents := map i | i in s.incidents :: Rows.Next(s.incidents[i], now, Rows.AntiGel))
  }

  function Lookup(m: map<OrgId, UserId>, org: OrgId): Option<UserId> {
    if org in m then Some(m[org]) else None
  }

  /** The overdue assignment of an incident, when there is exactly one to speak for it. */
  ghost predicate SpeaksFor(s: State, now: Time, a: AssignmentId, i: IncidentId) {
    a in OverdueAnswers(s, now) && s.assignments[a].incident == i
  }

  ghost function TacitLeader(s: State, now: Time, firstAdmin: map<OrgId, UserId>, i: IncidentId): Option<UserId>
    requires exists a :: SpeaksFor(s, now, a, i)
  {
    var a :| SpeaksFor(s, now, a, i);
    Lookup(firstAdmin, s.assignments[a].organisation)
  }

  ghost function TacitRow(s: State, now: Time, firstAdmin: map<OrgId, UserId>, i: IncidentId): Rows.Incident
    requires i in s.incidents
  {
    if s.incidents[i].etat.Declared? && exists a :: SpeaksFor(s, now, a, i)
    then Rows.Next(s.incidents[i], now, Rows.EngageTacitly(TacitLeader(s, now, firstAdmin, i)))
    else s.incidents[i]
  }

  ghost function SweepAccept(s: State, now: Time, firstAdmin: map<OrgId, UserId>): State {
    s.(assignments := map a | a in s.assignments ::
                        if AnswerOverdue(s.assignments[a], now)
                        then s.assignments[a].(status := Agreed, respondedAt := Some(now))
                        else s.assignments[a],
       incidents := map i | i in s.incidents :: TacitRow(s, now, firstAdmin, i))
  }

  ghost function ApplySweep(s: State, now: Time, sweep: Sweep): State {
    match sweep
    case AutoValidate => SweepValidate(s, now)
    case AntiGel => SweepAntiGel(s, now)
    case PurgeTrash => Erased(s, ExpiredTrash(s, now))
    case AutoAccept(firstAdmin) => SweepAccept(s, now, firstAdmin)
  }

  // ---- Every step ----------------------------------------------------------------------------

  /** A fresh identifier is drawn for every report: reusing one is not a request. */
  function ApplyReport(s: State, i: IncidentId, severity: Option<Severity>): Outcome {
    if i in s.incidents then Outcome(BadRequest, s)
    else Outcome(Ok, s.(incidents := s.incidents[i := Rows.NewIncident(severity)]))
  }

  ghost function Apply(s: State, now: Time, op: Op): Outcome {
    match op
    case Report(i, severity) => ApplyReport(s, i, severity)
    case Life(i, life) => ApplyLife(s, now, i, life)
    case Collaborate(i, u, collab) => ApplyCollab(s, now, i, u, collab)
    case Assign(a, i, assign) => ApplyAssign(s, now, a, i, assign)
    case Bin(i, bin) => ApplyBin(s, now, i, bin)
    case OnTask(i, t, taskOp) => ApplyTask(s, now, i, t, taskOp)
    case Run(sweep) => Outcome(Ok, ApplySweep(s, now, sweep))
  }
}
