/** What holds of the tables after any sequence of requests and sweeps. */
module Invariants {
  import opened Domain
  import opened Store
  import opened Effects
  import Rows = IncidentRows

  ghost predicate RowsInv(s: State) {
    forall i :: i in s.incidents ==> Rows.RowInv(s.incidents[i])
  }

  /** Foreign keys point at existing incidents. */
  ghost predicate Linked(s: State) {
    && (forall k :: k in s.collabs ==> k.0 in s.incidents)
    && (forall k :: k in s.suggestions ==> k.0 in s.incidents)
    && (forall a :: a in s.assignments ==> s.assignments[a].incident in s.incidents)
    && (forall t :: t in s.tasks ==> s.tasks[t].incident in s.incidents)
  }

  ghost predicate WaitingOn(asg: Assignments, a: AssignmentId, i: IncidentId) {
    a in asg && asg[a].status.Waiting? && asg[a].incident == i
  }

  /** An incident waits for at most one organisation, each within 72 hours of being asked. */
  ghost predicate OneWaiting(asg: Assignments) {
    && (forall i, a, b :: WaitingOn(asg, a, i) && WaitingOn(asg, b, i) ==> a == b)
    && (forall a :: a in asg ==> asg[a].deadline == asg[a].createdAt + 72 * 3_600_000_000)
  }

  ghost predicate TasksClean(s: State) {
    forall t :: t in s.tasks ==> Clean(s.tasks[t])
  }

  /** The stored progress is the recount. */
  ghost predicate ProgressExact(s: State) {
    forall i :: i in s.incidents ==> s.incidents[i].progress == ProgressOf(s.incidents[i].etat, s.tasks, i)
  }

  /** Nobody is suggested as a leader. */
  ghost predicate MinorRoles(s: State) {
    forall k :: k in s.suggestions ==> !s.suggestions[k].role.Leader?
  }

  ghost predicate Inv(s: State) {
    && RowsInv(s) && Linked(s) && OneWaiting(s.assignments) && TasksClean(s) && ProgressExact(s)
    && MinorRoles(s)
  }

  lemma RowsKept(s: State, now: Time, op: Op)
    requires RowsInv(s)
    ensures RowsInv(Apply(s, now, op).state)
  {
    var t := Apply(s, now, op).state;
    forall i | i in t.incidents
      ensures Rows.RowInv(t.incidents[i])
    {
      if i in s.incidents {
        var a := RowEffect(s, now, op, i);
        if a.Some? {
          Rows.NextKeepsRowInv(s.incidents[i], now, a.value);
        }
      } else {
        OnlyReportsCreate(s, now, op, i);
      }
    }
  }

  // ---- Which tables a step writes ------------------------------------------------------------

  /** Rows disappear only by being erased, and what was attached to them goes with them. */
  predicate Erases(op: Op) {
    || op == Run(PurgeTrash)
    || (op.Bin? && op.bin.ForceDelete?)
  }

  lemma ErasureShape(s: State, now: Time, op: Op) returns (gone: set<IncidentId>)
    requires Erases(op)
    ensures Apply(s, now, op).state == Erased(s, gone) || Apply(s, now, op).state == s
  {
    gone := if op.Run? then ExpiredTrash(s, now) else {op.incident};
  }

  lemma RowsPersist(s: State, now: Time, op: Op)
    requires !Erases(op)
    ensures s.incidents.Keys <= Apply(s, now, op).state.incidents.Keys
  {
    var t := Apply(s, now, op).state;
    forall i | i in s.incidents
      ensures i in t.incidents
    {
      if Target(op).Some? && Target(op) != Some(i) {
        OthersUntouched(s, now, op, i);
      } else {
        match op
        case Life(_, life) => var a := LifeEffect(s, now, i, life);
        case Collaborate(_, u, collab) => var a := CollabEffect(s, now, i, u, collab);
        case Assign(x, _, assign) => var a := AssignEffect(s, now, x, i, assign);
        case OnTask(_, x, taskOp) => var a := TaskEffect(s, now, i, x, taskOp);
        case _ =>
      }
    }
  }

  lemma TasksTouched(s: State, now: Time, op: Op)
    requires !Erases(op) && !op.OnTask?
    ensures Apply(s, now, op).state.tasks == s.tasks
  {
    match op
    case Life(i, life) => LifeOtherTables(s, now, i, life);
    case Collaborate(i, u, collab) => CollabOtherTables(s, now, i, u, collab);
    case Assign(_, _, assign) =>
    case _ =>
  }

  lemma AssignmentsTouched(s: State, now: Time, op: Op)
    requires !Erases(op) && !op.Assign? && !(op.Run? && op.sweep.AutoAccept?)
    ensures Apply(s, now, op).state.assignments == s.assignments
  {
    match op
    case Life(i, life) => LifeOtherTables(s, now, i, life);
    case Collaborate(i, u, collab) => CollabOtherTables(s, now, i, u, collab);
    case OnTask(i, t, taskOp) => TaskStepShape(s, now, i, t, taskOp);
    case _ =>
  }

  /** t has at most other incidents and collaborations than s. */
  ghost predicate OtherTablesKept(s: State, t: State) {
    t.tasks == s.tasks && t.assignments == s.assignments && t.suggestions == s.suggestions
  }

  lemma LeadOtherTables(s: State, now: Time, i: IncidentId, u: UserId)
    requires i in s.incidents
    ensures OtherTablesKept(s, ApplyLead(s, now, i, u).state)
    ensures OtherTablesKept(s, ApplyTakeInternal(s, now, i, u).state)
  {
  }

  lemma JoinOtherTables(s: State, now: Time, i: IncidentId, u: UserId, role: Role, mail: bool)
    requires i in s.incidents
    ensures OtherTablesKept(s, ApplyJoin(s, now, i, u, role, mail).state)
  {
  }

  lemma DisengageOtherTables(s: State, now: Time, i: IncidentId, u: UserId)
    ensures OtherTablesKept(s, ApplyDisengage(s, now, i, u).state)
  {
  }

  lemma TakeOtherTables(s: State, now: Time, i: IncidentId, u: UserId, mode: Option<Mode>, role: Option<Role>,
                        mail: bool)
    ensures OtherTablesKept(s, ApplyTakeInCharge(s, now, i, u, mode, role, mail).state)
  {
    if i in s.incidents {
      LeadOtherTables(s, now, i, u);
      if role.Some? {
        JoinOtherTables(s, now, i, u, role.value, mail);
      }
    }
  }

  lemma GuardedOtherTables(s: State, now: Time, i: IncidentId, a: Rows.Action)
    ensures OtherTablesKept(s, ApplyGuarded(s, now, i, a).state)
  {
  }

  lemma LifeOtherTables(s: State, now: Time, i: IncidentId, op: LifeOp)
    ensures OtherTablesKept(s, ApplyLife(s, now, i, op).state)
  {
    match op
    case TakeInCharge(u, mode, role, mail) => TakeOtherTables(s, now, i, u, mode, role, mail);
    case Disengage(u) => DisengageOtherTables(s, now, i, u);
    case Handle(_, _) =>
    case Close(_, _, _) =>
    case Prepare(u) => GuardedOtherTables(s, now, i, Rows.Prepare(u));
    case ReturnForCompletion => GuardedOtherTables(s, now, i, Rows.ReturnForCompletion);
    case DeclareResolved => GuardedOtherTables(s, now, i, Rows.DeclareResolved);
    case Reject(motif) => GuardedOtherTables(s, now, i, Rows.Reject(motif));
    case Validate => GuardedOtherTables(s, now, i, Rows.Validate);
  }

  lemma LifeCollabs(s: State, now: Time, i: IncidentId, op: LifeOp)
    ensures forall k :: k in ApplyLife(s, now, i, op).state.collabs ==>
              k in s.collabs || (k.0 == i && i in s.incidents)
  {
    match op
    case TakeInCharge(u, mode, role, mail) =>
    case Disengage(u) =>
    case Validate =>
    case _ =>
  }

  lemma CollabOtherTables(s: State, now: Time, i: IncidentId, u: UserId, op: CollabOp)
    ensures ApplyCollab(s, now, i, u, op).state.tasks == s.tasks
    ensures ApplyCollab(s, now, i, u, op).state.assignments == s.assignments
  {
  }

  lemma CollabCollabs(s: State, now: Time, i: IncidentId, u: UserId, op: CollabOp)
    ensures forall k :: k in ApplyCollab(s, now, i, u, op).state.collabs ==>
              k in s.collabs || (k == (i, u) && i in s.incidents)
  {
  }

  /** New collaborations appear only on the incident of the request that asks for them. */
  lemma CollabLinks(s: State, now: Time, op: Op)
    requires Linked(s) && !Erases(op)
    ensures forall k :: k in Apply(s, now, op).state.collabs ==> k.0 in s.incidents
  {
    match op
    case Life(i, life) => LifeCollabs(s, now, i, life);
    case Collaborate(i, u, collab) => CollabCollabs(s, now, i, u, collab);
    case OnTask(i, t, taskOp) => TaskStepShape(s, now, i, t, taskOp);
    case Assign(_, _, _) =>
    case _ =>
  }

  lemma TaskLinks(s: State, now: Time, op: Op)
    requires Linked(s) && !Erases(op)
    ensures forall x :: x in Apply(s, now, op).state.tasks ==> Apply(s, now, op).state.tasks[x].incident in s.incidents
  {
    if op.OnTask? {
      TaskStepShape(s, now, op.incident, op.task, op.taskOp);
    } else {
      TasksTouched(s, now, op);
    }
  }

  lemma AssignmentLinks(s: State, now: Time, op: Op)
    requires Linked(s) && !Erases(op)
    ensures forall a :: a in Apply(s, now, op).state.assignments ==>
              Apply(s, now, op).state.assignments[a].incident in s.incidents
  {
    if !op.Assign? && !(op.Run? && op.sweep.AutoAccept?) {
      AssignmentsTouched(s, now, op);
    }
  }

  // ---- Links ---------------------------------------------------------------------------------

  lemma LinksKept(s: State, now: Time, op: Op)
    requires Linked(s)
    ensures Linked(Apply(s, now, op).state)
  {
    if Erases(op) {
      var gone := ErasureShape(s, now, op);
    } else {
      RowsPersist(s, now, op);
      CollabLinks(s, now, op);
      TaskLinks(s, now, op);
      AssignmentLinks(s, now, op);
      SuggestionStep(s, now, op);
    }
  }

  // ---- Suggestions ---------------------------------------------------------------------------

  /** One suggestion: a new one is an offer of a minor role, an old one keeps its role and is treated once. */
  ghost predicate SuggestionMoves(s: State, t: State, op: Op, k: CollabKey)
    requires k in t.suggestions
  {
    if k in s.suggestions then
      && t.suggestions[k].role == s.suggestions[k].role
      && (t.suggestions[k] != s.suggestions[k] ==>
            s.suggestions[k].status.Offered? && !t.suggestions[k].status.Offered?)
    else
      && op.Collaborate? && op.collab.Suggest? && k == (op.incident, op.user) && k.0 in s.incidents
      && t.suggestions[k].status.Offered? && !t.suggestions[k].role.Leader?
  }

  lemma SuggestionStep(s: State, now: Time, op: Op)
    requires !Erases(op)
    ensures var t := Apply(s, now, op).state;
            && s.suggestions.Keys <= t.suggestions.Keys
            && forall k :: k in t.suggestions ==> SuggestionMoves(s, t, op, k)
  {
    match op
    case Life(i, life) => LifeOtherTables(s, now, i, life);
    case Collaborate(i, u, collab) => SuggestionsOfRequest(s, now, i, u, collab);
    case OnTask(i, t, taskOp) => TaskStepShape(s, now, i, t, taskOp);
    case Assign(_, _, assign) =>
    case _ =>
  }

  lemma SuggestionsOfRequest(s: State, now: Time, i: IncidentId, u: UserId, op: CollabOp)
    ensures var t := ApplyCollab(s, now, i, u, op).state;
            && s.suggestions.Keys <= t.suggestions.Keys
            && forall k :: k in t.suggestions ==> SuggestionMoves(s, t, Collaborate(i, u, op), k)
  {
  }

  lemma MinorRolesKept(s: State, now: Time, op: Op)
    requires MinorRoles(s)
    ensures MinorRoles(Apply(s, now, op).state)
  {
    if Erases(op) {
      var gone := ErasureShape(s, now, op);
    } else {
      SuggestionStep(s, now, op);
      var t := Apply(s, now, op).state;
      assert forall k :: k in t.suggestions ==> SuggestionMoves(s, t, op, k);
    }
  }

  // ---- Assignments ---------------------------------------------------------------------------

  /** Where nothing new waits and no deadline moves, nothing can go wrong. */
  lemma FewerWaiting(before: Assignments, after: Assignments)
    requires OneWaiting(before)
    requires forall a :: a in after ==>
               && a in before && after[a].incident == before[a].incident
               && after[a].deadline == before[a].deadline && after[a].createdAt == before[a].createdAt
               && (after[a].status.Waiting? ==> before[a].status.Waiting?)
    ensures OneWaiting(after)
  {
    forall i, a, b | WaitingOn(after, a, i) && WaitingOn(after, b, i)
      ensures a == b
    {
      assert WaitingOn(before, a, i) && WaitingOn(before, b, i);
    }
  }

  lemma AnswersKeepOneWaiting(s: State, now: Time, x: AssignmentId, i: IncidentId, op: AssignOp)
    requires OneWaiting(s.assignments) && !op.AssignTo?
    ensures OneWaiting(ApplyAssign(s, now, x, i, op).state.assignments)
  {
    FewerWaiting(s.assignments, ApplyAssign(s, now, x, i, op).state.assignments);
  }

  lemma AskedKeepsOneWaiting(s: State, now: Time, x: AssignmentId, i: IncidentId, org: Option<OrgId>)
    requires OneWaiting(s.assignments)
    ensures OneWaiting(ApplyAssignTo(s, now, x, i, org).state.assignments)
  {
    var t := ApplyAssignTo(s, now, x, i, org).state.assignments;
    forall j, a, b | WaitingOn(t, a, j) && WaitingOn(t, b, j)
      ensures a == b
    {
      assert a != x ==> WaitingOn(s.assignments, a, j);
      assert b != x ==> WaitingOn(s.assignments, b, j);
    }
  }

  lemma OneWaitingKept(s: State, now: Time, op: Op)
    requires OneWaiting(s.assignments)
    ensures OneWaiting(Apply(s, now, op).state.assignments)
  {
    if Erases(op) {
      var gone := ErasureShape(s, now, op);
      FewerWaiting(s.assignments, Apply(s, now, op).state.assignments);
    } else if op.Assign? && op.assign.AssignTo? {
      AskedKeepsOneWaiting(s, now, op.assignment, op.incident, op.assign.organisation);
    } else if op.Assign? {
      AnswersKeepOneWaiting(s, now, op.assignment, op.incident, op.assign);
    } else if op.Run? && op.sweep.AutoAccept? {
      FewerWaiting(s.assignments, SweepAccept(s, now, op.sweep.firstAdmin).assignments);
    } else {
      AssignmentsTouched(s, now, op);
    }
  }

  // ---- Tasks ---------------------------------------------------------------------------------

  lemma CleanKept(s: State, now: Time, op: Op)
    requires TasksClean(s)
    ensures TasksClean(Apply(s, now, op).state)
  {
    if Erases(op) {
      var gone := ErasureShape(s, now, op);
    } else if op.OnTask? {
      TaskStaysClean(s, now, op.incident, op.task, op.taskOp);
    } else {
      TasksTouched(s, now, op);
    }
  }

  lemma TaskStaysClean(s: State, now: Time, i: IncidentId, x: TaskId, op: TaskOp)
    requires TasksClean(s)
    ensures TasksClean(ApplyTask(s, now, i, x, op).state)
  {
    match op
    case Create(start, end, b) =>
    case Update(b) =>
    case Complete(_, _) =>
    case Fail(_) =>
    case _ =>
  }

  /** The counts of an incident only read the tasks of that incident. */
  lemma CountsAreLocal(ts: Tasks, us: Tasks, etat: Etat, i: IncidentId)
    requires forall t :: t in ts && ts[t].incident == i ==> t in us && us[t] == ts[t]
    requires forall t :: t in us && us[t].incident == i ==> t in ts && ts[t] == us[t]
    ensures ProgressOf(etat, ts, i) == ProgressOf(etat, us, i)
  {
    assert DoneTasks(ts, i) == DoneTasks(us, i);
    assert ConfirmedTasks(ts, i) == ConfirmedTasks(us, i);
  }

  lemma TaskSavedShape(s: State, now: Time, x: TaskId, row: Task)
    requires row.incident in s.incidents
    ensures var u := TaskSaved(s, now, x, row).state;
            var r := s.incidents[row.incident];
            && u.tasks == s.tasks[x := row]
            && u.collabs == s.collabs && u.assignments == s.assignments && u.suggestions == s.suggestions
            && u.incidents == s.incidents[row.incident := r.(progress := ProgressOf(r.etat, u.tasks, row.incident))]
  {
  }

  lemma TaskStepShape(s: State, now: Time, i: IncidentId, x: TaskId, op: TaskOp)
    ensures var u := ApplyTask(s, now, i, x, op).state;
            && (forall t :: t != x ==> (t in s.tasks <==> t in u.tasks))
            && (forall t :: t != x && t in s.tasks ==> u.tasks[t] == s.tasks[t])
            && u.collabs == s.collabs && u.assignments == s.assignments && u.suggestions == s.suggestions
            && (u.tasks == s.tasks || i in s.incidents)
            && (u.tasks != s.tasks && x in s.tasks ==> s.tasks[x].incident == i)
            && (u.tasks != s.tasks && x in u.tasks ==> u.tasks[x].incident == i)
            && (u == s || (i in s.incidents && u.incidents == s.incidents[i := u.incidents[i]]
                           && u.incidents[i].etat == s.incidents[i].etat
                           && u.incidents[i].progress == ProgressOf(s.incidents[i].etat, u.tasks, i)))
  {
    var u := ApplyTask(s, now, i, x, op).state;
    if u != s && !op.Remove? {
      TaskSavedShape(s, now, x, u.tasks[x]);
    }
  }

  lemma ProgressKept(s: State, now: Time, op: Op)
    requires RowsInv(s) && Linked(s) && ProgressExact(s)
    ensures ProgressExact(Apply(s, now, op).state)
  {
    var t := Apply(s, now, op).state;
    forall i | i in t.incidents
      ensures t.incidents[i].progress == ProgressOf(t.incidents[i].etat, t.tasks, i)
    {
      if Erases(op) {
        var gone := ErasureShape(s, now, op);
        CountsAreLocal(s.tasks, t.tasks, t.incidents[i].etat, i);
      } else if op.OnTask? {
        TaskStepShape(s, now, op.incident, op.task, op.taskOp);
        if i != op.incident {
          CountsAreLocal(s.tasks, t.tasks, t.incidents[i].etat, i);
        }
      } else {
        TasksTouched(s, now, op);
        ProgressOfLifecycleStep(s, now, op, i);
      }
    }
  }

  /** Steps that are not about tasks keep the recount, a closing one by forcing 100. */
  lemma ProgressOfLifecycleStep(s: State, now: Time, op: Op, i: IncidentId)
    requires RowsInv(s) && Linked(s) && ProgressExact(s)
    requires !op.OnTask? && i in Apply(s, now, op).state.incidents
    ensures var r := Apply(s, now, op).state.incidents[i];
            r.progress == ProgressOf(r.etat, s.tasks, i)
  {
    if i in s.incidents {
      var a := RowEffect(s, now, op, i);
      if a.Some? {
        Rows.ProgressWriters(s.incidents[i], now, a.value);
        Rows.NextFollowsArrows(s.incidents[i], now, a.value);
        Rows.NextKeepsRowInv(s.incidents[i], now, a.value);
      }
    } else {
      OnlyReportsCreate(s, now, op, i);
      assert ConfirmedTasks(s.tasks, i) == {};
    }
  }

  // ---- All of it -----------------------------------------------------------------------------

  lemma InvInitially()
    ensures Inv(EMPTY)
  {
  }

  /** Every request and every sweep, at any instant, keeps the invariant. */
  lemma InvKept(s: State, now: Time, op: Op)
    requires Inv(s)
    ensures Inv(Apply(s, now, op).state)
  {
    RowsKept(s, now, op);
    LinksKept(s, now, op);
    OneWaitingKept(s, now, op);
    CleanKept(s, now, op);
    ProgressKept(s, now, op);
    MinorRolesKept(s, now, op);
  }
}
