/** What one request or sweep can do to one incident row: at most one action, and only its own. */
module Effects {
  import opened Domain
  import opened Store
  import Progress
  import Rows = IncidentRows

  /** The requests and sweeps that perform an action on incident i. */
  ghost predicate Causes(op: Op, i: IncidentId, r: Rows.Incident, now: Time, a: Rows.Action) {
    match a
    case TakeInternal(u) =>
      op.Life? && op.incident == i && op.life.TakeInCharge? && op.life.user == u && op.life.mode == Some(Internal)
    case Lead(u) =>
      op.Life? && op.incident == i && op.life.TakeInCharge? && op.life.user == u && op.life.role == Some(Leader)
    case EngageByAssignment(u) =>
      op.Assign? && op.incident == i && op.assign.AcceptAssignment? && op.assign.user == u
    case EngageTacitly(_) => op.Run? && op.sweep.AutoAccept?
    case LegacyTake(u) => op == Life(i, Handle(u, Some(Taken)))
    case LegacyResolve => op.Life? && op.incident == i && op.life.Handle?
    case OpenToOthers =>
      || (op.Life? && op.incident == i && op.life.TakeInCharge?)
      || (op.Collaborate? && op.incident == i && op.collab.Request?)
    case LeaveInternal => op.Collaborate? && op.incident == i && (op.collab.Decide? || op.collab.Accept?)
    case Prepare(u) => op == Life(i, LifeOp.Prepare(u))
    case ReturnForCompletion => op == Life(i, LifeOp.ReturnForCompletion)
    case DeclareResolved => op == Life(i, LifeOp.DeclareResolved)
    case DisengageAlone => op.Life? && op.incident == i && op.life.Disengage?
    case DisengageWithCandidates => op.Life? && op.incident == i && op.life.Disengage?
    case Validate => op == Life(i, LifeOp.Validate) || (op == Run(AutoValidate) && ValidationOverdue(r, now))
    case Reject(motif) => op == Life(i, LifeOp.Reject(motif))
    case Close(_, _) => op.Life? && op.incident == i && op.life.Close?
    case Trash => op == Bin(i, Delete(true)) || (op == Bin(i, BulkDelete(true)) && !r.isDeleted)
    case Restore => op == Bin(i, TrashOp.Restore)
    case AntiGel => op == Run(Sweep.AntiGel)
    case Recount(_) => op.OnTask? && op.incident == i
  }

  /** after is before, or before after the one action a. */
  ghost predicate Explains(a: Option<Rows.Action>, op: Op, i: IncidentId, now: Time,
                           before: Rows.Incident, after: Rows.Incident) {
    match a
    case None => after == before
    case Some(act) =>
      Rows.Enabled(before, act) && after == Rows.Next(before, now, act) && Causes(op, i, before, now, act)
  }

  /** t differs from s in the incident table at most at i. */
  ghost predicate OnlyAt(s: State, t: State, i: IncidentId) {
    i in s.incidents && i in t.incidents && t.incidents == s.incidents[i := t.incidents[i]]
  }

  lemma TakeEffect(s: State, now: Time, i: IncidentId, op: LifeOp) returns (a: Option<Rows.Action>)
    requires i in s.incidents && op.TakeInCharge?
    ensures var t := Apply(s, now, Life(i, op)).state;
            OnlyAt(s, t, i) && Explains(a, Life(i, op), i, now, s.incidents[i], t.incidents[i])
  {
    var r := s.incidents[i];
    var o := ApplyTakeInCharge(s, now, i, op.user, op.mode, op.role, op.leaderMail);
    a := if !o.response.Ok? then None
         else if op.mode.value.Internal? then Some(Rows.TakeInternal(op.user))
         else if op.role.value.Leader? then Some(Rows.Lead(op.user))
         else if r.mode.None? then Some(Rows.OpenToOthers)
         else None;
  }

  lemma DisengageEffect(s: State, now: Time, i: IncidentId, u: UserId) returns (a: Option<Rows.Action>)
    requires i in s.incidents
    ensures var t := Apply(s, now, Life(i, Disengage(u))).state;
            OnlyAt(s, t, i) && Explains(a, Life(i, Disengage(u)), i, now, s.incidents[i], t.incidents[i])
  {
    a := if !ApplyDisengage(s, now, i, u).response.Ok? then None
         else if HasCandidates(WithoutLeaver(s.collabs, i, u), i, u) then Some(Rows.DisengageWithCandidates)
         else Some(Rows.DisengageAlone);
  }

  lemma HandleOrCloseEffect(s: State, now: Time, i: IncidentId, op: LifeOp) returns (a: Option<Rows.Action>)
    requires i in s.incidents && (op.Handle? || op.Close?)
    ensures var t := Apply(s, now, Life(i, op)).state;
            OnlyAt(s, t, i) && Explains(a, Life(i, op), i, now, s.incidents[i], t.incidents[i])
  {
    var r := s.incidents[i];
    a := if !ApplyLife(s, now, i, op).response.Ok? then None
         else if op.Close? then Some(Rows.Close(op.start.value, op.end.value))
         else if r.etat.Declared? then Some(Rows.LegacyTake(op.user))
         else Some(Rows.LegacyResolve);
  }

  lemma LifeEffect(s: State, now: Time, i: IncidentId, life: LifeOp) returns (a: Option<Rows.Action>)
    requires i in s.incidents
    ensures var t := Apply(s, now, Life(i, life)).state;
            OnlyAt(s, t, i) && Explains(a, Life(i, life), i, now, s.incidents[i], t.incidents[i])
  {
    match life
    case TakeInCharge(_, _, _, _) => a := TakeEffect(s, now, i, life);
    case Disengage(u) => a := DisengageEffect(s, now, i, u);
    case Handle(_, _) => a := HandleOrCloseEffect(s, now, i, life);
    case Close(_, _, _) => a := HandleOrCloseEffect(s, now, i, life);
    case _ =>
      var act := match life
                 case Prepare(u) => Rows.Prepare(u)
                 case ReturnForCompletion => Rows.ReturnForCompletion
                 case DeclareResolved => Rows.DeclareResolved
                 case Reject(motif) => Rows.Reject(motif)
                 case _ => Rows.Validate;
      a := if Rows.Enabled(s.incidents[i], act) then Some(act) else None;
  }

  lemma RequestEffect(s: State, now: Time, i: IncidentId, u: UserId, op: CollabOp) returns (a: Option<Rows.Action>)
    requires i in s.incidents && op.Request?
    ensures var t := Apply(s, now, Collaborate(i, u, op)).state;
            OnlyAt(s, t, i) && Explains(a, Collaborate(i, u, op), i, now, s.incidents[i], t.incidents[i])
  {
    var after := ApplyRequest(s, now, i, u, op.role, op.endDate, op.leaderMail).state.incidents[i];
    a := if after == s.incidents[i] then None else Some(Rows.OpenToOthers);
  }

  lemma AcceptanceEffect(s: State, now: Time, i: IncidentId, u: UserId, op: CollabOp) returns (a: Option<Rows.Action>)
    requires i in s.incidents && (op.Decide? || op.Accept? || op.Decline?)
    ensures var t := Apply(s, now, Collaborate(i, u, op)).state;
            OnlyAt(s, t, i) && Explains(a, Collaborate(i, u, op), i, now, s.incidents[i], t.incidents[i])
  {
    var after := Apply(s, now, Collaborate(i, u, op)).state.incidents[i];
    a := if after == s.incidents[i] then None else Some(Rows.LeaveInternal);
  }

  lemma CollabEffect(s: State, now: Time, i: IncidentId, u: UserId, op: CollabOp) returns (a: Option<Rows.Action>)
    requires i in s.incidents
    ensures var t := Apply(s, now, Collaborate(i, u, op)).state;
            OnlyAt(s, t, i) && Explains(a, Collaborate(i, u, op), i, now, s.incidents[i], t.incidents[i])
  {
    match op
    case Request(_, _, _) => a := RequestEffect(s, now, i, u, op);
    case Decide(_, _) => a := AcceptanceEffect(s, now, i, u, op);
    case Accept(_) => a := AcceptanceEffect(s, now, i, u, op);
    case Decline(_) => a := AcceptanceEffect(s, now, i, u, op);
    case _ => a := None;
  }

  lemma TaskEffect(s: State, now: Time, i: IncidentId, t: TaskId, op: TaskOp) returns (a: Option<Rows.Action>)
    requires i in s.incidents
    ensures var after := Apply(s, now, OnTask(i, t, op)).state;
            OnlyAt(s, after, i) && Explains(a, OnTask(i, t, op), i, now, s.incidents[i], after.incidents[i])
  {
    var o := ApplyTask(s, now, i, t, op);
    if o.response.Ok? {
      ProgressInRange(s.incidents[i].etat, o.state.tasks, i);
      a := Some(Rows.Recount(ProgressOf(s.incidents[i].etat, o.state.tasks, i)));
    } else {
      a := None;
    }
  }

  lemma ProgressInRange(etat: Etat, ts: Tasks, i: IncidentId)
    ensures 0 <= ProgressOf(etat, ts, i) <= 100
  {
    Subset(DoneTasks(ts, i), ConfirmedTasks(ts, i));
    Progress.PercentageInRange(|DoneTasks(ts, i)|, |ConfirmedTasks(ts, i)|);
  }

  lemma Subset<T>(a: set<T>, b: set<T>)
    requires a <= b
    ensures |a| <= |b|
  {
    assert b == a + (b - a);
  }

  lemma AssignEffect(s: State, now: Time, x: AssignmentId, i: IncidentId, op: AssignOp)
    returns (a: Option<Rows.Action>)
    requires i in s.incidents
    ensures var t := Apply(s, now, Assign(x, i, op)).state;
            OnlyAt(s, t, i) && Explains(a, Assign(x, i, op), i, now, s.incidents[i], t.incidents[i])
  {
    var o := ApplyAssign(s, now, x, i, op);
    a := if o.response.Ok? && op.AcceptAssignment? && s.incidents[i].etat.Declared?
         then Some(Rows.EngageByAssignment(op.user)) else None;
  }

  lemma BinEffect(s: State, now: Time, i: IncidentId, op: TrashOp) returns (a: Option<Rows.Action>)
    requires i in s.incidents && i in Apply(s, now, Bin(i, op)).state.incidents
    ensures OnlyAt(s, Apply(s, now, Bin(i, op)).state, i)
    ensures Explains(a, Bin(i, op), i, now, s.incidents[i], Apply(s, now, Bin(i, op)).state.incidents[i])
  {
    var r := s.incidents[i];
    a := match op
         case Delete(superAdmin) => if superAdmin then Some(Rows.Trash) else None
         case BulkDelete(superAdmin) => if !superAdmin || r.isDeleted then None else Some(Rows.Trash)
         case Restore => if r.isDeleted then Some(Rows.Restore) else None
         case ForceDelete => None;
  }

  lemma SweepEffect(s: State, now: Time, sweep: Sweep, i: IncidentId) returns (a: Option<Rows.Action>)
    requires i in s.incidents && i in Apply(s, now, Run(sweep)).state.incidents
    ensures Explains(a, Run(sweep), i, now, s.incidents[i], Apply(s, now, Run(sweep)).state.incidents[i])
    ensures sweep.AntiGel? ==> a == Some(Rows.AntiGel)
    ensures sweep.AutoValidate? && ValidationOverdue(s.incidents[i], now) ==> a == Some(Rows.Validate)
  {
    var r := s.incidents[i];
    match sweep
    case AntiGel => a := Some(Rows.AntiGel);
    case AutoValidate => a := if ValidationOverdue(r, now) then Some(Rows.Validate) else None;
    case PurgeTrash => a := None;
    case AutoAccept(firstAdmin) =>
      a := if r.etat.Declared? && exists x :: SpeaksFor(s, now, x, i)
           then Some(Rows.EngageTacitly(TacitLeader(s, now, firstAdmin, i))) else None;
  }

  /** The incident a request is about; sweeps are about all of them. */
  function Target(op: Op): Option<IncidentId> {
    if op.Run? then None else Some(op.incident)
  }

  /** A request about an incident that does not exist leaves the incident table alone. */
  lemma AbsentTarget(s: State, now: Time, op: Op)
    requires Target(op).Some? && Target(op).value !in s.incidents && !op.Report?
    ensures Apply(s, now, op).state.incidents == s.incidents
  {
    match op
    case Life(_, _) =>
    case Assign(_, _, assign) =>
    case OnTask(_, _, _) =>
    case _ =>
  }

  /** A request leaves every other incident alone, and creates or erases none but its own. */
  lemma OthersUntouched(s: State, now: Time, op: Op, i: IncidentId)
    requires Target(op).Some? && Target(op) != Some(i)
    ensures i in Apply(s, now, op).state.incidents <==> i in s.incidents
    ensures i in s.incidents ==> Apply(s, now, op).state.incidents[i] == s.incidents[i]
  {
    if Target(op).value !in s.incidents && !op.Report? {
      AbsentTarget(s, now, op);
    } else {
      match op
      case Life(j, life) => var a := LifeEffect(s, now, j, life);
      case Collaborate(j, u, collab) => var a := CollabEffect(s, now, j, u, collab);
      case Assign(x, j, assign) => var a := AssignEffect(s, now, x, j, assign);
      case OnTask(j, t, taskOp) => var a := TaskEffect(s, now, j, t, taskOp);
      case _ =>
    }
  }

  /** Whatever the step, a surviving row went through at most one action, caused by that step. */
  lemma RowEffect(s: State, now: Time, op: Op, i: IncidentId) returns (a: Option<Rows.Action>)
    requires i in s.incidents && i in Apply(s, now, op).state.incidents
    ensures Explains(a, op, i, now, s.incidents[i], Apply(s, now, op).state.incidents[i])
    ensures op == Run(Sweep.AntiGel) ==> a == Some(Rows.AntiGel)
    ensures op == Run(AutoValidate) && ValidationOverdue(s.incidents[i], now) ==> a == Some(Rows.Validate)
  {
    if Target(op).Some? && Target(op) != Some(i) {
      OthersUntouched(s, now, op, i);
      return None;
    }
    match op
    case Report(_, _) => a := None;
    case Life(_, life) => a := LifeEffect(s, now, i, life);
    case Collaborate(_, u, collab) => a := CollabEffect(s, now, i, u, collab);
    case Assign(x, _, assign) => a := AssignEffect(s, now, x, i, assign);
    case Bin(_, bin) => a := BinEffect(s, now, i, bin);
    case OnTask(_, t, taskOp) => a := TaskEffect(s, now, i, t, taskOp);
    case Run(sweep) => a := SweepEffect(s, now, sweep, i);
  }

  /** Rows appear only by being reported. */
  lemma OnlyReportsCreate(s: State, now: Time, op: Op, i: IncidentId)
    requires i !in s.incidents && i in Apply(s, now, op).state.incidents
    ensures op.Report? && op.incident == i
    ensures Apply(s, now, op).state.incidents[i] == Rows.NewIncident(op.severity)
  {
    if Target(op).Some? && Target(op) != Some(i) {
      OthersUntouched(s, now, op, i);
    } else if Target(op).Some? && !op.Report? {
      AbsentTarget(s, now, op);
    }
  }

  /** A refused request changes nothing at all. */
  lemma RefusalsChangeNothing(s: State, now: Time, op: Op)
    ensures !Apply(s, now, op).response.Ok? ==> Apply(s, now, op).state == s
  {
    match op
    case Life(i, life) =>
    case Collaborate(i, u, collab) =>
    case Assign(x, i, assign) =>
    case Bin(i, bin) =>
    case OnTask(i, t, taskOp) =>
    case _ =>
  }
}
