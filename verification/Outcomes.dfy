/**
 Request by request, when it is granted and what it leaves: the columns it writes, with what, and nothing
 else. Stated column by column, apart from the definitions of Store.dfy and IncidentRows.dfy.
 */
module Outcomes {
  import opened Domain
  import opened Store
  import opened Invariants
  import opened Runs
  import Rows = IncidentRows

  /** t is s but for row i, which is n. */
  ghost predicate OnlyRow(s: State, t: State, i: IncidentId, n: Rows.Incident) {
    t == s.(incidents := s.incidents[i := n])
  }

  /** t is s but for row i, which is n, and for the collaborations. */
  ghost predicate OnlyRowAndCollabs(s: State, t: State, i: IncidentId, n: Rows.Incident) {
    t == s.(incidents := s.incidents[i := n], collabs := t.collabs)
  }

  // ---- Reports and engagements ---------------------------------------------------------------

  lemma ReportOutcome(s: State, now: Time, i: IncidentId, severity: Option<Severity>)
    ensures var o := Apply(s, now, Report(i, severity));
            && (o.response.Ok? <==> i !in s.incidents)
            && (o.response.Ok? ==>
                  var n := o.state.incidents[i];
                  && OnlyRow(s, o.state, i, n)
                  && n.etat == Declared && n.takenBy == None && n.mode == None && n.takenInChargeAt == None
                  && !n.warned75 && !n.warned90 && n.warnings == [] && n.severity == severity
                  && n.file.submittedBy == None && n.file.submittedAt == None && n.file.validationDeadline == None
                  && n.file.rejectionReason == None && n.file.resolutionStart == None && n.file.resolutionEnd == None
                  && !n.isDeleted && n.deletedAt == None && n.progress == 0)
  {
  }

  lemma HandleOutcome(s: State, now: Time, i: IncidentId, u: UserId, target: Option<Etat>)
    ensures var o := Apply(s, now, Life(i, Handle(u, target)));
            && (o.response.Ok? <==>
                  && i in s.incidents
                  && (|| (target == Some(Taken) && s.incidents[i].etat == Declared)
                      || (target == Some(Resolved) && s.incidents[i].etat == Taken)))
            && (o.response.Ok? && target == Some(Taken) ==>
                  OnlyRow(s, o.state, i, s.incidents[i].(etat := Taken, takenBy := Some(u))))
            && (o.response.Ok? && target == Some(Resolved) ==>
                  OnlyRow(s, o.state, i, s.incidents[i].(etat := Resolved, progress := 100)))
  {
  }

  lemma TakeInternalOutcome(s: State, now: Time, i: IncidentId, u: UserId, role: Option<Role>, mail: bool)
    ensures var o := Apply(s, now, Life(i, TakeInCharge(u, Some(Internal), role, mail)));
            && (o.response.Ok? <==>
                  && i in s.incidents && s.incidents[i].etat == Declared
                  && s.incidents[i].takenBy == None && s.incidents[i].mode == None)
            && (o.response.Ok? ==>
                  && OnlyRowAndCollabs(s, o.state, i, s.incidents[i].(
                       etat := Taken, takenBy := Some(u), mode := Some(Internal), takenInChargeAt := Some(now),
                       warned75 := false, warned90 := false))
                  && o.state.collabs == (if (i, u) in s.collabs then s.collabs
                                         else s.collabs[(i, u) := Collab(Leader, Accepted, None)]))
  {
  }

  /** A new leader of an incident already taken gets no stamp, and the flags stay as they were. */
  lemma LeadOutcome(s: State, now: Time, i: IncidentId, u: UserId, mail: bool)
    requires RowsInv(s)
    ensures var o := Apply(s, now, Life(i, TakeInCharge(u, Some(Collaborative), Some(Leader), mail)));
            && (o.response.Ok? <==>
                  && i in s.incidents && s.incidents[i].etat != Resolved && s.incidents[i].takenBy == None
                  && s.incidents[i].mode != Some(Internal) && (i, u) !in s.collabs)
            && (o.response.Ok? ==>
                  var r := s.incidents[i];
                  var led := r.(takenBy := Some(u), mode := Some(Collaborative));
                  var begun := led.(etat := Taken, takenInChargeAt := Some(now), warned75 := false, warned90 := false);
                  && OnlyRowAndCollabs(s, o.state, i, if r.etat == Declared then begun else led)
                  && LeadershipTaken(s.collabs, o.state.collabs, i, u))
  {
  }

  /** u leads, the accepted contributors of i wait again, and no other collaboration moved. */
  ghost predicate LeadershipTaken(before: Collabs, after: Collabs, i: IncidentId, u: UserId) {
    && after.Keys == before.Keys + {(i, u)}
    && after[(i, u)] == Collab(Leader, Accepted, None)
    && forall k :: k in before && k != (i, u) ==>
         after[k] == if k.0 == i && before[k].role == Contributor && before[k].status == Accepted
                     then Collab(Contributor, Pending, before[k].endDate) else before[k]
  }

  /** Contributors and observers: who may join, and what it does to the incident. */
  lemma JoinOutcome(s: State, now: Time, i: IncidentId, u: UserId, role: Role, mail: bool)
    requires RowsInv(s) && (role == Contributor || role == Observer)
    ensures var o := Apply(s, now, Life(i, TakeInCharge(u, Some(Collaborative), Some(role), mail)));
            && (o.response.Ok? <==>
                  && i in s.incidents && s.incidents[i].etat != Resolved
                  && s.incidents[i].mode != Some(Internal) && (i, u) !in s.collabs)
            && (o.response.Ok? ==>
                  && OnlyRowAndCollabs(s, o.state, i, s.incidents[i].(mode := Some(Collaborative)))
                  && ((i, u) in o.state.collabs ==>
                        o.state.collabs[(i, u)] == Collab(role, if role == Observer then Accepted else Pending, None)))
  {
    if i in s.incidents {
      match s.incidents[i].mode
      case None =>
      case Some(Internal) =>
      case Some(Collaborative) =>
        assert s.incidents[i].(mode := Some(Collaborative)) == s.incidents[i];
        assert s.incidents[i := s.incidents[i]] == s.incidents;
    }
  }

  /** Without a mode, or without a role where one is needed, nobody takes anything in charge. */
  lemma IncompleteTakeRefused(s: State, now: Time, i: IncidentId, u: UserId, role: Option<Role>, mail: bool)
    ensures !Apply(s, now, Life(i, TakeInCharge(u, None, role, mail))).response.Ok?
    ensures !Apply(s, now, Life(i, TakeInCharge(u, Some(Collaborative), None, mail))).response.Ok?
  {
  }

  /** taken_by, or an accepted collaboration as leader. */
  ghost predicate MayLead(s: State, i: IncidentId, u: UserId)
    requires i in s.incidents
  {
    || s.incidents[i].takenBy == Some(u)
    || ((i, u) in s.collabs && s.collabs[(i, u)].role == Leader && s.collabs[(i, u)].status == Accepted)
  }

  // ---- Resolution ----------------------------------------------------------------------------

  lemma PrepareOutcome(s: State, now: Time, i: IncidentId, u: UserId)
    ensures var o := Apply(s, now, Life(i, LifeOp.Prepare(u)));
            && (o.response.Ok? <==> i in s.incidents && s.incidents[i].etat == Taken)
            && (o.response.Ok? ==>
                  OnlyRow(s, o.state, i, s.incidents[i].(
                    etat := ResolutionPrepared,
                    file := s.incidents[i].file.(submittedBy := Some(u), submittedAt := Some(now)))))
  {
  }

  lemma ReturnOutcome(s: State, now: Time, i: IncidentId)
    ensures var o := Apply(s, now, Life(i, LifeOp.ReturnForCompletion));
            && (o.response.Ok? <==> i in s.incidents && s.incidents[i].etat == ResolutionPrepared)
            && (o.response.Ok? ==> OnlyRow(s, o.state, i, s.incidents[i].(etat := Taken)))
  {
  }

  lemma DeclareOutcome(s: State, now: Time, i: IncidentId)
    ensures var o := Apply(s, now, Life(i, LifeOp.DeclareResolved));
            && (o.response.Ok? <==>
                  i in s.incidents && (s.incidents[i].etat == Taken || s.incidents[i].etat == ResolutionPrepared))
            && (o.response.Ok? ==>
                  OnlyRow(s, o.state, i, s.incidents[i].(
                    etat := InValidation,
                    file := s.incidents[i].file.(validationDeadline := Some(now + 72 * 3_600_000_000)))))
  {
  }

  lemma ValidateOutcome(s: State, now: Time, i: IncidentId)
    ensures var o := Apply(s, now, Life(i, LifeOp.Validate));
            && (o.response.Ok? <==> i in s.incidents && s.incidents[i].etat == InValidation)
            && (o.response.Ok? ==>
                  && OnlyRowAndCollabs(s, o.state, i, s.incidents[i].(etat := ResolvedDefinitive, progress := 100))
                  && CollaborationsOver(s.collabs, o.state.collabs, i))
  {
  }

  lemma RejectOutcome(s: State, now: Time, i: IncidentId, motif: string)
    ensures var o := Apply(s, now, Life(i, LifeOp.Reject(motif)));
            && (o.response.Ok? <==> i in s.incidents && s.incidents[i].etat == InValidation && |motif| > 0)
            && (o.response.Ok? ==>
                  OnlyRow(s, o.state, i, s.incidents[i].(
                    etat := Taken, file := s.incidents[i].file.(rejectionReason := Some(motif)))))
  {
  }

  /** Each date goes where it belongs. */
  lemma CloseOutcome(s: State, now: Time, i: IncidentId, u: UserId, start: Option<int>, end: Option<int>)
    ensures var o := Apply(s, now, Life(i, LifeOp.Close(u, start, end)));
            && (o.response.Ok? <==>
                  && i in s.incidents && s.incidents[i].etat != Resolved && start.Some? && end.Some?
                  && MayLead(s, i, u)
                  && forall t :: t in s.tasks && s.tasks[t].incident == i ==>
                       s.tasks[t].state == Done || s.tasks[t].state == Failed)
            && (o.response.Ok? ==>
                  OnlyRow(s, o.state, i, s.incidents[i].(
                    etat := Resolved, progress := 100,
                    file := s.incidents[i].file.(resolutionStart := start, resolutionEnd := end))))
  {
  }

  // ---- Withdrawal ----------------------------------------------------------------------------

  /** The active collaborations of i are over, and nothing else. */
  ghost predicate CollaborationsOver(before: Collabs, after: Collabs, i: IncidentId) {
    && after.Keys == before.Keys
    && forall k :: k in before ==>
         after[k] == if k.0 == i && before[k].status == Accepted
                     then Collab(before[k].role, Terminated, before[k].endDate) else before[k]
  }

  /** The leaver's collaboration is over, the contributors are candidates, and nothing else. */
  ghost predicate LeadershipOffered(before: Collabs, after: Collabs, i: IncidentId, leaver: UserId) {
    && after.Keys == before.Keys
    && forall k :: k in before ==>
         after[k] == if k == (i, leaver) then Collab(before[k].role, Terminated, before[k].endDate)
                     else if k.0 == i && before[k].role == Contributor && before[k].status == Accepted
                     then Collab(Leader, Pending, before[k].endDate) else before[k]
  }

  ghost predicate OtherContributor(s: State, i: IncidentId, u: UserId, k: CollabKey) {
    k in s.collabs && k.0 == i && k.1 != u && s.collabs[k].role == Contributor && s.collabs[k].status == Accepted
  }

  /** The leaver's collaboration is over, and so are all the active ones. */
  ghost predicate CollaborationsOverAfter(before: Collabs, after: Collabs, i: IncidentId, leaver: UserId) {
    && after.Keys == before.Keys
    && forall k :: k in before ==>
         after[k] == if k == (i, leaver) || (k.0 == i && before[k].status == Accepted)
                     then Collab(before[k].role, Terminated, before[k].endDate) else before[k]
  }

  lemma DisengageGranted(s: State, now: Time, i: IncidentId, u: UserId)
    ensures Apply(s, now, Life(i, Disengage(u))).response.Ok?
            <==> i in s.incidents && s.incidents[i].etat == Taken && MayLead(s, i, u)
  {
  }

  lemma DisengageOutcome(s: State, now: Time, i: IncidentId, u: UserId)
    requires Apply(s, now, Life(i, Disengage(u))).response.Ok?
    ensures i in s.incidents
    ensures var t := Apply(s, now, Life(i, Disengage(u))).state;
            var free := s.incidents[i].(takenBy := None, mode := None, takenInChargeAt := None);
            if exists k :: OtherContributor(s, i, u, k)
            then OnlyRowAndCollabs(s, t, i, free) && LeadershipOffered(s.collabs, t.collabs, i, u)
            else && OnlyRowAndCollabs(s, t, i, free.(etat := Declared))
                 && CollaborationsOverAfter(s.collabs, t.collabs, i, u)
  {
    WithdrawalTables(s, i, u);
    WithdrawalRow(s.incidents[i], now);
    var cs := WithoutLeaver(s.collabs, i, u);
    if HasCandidates(cs, i, u) {
      assert ApplyDisengage(s, now, i, u).state
          == Act(s, i, now, Rows.DisengageWithCandidates).(collabs := ContributorsProposed(cs, i, u));
    } else {
      assert ApplyDisengage(s, now, i, u).state
          == Act(s, i, now, Rows.DisengageAlone).(collabs := CollabsTerminated(cs, i));
    }
  }

  lemma WithdrawalRow(r: Rows.Incident, now: Time)
    ensures var free := r.(takenBy := None, mode := None, takenInChargeAt := None);
            && Rows.Next(r, now, Rows.DisengageWithCandidates) == free
            && Rows.Next(r, now, Rows.DisengageAlone) == free.(etat := Declared)
  {
  }

  lemma WithdrawalTables(s: State, i: IncidentId, u: UserId)
    ensures var cs := WithoutLeaver(s.collabs, i, u);
            && (HasCandidates(cs, i, u) <==> exists k :: OtherContributor(s, i, u, k))
            && LeadershipOffered(s.collabs, ContributorsProposed(cs, i, u), i, u)
            && CollaborationsOverAfter(s.collabs, CollabsTerminated(cs, i), i, u)
  {
    var cs := WithoutLeaver(s.collabs, i, u);
    forall k: CollabKey
      ensures OtherContributor(s, i, u, k) <==> k in cs && IsContributorOf(k, cs[k], i) && k.1 != u
    {
    }
    if HasCandidates(cs, i, u) {
      var k :| k in cs && IsContributorOf(k, cs[k], i) && k.1 != u;
      assert OtherContributor(s, i, u, k);
    }
  }

  // ---- Trash ---------------------------------------------------------------------------------

  lemma DeleteOutcome(s: State, now: Time, i: IncidentId, superAdmin: bool)
    requires RowsInv(s)
    ensures var o := Apply(s, now, Bin(i, Delete(superAdmin)));
            && (o.response.Ok? <==> i in s.incidents && superAdmin)
            && (o.response.Ok? ==>
                  OnlyRow(s, o.state, i, s.incidents[i].(isDeleted := true, deletedAt := Some(now))))
    ensures var o := Apply(s, now, Bin(i, BulkDelete(superAdmin)));
            && (o.response.Ok? <==> i in s.incidents && superAdmin)
            && (o.response.Ok? ==>
                  if s.incidents[i].isDeleted then o.state == s
                  else OnlyRow(s, o.state, i, s.incidents[i].(isDeleted := true, deletedAt := Some(now))))
  {
  }

  lemma RestoreOutcome(s: State, now: Time, i: IncidentId)
    requires RowsInv(s)
    ensures var o := Apply(s, now, Bin(i, TrashOp.Restore));
            && (o.response.Ok? <==> i in s.incidents && s.incidents[i].isDeleted)
            && (o.response.Ok? ==> OnlyRow(s, o.state, i, s.incidents[i].(isDeleted := false)))
  {
  }

  /** The incidents in gone are erased with all that hangs on them; all the rest is as before. */
  ghost predicate ErasedExactly(s: State, t: State, gone: set<IncidentId>) {
    && (forall i :: i in t.incidents <==> i in s.incidents && i !in gone)
    && (forall i :: i in t.incidents ==> t.incidents[i] == s.incidents[i])
    && (forall k :: k in t.collabs <==> k in s.collabs && k.0 !in gone)
    && (forall k :: k in t.collabs ==> t.collabs[k] == s.collabs[k])
    && (forall a :: a in t.assignments <==> a in s.assignments && s.assignments[a].incident !in gone)
    && (forall a :: a in t.assignments ==> t.assignments[a] == s.assignments[a])
    && (forall x :: x in t.tasks <==> x in s.tasks && s.tasks[x].incident !in gone)
    && (forall x :: x in t.tasks ==> t.tasks[x] == s.tasks[x])
    && (forall k :: k in t.suggestions <==> k in s.suggestions && k.0 !in gone)
    && (forall k :: k in t.suggestions ==> t.suggestions[k] == s.suggestions[k])
  }

  lemma ForceDeleteOutcome(s: State, now: Time, i: IncidentId)
    ensures var o := Apply(s, now, Bin(i, ForceDelete));
            && (o.response.Ok? <==> i in s.incidents && s.incidents[i].isDeleted)
            && (o.response.Ok? ==> ErasedExactly(s, o.state, {i}))
  {
    ErasureOutcome(s, {i});
  }

  lemma ErasureOutcome(s: State, gone: set<IncidentId>)
    ensures ErasedExactly(s, Erased(s, gone), gone)
  {
  }

  ghost function ThirtyDaysInTrash(s: State, now: Time): set<IncidentId> {
    set i | i in s.incidents && s.incidents[i].isDeleted && s.incidents[i].deletedAt.Some?
            && now - s.incidents[i].deletedAt.value > 30 * 86_400_000_000
  }

  /** The purge erases what has been deleted for more than 30 days. */
  lemma PurgeOutcome(s: State, now: Time)
    ensures ErasedExactly(s, Apply(s, now, Run(PurgeTrash)).state, ThirtyDaysInTrash(s, now))
  {
    ErasureOutcome(s, ExpiredTrash(s, now));
    assert ExpiredTrash(s, now) == ThirtyDaysInTrash(s, now);
  }

  // ---- The validation sweep ------------------------------------------------------------------

  ghost predicate ValidationLapsed(s: State, now: Time, i: IncidentId) {
    && i in s.incidents && s.incidents[i].etat == InValidation
    && s.incidents[i].file.validationDeadline.Some? && s.incidents[i].file.validationDeadline.value < now
  }

  lemma ValidationSweepOutcome(s: State, now: Time)
    ensures var t := Apply(s, now, Run(AutoValidate)).state;
            && t == s.(incidents := t.incidents, collabs := t.collabs)
            && t.incidents.Keys == s.incidents.Keys && t.collabs.Keys == s.collabs.Keys
            && (forall i :: i in s.incidents ==>
                  t.incidents[i] == if ValidationLapsed(s, now, i)
                                    then s.incidents[i].(etat := ResolvedDefinitive, progress := 100)
                                    else s.incidents[i])
            && (forall k :: k in s.collabs ==>
                  t.collabs[k] == if ValidationLapsed(s, now, k.0) && s.collabs[k].status == Accepted
                                  then Collab(s.collabs[k].role, Terminated, s.collabs[k].endDate) else s.collabs[k])
  {
  }

  // ---- Tasks ---------------------------------------------------------------------------------

  /** Task x is stored as row; nothing else changes but the progress of its incident. */
  ghost predicate TaskStored(s: State, t: State, i: IncidentId, x: TaskId, row: Task) {
    && i in s.incidents && i in t.incidents
    && t == s.(tasks := s.tasks[x := row],
               incidents := s.incidents[i := s.incidents[i].(progress := t.incidents[i].progress)])
  }

  ghost predicate OnIncident(s: State, i: IncidentId, x: TaskId) {
    i in s.incidents && x in s.tasks && s.tasks[x].incident == i
  }

  /** The value of the request, or the one there was. */
  function Given<T>(o: Option<T>, was: T): T {
    match o
    case Some(v) => v
    case None => was
  }

  lemma CreateOutcome(s: State, now: Time, i: IncidentId, x: TaskId, start: int, end: int, b: TaskPatch)
    ensures var o := Apply(s, now, OnTask(i, x, Create(start, end, b)));
            var state := Given(b.state, Todo);
            && (o.response.Ok? <==>
                  && i in s.incidents && s.incidents[i].etat != Resolved && x !in s.tasks && start <= end
                  && (state == Done ==> b.proofImage == Some(true) || b.proofVideo == Some(true))
                  && (state == Failed ==> b.failureReason.Some? && |b.failureReason.value| > 0))
            && (o.response.Ok? ==>
                  TaskStored(s, o.state, i, x,
                    Task(i, start, end, state, Given(b.proofImage, false), Given(b.proofVideo, false),
                         Given(b.failureReason, ""), false)))
  {
    TaskStepShape(s, now, i, x, Create(start, end, b));
  }

  lemma UpdateOutcome(s: State, now: Time, i: IncidentId, x: TaskId, b: TaskPatch)
    ensures var o := Apply(s, now, OnTask(i, x, Update(b)));
            if !OnIncident(s, i, x) then !o.response.Ok?
            else
              var row := Merged(s.tasks[x], b);
              && (o.response.Ok? <==>
                    && s.incidents[i].etat != Resolved && row.start <= row.end
                    && (row.state == Done ==> row.proofImage || row.proofVideo)
                    && (row.state == Failed ==> |row.failureReason| > 0))
              && (o.response.Ok? ==> TaskStored(s, o.state, i, x, row))
  {
    if OnIncident(s, i, x) {
      MergedIsPatched(s.tasks[x], b);
      TaskSavedShape(s, now, x, Merged(s.tasks[x], b));
    }
  }

  lemma MergedIsPatched(was: Task, b: TaskPatch)
    ensures Patched(was, b) == Merged(was, b)
  {
  }

  function Merged(was: Task, b: TaskPatch): Task {
    Task(was.incident, Given(b.start, was.start), Given(b.end, was.end), Given(b.state, was.state),
         Given(b.proofImage, was.proofImage), Given(b.proofVideo, was.proofVideo),
         Given(b.failureReason, was.failureReason), was.confirmed)
  }

  /** Done, with a proof at least; the proofs already there stay. */
  lemma CompleteOutcome(s: State, now: Time, i: IncidentId, x: TaskId, image: bool, video: bool)
    ensures var o := Apply(s, now, OnTask(i, x, Complete(image, video)));
            && (o.response.Ok? <==> OnIncident(s, i, x) && (image || video))
            && (o.response.Ok? ==>
                  TaskStored(s, o.state, i, x,
                    s.tasks[x].(state := Done, proofImage := s.tasks[x].proofImage || image,
                                proofVideo := s.tasks[x].proofVideo || video)))
  {
    TaskStepShape(s, now, i, x, Complete(image, video));
  }

  lemma FailOutcome(s: State, now: Time, i: IncidentId, x: TaskId, reason: string)
    ensures var o := Apply(s, now, OnTask(i, x, Fail(reason)));
            && (o.response.Ok? <==> OnIncident(s, i, x) && |reason| > 0)
            && (o.response.Ok? ==>
                  TaskStored(s, o.state, i, x, s.tasks[x].(state := Failed, failureReason := reason)))
  {
    TaskStepShape(s, now, i, x, Fail(reason));
  }

  lemma RelaunchOutcome(s: State, now: Time, i: IncidentId, x: TaskId)
    ensures var o := Apply(s, now, OnTask(i, x, Relaunch));
            && (o.response.Ok? <==> OnIncident(s, i, x) && s.tasks[x].state == Failed)
            && (o.response.Ok? ==> TaskStored(s, o.state, i, x, s.tasks[x].(state := Todo)))
  {
    TaskStepShape(s, now, i, x, Relaunch);
  }

  lemma ConfirmOutcome(s: State, now: Time, i: IncidentId, x: TaskId)
    ensures var o := Apply(s, now, OnTask(i, x, Confirm));
            && (o.response.Ok? <==> OnIncident(s, i, x))
            && (o.response.Ok? ==> TaskStored(s, o.state, i, x, s.tasks[x].(confirmed := true)))
  {
    TaskStepShape(s, now, i, x, Confirm);
  }

  lemma RemoveOutcome(s: State, now: Time, i: IncidentId, x: TaskId)
    ensures var o := Apply(s, now, OnTask(i, x, Remove));
            && (o.response.Ok? <==> OnIncident(s, i, x))
            && (o.response.Ok? ==>
                  && i in o.state.incidents
                  && o.state == s.(tasks := s.tasks - {x},
                                   incidents := s.incidents[i := s.incidents[i].(
                                     progress := o.state.incidents[i].progress)]))
  {
    TaskStepShape(s, now, i, x, Remove);
  }
}
