/**
 The endpoints and Celery tasks as they are written: read a row, check, change its fields, save it,
 touch the other tables, answer. Each method is proved equal to its counterpart in Store.dfy, so
 every theorem about Apply is a theorem about these methods.
 */
module Database {
  import opened Domain
  import opened Store
  import opened Invariants
  import opened Sweeps
  import opened Engagements
  import Progress
  import Rows = IncidentRows

  class Db {
    var incidents: Incidents
    var collabs: Collabs
    var assignments: Assignments
    var tasks: Tasks
    var suggestions: Suggestions

    constructor ()
      ensures Tables() == EMPTY
    {
      incidents, collabs, assignments, tasks, suggestions := map[], map[], map[], map[], map[];
    }

    function Tables(): State
      reads this
    {
      State(incidents, collabs, assignments, tasks, suggestions)
    }

    // ---- The overridden save methods -----------------------------------------------------------

    /** Incident.save */
    method Save(i: IncidentId, incident: Rows.Incident)
      modifies this`incidents
      ensures incidents == old(incidents)[i := Rows.Saved(incident)]
    {
      var row := incident;
      if Closed(row.etat) && row.progress != 100 {
        row := row.(progress := 100);
      }
      incidents := incidents[i := row];
    }

    /** Incident.update_progress */
    method UpdateProgress(i: IncidentId, ghost now: Time)
      requires i in incidents
      modifies this`incidents
      ensures Tables() == Refreshed(old(Tables()), i, now)
    {
      var incident := incidents[i];
      if Closed(incident.etat) {
        incident := incident.(progress := 100);
      } else {
        var total := |ConfirmedTasks(tasks, i)|;
        if total == 0 {
          incident := incident.(progress := 0);
        } else {
          var done := |DoneTasks(tasks, i)|;
          incident := incident.(progress := Progress.RoundHalfEven(done * 100, total));
        }
      }
      Save(i, incident);
    }

    /** IncidentTask.save */
    method SaveTask(t: TaskId, task: Task, ghost now: Time)
      requires task.incident in incidents
      modifies this`tasks, this`incidents
      ensures Tables() == TaskSaved(old(Tables()), now, t, task).state
    {
      tasks := tasks[t := task];
      UpdateProgress(task.incident, now);
    }

    // ---- Engagement ----------------------------------------------------------------------------

    /** engage_incident */
    method EngageIncident(i: IncidentId, leader: UserId, now: Time) returns (moved: bool)
      requires i in incidents
      modifies this`incidents
      ensures Tables() == Engaged(old(Tables()), i, now, Rows.EngageByAssignment(leader))
      ensures moved == old(incidents[i].etat.Declared?)
    {
      var incident := incidents[i];
      if !incident.etat.Declared? {
        return false;
      }
      incident := incident.(etat := Taken);
      incident := incident.(takenBy := Some(leader));
      incident := incident.(takenInChargeAt := Some(now));
      incident := incident.(warned75 := false, warned90 := false);
      Save(i, incident);
      return true;
    }

    /** HandleIncidentView.post */
    method HandleIncident(now: Time, i: IncidentId, user: UserId, action: Option<Etat>) returns (response: Response)
      modifies this
      ensures Outcome(response, Tables()) == ApplyHandle(old(Tables()), now, i, user, action)
    {
      if i !in incidents {
        return NotFound;
      }
      var incident := incidents[i];
      if action != Some(Taken) && action != Some(Resolved) {
        return BadRequest;
      }
      if action == Some(Taken) && !incident.etat.Declared? {
        return BadRequest;
      }
      if action == Some(Resolved) && !incident.etat.Taken? {
        return BadRequest;
      }
      if action == Some(Taken) {
        incident := incident.(etat := Taken);
        incident := incident.(takenBy := Some(user));
      } else {
        incident := incident.(etat := Resolved);
      }
      Save(i, incident);
      return Ok;
    }

    /** The creation of a collaboration, followed by its post-save signal. */
    method CreateCollaboration(k: CollabKey, c: Collab, leaderMail: bool)
      requires k.0 in incidents
      modifies this`collabs
      ensures collabs == WithCollab(old(collabs) - {k}, k, c, incidents[k.0].takenBy, leaderMail)
    {
      collabs := collabs - {k};
      var leader := incidents[k.0].takenBy;
      if leader.Some? && (k.1 == leader.value || c.role.Leader?) {
        collabs := collabs[k := c];
        return;
      }
      if leader.Some? && leaderMail {
        collabs := collabs[k := c];
      }
    }

    /** TakeInChargeView.post */
    method TakeInCharge(now: Time, i: IncidentId, user: UserId, mode: Option<Mode>, role: Option<Role>,
                        leaderMail: bool)
      returns (response: Response)
      modifies this
      ensures Outcome(response, Tables()) == ApplyTakeInCharge(old(Tables()), now, i, user, mode, role, leaderMail)
    {
      if i !in incidents {
        return NotFound;
      }
      var incident := incidents[i];
      if incident.etat.Resolved? {
        return BadRequest;
      }
      if mode.None? {
        return BadRequest;
      }
      if mode == Some(Internal) {
        response := TakeInternally(now, i, user);
        return;
      }
      if role.None? || incident.mode == Some(Internal) || (i, user) in collabs {
        return BadRequest;
      }
      if role == Some(Leader) {
        response := TakeTheLead(now, i, user);
        return;
      }
      var status := Pending;
      if role == Some(Observer) {
        status := Accepted;
      } else if incident.takenBy.None? {
        status := Accepted;
      }
      CreateCollaboration((i, user), Collab(role.value, status, None), leaderMail);
      assert old(collabs) - {(i, user)} == old(collabs);
      if incident.mode.None? {
        incident := incident.(mode := Some(Collaborative));
        Save(i, incident);
      }
      return Ok;
    }

    method TakeInternally(now: Time, i: IncidentId, user: UserId) returns (response: Response)
      requires i in incidents
      modifies this
      ensures Outcome(response, Tables()) == ApplyTakeInternal(old(Tables()), now, i, user)
    {
      var incident := incidents[i];
      if incident.takenBy.Some? || incident.mode.Some? {
        return BadRequest;
      }
      if !incident.etat.Declared? {
        return BadRequest;
      }
      incident := incident.(takenBy := Some(user));
      incident := incident.(etat := Taken);
      incident := incident.(mode := Some(Internal));
      incident := incident.(takenInChargeAt := Some(now));
      incident := incident.(warned75 := false, warned90 := false);
      Save(i, incident);
      if (i, user) !in collabs {
        collabs := collabs[(i, user) := Collab(Leader, Accepted, None)];
      }
      return Ok;
    }

    method TakeTheLead(now: Time, i: IncidentId, user: UserId) returns (response: Response)
      requires i in incidents && incidents[i].mode != Some(Internal) && (i, user) !in collabs
      requires !incidents[i].etat.Resolved?
      modifies this
      ensures Outcome(response, Tables()) == ApplyLead(old(Tables()), now, i, user)
    {
      var incident := incidents[i];
      if incident.takenBy.Some? {
        return BadRequest;
      }
      incident := incident.(takenBy := Some(user));
      if incident.etat.Declared? {
        incident := incident.(etat := Taken);
        incident := incident.(takenInChargeAt := Some(now));
        incident := incident.(warned75 := false, warned90 := false);
      }
      incident := incident.(mode := Some(Collaborative));
      assert Rows.Saved(incident) == Rows.Next(incidents[i], now, Rows.Lead(user));
      Save(i, incident);
      collabs := collabs[(i, user) := Collab(Leader, Accepted, None)];
      PutContributorsOnHold(i, user);
      return Ok;
    }

    method PutContributorsOnHold(i: IncidentId, leader: UserId)
      modifies this`collabs
      ensures collabs == ContributorsPending(old(collabs), i, leader)
    {
      collabs := map k | k in collabs ::
        if k.0 == i && collabs[k].role.Contributor? && collabs[k].status.Accepted? && k.1 != leader
        then collabs[k].(status := Pending) else collabs[k];
    }

    /** CloseIncidentView.post */
    method CloseIncident(now: Time, i: IncidentId, user: UserId, start: Option<int>, end: Option<int>)
      returns (response: Response)
      modifies this
      ensures Outcome(response, Tables()) == ApplyClose(old(Tables()), now, i, user, start, end)
    {
      if i !in incidents {
        return NotFound;
      }
      if !IsLeader(Tables(), i, user) {
        return Forbidden;
      }
      var incident := incidents[i];
      if incident.etat.Resolved? {
        return BadRequest;
      }
      if start.None? || end.None? {
        return BadRequest;
      }
      if exists t | t in tasks :: tasks[t].incident == i && !(tasks[t].state.Done? || tasks[t].state.Failed?) {
        return BadRequest;
      }
      incident := incident.(etat := Resolved);
      incident := incident.(file := incident.file.(resolutionStart := start));
      incident := incident.(file := incident.file.(resolutionEnd := end));
      Save(i, incident);
      return Ok;
    }

    // ---- Resolution ----------------------------------------------------------------------------

    /** PrepareResolutionView.post */
    method PrepareResolution(now: Time, i: IncidentId, user: UserId) returns (response: Response)
      modifies this
      ensures Outcome(response, Tables()) == ApplyLife(old(Tables()), now, i, Prepare(user))
    {
      if i !in incidents {
        return NotFound;
      }
      var incident := incidents[i];
      if !incident.etat.Taken? {
        return BadRequest;
      }
      incident := incident.(etat := ResolutionPrepared);
      incident := incident.(file := incident.file.(submittedBy := Some(user)));
      incident := incident.(file := incident.file.(submittedAt := Some(now)));
      Save(i, incident);
      return Ok;
    }

    /** ReturnForCompletionView.post */
    method ReturnForCompletion(now: Time, i: IncidentId) returns (response: Response)
      modifies this
      ensures Outcome(response, Tables()) == ApplyLife(old(Tables()), now, i, LifeOp.ReturnForCompletion)
    {
      if i !in incidents {
        return NotFound;
      }
      var incident := incidents[i];
      if !incident.etat.ResolutionPrepared? {
        return BadRequest;
      }
      incident := incident.(etat := Taken);
      Save(i, incident);
      return Ok;
    }

    /** DeclareResolvedView.post */
    method DeclareResolved(now: Time, i: IncidentId) returns (response: Response)
      modifies this
      ensures Outcome(response, Tables()) == ApplyLife(old(Tables()), now, i, LifeOp.DeclareResolved)
    {
      if i !in incidents {
        return NotFound;
      }
      var incident := incidents[i];
      if incident.etat != Taken && incident.etat != ResolutionPrepared {
        return BadRequest;
      }
      incident := incident.(etat := InValidation);
      incident := incident.(file := incident.file.(validationDeadline := Some(now + 72 * HOUR)));
      Save(i, incident);
      return Ok;
    }

    /** terminate_active_collaborations */
    method TerminateActiveCollaborations(i: IncidentId)
      modifies this`collabs
      ensures NoneActive(old(collabs), collabs, i)
    {
      collabs := map k | k in collabs ::
        if k.0 == i && collabs[k].status == Accepted then collabs[k].(status := Terminated) else collabs[k];
    }

    /** ValidateResolutionView.post */
    method ValidateResolution(now: Time, i: IncidentId) returns (response: Response)
      modifies this
      ensures Outcome(response, Tables()) == ApplyLife(old(Tables()), now, i, Validate)
    {
      if i !in incidents {
        return NotFound;
      }
      var incident := incidents[i];
      if !incident.etat.InValidation? {
        return BadRequest;
      }
      incident := incident.(etat := ResolvedDefinitive);
      Save(i, incident);
      ghost var before := collabs;
      TerminateActiveCollaborations(i);
      NoneActiveExactly(before, collabs, i);
      return Ok;
    }

    /** RejectResolutionView.post, the motif already stripped */
    method RejectResolution(now: Time, i: IncidentId, motif: string) returns (response: Response)
      modifies this
      ensures Outcome(response, Tables()) == ApplyLife(old(Tables()), now, i, Reject(motif))
    {
      if i !in incidents {
        return NotFound;
      }
      var incident := incidents[i];
      if !incident.etat.InValidation? {
        return BadRequest;
      }
      if motif == "" {
        return BadRequest;
      }
      incident := incident.(etat := Taken);
      incident := incident.(file := incident.file.(rejectionReason := Some(motif)));
      Save(i, incident);
      return Ok;
    }

    method EndCollaborationOf(i: IncidentId, user: UserId)
      modifies this`collabs
      ensures collabs == WithoutLeaver(old(collabs), i, user)
    {
      if (i, user) in collabs {
        collabs := collabs[(i, user) := collabs[(i, user)].(status := Terminated)];
      }
    }

    method ProposeLeadership(i: IncidentId, leaving: UserId)
      modifies this`collabs
      ensures collabs == ContributorsProposed(old(collabs), i, leaving)
    {
      collabs := map k | k in collabs ::
        if k.0 == i && collabs[k].role == Contributor && collabs[k].status == Accepted && k.1 != leaving
        then collabs[k].(role := Leader).(status := Pending) else collabs[k];
    }

    /** DisengageIncidentView.post */
    method Disengage(now: Time, i: IncidentId, user: UserId) returns (response: Response)
      modifies this
      ensures Outcome(response, Tables()) == ApplyDisengage(old(Tables()), now, i, user)
    {
      if i !in incidents {
        return NotFound;
      }
      if !IsLeader(Tables(), i, user) {
        return Forbidden;
      }
      var incident := incidents[i];
      if !incident.etat.Taken? {
        return BadRequest;
      }
      EndCollaborationOf(i, user);
      incident := incident.(takenBy := None);
      incident := incident.(mode := None);
      incident := incident.(takenInChargeAt := None);
      if HasCandidates(collabs, i, user) {
        ProposeLeadership(i, user);
        assert incident == Rows.Next(incidents[i], now, Rows.DisengageWithCandidates);
        Save(i, incident);
      } else {
        ghost var before := collabs;
        TerminateActiveCollaborations(i);
        NoneActiveExactly(before, collabs, i);
        incident := incident.(etat := Declared);
        assert incident == Rows.Next(incidents[i], now, Rows.DisengageAlone);
        Save(i, incident);
      }
      return Ok;
    }

    // ---- Collaborations ------------------------------------------------------------------------

    /** CollaborationView.post */
    method RequestCollaboration(now: Time, i: IncidentId, user: UserId, role: Option<Role>, endDate: Option<int>,
                                leaderMail: bool)
      returns (response: Response)
      modifies this
      ensures Outcome(response, Tables()) == ApplyRequest(old(Tables()), now, i, user, role, endDate, leaderMail)
    {
      if i !in incidents || role == Some(Leader) {
        return BadRequest;
      }
      var incident := incidents[i];
      if (endDate.Some? && endDate.value <= DateOf(now)) || incident.etat.Resolved? {
        return BadRequest;
      }
      if (i, user) in collabs && (collabs[(i, user)].status == Pending || collabs[(i, user)].status == Accepted) {
        return BadRequest;
      }
      var status := Pending;
      if incident.mode == Some(Internal) {
        status := Pending;
      } else if role == Some(Observer) {
        status := Accepted;
      } else if role == Some(Contributor) {
        if incident.takenBy.None? {
          status := Accepted;
        }
      }
      var asked := if role.Some? then role.value else Contributor;
      CreateCollaboration((i, user), Collab(asked, status, endDate), leaderMail);
      if incident.mode.None? && status == Accepted {
        incident := incident.(mode := Some(Collaborative));
        Save(i, incident);
      }
      return Ok;
    }

    /** HandleCollaborationRequestView.post, and DeclineCollaborationView.post for a refusal */
    method HandleCollaboration(now: Time, i: IncidentId, user: UserId, actor: UserId, accept: bool)
      returns (response: Response)
      modifies this
      ensures Outcome(response, Tables()) == ApplyDecide(old(Tables()), now, i, user, actor, accept)
    {
      if i !in incidents || (i, user) !in collabs {
        return NotFound;
      }
      if !IsLeader(Tables(), i, actor) {
        return Forbidden;
      }
      var collaboration := collabs[(i, user)];
      if !accept {
        collabs := collabs[(i, user) := collaboration.(status := Declined)];
        return Ok;
      }
      collabs := collabs[(i, user) := collaboration.(status := Accepted)];
      var incident := incidents[i];
      if incident.mode == Some(Internal) {
        incident := incident.(mode := Some(Collaborative));
        Save(i, incident);
      }
      return Ok;
    }

    /** AcceptCollaborationView.post */
    method AcceptCollaboration(now: Time, i: IncidentId, user: UserId, actor: UserId) returns (response: Response)
      modifies this
      ensures Outcome(response, Tables()) == ApplyAccept(old(Tables()), now, i, user, actor)
    {
      if i !in incidents || (i, user) !in collabs {
        return NotFound;
      }
      if !IsLeader(Tables(), i, actor) {
        return Forbidden;
      }
      var collaboration := collabs[(i, user)];
      if collaboration.status == Accepted {
        return BadRequest;
      }
      if collaboration.endDate.Some? && collaboration.endDate.value <= DateOf(now) {
        return BadRequest;
      }
      collabs := collabs[(i, user) := collaboration.(status := Accepted)];
      var incident := incidents[i];
      if incident.mode == Some(Internal) {
        incident := incident.(mode := Some(Collaborative));
        Save(i, incident);
      }
      return Ok;
    }

    /** PartnerSuggestionListCreateView.perform_create, after PartnerSuggestionSerializer.validate */
    method SuggestPartner(i: IncidentId, partner: UserId, actor: UserId, superAdmin: bool, sameOrganisation: bool,
                          named: IncidentId, role: Option<Role>) returns (response: Response)
      modifies this`suggestions
      ensures Outcome(response, Tables())
              == ApplySuggest(old(Tables()), i, partner, actor, superAdmin, sameOrganisation, named, role)
    {
      if i in incidents && !MaySuggest(Tables(), i, actor, superAdmin, sameOrganisation) {
        return Forbidden;
      }
      if role != Some(Contributor) && role != Some(Observer) {
        return BadRequest;
      }
      if named !in incidents || incidents[named].etat == Resolved {
        return BadRequest;
      }
      if (named, partner) in collabs && collabs[(named, partner)].status == Accepted {
        return BadRequest;
      }
      if (named, partner) in suggestions {
        return BadRequest;
      }
      if i !in incidents {
        return ServerError;
      }
      if incidents[i].etat == Resolved {
        return BadRequest;
      }
      if (i, partner) in suggestions {
        return ServerError;
      }
      suggestions := suggestions[(i, partner) := Suggestion(role.value, Offered)];
      return Ok;
    }

    /** PartnerSuggestionAcceptView.post */
    method AdoptSuggestion(i: IncidentId, partner: UserId, actor: UserId, superAdmin: bool, leaderMail: bool)
      returns (response: Response)
      modifies this`collabs, this`suggestions
      ensures Outcome(response, Tables()) == ApplyAdopt(old(Tables()), i, partner, actor, superAdmin, leaderMail)
    {
      if i in incidents && !superAdmin && !IsLeader(Tables(), i, actor) {
        return Forbidden;
      }
      if i !in incidents || (i, partner) !in suggestions {
        return NotFound;
      }
      var suggestion := suggestions[(i, partner)];
      if suggestion.status != Offered {
        return BadRequest;
      }
      if (i, partner) in collabs {
        var collaboration := collabs[(i, partner)];
        collaboration := collaboration.(role := suggestion.role);
        collaboration := collaboration.(status := Accepted);
        collabs := collabs[(i, partner) := collaboration];
      } else {
        CreateCollaboration((i, partner), Collab(suggestion.role, Accepted, None), leaderMail);
        assert old(collabs) - {(i, partner)} == old(collabs);
      }
      suggestions := suggestions[(i, partner) := suggestion.(status := Adopted)];
      return Ok;
    }

    /** PartnerSuggestionRejectView.post */
    method DismissSuggestion(i: IncidentId, partner: UserId, actor: UserId, superAdmin: bool)
      returns (response: Response)
      modifies this`suggestions
      ensures Outcome(response, Tables()) == ApplyDismiss(old(Tables()), i, partner, actor, superAdmin)
    {
      if i in incidents && !superAdmin && !IsLeader(Tables(), i, actor) {
        return Forbidden;
      }
      if i !in incidents || (i, partner) !in suggestions {
        return NotFound;
      }
      var suggestion := suggestions[(i, partner)];
      if suggestion.status != Offered {
        return BadRequest;
      }
      suggestions := suggestions[(i, partner) := suggestion.(status := Dismissed)];
      return Ok;
    }

    /** DiscussionMessageView._get_user_collaboration */
    method JoinDiscussion(i: IncidentId, user: UserId, sameOrganisation: bool) returns (response: Response)
      modifies this
      ensures Outcome(response, Tables()) == ApplyDiscuss(old(Tables()), i, user, sameOrganisation)
    {
      if i !in incidents {
        return NotFound;
      }
      var incident := incidents[i];
      if incident.mode == Some(Internal) {
        if incident.takenBy.None? || !sameOrganisation {
          return NotFound;
        }
      } else {
        if (i, user) in collabs && collabs[(i, user)].status == Accepted {
          assert collabs[(i, user) := collabs[(i, user)]] == collabs;
          return Ok;
        }
        if incident.takenBy != Some(user) {
          return NotFound;
        }
      }
      if (i, user) !in collabs {
        collabs := collabs[(i, user) := Collab(Leader, Accepted, None)];
      }
      if collabs[(i, user)].status != Accepted {
        collabs := collabs[(i, user) := collabs[(i, user)].(status := Accepted)];
      }
      assert collabs[(i, user) := collabs[(i, user)]] == collabs;
      return Ok;
    }

    // ---- Assignments to an organisation --------------------------------------------------------

    /** AssignIncidentToOrganisationView.post */
    method AssignToOrganisation(now: Time, a: AssignmentId, i: IncidentId, organisation: Option<OrgId>)
      returns (response: Response)
      modifies this
      ensures Outcome(response, Tables()) == ApplyAssignTo(old(Tables()), now, a, i, organisation)
    {
      if i !in incidents {
        return NotFound;
      }
      if organisation.None? || a in assignments {
        return BadRequest;
      }
      if exists b | b in assignments :: assignments[b].incident == i && assignments[b].status == Waiting {
        return BadRequest;
      }
      assignments := assignments[a := Assignment(i, organisation.value, Waiting, now, now + 72 * HOUR, None, None)];
      return Ok;
    }

    /** AcceptOrgAssignmentView.post */
    method AcceptAssignment(now: Time, a: AssignmentId, i: IncidentId, user: UserId, userOrg: Option<OrgId>)
      returns (response: Response)
      requires Linked(Tables())
      modifies this
      ensures Outcome(response, Tables()) == ApplyAcceptAssignment(old(Tables()), now, a, i, user, userOrg)
    {
      if a !in assignments || assignments[a].incident != i {
        return NotFound;
      }
      var assignment := assignments[a];
      if userOrg != Some(assignment.organisation) {
        return Forbidden;
      }
      if assignment.status != Waiting {
        return BadRequest;
      }
      assignment := assignment.(status := Agreed);
      assignment := assignment.(respondedAt := Some(now));
      assignments := assignments[a := assignment];
      var moved := EngageIncident(i, user, now);
      return Ok;
    }

    /** DeclineOrgAssignmentView.post */
    method DeclineAssignment(now: Time, a: AssignmentId, i: IncidentId, userOrg: Option<OrgId>, reason: string)
      returns (response: Response)
      modifies this
      ensures Outcome(response, Tables()) == ApplyDeclineAssignment(old(Tables()), now, a, i, userOrg, reason)
    {
      if a !in assignments || assignments[a].incident != i {
        return NotFound;
      }
      var assignment := assignments[a];
      if userOrg != Some(assignment.organisation) {
        return Forbidden;
      }
      if assignment.status != Waiting {
        return BadRequest;
      }
      assignment := assignment.(status := Refused);
      assignment := assignment.(declineReason := if reason == "" then None else Some(reason));
      assignment := assignment.(respondedAt := Some(now));
      assignments := assignments[a := assignment];
      return Ok;
    }

    // ---- Trash ---------------------------------------------------------------------------------

    /** Incident.delete, with its cascades */
    method Erase(i: IncidentId)
      modifies this
      ensures Tables() == Erased(old(Tables()), {i})
    {
      var gone := {i};
      incidents := map j | j in incidents && j !in gone :: incidents[j];
      collabs := map k | k in collabs && k.0 !in gone :: collabs[k];
      assignments := map a | a in assignments && assignments[a].incident !in gone :: assignments[a];
      tasks := map t | t in tasks && tasks[t].incident !in gone :: tasks[t];
      suggestions := map k | k in suggestions && k.0 !in gone :: suggestions[k];
    }

    /** IncidentAPIView.delete: deleting again restarts the clock */
    method DeleteIncident(now: Time, i: IncidentId, superAdmin: bool) returns (response: Response)
      modifies this
      ensures Outcome(response, Tables()) == ApplyBin(old(Tables()), now, i, Delete(superAdmin))
    {
      if i !in incidents {
        return NotFound;
      }
      if !superAdmin {
        return Forbidden;
      }
      var incident := incidents[i];
      incident := incident.(isDeleted := true);
      incident := incident.(deletedAt := Some(now));
      Save(i, incident);
      return Ok;
    }

    /** One turn of the bulk deletion: what is in the trash already keeps its date. */
    method TrashOnce(now: Time, i: IncidentId)
      requires i in incidents
      modifies this`incidents
      ensures Tables() == ApplyBin(old(Tables()), now, i, BulkDelete(true)).state
      ensures incidents.Keys == old(incidents).Keys
    {
      var incident := incidents[i];
      if !incident.isDeleted {
        incident := incident.(isDeleted := true);
        incident := incident.(deletedAt := Some(now));
        Save(i, incident);
      }
    }

    /** BulkDeleteIncidentsView.post */
    method BulkDeleteIncidents(now: Time, ids: seq<IncidentId>, superAdmin: bool)
      returns (response: Response, deleted: seq<IncidentId>, unauthorised: seq<IncidentId>, notFound: seq<IncidentId>)
      modifies this
      ensures response == if ids == [] then BadRequest else Ok
      ensures Tables() == BinAll(old(Tables()), now, ids, BulkDelete(superAdmin))
      ensures deleted == Among(ids, if superAdmin then old(incidents).Keys else {})
      ensures unauthorised == Among(ids, if superAdmin then {} else old(incidents).Keys)
      ensures notFound == Outside(ids, old(incidents).Keys)
    {
      deleted, unauthorised, notFound := [], [], [];
      if ids == [] {
        return BadRequest, deleted, unauthorised, notFound;
      }
      for k := 0 to |ids|
        invariant Tables() == BinAll(old(Tables()), now, ids[..k], BulkDelete(superAdmin))
        invariant incidents.Keys == old(incidents).Keys
        invariant deleted == Among(ids[..k], if superAdmin then old(incidents).Keys else {})
        invariant unauthorised == Among(ids[..k], if superAdmin then {} else old(incidents).Keys)
        invariant notFound == Outside(ids[..k], old(incidents).Keys)
      {
        var i := ids[k];
        assert ids[..k + 1][..k] == ids[..k];
        if i !in incidents {
          notFound := notFound + [i];
        } else if !superAdmin {
          unauthorised := unauthorised + [i];
        } else {
          TrashOnce(now, i);
          deleted := deleted + [i];
        }
      }
      assert ids[..|ids|] == ids;
      response := Ok;
    }

    /** RestoreIncidentView.post: the remembered date stays */
    method RestoreIncident(now: Time, i: IncidentId) returns (response: Response)
      modifies this`incidents
      ensures Outcome(response, Tables()) == ApplyBin(old(Tables()), now, i, TrashOp.Restore)
      ensures incidents.Keys == old(incidents).Keys && (response.Ok? ==> i in incidents)
    {
      if i !in incidents || !incidents[i].isDeleted {
        return NotFound;
      }
      var incident := incidents[i];
      incident := incident.(isDeleted := false);
      Save(i, incident);
      return Ok;
    }

    /** BulkRestoreIncidentsView.post */
    method BulkRestoreIncidents(now: Time, ids: seq<IncidentId>)
      returns (response: Response, restored: seq<IncidentId>, notFound: seq<IncidentId>)
      modifies this
      ensures response == if ids == [] then BadRequest else Ok
      ensures Tables() == BinAll(old(Tables()), now, ids, TrashOp.Restore)
      ensures multiset(restored) + multiset(notFound) == multiset(ids)
      ensures forall i :: i in restored ==> i in incidents && !incidents[i].isDeleted
    {
      restored, notFound := [], [];
      if ids == [] {
        return BadRequest, restored, notFound;
      }
      for k := 0 to |ids|
        invariant Tables() == BinAll(old(Tables()), now, ids[..k], TrashOp.Restore)
        invariant multiset(restored) + multiset(notFound) == multiset(ids[..k])
        invariant incidents.Keys == old(incidents).Keys
        invariant forall i :: i in restored ==> i in ids && i in old(incidents)
      {
        assert ids[..k + 1] == ids[..k] + [ids[k]];
        assert ids[..k + 1][..k] == ids[..k];
        var answer := RestoreIncident(now, ids[k]);
        if answer == Ok {
          restored := restored + [ids[k]];
        } else {
          notFound := notFound + [ids[k]];
        }
      }
      assert ids[..|ids|] == ids;
      BulkRestoreEmpties(old(Tables()), now, ids);
      response := Ok;
    }

    /** One turn of the forced deletion. */
    method ForceDelete(now: Time, i: IncidentId) returns (answer: Response)
      modifies this
      ensures Outcome(answer, Tables()) == ApplyBin(old(Tables()), now, i, TrashOp.ForceDelete)
    {
      if i !in incidents || !incidents[i].isDeleted {
        return NotFound;
      }
      Erase(i);
      return Ok;
    }

    /** The same, after the incidents of done were treated. */
    method ForceDeleteNext(now: Time, i: IncidentId, ghost before: State, ghost done: seq<IncidentId>)
      returns (answer: Response)
      requires Tables() == Erased(before, InTrash(before, done))
      modifies this
      ensures Tables() == Erased(before, InTrash(before, done + [i]))
      ensures answer == if i in before.incidents && before.incidents[i].isDeleted && i !in InTrash(before, done)
                        then Ok else NotFound
    {
      ForcedOneMore(before, Tables(), now, done, i);
      answer := ForceDelete(now, i);
    }

    /** BulkForceDeleteIncidentsView.post: what it erases is what was in the trash of the list. */
    method BulkForceDeleteIncidents(now: Time, ids: seq<IncidentId>)
      returns (response: Response, deleted: seq<IncidentId>, notFound: seq<IncidentId>)
      modifies this
      ensures response == if ids == [] then BadRequest else Ok
      ensures Tables() == BinAll(old(Tables()), now, ids, TrashOp.ForceDelete)
      ensures Tables() == Erased(old(Tables()), InTrash(old(Tables()), ids))
      ensures SharedOut(old(Tables()), ids, deleted, notFound)
    {
      deleted, notFound := [], [];
      ghost var before := Tables();
      BulkForceDeleteEffect(before, now, ids);
      if ids == [] {
        return BadRequest, deleted, notFound;
      }
      ErasingNobody(before);
      assert InTrash(before, ids[..0]) == {};
      for k := 0 to |ids|
        invariant Tables() == Erased(before, InTrash(before, ids[..k]))
        invariant SharedOut(before, ids[..k], deleted, notFound)
      {
        assert ids[..k + 1] == ids[..k] + [ids[k]];
        SharedOutOneMore(before, ids[..k], deleted, notFound, ids[k]);
        var answer := ForceDeleteNext(now, ids[k], before, ids[..k]);
        if answer == Ok {
          deleted := deleted + [ids[k]];
        } else {
          notFound := notFound + [ids[k]];
        }
      }
      assert ids[..|ids|] == ids;
      response := Ok;
    }

    // ---- Tasks ---------------------------------------------------------------------------------

    /** IncidentTaskSerializer.validate, on the merged values; a new task does not know its incident yet */
    method ValidateTask(incident: Option<Rows.Incident>, merged: Task) returns (valid: bool)
      ensures valid <==> Clean(merged) && (incident.Some? ==> !incident.value.etat.Resolved?)
    {
      if incident.Some? && incident.value.etat == Resolved {
        return false;
      }
      if merged.start > merged.end {
        return false;
      }
      if merged.state == Done && !(merged.proofImage || merged.proofVideo) {
        return false;
      }
      if merged.state == Failed && merged.failureReason == "" {
        return false;
      }
      return true;
    }

    /** IncidentTaskListCreateView.perform_create: nobody's task is confirmed at birth */
    method CreateTask(now: Time, i: IncidentId, t: TaskId, start: int, end: int, body: TaskPatch)
      returns (response: Response)
      modifies this
      ensures Outcome(response, Tables()) == ApplyTask(old(Tables()), now, i, t, Create(start, end, body))
    {
      var task := Patched(Task(i, start, end, Todo, false, false, "", false), body.(start := None, end := None));
      if i !in incidents {
        return NotFound;
      }
      var valid := ValidateTask(None, task);
      if t in tasks || !valid {
        return BadRequest;
      }
      if incidents[i].etat.Resolved? {
        return BadRequest;
      }
      SaveTask(t, task, now);
      return Ok;
    }

    /** IncidentTaskDetailView, PUT and PATCH */
    method UpdateTask(now: Time, i: IncidentId, t: TaskId, body: TaskPatch) returns (response: Response)
      modifies this
      ensures Outcome(response, Tables()) == ApplyTask(old(Tables()), now, i, t, Update(body))
    {
      if i !in incidents || t !in tasks || tasks[t].incident != i {
        return NotFound;
      }
      var task := Patched(tasks[t], body);
      var valid := ValidateTask(Some(incidents[i]), task);
      if !valid {
        return BadRequest;
      }
      SaveTask(t, task, now);
      return Ok;
    }

    /** IncidentTaskCompleteView.post */
    method CompleteTask(now: Time, i: IncidentId, t: TaskId, image: bool, video: bool) returns (response: Response)
      modifies this
      ensures Outcome(response, Tables()) == ApplyTask(old(Tables()), now, i, t, Complete(image, video))
    {
      if i !in incidents || t !in tasks || tasks[t].incident != i {
        return NotFound;
      }
      var task := tasks[t];
      if !image && !video {
        return BadRequest;
      }
      task := task.(state := Done);
      if image {
        task := task.(proofImage := true);
      }
      if video {
        task := task.(proofVideo := true);
      }
      SaveTask(t, task, now);
      return Ok;
    }

    /** IncidentTaskFailView.post */
    method FailTask(now: Time, i: IncidentId, t: TaskId, reason: string) returns (response: Response)
      modifies this
      ensures Outcome(response, Tables()) == ApplyTask(old(Tables()), now, i, t, Fail(reason))
    {
      if i !in incidents || t !in tasks || tasks[t].incident != i {
        return NotFound;
      }
      var task := tasks[t];
      if reason == "" {
        return BadRequest;
      }
      task := task.(state := Failed);
      task := task.(failureReason := reason);
      SaveTask(t, task, now);
      return Ok;
    }

    /** IncidentTaskRelaunchView.post */
    method RelaunchTask(now: Time, i: IncidentId, t: TaskId) returns (response: Response)
      modifies this
      ensures Outcome(response, Tables()) == ApplyTask(old(Tables()), now, i, t, Relaunch)
    {
      if i !in incidents || t !in tasks || tasks[t].incident != i {
        return NotFound;
      }
      var task := tasks[t];
      if !task.state.Failed? {
        return BadRequest;
      }
      task := task.(state := Todo);
      SaveTask(t, task, now);
      return Ok;
    }

    /** IncidentTaskConfirmView.post */
    method ConfirmTask(now: Time, i: IncidentId, t: TaskId) returns (response: Response)
      modifies this
      ensures Outcome(response, Tables()) == ApplyTask(old(Tables()), now, i, t, Confirm)
    {
      if i !in incidents || t !in tasks || tasks[t].incident != i {
        return NotFound;
      }
      SaveTask(t, tasks[t].(confirmed := true), now);
      return Ok;
    }

    /** IncidentTask.delete through IncidentTaskDetailView */
    method DeleteTask(now: Time, i: IncidentId, t: TaskId) returns (response: Response)
      modifies this
      ensures Outcome(response, Tables()) == ApplyTask(old(Tables()), now, i, t, Remove)
    {
      if i !in incidents || t !in tasks || tasks[t].incident != i {
        return NotFound;
      }
      tasks := tasks - {t};
      UpdateProgress(i, now);
      return Ok;
    }

    // ---- Celery sweeps -------------------------------------------------------------------------

    /** The rows of a query, in whatever order the database returns them. */
    method Fetch<T(==, !new)>(due: set<T>) returns (order: seq<T>)
      ensures Enumerates(order, due)
    {
      var rest := due;
      order := [];
      while rest != {}
        invariant rest <= due
        invariant Enumerates(order, due - rest)
        decreases |rest|
      {
        var x :| x in rest;
        order := order + [x];
        rest := rest - {x};
      }
      assert due - {} == due;
    }

    /** auto_validate_overdue_resolutions */
    method AutoValidateOverdueResolutions(now: Time) returns (validated: nat)
      modifies this
      ensures Tables() == SweepValidate(old(Tables()), now)
      ensures validated == |OverdueValidations(old(Tables()), now)|
    {
      var due := Fetch(OverdueValidations(Tables(), now));
      ghost var before := Tables();
      validated := 0;
      for k := 0 to |due|
        invariant validated == k
        invariant Tables() == ValidateAll(before, now, due[..k])
      {
        ValidateAllSoFar(before, now, due[..k]);
        assert due[k] !in due[..k] && due[k] in due;
        assert due[..k + 1][..k] == due[..k];
        ValidateTacitly(now, due[k]);
        validated := validated + 1;
      }
      assert due[..|due|] == due;
      TacitIsExplicitRepeated(before, now, due);
      EnumerationSize(due, OverdueValidations(before, now));
    }

    /** The body of the validation loop does what the Super Admin's request does. */
    method ValidateTacitly(now: Time, i: IncidentId)
      requires i in incidents && incidents[i].etat.InValidation?
      modifies this`incidents, this`collabs
      ensures Tables() == ApplyValidate(old(Tables()), now, i).state
    {
      var incident := incidents[i];
      incident := incident.(etat := ResolvedDefinitive);
      Save(i, incident);
      ghost var before := collabs;
      TerminateActiveCollaborations(i);
      NoneActiveExactly(before, collabs, i);
    }

    /** revert_stale_taken_incidents */
    method RevertStaleTakenIncidents(now: Time) returns (reverted: nat, warned75: nat, warned90: nat)
      modifies this
      ensures Tables() == SweepAntiGel(old(Tables()), now)
      ensures reverted == |Fated(old(Tables()), now, Reverts)|
      ensures warned75 == |Fated(old(Tables()), now, Warns75)|
      ensures warned90 == |Fated(old(Tables()), now, Warns90)|
      ensures RowsInv(old(Tables())) ==> TimetableKept(old(Tables()), Tables(), now)
    {
      var rows := Fetch(WatchedIncidents(Tables()));
      ghost var before := Tables();
      reverted, warned75, warned90 := 0, 0, 0;
      for k := 0 to |rows|
        invariant FreezeCheckedSoFar(before, Tables(), now, rows[..k])
        invariant CountsSoFar(before, now, rows[..k], reverted, warned75, warned90)
      {
        var i := rows[k];
        assert i in rows && i !in rows[..k];
        assert rows[..k + 1] == rows[..k] + [i];
        CountsOneMore(before, now, rows[..k], i, reverted, warned75, warned90);
        var fate := CheckFreezeNext(now, i, before, rows[..k]);
        if fate == Reverts {
          reverted := reverted + 1;
        } else if fate == Warns90 {
          warned90 := warned90 + 1;
        } else if fate == Warns75 {
          warned75 := warned75 + 1;
        }
      }
      assert rows[..|rows|] == rows;
      FreezeCheckedIsSweep(before, Tables(), now, rows);
      if RowsInv(before) {
        FreezeSweepTimetable(before, now);
      }
    }

    /** The body of the loop, after the incidents of done were treated. */
    method CheckFreezeNext(now: Time, i: IncidentId, ghost before: State, ghost done: seq<IncidentId>)
      returns (fate: Fate)
      requires FreezeCheckedSoFar(before, Tables(), now, done) && i !in done && i in WatchedIncidents(before)
      modifies this`incidents
      ensures FreezeCheckedSoFar(before, Tables(), now, done + [i])
      ensures fate == FateOf(before.incidents[i], now)
    {
      FreezeCheckedOneMore(before, Tables(), now, done, i);
      fate := CheckFreeze(now, i);
    }

    /** The body of the anti-freeze loop. */
    method CheckFreeze(now: Time, i: IncidentId) returns (fate: Fate)
      requires i in incidents && Rows.Watched(incidents[i])
      modifies this`incidents
      ensures incidents == old(incidents)[i := Rows.AntiGelStep(old(incidents[i]), now)]
      ensures fate == FateOf(old(incidents[i]), now)
    {
      var incident := incidents[i];
      var deadline := AntiGelDeadline(incident.severity);
      var elapsed := now - incident.takenInChargeAt.value;
      fate := Kept;
      if elapsed >= deadline {
        incident := incident.(etat := Declared);
        incident := incident.(takenBy := None);
        incident := incident.(mode := None);
        incident := incident.(takenInChargeAt := None);
        incident := incident.(warned75 := false, warned90 := false);
        Save(i, incident);
        fate := Reverts;
      } else if 10 * elapsed >= 9 * deadline && !incident.warned90 {
        incident := NotifyLeader(incident, 90);
        assert incident == Rows.Notified(incidents[i], 90);
        incident := incident.(warned90 := true);
        incident := incident.(warned75 := true);
        Save(i, incident);
        fate := Warns90;
      } else if 4 * elapsed >= 3 * deadline && !incident.warned75 {
        incident := NotifyLeader(incident, 75);
        assert incident == Rows.Notified(incidents[i], 75);
        incident := incident.(warned75 := true);
        Save(i, incident);
        fate := Warns75;
      }
    }

    /** _notify_antigel_leader */
    method NotifyLeader(incident: Rows.Incident, percent: int) returns (notified: Rows.Incident)
      ensures notified.(warnings := incident.warnings) == incident
      ensures incident.takenBy.None? ==> notified.warnings == incident.warnings
      ensures incident.takenBy.Some? ==>
                notified.warnings == incident.warnings + [Rows.Warning(incident.takenBy.value, percent)]
    {
      notified := incident;
      if incident.takenBy.Some? {
        notified := incident.(warnings := incident.warnings + [Rows.Warning(incident.takenBy.value, percent)]);
      }
    }

    /** purge_expired_trash */
    method PurgeExpiredTrash(now: Time) returns (purged: seq<IncidentId>)
      modifies this
      ensures Tables() == Erased(old(Tables()), ExpiredTrash(old(Tables()), now))
      ensures Enumerates(purged, ExpiredTrash(old(Tables()), now))
    {
      purged := Fetch(ExpiredTrash(Tables(), now));
      ghost var before := Tables();
      ErasingNobody(before);
      ghost var gone := {};
      for k := 0 to |purged|
        invariant gone == set i | i in purged[..k]
        invariant Tables() == Erased(before, gone)
      {
        ErasedOneMore(before, gone, purged[k]);
        Erase(purged[k]);
        gone := gone + {purged[k]};
      }
      assert gone == ExpiredTrash(before, now);
    }

    /**
     auto_accept_overdue_assignments. The query loads each assignment together with its incident before
     the loop starts, so the loop decides on those copies. Wherever one assignment at most waits for an
     incident, which every reachable database does, the visiting order does not show.
     */
    method AutoAcceptOverdueAssignments(now: Time, firstAdmin: map<OrgId, UserId>)
      returns (accepted: nat, ghost visited: seq<AssignmentId>)
      requires Linked(Tables())
      modifies this
      ensures Enumerates(visited, OverdueAnswers(old(Tables()), now))
      ensures Tables() == AcceptAll(old(Tables()), old(incidents), now, firstAdmin, visited)
      ensures OneWaiting(old(assignments)) ==> Tables() == SweepAccept(old(Tables()), now, firstAdmin)
      ensures accepted == |OverdueAnswers(old(Tables()), now)|
    {
      var due := Fetch(OverdueAnswers(Tables(), now));
      visited := due;
      var loaded, snapshot := assignments, incidents;
      ghost var before := Tables();
      accepted := 0;
      for k := 0 to |due|
        invariant accepted == k
        invariant Tables() == AcceptAll(before, snapshot, now, firstAdmin, due[..k])
      {
        var a := due[k];
        assert due[..k + 1][..k] == due[..k];
        UntouchedBeforeItsTurn(before, now, firstAdmin, due, k);
        AcceptTacitly(now, firstAdmin, snapshot, loaded[a], a);
        accepted := accepted + 1;
      }
      assert due[..|due|] == due;
      EnumerationSize(due, OverdueAnswers(before, now));
      if OneWaiting(before.assignments) {
        AnyOrderIsSweep(before, now, firstAdmin, due);
      }
    }

    /** The body of the acceptance loop: assignment and incident as loaded, three columns written back. */
    method AcceptTacitly(now: Time, firstAdmin: map<OrgId, UserId>, snapshot: Incidents, loaded: Assignment,
                         a: AssignmentId)
      requires a in assignments && assignments[a] == loaded
      requires loaded.incident in snapshot && loaded.incident in incidents
      modifies this`assignments, this`incidents
      ensures Tables() == AcceptOne(old(Tables()), snapshot, now, firstAdmin, a)
    {
      var assignment := loaded;
      assignment := assignment.(status := Agreed);
      assignment := assignment.(respondedAt := Some(now));
      assignments := assignments[a := assignment];
      var orgAdmin := Lookup(firstAdmin, assignment.organisation);
      var incident := snapshot[assignment.incident];
      if incident.etat == Declared {
        var stored := incidents[assignment.incident];
        stored := stored.(etat := Taken);
        stored := stored.(takenBy := orgAdmin);
        stored := stored.(takenInChargeAt := Some(now));
        Save(assignment.incident, stored);
      }
    }
  }
}
