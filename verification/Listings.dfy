/** The list of acting organisations read from the database, and what it shows after a release. */
module Listings {
  import opened Domain
  import opened Store
  import opened Runs
  import opened Releases
  import opened Engagements
  import Acting = ActingOrganisations

  /** Which organisation a user belongs to, when to any. */
  type Directory = map<UserId, OrgId>

  function OrgOf(d: Directory, u: UserId): Option<OrgId> {
    if u in d then Some(d[u]) else None
  }

  function UserOf(d: Directory, u: UserId): Acting.User {
    Acting.User(u, OrgOf(d, u))
  }

  ghost predicate IsAssignmentRow(s: State, i: IncidentId, x: AssignmentId, row: Acting.AssignmentRow) {
    && x in s.assignments && s.assignments[x].incident == i
    && row == Acting.AssignmentRow(s.assignments[x].organisation, s.assignments[x].status)
  }

  ghost predicate IsCollabRow(s: State, d: Directory, i: IncidentId, u: UserId, row: Acting.CollabRow) {
    (i, u) in s.collabs && row == Acting.CollabRow(UserOf(d, u), s.collabs[(i, u)].status)
  }

  /** rel is what the list fetches of incident i, the rows in any order. */
  ghost predicate Fetched(rel: Acting.Related, s: State, d: Directory, i: IncidentId)
    requires i in s.incidents
  {
    var r := s.incidents[i];
    && rel.takenBy == (if r.takenBy.None? then None else Some(UserOf(d, r.takenBy.value)))
    && (forall row :: row in rel.orgAssignments <==> exists x :: IsAssignmentRow(s, i, x, row))
    && (forall row :: row in rel.collaborations <==> exists u :: IsCollabRow(s, d, i, u, row))
  }

  // ---- The relations, in the tables ----------------------------------------------------------

  /** The organisation agreed to an assignment of the incident. */
  ghost predicate HasAgreed(s: State, i: IncidentId, org: OrgId) {
    exists x :: x in s.assignments && s.assignments[x].incident == i && s.assignments[x].organisation == org
      && s.assignments[x].status.Agreed?
  }

  /** A member of the organisation has an accepted collaboration on the incident. */
  ghost predicate HasCollaborator(s: State, d: Directory, i: IncidentId, org: OrgId) {
    exists u :: AcceptedOn(s.collabs, (i, u), i) && OrgOf(d, u) == Some(org)
  }

  ghost predicate HasLeader(s: State, d: Directory, i: IncidentId, org: OrgId)
    requires i in s.incidents
  {
    s.incidents[i].takenBy.Some? && OrgOf(d, s.incidents[i].takenBy.value) == Some(org)
  }

  lemma RelationsInStore(rel: Acting.Related, s: State, d: Directory, i: IncidentId, org: OrgId)
    requires i in s.incidents && Fetched(rel, s, d, i)
    ensures Acting.Relates(rel, org, Acting.Leads) <==> HasLeader(s, d, i, org)
    ensures Acting.Relates(rel, org, Acting.Assigned) <==> HasAgreed(s, i, org)
    ensures Acting.Relates(rel, org, Acting.Collaborates) <==> HasCollaborator(s, d, i, org)
  {
    if HasAgreed(s, i, org) {
      var x :| x in s.assignments && s.assignments[x].incident == i && s.assignments[x].organisation == org
        && s.assignments[x].status.Agreed?;
      assert IsAssignmentRow(s, i, x, Acting.AssignmentRow(org, s.assignments[x].status));
    }
    if HasCollaborator(s, d, i, org) {
      var u: UserId :| AcceptedOn(s.collabs, (i, u), i) && OrgOf(d, u) == Some(org);
      assert IsCollabRow(s, d, i, u, Acting.CollabRow(UserOf(d, u), s.collabs[(i, u)].status));
    }
    if Acting.Relates(rel, org, Acting.Assigned) {
      var row :| row in rel.orgAssignments && row.organisation == org && row.status.Agreed?;
      var x :| IsAssignmentRow(s, i, x, row);
    }
    if Acting.Relates(rel, org, Acting.Collaborates) {
      var row :| row in rel.collaborations && row.user.organisation == Some(org) && row.status.Accepted?;
      var u: UserId :| IsCollabRow(s, d, i, u, row);
    }
  }

  /** What the list shows of an incident in any database. */
  lemma ListedInStore(rel: Acting.Related, entries: seq<Acting.Entry>, s: State, d: Directory, i: IncidentId,
                      org: OrgId)
    requires i in s.incidents && Fetched(rel, s, d, i) && Acting.IsActingList(rel, entries)
    ensures Acting.Lists(entries, org) <==>
              HasLeader(s, d, i, org) || HasAgreed(s, i, org) || HasCollaborator(s, d, i, org)
    ensures forall e :: e in entries && e.organisation == org ==>
              e.relation == if HasLeader(s, d, i, org) then Acting.Leads
                            else if HasAgreed(s, i, org) then Acting.Assigned else Acting.Collaborates
  {
    RelationsInStore(rel, s, d, i, org);
    assert Acting.Acts(rel, org) <==>
             || Acting.Relates(rel, org, Acting.Leads) || Acting.Relates(rel, org, Acting.Assigned)
             || Acting.Relates(rel, org, Acting.Collaborates);
    forall e | e in entries && e.organisation == org
      ensures Acting.Strongest(rel, org, e.relation)
    {
    }
  }

  // ---- After a release -----------------------------------------------------------------------

  /**
   After an anti-freeze revert nobody is shown as leader any more, but an organisation, the former leader's
   included, stays on the list if and only if it had agreed to an assignment or one of its members had an
   accepted collaboration: the revert touches neither.
   */
  lemma ListAfterRevert(es: seq<Event>, st: seq<State>, k: nat, i: IncidentId, d: Directory,
                        rel: Acting.Related, entries: seq<Acting.Entry>, org: OrgId)
    requires IsRun(es, st) && Reverts(es, st, k, i) && Live(st, k + 1, i)
    requires Fetched(rel, st[k + 1], d, i) && Acting.IsActingList(rel, entries)
    ensures Acting.Lists(entries, org) <==> HasAgreed(st[k], i, org) || HasCollaborator(st[k], d, i, org)
    ensures forall e :: e in entries && e.organisation == org ==>
              e.relation == if HasAgreed(st[k], i, org) then Acting.Assigned else Acting.Collaborates
  {
    assert Stepped(es, st, k);
    ReleaseStep(es, st, k, i);
    ListedInStore(rel, entries, st[k + 1], d, i, org);
  }

  /**
   After a withdrawal that leaves nobody the incident is declared and its collaborations are over: only the
   organisations that agreed to an assignment are shown.
   */
  lemma ListAfterWithdrawal(es: seq<Event>, st: seq<State>, k: nat, i: IncidentId, d: Directory,
                            rel: Acting.Related, entries: seq<Acting.Entry>, org: OrgId)
    requires IsRun(es, st) && Withdraws(es, st, k, i) && Live(st, k + 1, i) && RowAt(st, k + 1, i).etat.Declared?
    requires Fetched(rel, st[k + 1], d, i) && Acting.IsActingList(rel, entries)
    ensures Acting.Lists(entries, org) <==> HasAgreed(st[k], i, org)
  {
    assert Stepped(es, st, k);
    AfterDisengagement(st[k], es[k].time, i, es[k].op.life.user);
    ListedInStore(rel, entries, st[k + 1], d, i, org);
  }
}
