/** Who acts on an incident: the deduplicated list shown to users, and the query that filters by it. */
module ActingOrganisations {
  import opened Domain

  datatype Relation = Leads | Assigned | Collaborates

  function Rank(r: Relation): nat {
    match r
    case Leads => 0
    case Assigned => 1
    case Collaborates => 2
  }

  datatype User = User(id: UserId, organisation: Option<OrgId>)

  datatype AssignmentRow = AssignmentRow(organisation: OrgId, status: AssignmentStatus)

  datatype CollabRow = CollabRow(user: User, status: CollabStatus)

  /** An incident with the rows related to it, each table in whatever order it was fetched. */
  datatype Related = Related(
    takenBy: Option<User>,
    orgAssignments: seq<AssignmentRow>,
    collaborations: seq<CollabRow>,
    agents: set<UserId>)

  datatype Entry = Entry(organisation: OrgId, relation: Relation)

  // ---- What is meant -------------------------------------------------------------------------

  ghost predicate Relates(i: Related, org: OrgId, r: Relation) {
    match r
    case Leads => i.takenBy.Some? && i.takenBy.value.organisation == Some(org)
    case Assigned => exists a :: a in i.orgAssignments && a.organisation == org && a.status.Agreed?
    case Collaborates => exists c :: c in i.collaborations && c.user.organisation == Some(org) && c.status.Accepted?
  }

  ghost predicate Acts(i: Related, org: OrgId) {
    exists r :: Relates(i, org, r)
  }

  /** r is the strongest relation of the organisation with the incident. */
  ghost predicate Strongest(i: Related, org: OrgId, r: Relation) {
    && Relates(i, org, r)
    && forall weaker :: Relates(i, org, weaker) ==> Rank(r) <= Rank(weaker)
  }

  ghost predicate NoRepeats(entries: seq<Entry>) {
    forall j, k :: 0 <= j < k < |entries| ==> entries[j].organisation != entries[k].organisation
  }

  ghost predicate RankOrdered(entries: seq<Entry>) {
    forall j, k :: 0 <= j < k < |entries| ==> Rank(entries[j].relation) <= Rank(entries[k].relation)
  }

  ghost predicate Lists(entries: seq<Entry>, org: OrgId) {
    exists e :: e in entries && e.organisation == org
  }

  /** entries lists exactly the acting organisations, each once, with its strongest relation, by rank. */
  ghost predicate IsActingList(i: Related, entries: seq<Entry>) {
    && NoRepeats(entries)
    && RankOrdered(entries)
    && (forall org :: Lists(entries, org) <==> Acts(i, org))
    && (forall e :: e in entries ==> Strongest(i, e.organisation, e.relation))
  }

  // ---- The dictionary in construction --------------------------------------------------------

  /** The rows seen so far: the leader once read, the first assignments, the first collaborations. */
  ghost function Seen(i: Related, leader: bool, assignments: nat, collaborations: nat): Related
    requires assignments <= |i.orgAssignments| && collaborations <= |i.collaborations|
  {
    Related(if leader then i.takenBy else None,
            i.orgAssignments[..assignments], i.collaborations[..collaborations], i.agents)
  }

  class Found {
    var entries: seq<Entry>

    constructor ()
      ensures entries == []
    {
      entries := [];
    }

    /** The nested function add: a new organisation goes last, a known one keeps its place. */
    method Add(org: Option<OrgId>, relation: Relation)
      requires NoRepeats(entries)
      modifies this
      ensures NoRepeats(entries) && Added(old(entries), org, relation, entries)
    {
      if org.None? {
        return;
      }
      var at := 0;
      while at < |entries| && entries[at].organisation != org.value
        invariant at <= |entries|
        invariant forall k :: 0 <= k < at ==> entries[k].organisation != org.value
      {
        at := at + 1;
      }
      if at == |entries| {
        entries := entries + [Entry(org.value, relation)];
      } else if Rank(relation) < Rank(entries[at].relation) {
        assert entries[at] in old(entries);
        entries := entries[at := Entry(org.value, relation)];
      } else {
        assert entries[at] in entries;
      }
    }
  }

  /** What add does to the dictionary: append, or strengthen in place, or nothing. */
  ghost predicate Added(before: seq<Entry>, org: Option<OrgId>, relation: Relation, after: seq<Entry>) {
    if org.None? then after == before
    else if !Lists(before, org.value) then after == before + [Entry(org.value, relation)]
    else
      && |after| == |before|
      && forall k :: 0 <= k < |before| ==>
           after[k] == if before[k].organisation == org.value && Rank(relation) < Rank(before[k].relation)
                       then Entry(org.value, relation) else before[k]
  }

  /** One more row of the same or a weaker kind keeps the list right. */
  lemma AddKeepsList(before: Related, after: Related, entries: seq<Entry>, org: Option<OrgId>, relation: Relation,
                     more: seq<Entry>)
    requires IsActingList(before, entries) && NoRepeats(more) && Added(entries, org, relation, more)
    requires forall o: OrgId, r :: Relates(after, o, r) <==> Relates(before, o, r) || (org == Some(o) && r == relation)
    requires forall o: OrgId, r :: Relates(before, o, r) ==> Rank(r) <= Rank(relation)
    ensures IsActingList(after, more)
  {
    forall e | e in entries
      ensures Rank(e.relation) <= Rank(relation)
    {
      assert Strongest(before, e.organisation, e.relation);
    }
    if org.Some? && Lists(entries, org.value) {
      assert forall k :: 0 <= k < |entries| ==> entries[k] in entries;
      assert more == entries;
    }
    forall o: OrgId
      ensures Lists(more, o) <==> Lists(entries, o) || org == Some(o)
    {
      if org.Some? && !Lists(entries, org.value) {
        assert more[|entries|] in more;
        assert forall e :: e in more <==> e in entries || e == Entry(org.value, relation);
      }
    }
    forall o: OrgId
      ensures Acts(after, o) <==> Acts(before, o) || org == Some(o)
    {
      if org == Some(o) {
        assert Relates(after, o, relation);
      }
      if Acts(before, o) {
        var r :| Relates(before, o, r);
        assert Relates(after, o, r);
      }
      if Acts(after, o) {
        var r :| Relates(after, o, r);
      }
    }
    forall e | e in more
      ensures Strongest(after, e.organisation, e.relation)
    {
      if e in entries {
        assert Strongest(before, e.organisation, e.relation);
      } else {
        assert !Lists(entries, e.organisation);
        assert !Acts(before, e.organisation);
      }
    }
  }

  lemma SeenRelations(i: Related, leader: bool, assignments: nat, collaborations: nat)
    requires assignments <= |i.orgAssignments| && collaborations <= |i.collaborations|
    ensures collaborations == 0 ==>
              forall o: OrgId :: !Relates(Seen(i, leader, assignments, collaborations), o, Collaborates)
    ensures assignments == 0 ==> forall o: OrgId :: !Relates(Seen(i, leader, assignments, collaborations), o, Assigned)
    ensures !leader ==> forall o: OrgId :: !Relates(Seen(i, leader, assignments, collaborations), o, Leads)
  {
  }

  lemma OneMoreAssignment(i: Related, k: nat)
    requires k < |i.orgAssignments|
    ensures var a := i.orgAssignments[k];
            forall o: OrgId, r :: Relates(Seen(i, true, k + 1, 0), o, r)
              <==> Relates(Seen(i, true, k, 0), o, r) || (r == Assigned && a.status.Agreed? && o == a.organisation)
  {
    var seen, rows := Seen(i, true, k, 0), i.orgAssignments;
    assert rows[..k + 1] == rows[..k] + [rows[k]];
    forall o: OrgId
      ensures Relates(Seen(i, true, k + 1, 0), o, Assigned)
              <==> Relates(seen, o, Assigned) || (rows[k].status.Agreed? && o == rows[k].organisation)
    {
      assert rows[k] in rows[..k + 1];
      if Relates(seen, o, Assigned) {
        var a :| a in seen.orgAssignments && a.organisation == o && a.status.Agreed?;
        assert a in rows[..k + 1];
      }
    }
  }

  lemma OneMoreCollaboration(i: Related, k: nat)
    requires k < |i.collaborations|
    ensures var c := i.collaborations[k];
            forall o: OrgId, r :: Relates(Seen(i, true, |i.orgAssignments|, k + 1), o, r)
              <==> || Relates(Seen(i, true, |i.orgAssignments|, k), o, r)
                   || (r == Collaborates && c.status.Accepted? && c.user.organisation == Some(o))
  {
    var n := |i.orgAssignments|;
    var seen, rows := Seen(i, true, n, k), i.collaborations;
    assert rows[..k + 1] == rows[..k] + [rows[k]];
    forall o: OrgId
      ensures Relates(Seen(i, true, n, k + 1), o, Collaborates)
              <==> Relates(seen, o, Collaborates) || (rows[k].status.Accepted? && rows[k].user.organisation == Some(o))
    {
      assert rows[k] in rows[..k + 1];
      if Relates(seen, o, Collaborates) {
        var c :| c in seen.collaborations && c.user.organisation == Some(o) && c.status.Accepted?;
        assert c in rows[..k + 1];
      }
    }
  }

  /** acting_organisations */
  method ListActingOrganisations(i: Related) returns (entries: seq<Entry>)
    ensures IsActingList(i, entries)
  {
    var found := new Found();
    AddLeader(i, found);
    AddAssignments(i, found);
    AddCollaborations(i, found);
    assert Seen(i, true, |i.orgAssignments|, |i.collaborations|) == i;
    return found.entries;
  }

  method AddLeader(i: Related, found: Found)
    requires found.entries == []
    modifies found
    ensures IsActingList(Seen(i, true, 0, 0), found.entries)
  {
    var leader := if i.takenBy.Some? then i.takenBy.value.organisation else None;
    SeenRelations(i, false, 0, 0);
    SeenRelations(i, true, 0, 0);
    assert forall org :: !Acts(Seen(i, false, 0, 0), org);
    if i.takenBy.Some? {
      found.Add(leader, Leads);
    }
    AddKeepsList(Seen(i, false, 0, 0), Seen(i, true, 0, 0), [], leader, Leads, found.entries);
  }

  method AddAssignments(i: Related, found: Found)
    requires IsActingList(Seen(i, true, 0, 0), found.entries)
    modifies found
    ensures IsActingList(Seen(i, true, |i.orgAssignments|, 0), found.entries)
  {
    for k := 0 to |i.orgAssignments|
      invariant IsActingList(Seen(i, true, k, 0), found.entries)
    {
      var assignment := i.orgAssignments[k];
      ghost var before := found.entries;
      SeenRelations(i, true, k, 0);
      OneMoreAssignment(i, k);
      if assignment.status == Agreed {
        found.Add(Some(assignment.organisation), Assigned);
      }
      AddKeepsList(Seen(i, true, k, 0), Seen(i, true, k + 1, 0), before,
                   if assignment.status == Agreed then Some(assignment.organisation) else None, Assigned,
                   found.entries);
    }
  }

  method AddCollaborations(i: Related, found: Found)
    requires IsActingList(Seen(i, true, |i.orgAssignments|, 0), found.entries)
    modifies found
    ensures IsActingList(Seen(i, true, |i.orgAssignments|, |i.collaborations|), found.entries)
  {
    ghost var n := |i.orgAssignments|;
    for k := 0 to |i.collaborations|
      invariant IsActingList(Seen(i, true, n, k), found.entries)
    {
      var collab := i.collaborations[k];
      ghost var before := found.entries;
      OneMoreCollaboration(i, k);
      if collab.status == Accepted {
        found.Add(collab.user.organisation, Collaborates);
      }
      AddKeepsList(Seen(i, true, n, k), Seen(i, true, n, k + 1), before,
                   if collab.status == Accepted then collab.user.organisation else None, Collaborates, found.entries);
    }
  }

  // ---- Independence of the order of the rows -------------------------------------------------

  /** The same rows, fetched in another order or with repetitions. */
  ghost predicate SameRows(i: Related, j: Related) {
    && i.takenBy == j.takenBy && i.agents == j.agents
    && (forall a :: a in i.orgAssignments <==> a in j.orgAssignments)
    && (forall c :: c in i.collaborations <==> c in j.collaborations)
  }

  /** Two fetches of the same rows list the same organisations with the same relations. */
  lemma OrderOfRowsIsIrrelevant(i: Related, j: Related, a: seq<Entry>, b: seq<Entry>)
    requires SameRows(i, j) && IsActingList(i, a) && IsActingList(j, b)
    ensures forall e :: e in a <==> e in b
  {
    forall o: OrgId, r
      ensures Relates(i, o, r) <==> Relates(j, o, r)
    {
    }
    EntriesCarryOver(i, j, a, b);
    EntriesCarryOver(j, i, b, a);
  }

  lemma EntriesCarryOver(i: Related, j: Related, a: seq<Entry>, b: seq<Entry>)
    requires IsActingList(i, a) && IsActingList(j, b)
    requires forall o: OrgId, r :: Relates(i, o, r) <==> Relates(j, o, r)
    ensures forall e :: e in a ==> e in b
  {
    forall e | e in a
      ensures e in b
    {
      assert Strongest(i, e.organisation, e.relation);
      assert Acts(j, e.organisation) by {
        assert Relates(j, e.organisation, e.relation);
      }
      assert Lists(b, e.organisation);
      var f :| f in b && f.organisation == e.organisation;
      assert Strongest(j, f.organisation, f.relation);
      SameRank(e.relation, f.relation);
    }
  }

  lemma SameRank(r: Relation, q: Relation)
    ensures Rank(r) == Rank(q) ==> r == q
  {
  }

  // ---- The query -----------------------------------------------------------------------------

  /** org_acting_q: the incidents the user or the user's organisation acts on. */
  predicate OrgActingQ(u: User, i: Related) {
    || (i.takenBy.Some? && i.takenBy.value.id == u.id)
    || u.id in i.agents
    || (u.organisation.Some? &&
        (|| (i.takenBy.Some? && i.takenBy.value.organisation == u.organisation)
         || (exists a | a in i.orgAssignments :: a.organisation == u.organisation.value && a.status.Agreed?)
         || (exists c | c in i.collaborations :: c.user.organisation == u.organisation && c.status.Accepted?)))
  }

  /** A user identifier belongs to one user. */
  ghost predicate SameUser(u: User, i: Related) {
    i.takenBy.Some? && i.takenBy.value.id == u.id ==> i.takenBy.value == u
  }

  /**
   The query and the list agree. For a member of an organisation the query selects the incident exactly
   when the list shows that organisation or the user is an assigned agent; for anyone else, exactly when
   the user took the incident or is an assigned agent.
   */
  lemma QueryAgreesWithList(u: User, i: Related, entries: seq<Entry>)
    requires SameUser(u, i) && IsActingList(i, entries)
    ensures OrgActingQ(u, i) <==>
              || u.id in i.agents
              || (if u.organisation.Some? then Lists(entries, u.organisation.value)
                  else i.takenBy.Some? && i.takenBy.value.id == u.id)
  {
    if u.organisation.Some? {
      var org := u.organisation.value;
      assert Acts(i, org) <==> Relates(i, org, Leads) || Relates(i, org, Assigned) || Relates(i, org, Collaborates);
    }
  }
}
