/** What organisations answer when an incident is assigned to them, and how an agreement came about. */
module Answers {
  import opened Domain
  import opened Store
  import opened Invariants
  import opened Runs
  import opened Listings
  import Rows = IncidentRows

  // ---- One answer ----------------------------------------------------------------------------

  lemma AskOutcome(s: State, now: Time, x: AssignmentId, i: IncidentId, org: Option<OrgId>)
    ensures var o := Apply(s, now, Assign(x, i, AssignTo(org)));
            && (o.response.Ok? <==>
                  && i in s.incidents && org.Some? && x !in s.assignments
                  && forall y :: y in s.assignments && s.assignments[y].incident == i ==>
                       s.assignments[y].status != Waiting)
            && (o.response.Ok? ==>
                  o.state == s.(assignments := s.assignments[x :=
                    Assignment(i, org.value, Waiting, now, now + 72 * 3_600_000_000, None, None)]))
  {
  }

  /** An assignment can be answered by a member of the organisation it was sent to, once. */
  ghost predicate Answerable(s: State, x: AssignmentId, i: IncidentId, userOrg: Option<OrgId>) {
    && x in s.assignments && s.assignments[x].incident == i
    && userOrg == Some(s.assignments[x].organisation) && s.assignments[x].status == Waiting
  }

  /** A decline is stored with its reason, touches nothing else, and makes no organisation an agreed one. */
  lemma DeclineOutcome(s: State, now: Time, x: AssignmentId, i: IncidentId, userOrg: Option<OrgId>, reason: string)
    ensures var o := Apply(s, now, Assign(x, i, DeclineAssignment(userOrg, reason)));
            && (o.response.Ok? <==> Answerable(s, x, i, userOrg))
            && (o.response.Ok? ==>
                  o.state == s.(assignments := s.assignments[x := s.assignments[x].(
                    status := Refused, respondedAt := Some(now),
                    declineReason := if |reason| == 0 then None else Some(reason))]))
            && (forall j, org :: HasAgreed(o.state, j, org) <==> HasAgreed(s, j, org))
  {
    var t := Apply(s, now, Assign(x, i, DeclineAssignment(userOrg, reason))).state;
    forall j, org
      ensures HasAgreed(t, j, org) <==> HasAgreed(s, j, org)
    {
      if HasAgreed(s, j, org) {
        var y :| y in s.assignments && s.assignments[y].incident == j && s.assignments[y].organisation == org
          && s.assignments[y].status.Agreed?;
        assert y in t.assignments && t.assignments[y] == s.assignments[y];
      }
    }
  }

  /** An acceptance makes the organisation an agreed one, and engages the incident exactly when it was declared. */
  lemma AcceptOutcome(s: State, now: Time, x: AssignmentId, i: IncidentId, u: UserId, userOrg: Option<OrgId>)
    ensures var o := Apply(s, now, Assign(x, i, AcceptAssignment(u, userOrg)));
            && (o.response.Ok? <==> Answerable(s, x, i, userOrg))
            && (o.response.Ok? ==>
                  && o.state == s.(assignments := s.assignments[x := s.assignments[x].(
                       status := Agreed, respondedAt := Some(now))], incidents := o.state.incidents)
                  && HasAgreed(o.state, i, s.assignments[x].organisation)
                  && o.state.incidents == if i in s.incidents && s.incidents[i].etat == Declared
                                          then s.incidents[i := EngagedBy(s.incidents[i], u, now)]
                                          else s.incidents)
  {
    var o := Apply(s, now, Assign(x, i, AcceptAssignment(u, userOrg)));
    if o.response.Ok? {
      assert x in o.state.assignments && o.state.assignments[x].status.Agreed?;
    }
  }

  function EngagedBy(r: Rows.Incident, u: UserId, now: Time): Rows.Incident {
    r.(etat := Taken, takenBy := Some(u), takenInChargeAt := Some(now), warned75 := false, warned90 := false)
  }

  // ---- The sweep -----------------------------------------------------------------------------

  ghost predicate Lapsed(s: State, now: Time, x: AssignmentId) {
    x in s.assignments && s.assignments[x].status == Waiting && s.assignments[x].deadline < now
  }

  ghost predicate LapsedOn(s: State, now: Time, x: AssignmentId, i: IncidentId) {
    Lapsed(s, now, x) && s.assignments[x].incident == i
  }

  /** Every lapsed assignment counts as agreed; it engages a declared incident for the organisation's administrator. */
  lemma TacitOutcome(s: State, now: Time, admins: map<OrgId, UserId>)
    requires OneWaiting(s.assignments)
    ensures var t := Apply(s, now, Run(AutoAccept(admins))).state;
            && t == s.(assignments := t.assignments, incidents := t.incidents)
            && t.assignments.Keys == s.assignments.Keys && t.incidents.Keys == s.incidents.Keys
            && (forall x :: x in s.assignments ==>
                  t.assignments[x] == if Lapsed(s, now, x)
                                      then s.assignments[x].(status := Agreed, respondedAt := Some(now))
                                      else s.assignments[x])
            && (forall x, i :: i in s.incidents && s.incidents[i].etat == Declared && LapsedOn(s, now, x, i) ==>
                  t.incidents[i] == EngagedTacitly(s, now, admins, x, i))
            && (forall i :: i in s.incidents && s.incidents[i].etat != Declared ==> t.incidents[i] == s.incidents[i])
            && (forall i :: i in s.incidents && (forall x :: !LapsedOn(s, now, x, i)) ==>
                  t.incidents[i] == s.incidents[i])
  {
    forall x, i | i in s.incidents && s.incidents[i].etat == Declared && LapsedOn(s, now, x, i)
      ensures TacitRow(s, now, admins, i) == EngagedTacitly(s, now, admins, x, i)
    {
      TacitEngagement(s, now, admins, x, i);
    }
    forall i | i in s.incidents && forall x :: !LapsedOn(s, now, x, i)
      ensures TacitRow(s, now, admins, i) == s.incidents[i]
    {
      assert forall x :: SpeaksFor(s, now, x, i) ==> LapsedOn(s, now, x, i);
    }
  }

  /** The declared row i, engaged for the administrator of the organisation that did not answer x, if it has one. */
  ghost function EngagedTacitly(s: State, now: Time, admins: map<OrgId, UserId>, x: AssignmentId, i: IncidentId)
    : Rows.Incident
    requires i in s.incidents && x in s.assignments
  {
    var org := s.assignments[x].organisation;
    s.incidents[i].(etat := Taken, takenInChargeAt := Some(now),
                    takenBy := if org in admins then Some(admins[org]) else None)
  }

  lemma TacitEngagement(s: State, now: Time, admins: map<OrgId, UserId>, x: AssignmentId, i: IncidentId)
    requires OneWaiting(s.assignments) && i in s.incidents && s.incidents[i].etat == Declared && LapsedOn(s, now, x, i)
    ensures TacitRow(s, now, admins, i) == EngagedTacitly(s, now, admins, x, i)
  {
    assert SpeaksFor(s, now, x, i);
    forall y | SpeaksFor(s, now, y, i)
      ensures y == x
    {
      assert WaitingOn(s.assignments, x, i) && WaitingOn(s.assignments, y, i);
    }
  }

  // ---- How an agreement came about -----------------------------------------------------------

  /** Event k turns the waiting assignment x of i to org into an agreement: by a member of org, or after 72 hours. */
  ghost predicate AgreesAt(es: seq<Event>, st: seq<State>, k: nat, i: IncidentId, org: OrgId, x: AssignmentId) {
    && k < |es| && k < |st| && x in st[k].assignments
    && var a := st[k].assignments[x];
       && a.incident == i && a.organisation == org && a.status == Waiting
       && (|| (&& es[k].op.Assign? && es[k].op.assignment == x && es[k].op.incident == i
               && es[k].op.assign.AcceptAssignment? && es[k].op.assign.userOrg == Some(org))
           || (&& es[k].op.Run? && es[k].op.sweep.AutoAccept?
               && es[k].time > a.createdAt + 72 * 3_600_000_000))
  }

  ghost predicate StandsAgreed(st: seq<State>, k: nat, i: IncidentId, org: OrgId, x: AssignmentId) {
    && k < |st| && x in st[k].assignments && st[k].assignments[x].incident == i
    && st[k].assignments[x].organisation == org && st[k].assignments[x].status == Agreed
  }

  /** Only an answer and the sweep make an agreement. */
  lemma AgreementOfOthers(s: State, now: Time, op: Op, x: AssignmentId)
    requires !op.Assign? && !(op.Run? && op.sweep.AutoAccept?) && x in Apply(s, now, op).state.assignments
    ensures x in s.assignments && Apply(s, now, op).state.assignments[x] == s.assignments[x]
  {
    if Erases(op) {
      var gone := ErasureShape(s, now, op);
    } else {
      AssignmentsTouched(s, now, op);
    }
  }

  lemma AgreementStep(es: seq<Event>, st: seq<State>, k: nat, i: IncidentId, org: OrgId, x: AssignmentId)
    requires IsRun(es, st) && k < |es| && StandsAgreed(st, k + 1, i, org, x)
    ensures StandsAgreed(st, k, i, org, x) || AgreesAt(es, st, k, i, org, x)
  {
    InvAlways(es, st, k);
    assert Stepped(es, st, k);
    var s, now, op := st[k], es[k].time, es[k].op;
    match op
    case Assign(y, j, AssignTo(asked)) => AskOutcome(s, now, y, j, asked);
    case Assign(y, j, DeclineAssignment(userOrg, reason)) => DeclineOutcome(s, now, y, j, userOrg, reason);
    case Assign(y, j, AcceptAssignment(u, userOrg)) => AcceptOutcome(s, now, y, j, u, userOrg);
    case Run(AutoAccept(admins)) => TacitOutcome(s, now, admins);
    case _ => AgreementOfOthers(s, now, op, x);
  }

  /** Every agreement was once given: by a member of the organisation, or tacitly, over 72 hours after the demand. */
  lemma {:induction false} AgreedBefore(es: seq<Event>, st: seq<State>, n: nat, i: IncidentId, org: OrgId,
                                        x: AssignmentId) returns (k: nat)
    requires IsRun(es, st) && n <= |es| && StandsAgreed(st, n, i, org, x)
    ensures k < n && AgreesAt(es, st, k, i, org, x)
    ensures forall j: nat | k < j <= n :: StandsAgreed(st, j, i, org, x)
  {
    AgreementStep(es, st, n - 1, i, org, x);
    if AgreesAt(es, st, n - 1, i, org, x) {
      k := n - 1;
    } else {
      k := AgreedBefore(es, st, n - 1, i, org, x);
    }
  }

  /** So an organisation is listed as assigned only if it agreed, in its own time or by silence. */
  lemma ListedOnlyIfAgreed(es: seq<Event>, st: seq<State>, n: nat, i: IncidentId, org: OrgId)
    returns (k: nat, x: AssignmentId)
    requires IsRun(es, st) && n <= |es| && HasAgreed(st[n], i, org)
    ensures k < n && AgreesAt(es, st, k, i, org, x) && StandsAgreed(st, n, i, org, x)
  {
    var s := st[n];
    x :| x in s.assignments && s.assignments[x].incident == i && s.assignments[x].organisation == org
      && s.assignments[x].status.Agreed?;
    k := AgreedBefore(es, st, n, i, org, x);
  }
}
