/** What becomes of collaborations: what each request about one leaves, and how an accepted one came about. */
module Decisions {
  import opened Domain
  import opened Store
  import opened Invariants
  import opened Engagements
  import opened Runs
  import opened Outcomes
  import Rows = IncidentRows

  // ---- Decisions of the leader ---------------------------------------------------------------

  ghost predicate Exists(s: State, i: IncidentId, u: UserId) {
    i in s.incidents && (i, u) in s.collabs
  }

  /** An accepted collaboration keeps its role and end date; an internal incident opens; nothing else moves. */
  ghost predicate AcceptedExactly(s: State, t: State, i: IncidentId, u: UserId)
    requires Exists(s, i, u)
  {
    var r, c := s.incidents[i], s.collabs[(i, u)];
    t == s.(collabs := s.collabs[(i, u) := Collab(c.role, Accepted, c.endDate)],
            incidents := s.incidents[i := if r.mode == Some(Internal) then r.(mode := Some(Collaborative)) else r])
  }

  /** A refused one is declined, with role and end date as they were; the incident and the others do not move. */
  ghost predicate DeclinedExactly(s: State, t: State, i: IncidentId, u: UserId)
    requires Exists(s, i, u)
  {
    var c := s.collabs[(i, u)];
    t == s.(collabs := s.collabs[(i, u) := Collab(c.role, Declined, c.endDate)])
  }

  lemma DecideOutcome(s: State, now: Time, i: IncidentId, u: UserId, actor: UserId, accept: bool)
    requires RowsInv(s)
    ensures var o := Apply(s, now, Collaborate(i, u, Decide(actor, accept)));
            && (o.response.Ok? <==> Exists(s, i, u) && MayLead(s, i, actor))
            && (o.response.Ok? && accept ==> AcceptedExactly(s, o.state, i, u))
            && (o.response.Ok? && !accept ==> DeclinedExactly(s, o.state, i, u))
  {
    if i in s.incidents {
      assert s.incidents[i := s.incidents[i]] == s.incidents;
    }
  }

  /** The endpoints that only accept, refusing what is accepted already or past its date, or only decline. */
  lemma AcceptOrDeclineOutcome(s: State, now: Time, i: IncidentId, u: UserId, actor: UserId)
    requires RowsInv(s)
    ensures var o := Apply(s, now, Collaborate(i, u, Accept(actor)));
            && (o.response.Ok? <==>
                  && Exists(s, i, u) && MayLead(s, i, actor) && s.collabs[(i, u)].status != Accepted
                  && (s.collabs[(i, u)].endDate.Some? ==> s.collabs[(i, u)].endDate.value > now / 86_400_000_000))
            && (o.response.Ok? ==> AcceptedExactly(s, o.state, i, u))
    ensures var o := Apply(s, now, Collaborate(i, u, Decline(actor)));
            && (o.response.Ok? <==> Exists(s, i, u) && MayLead(s, i, actor))
            && (o.response.Ok? ==> DeclinedExactly(s, o.state, i, u))
  {
    DecideOutcome(s, now, i, u, actor, true);
    DecideOutcome(s, now, i, u, actor, false);
  }

  /** Who is declined is no collaborator any more: not active, and not allowed to suggest, unless in charge. */
  lemma DeclinedIsOut(s: State, t: State, i: IncidentId, u: UserId)
    requires Exists(s, i, u) && DeclinedExactly(s, t, i, u)
    ensures !AcceptedOn(t.collabs, (i, u), i)
    ensures MaySuggest(t, i, u, false, false) <==> s.incidents[i].takenBy == Some(u)
    ensures MayLead(t, i, u) <==> s.incidents[i].takenBy == Some(u)
    ensures forall v :: v != u ==> (MayLead(t, i, v) <==> MayLead(s, i, v))
  {
  }

  // ---- Requests ------------------------------------------------------------------------------

  /** What a granted request asks for, and what it does to the incident. */
  lemma RequestOutcome(s: State, now: Time, i: IncidentId, u: UserId, role: Option<Role>, end: Option<int>, mail: bool)
    requires RowsInv(s) && Apply(s, now, Collaborate(i, u, Request(role, end, mail))).response.Ok?
    ensures i in s.incidents
    ensures var t, r := Apply(s, now, Collaborate(i, u, Request(role, end, mail))).state, s.incidents[i];
            var automatic := && r.mode != Some(Internal)
                             && (role == Some(Observer) || (role == Some(Contributor) && r.takenBy.None?));
            && t == s.(collabs := t.collabs, incidents := s.incidents[i :=
                 if automatic && r.mode.None? then r.(mode := Some(Collaborative)) else r])
            && ((i, u) in t.collabs ==>
                  t.collabs[(i, u)] == Collab(if role.None? then Contributor else role.value,
                                              if automatic then Accepted else Pending, end))
            && (forall k :: k != (i, u) ==> (k in t.collabs <==> k in s.collabs))
            && (forall k :: k != (i, u) && k in s.collabs ==> t.collabs[k] == s.collabs[k])
  {
    assert s.incidents[i := s.incidents[i]] == s.incidents;
  }

  lemma RequestGranted(s: State, now: Time, i: IncidentId, u: UserId, role: Option<Role>, end: Option<int>, mail: bool)
    ensures Apply(s, now, Collaborate(i, u, Request(role, end, mail))).response.Ok?
            <==> && i in s.incidents && s.incidents[i].etat != Resolved && role != Some(Leader)
                 && (end.Some? ==> end.value > now / 86_400_000_000)
                 && ((i, u) in s.collabs ==>
                       s.collabs[(i, u)].status == Declined || s.collabs[(i, u)].status == Terminated)
  {
  }

  // ---- Suggestions and discussions -----------------------------------------------------------

  lemma SuggestOutcome(s: State, now: Time, i: IncidentId, u: UserId, actor: UserId, superAdmin: bool, same: bool,
                       named: IncidentId, role: Option<Role>)
    ensures var o := Apply(s, now, Collaborate(i, u, Suggest(actor, superAdmin, same, named, role)));
            && (o.response.Ok? <==>
                  && i in s.incidents && s.incidents[i].etat != Resolved && (i, u) !in s.suggestions
                  && (|| superAdmin
                      || s.incidents[i].takenBy == Some(actor)
                      || (s.incidents[i].mode == Some(Internal) && s.incidents[i].takenBy.Some? && same)
                      || (&& (i, actor) in s.collabs && s.collabs[(i, actor)].role == Contributor
                          && s.collabs[(i, actor)].status == Accepted))
                  && (role == Some(Contributor) || role == Some(Observer))
                  && named in s.incidents && s.incidents[named].etat != Resolved && (named, u) !in s.suggestions
                  && ((named, u) in s.collabs ==> s.collabs[(named, u)].status != Accepted))
            && (o.response.Ok? ==>
                  o.state == s.(suggestions := s.suggestions[(i, u) := Suggestion(role.value, Offered)]))
  {
  }

  lemma SuggestionAnswers(s: State, now: Time, i: IncidentId, u: UserId, actor: UserId, superAdmin: bool, mail: bool)
    ensures var open := i in s.incidents && (superAdmin || MayLead(s, i, actor))
                        && (i, u) in s.suggestions && s.suggestions[(i, u)].status == Offered;
            var adopted := Apply(s, now, Collaborate(i, u, AdoptSuggestion(actor, superAdmin, mail)));
            var dismissed := Apply(s, now, Collaborate(i, u, DismissSuggestion(actor, superAdmin)));
            && (adopted.response.Ok? <==> open) && (dismissed.response.Ok? <==> open)
            && (open ==>
                  var role := s.suggestions[(i, u)].role;
                  && adopted.state == s.(collabs := adopted.state.collabs,
                                         suggestions := s.suggestions[(i, u) := Suggestion(role, Adopted)])
                  && ((i, u) in s.collabs ==>
                        adopted.state.collabs
                        == s.collabs[(i, u) := Collab(role, Accepted, s.collabs[(i, u)].endDate)])
                  && ((i, u) !in s.collabs && (i, u) in adopted.state.collabs ==>
                        adopted.state.collabs == s.collabs[(i, u) := Collab(role, Accepted, None)])
                  && ((i, u) !in adopted.state.collabs ==> adopted.state.collabs == s.collabs)
                  && dismissed.state == s.(suggestions := s.suggestions[(i, u) := Suggestion(role, Dismissed)]))
  {
  }

  /** Who may join the discussion of an incident; whoever is let in is an accepted collaborator from then on. */
  lemma DiscussOutcome(s: State, now: Time, i: IncidentId, u: UserId, same: bool)
    ensures var o := Apply(s, now, Collaborate(i, u, Discuss(same)));
            && (o.response.Ok? <==>
                  && i in s.incidents
                  && if s.incidents[i].mode == Some(Internal) then s.incidents[i].takenBy.Some? && same
                     else s.incidents[i].takenBy == Some(u) || AcceptedOn(s.collabs, (i, u), i))
            && (o.response.Ok? ==>
                  o.state == s.(collabs := s.collabs[(i, u) :=
                    if (i, u) in s.collabs then Collab(s.collabs[(i, u)].role, Accepted, s.collabs[(i, u)].endDate)
                    else Collab(Leader, Accepted, None)]))
  {
    if AcceptedOn(s.collabs, (i, u), i) {
      var c := s.collabs[(i, u)];
      assert Collab(c.role, Accepted, c.endDate) == c && s.collabs[(i, u) := c] == s.collabs;
    }
  }

  // ---- How an accepted collaboration came about ----------------------------------------------

  /** The step makes u an accepted collaborator on i, in one of the ways there are. */
  ghost predicate MakesAccepted(s: State, op: Op, i: IncidentId, u: UserId) {
    || (&& op.Collaborate? && op.incident == i && op.user == u && i in s.incidents
        && match op.collab
           case Decide(actor, accept) => accept && MayLead(s, i, actor)
           case Accept(actor) => MayLead(s, i, actor)
           case Decline(_) => false
           case Request(role, _, _) => role == Some(Observer) && s.incidents[i].mode != Some(Internal)
           case Suggest(_, _, _, _, _) => false
           case AdoptSuggestion(actor, superAdmin, _) =>
             && (superAdmin || MayLead(s, i, actor))
             && (i, u) in s.suggestions && s.suggestions[(i, u)].status == Offered
           case DismissSuggestion(_, _) => false
           case Discuss(same) => s.incidents[i].takenBy == Some(u) || (s.incidents[i].mode == Some(Internal) && same))
    || (&& op.Life? && op.incident == i && op.life.TakeInCharge? && op.life.user == u
        && (op.life.mode == Some(Internal) || op.life.role == Some(Leader) || op.life.role == Some(Observer)))
  }

  lemma AcceptanceOfRequest(s: State, now: Time, j: IncidentId, v: UserId, op: CollabOp, i: IncidentId, u: UserId)
    requires AcceptedOn(ApplyCollab(s, now, j, v, op).state.collabs, (i, u), i) && !AcceptedOn(s.collabs, (i, u), i)
    ensures MakesAccepted(s, Collaborate(j, v, op), i, u)
  {
    match op
    case Request(_, _, _) =>
    case Decide(_, _) =>
    case Accept(_) =>
    case Decline(_) =>
    case Suggest(_, _, _, _, _) =>
    case AdoptSuggestion(_, _, _) =>
    case DismissSuggestion(_, _) =>
    case Discuss(_) =>
  }

  lemma AcceptanceOfTake(s: State, now: Time, j: IncidentId, op: LifeOp, i: IncidentId, u: UserId)
    requires op.TakeInCharge?
    requires AcceptedOn(ApplyLife(s, now, j, op).state.collabs, (i, u), i) && !AcceptedOn(s.collabs, (i, u), i)
    ensures MakesAccepted(s, Life(j, op), i, u)
  {
  }

  lemma AcceptanceOfLife(s: State, now: Time, j: IncidentId, op: LifeOp, i: IncidentId, u: UserId)
    requires !op.TakeInCharge? && AcceptedOn(ApplyLife(s, now, j, op).state.collabs, (i, u), i)
    ensures AcceptedOn(s.collabs, (i, u), i)
  {
    match op
    case Disengage(v) =>
    case Validate =>
    case _ =>
  }

  lemma AcceptanceOfOthers(s: State, now: Time, op: Op, i: IncidentId, u: UserId)
    requires !op.Collaborate? && !(op.Life? && op.life.TakeInCharge?)
    requires AcceptedOn(Apply(s, now, op).state.collabs, (i, u), i)
    ensures AcceptedOn(s.collabs, (i, u), i)
  {
    match op
    case OnTask(j, x, taskOp) => TaskStepShape(s, now, j, x, taskOp);
    case Life(j, life) => AcceptanceOfLife(s, now, j, life, i, u);
    case Assign(_, _, assign) =>
    case _ =>
  }

  ghost predicate Active(st: seq<State>, k: nat, i: IncidentId, u: UserId) {
    k < |st| && AcceptedOn(st[k].collabs, (i, u), i)
  }

  lemma AcceptanceStep(es: seq<Event>, st: seq<State>, k: nat, i: IncidentId, u: UserId)
    requires IsRun(es, st) && k < |es| && Active(st, k + 1, i, u)
    ensures Active(st, k, i, u) || MakesAccepted(st[k], es[k].op, i, u)
  {
    assert Stepped(es, st, k);
    var s, now, op := st[k], es[k].time, es[k].op;
    if !Active(st, k, i, u) {
      match op
      case Collaborate(j, v, collab) => AcceptanceOfRequest(s, now, j, v, collab, i, u);
      case Life(j, life) =>
        if life.TakeInCharge? {
          AcceptanceOfTake(s, now, j, life, i, u);
        } else {
          AcceptanceOfOthers(s, now, op, i, u);
        }
      case _ => AcceptanceOfOthers(s, now, op, i, u);
    }
  }

  /**
   Every active collaboration was once accepted, and has been active ever since: by a leader's decision, on the
   adoption of a suggestion, automatically for an observer, by joining the discussion, or by taking the
   incident in charge. There is no other way; in particular, none accepts a contributor unasked.
   */
  lemma {:induction false} AcceptedBefore(es: seq<Event>, st: seq<State>, n: nat, i: IncidentId, u: UserId)
    returns (k: nat)
    requires IsRun(es, st) && n <= |es| && Active(st, n, i, u)
    ensures k < n && MakesAccepted(st[k], es[k].op, i, u)
    ensures forall j: nat | k < j <= n :: Active(st, j, i, u)
  {
    AcceptanceStep(es, st, n - 1, i, u);
    if Active(st, n - 1, i, u) {
      k := AcceptedBefore(es, st, n - 1, i, u);
    } else {
      k := n - 1;
    }
  }
}
