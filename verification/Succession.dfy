/**
 What becomes of the leadership, and of partner suggestions, over whole runs: an incident nobody leads waits
 for somebody to take the lead, whatever is offered to whom; a suggestion is answered once.
 */
module Succession {
  import opened Domain
  import opened Store
  import opened Invariants
  import opened Engagements
  import opened Runs
  import opened Releases

  // ---- Incidents without a leader ------------------------------------------------------------

  ghost predicate LeadsBy(cs: Collabs, k: CollabKey, i: IncidentId) {
    AcceptedOn(cs, k, i) && cs[k].role.Leader?
  }

  ghost predicate Leaderless(s: State, i: IncidentId) {
    i in s.incidents && forall u :: !IsLeader(s, i, u)
  }

  lemma LeaderlessMeans(s: State, i: IncidentId)
    requires i in s.incidents
    ensures Leaderless(s, i) <==> s.incidents[i].takenBy.None? && forall k :: !LeadsBy(s.collabs, k, i)
  {
    if Leaderless(s, i) {
      assert s.incidents[i].takenBy.Some? ==> IsLeader(s, i, s.incidents[i].takenBy.value);
      forall k
        ensures !LeadsBy(s.collabs, k, i)
      {
        assert !IsLeader(s, i, k.1);
      }
    } else {
      var u: UserId :| IsLeader(s, i, u);
      assert s.incidents[i].takenBy != Some(u) ==> LeadsBy(s.collabs, (i, u), i);
    }
  }

  lemma LeadersOfLead(s: State, now: Time, i: IncidentId, u: UserId, k: CollabKey)
    requires i in s.incidents
    ensures LeadsBy(ApplyLead(s, now, i, u).state.collabs, k, k.0) ==>
              LeadsBy(s.collabs, k, k.0) || (k.0 == i && ApplyLead(s, now, i, u).state.incidents[i].takenBy.Some?)
    ensures LeadsBy(ApplyTakeInternal(s, now, i, u).state.collabs, k, k.0) ==>
              || LeadsBy(s.collabs, k, k.0)
              || (k.0 == i && ApplyTakeInternal(s, now, i, u).state.incidents[i].takenBy.Some?)
  {
  }

  lemma LeadersOfJoin(s: State, now: Time, i: IncidentId, u: UserId, role: Role, mail: bool, k: CollabKey)
    requires i in s.incidents && !role.Leader?
    ensures LeadsBy(ApplyJoin(s, now, i, u, role, mail).state.collabs, k, k.0) ==> LeadsBy(s.collabs, k, k.0)
  {
  }

  lemma LeadersOfTake(s: State, now: Time, j: IncidentId, u: UserId, mode: Option<Mode>, role: Option<Role>,
                      mail: bool, k: CollabKey, i: IncidentId)
    requires LeadsBy(ApplyTakeInCharge(s, now, j, u, mode, role, mail).state.collabs, k, i)
    ensures || LeadsBy(s.collabs, k, i)
            || (&& i == j && i in s.incidents
                && ApplyTakeInCharge(s, now, j, u, mode, role, mail).state.incidents[i].takenBy.Some?)
  {
    if j in s.incidents {
      LeadersOfLead(s, now, j, u, k);
      if role.Some? && !role.value.Leader? {
        LeadersOfJoin(s, now, j, u, role.value, mail, k);
      }
    }
  }

  lemma LeadersOfDisengage(s: State, now: Time, j: IncidentId, u: UserId, k: CollabKey, i: IncidentId)
    requires LeadsBy(ApplyDisengage(s, now, j, u).state.collabs, k, i)
    ensures LeadsBy(s.collabs, k, i)
  {
  }

  /** A lifecycle request makes accepted leaders only by putting one in charge. */
  lemma LeadersOfLife(s: State, now: Time, j: IncidentId, op: LifeOp, k: CollabKey, i: IncidentId)
    requires LeadsBy(ApplyLife(s, now, j, op).state.collabs, k, i)
    ensures || LeadsBy(s.collabs, k, i)
            || (&& op.TakeInCharge? && i == j && i in s.incidents
                && ApplyLife(s, now, j, op).state.incidents[i].takenBy.Some?)
  {
    match op
    case TakeInCharge(u, mode, role, mail) => LeadersOfTake(s, now, j, u, mode, role, mail, k, i);
    case Disengage(u) => LeadersOfDisengage(s, now, j, u, k, i);
    case _ =>
  }

  /** A request about collaborations makes them only where there is a leader already. */
  lemma LeadersOfRequest(s: State, now: Time, j: IncidentId, u: UserId, op: CollabOp, k: CollabKey, i: IncidentId)
    requires MinorRoles(s) && LeadsBy(ApplyCollab(s, now, j, u, op).state.collabs, k, i)
    ensures LeadsBy(s.collabs, k, i) || (i == j && !Leaderless(s, i))
  {
    match op
    case Request(role, endDate, mail) =>
    case Decide(actor, accept) => assert i == j && accept && !LeadsBy(s.collabs, k, i) ==> IsLeader(s, i, actor);
    case Accept(actor) => assert i == j && !LeadsBy(s.collabs, k, i) ==> IsLeader(s, i, actor);
    case Decline(actor) =>
    case Suggest(_, _, _, _, _) =>
    case AdoptSuggestion(actor, _, mail) =>
    case DismissSuggestion(_, _) =>
    case Discuss(same) =>
      if i == j && i in s.incidents && s.incidents[i].takenBy.Some? {
        assert IsLeader(s, i, s.incidents[i].takenBy.value);
      }
  }

  lemma LeadersOfStep(s: State, now: Time, op: Op, k: CollabKey, i: IncidentId)
    requires MinorRoles(s) && i in s.incidents && LeadsBy(Apply(s, now, op).state.collabs, k, i)
    ensures || LeadsBy(s.collabs, k, i) || !Leaderless(s, i)
            || (i in Apply(s, now, op).state.incidents && Apply(s, now, op).state.incidents[i].takenBy.Some?)
  {
    match op
    case Life(j, life) => LeadersOfLife(s, now, j, life, k, i);
    case Collaborate(j, u, collab) => LeadersOfRequest(s, now, j, u, collab, k, i);
    case _ => LeadersOfOthers(s, now, op, k, i);
  }

  /** The other steps make no leader collaboration. */
  lemma LeadersOfOthers(s: State, now: Time, op: Op, k: CollabKey, i: IncidentId)
    requires !op.Life? && !op.Collaborate? && LeadsBy(Apply(s, now, op).state.collabs, k, i)
    ensures LeadsBy(s.collabs, k, i)
  {
    match op
    case OnTask(j, t, taskOp) => TaskStepShape(s, now, j, t, taskOp);
    case Assign(_, _, assign) =>
    case _ =>
  }

  /** As long as nobody takes it in charge, an incident without a leader stays without one. */
  lemma {:induction false} StaysLeaderless(es: seq<Event>, st: seq<State>, a: nat, m: nat, i: IncidentId)
    requires IsRun(es, st) && a <= m <= |es| && LiveThrough(st, a, m, i) && Leaderless(st[a], i)
    requires forall k: nat | a < k <= m :: RowAt(st, k, i).takenBy.None?
    ensures Leaderless(st[m], i)
  {
    if a < m {
      StaysLeaderless(es, st, a, m - 1, i);
      LeaderlessEvent(es, st, m - 1, i);
    }
  }

  lemma LeaderlessEvent(es: seq<Event>, st: seq<State>, k: nat, i: IncidentId)
    requires IsRun(es, st) && k < |es| && Leaderless(st[k], i) && Live(st, k + 1, i)
    requires RowAt(st, k + 1, i).takenBy.None?
    ensures Leaderless(st[k + 1], i)
  {
    InvAlways(es, st, k);
    assert Stepped(es, st, k);
    LeaderlessStep(st[k], es[k].time, es[k].op, i);
  }

  lemma LeaderlessStep(s: State, now: Time, op: Op, i: IncidentId)
    requires MinorRoles(s) && Leaderless(s, i) && i in Apply(s, now, op).state.incidents
    requires Apply(s, now, op).state.incidents[i].takenBy.None?
    ensures Leaderless(Apply(s, now, op).state, i)
  {
    var t := Apply(s, now, op).state;
    LeaderlessMeans(s, i);
    forall k
      ensures !LeadsBy(t.collabs, k, i)
    {
      if LeadsBy(t.collabs, k, i) {
        LeadersOfStep(s, now, op, k, i);
      }
    }
    LeaderlessMeans(t, i);
  }

  /** A withdrawal leaves a leader only where it leaves candidates and another accepted leader collaboration. */
  lemma WithdrawalLeavesNobody(es: seq<Event>, st: seq<State>, a: nat, i: IncidentId)
    requires IsRun(es, st) && Withdraws(es, st, a, i) && Live(st, a + 1, i)
    ensures Leaderless(st[a + 1], i) <==>
              || RowAt(st, a + 1, i).etat.Declared?
              || forall k :: LeadsBy(st[a].collabs, k, i) ==> k.1 == es[a].op.life.user
  {
    var s, now, u := st[a], es[a].time, es[a].op.life.user;
    assert Stepped(es, st, a);
    AfterDisengagement(s, now, i, u);
    LeaderlessMeans(st[a + 1], i);
    if RowAt(st, a + 1, i).etat.Taken? {
      OtherLeadersStay(s, now, i, u);
    }
  }

  lemma OtherLeadersStay(s: State, now: Time, i: IncidentId, u: UserId)
    requires ApplyDisengage(s, now, i, u).response.Ok? && ApplyDisengage(s, now, i, u).state.incidents[i].etat.Taken?
    ensures forall k ::
              LeadsBy(ApplyDisengage(s, now, i, u).state.collabs, k, i) <==> LeadsBy(s.collabs, k, i) && k.1 != u
  {
    assert ApplyDisengage(s, now, i, u).state.collabs == ContributorsProposed(WithoutLeaver(s.collabs, i, u), i, u);
  }

  /**
   The offer of leadership over runs. After a withdrawal that leaves no other accepted leader collaboration,
   and as long as nobody takes the incident in charge, no acceptance of any collaboration on it succeeds, by
   anybody, at any time: the candidates cannot be confirmed, whatever else happens in between.
   */
  lemma CandidatesWait(es: seq<Event>, st: seq<State>, a: nat, m: nat, i: IncidentId, u: UserId, actor: UserId,
                       now: Time)
    requires IsRun(es, st) && a < m <= |es| && LiveThrough(st, a, m, i) && Withdraws(es, st, a, i)
    requires forall k :: LeadsBy(st[a].collabs, k, i) ==> k.1 == es[a].op.life.user
    requires forall k: nat | a < k <= m :: RowAt(st, k, i).takenBy.None?
    ensures !ApplyDecide(st[m], now, i, u, actor, true).response.Ok?
    ensures !ApplyAccept(st[m], now, i, u, actor).response.Ok?
  {
    WithdrawalLeavesNobody(es, st, a, i);
    StaysLeaderless(es, st, a + 1, m, i);
  }

  // ---- Suggestions ---------------------------------------------------------------------------

  /** Adopting a suggestion makes a collaboration, but the signal removes it when nobody can be told of it. */
  lemma AdoptionMayBeLost(s: State, i: IncidentId, u: UserId, actor: UserId, superAdmin: bool, mail: bool)
    requires ApplyAdopt(s, i, u, actor, superAdmin, mail).response.Ok? && MinorRoles(s)
    ensures var t := ApplyAdopt(s, i, u, actor, superAdmin, mail).state;
            && t.suggestions[(i, u)] == s.suggestions[(i, u)].(status := Adopted)
            && ((i, u) !in t.collabs <==>
                  (i, u) !in s.collabs
                  && (s.incidents[i].takenBy.None? || (!mail && s.incidents[i].takenBy != Some(u))))
            && ((i, u) in t.collabs ==>
                  t.collabs[(i, u)].role == s.suggestions[(i, u)].role && t.collabs[(i, u)].status.Accepted?)
            && t.incidents == s.incidents
            && (forall k :: k != (i, u) && k in s.collabs ==> t.collabs[k] == s.collabs[k])
  {
  }

  ghost predicate Answered(s: State, k: CollabKey) {
    k in s.suggestions && !s.suggestions[k].status.Offered?
  }

  /**
   An answered suggestion keeps its answer as long as the incident exists; it is neither adopted, nor
   dismissed, nor made again. So a partner whose collaboration was lost cannot be suggested a second time.
   */
  lemma {:induction false} AnsweredOnce(es: seq<Event>, st: seq<State>, a: nat, m: nat, i: IncidentId, u: UserId)
    requires IsRun(es, st) && a <= m <= |es| && LiveThrough(st, a, m, i) && Answered(st[a], (i, u))
    ensures Answered(st[m], (i, u)) && st[m].suggestions[(i, u)] == st[a].suggestions[(i, u)]
    ensures forall actor, superAdmin, mail :: !ApplyAdopt(st[m], i, u, actor, superAdmin, mail).response.Ok?
    ensures forall actor, superAdmin :: !ApplyDismiss(st[m], i, u, actor, superAdmin).response.Ok?
    ensures forall actor, superAdmin, same, named, role ::
              !ApplySuggest(st[m], i, u, actor, superAdmin, same, named, role).response.Ok?
  {
    if a < m {
      AnsweredOnce(es, st, a, m - 1, i, u);
      assert Stepped(es, st, m - 1) && Live(st, m, i);
      AnswerKept(st[m - 1], es[m - 1].time, es[m - 1].op, i, u);
    }
  }

  lemma AnswerKept(s: State, now: Time, op: Op, i: IncidentId, u: UserId)
    requires Answered(s, (i, u)) && i in Apply(s, now, op).state.incidents
    ensures (i, u) in Apply(s, now, op).state.suggestions
    ensures Apply(s, now, op).state.suggestions[(i, u)] == s.suggestions[(i, u)]
  {
    if Erases(op) {
      var gone := ErasureShape(s, now, op);
    } else {
      SuggestionStep(s, now, op);
      assert SuggestionMoves(s, Apply(s, now, op).state, op, (i, u));
    }
  }
}
