/** Single requests that change several tables at once: engagements, withdrawals and collaborations. */
module Engagements {
  import opened Domain
  import opened Store
  import opened Effects
  import Rows = IncidentRows

  ghost predicate AcceptedOn(cs: Collabs, k: CollabKey, i: IncidentId) {
    k in cs && k.0 == i && cs[k].status.Accepted?
  }

  ghost predicate CandidateOn(cs: Collabs, k: CollabKey, i: IncidentId) {
    k in cs && k.0 == i && cs[k].role.Leader? && cs[k].status.Pending?
  }

  /**
   After an accepted withdrawal the incident is nobody's. Either it is declared again and no
   collaboration on it is active; or it stays taken, some contributor is a candidate for leadership
   and none is active as a contributor any more. Which one depends on whether another active
   contributor was there.
   */
  lemma AfterDisengagement(s: State, now: Time, i: IncidentId, u: UserId)
    requires ApplyDisengage(s, now, i, u).response.Ok?
    ensures var t := ApplyDisengage(s, now, i, u).state;
            var r := t.incidents[i];
            && r.takenBy.None? && r.mode.None? && r.takenInChargeAt.None?
            && (r.etat.Taken? <==> exists k :: k in s.collabs && IsContributorOf(k, s.collabs[k], i) && k.1 != u)
            && (r.etat.Declared? ==> forall k :: !AcceptedOn(t.collabs, k, i))
            && (r.etat.Taken? ==> && (exists k :: CandidateOn(t.collabs, k, i))
                                  && (forall k :: AcceptedOn(t.collabs, k, i) ==> !t.collabs[k].role.Contributor?))
            && (r.etat.Declared? || r.etat.Taken?)
            && ((i, u) in t.collabs ==> !t.collabs[(i, u)].status.Accepted?)
  {
    var cs := WithoutLeaver(s.collabs, i, u);
    forall k: CollabKey | k.1 != u
      ensures k in cs && IsContributorOf(k, cs[k], i) <==> k in s.collabs && IsContributorOf(k, s.collabs[k], i)
    {
    }
    if HasCandidates(cs, i, u) {
      var k :| k in cs && IsContributorOf(k, cs[k], i) && k.1 != u;
      assert CandidateOn(ContributorsProposed(cs, i, u), k, i);
    }
  }

  /** From before to after, the active collaborations on i ended, and nothing else happened. */
  ghost predicate NoneActive(before: Collabs, after: Collabs, i: IncidentId) {
    && (forall k :: !AcceptedOn(after, k, i))
    && (forall k :: AcceptedOn(before, k, i) ==> k in after && after[k].status.Terminated?)
    && (forall k :: k in before && !AcceptedOn(before, k, i) ==> k in after && after[k] == before[k])
    && (forall k :: k in after ==> k in before && after[k].(status := before[k].status) == before[k])
  }

  /** That describes one table and only one. */
  lemma NoneActiveExactly(before: Collabs, after: Collabs, i: IncidentId)
    ensures NoneActive(before, after, i) <==> after == CollabsTerminated(before, i)
  {
    var ended := CollabsTerminated(before, i);
    if NoneActive(before, after, i) {
      assert after.Keys == ended.Keys by {
        assert forall k :: k in before ==> AcceptedOn(before, k, i) || !AcceptedOn(before, k, i);
      }
      forall k | k in before
        ensures after[k] == ended[k]
      {
        assert AcceptedOn(before, k, i) <==> k.0 == i && before[k].status.Accepted?;
      }
    }
  }

  /** A definitive validation, explicit or tacit, leaves no active collaboration on the incident. */
  lemma AfterValidation(s: State, now: Time, i: IncidentId)
    ensures ApplyValidate(s, now, i).response.Ok? ==>
              forall k :: !AcceptedOn(ApplyValidate(s, now, i).state.collabs, k, i)
    ensures i in OverdueValidations(s, now) ==>
              && SweepValidate(s, now).incidents[i].etat.ResolvedDefinitive?
              && forall k :: !AcceptedOn(SweepValidate(s, now).collabs, k, i)
  {
  }

  /** A new collaborative leader has every other contributor to confirm: none is active any more. */
  lemma AfterTakingTheLead(s: State, now: Time, i: IncidentId, u: UserId)
    requires i in s.incidents && ApplyLead(s, now, i, u).response.Ok?
    ensures var t := ApplyLead(s, now, i, u).state;
            && IsLeader(t, i, u) && t.incidents[i].mode == Some(Collaborative)
            && (forall k :: AcceptedOn(t.collabs, k, i) && k.1 != u ==> !t.collabs[k].role.Contributor?)
            && (forall k :: k in s.collabs ==> k in t.collabs && t.collabs[k].role == s.collabs[k].role)
  {
  }

  /**
   A collaboration asked for while nobody leads the incident never survives its own creation, so the
   automatic acceptance of contributors "as long as no leader is designated" leaves no trace but the
   collaborative mode; under a leader with a mail address it survives.
   */
  lemma CollaborationNeedsALeader(s: State, now: Time, i: IncidentId, u: UserId, role: Option<Role>,
                                  end: Option<int>, mail: bool)
    requires ApplyRequest(s, now, i, u, role, end, mail).response.Ok?
    ensures var t := ApplyRequest(s, now, i, u, role, end, mail).state;
            && ((i, u) in t.collabs <==> s.incidents[i].takenBy.Some? && (mail || s.incidents[i].takenBy == Some(u)))
            && ((i, u) in t.collabs && t.collabs[(i, u)].status.Accepted? ==>
                  role == Some(Observer) && s.incidents[i].mode != Some(Internal))
            && (forall k :: k != (i, u) ==> (k in t.collabs <==> k in s.collabs))
            && (forall k :: k != (i, u) && k in s.collabs ==> t.collabs[k] == s.collabs[k])
  {
  }

  /** The same on taking in charge in collaborative mode as a contributor or an observer. */
  lemma JoiningNeedsALeader(s: State, now: Time, i: IncidentId, u: UserId, role: Role, mail: bool)
    requires !role.Leader? && ApplyTakeInCharge(s, now, i, u, Some(Collaborative), Some(role), mail).response.Ok?
    ensures var t := ApplyTakeInCharge(s, now, i, u, Some(Collaborative), Some(role), mail).state;
            && t.incidents[i].mode == Some(Collaborative) && t.incidents[i].takenBy == s.incidents[i].takenBy
            && ((i, u) in t.collabs <==> s.incidents[i].takenBy.Some? && (mail || s.incidents[i].takenBy == Some(u)))
            && ((i, u) in t.collabs ==>
                  (t.collabs[(i, u)].status.Accepted? <==> role.Observer?) && t.collabs[(i, u)].role == role)
            && (forall k :: k != (i, u) ==> (k in t.collabs <==> k in s.collabs))
            && (forall k :: k != (i, u) && k in s.collabs ==> t.collabs[k] == s.collabs[k])
  {
    match s.incidents[i].mode
    case None =>
    case Some(mode) =>
      assert mode == Collaborative;
  }

  /** A collaboration may be asked for, whatever the role and the end date, unless one is pending or accepted. */
  lemma WhoMayAskAgain(s: State, now: Time, i: IncidentId, u: UserId, role: Option<Role>, end: Option<int>, mail: bool)
    requires i in s.incidents && !s.incidents[i].etat.Resolved?
    ensures ApplyRequest(s, now, i, u, role, end, mail).response.Ok?
            <==> && role != Some(Leader) && (end.Some? ==> end.value > DateOf(now))
                 && ((i, u) in s.collabs ==> s.collabs[(i, u)].status.Declined? || s.collabs[(i, u)].status.Terminated?)
  {
  }

  /**
   A request repeated before anything else happens is refused if and only if the first one survived,
   that is, if there was a leader to be told of it. Without one it can be repeated for ever.
   */
  lemma RepeatedRequest(s: State, now: Time, later: Time, i: IncidentId, u: UserId, role: Option<Role>, mail: bool)
    requires ApplyRequest(s, now, i, u, role, None, mail).response.Ok?
    ensures var t := ApplyRequest(s, now, i, u, role, None, mail).state;
            ApplyRequest(t, later, i, u, role, None, mail).response.Ok?
            <==> s.incidents[i].takenBy.None? || (!mail && s.incidents[i].takenBy != Some(u))
  {
  }

  /**
   After a withdrawal that left candidates, who can confirm one of them: exactly the other users with an
   accepted leader collaboration. The incident has nobody of its own to do it, so without such a user every
   acceptance is forbidden; and even an acceptance leaves the incident without taken_by.
   */
  lemma WhoConfirmsCandidates(s: State, now: Time, later: Time, i: IncidentId, u: UserId, k: CollabKey, actor: UserId)
    requires ApplyDisengage(s, now, i, u).response.Ok?
    requires ApplyDisengage(s, now, i, u).state.incidents[i].etat.Taken?
    requires CandidateOn(ApplyDisengage(s, now, i, u).state.collabs, k, i)
    ensures var t := ApplyDisengage(s, now, i, u).state;
            var decided := ApplyDecide(t, later, i, k.1, actor, true);
            var accepted := ApplyAccept(t, later, i, k.1, actor);
            var leads := actor != u && AcceptedOn(s.collabs, (i, actor), i) && s.collabs[(i, actor)].role.Leader?;
            && (decided.response.Ok? <==> leads)
            && (!leads ==> decided.response.Forbidden? && accepted.response.Forbidden?)
            && (accepted.response.Ok? ==> leads)
            && decided.state.incidents[i].takenBy.None? && accepted.state.incidents[i].takenBy.None?
  {
    LeadersAfterWithdrawal(s, now, i, u, actor);
  }

  lemma LeadersAfterWithdrawal(s: State, now: Time, i: IncidentId, u: UserId, actor: UserId)
    requires ApplyDisengage(s, now, i, u).response.Ok?
    requires ApplyDisengage(s, now, i, u).state.incidents[i].etat.Taken?
    ensures var t := ApplyDisengage(s, now, i, u).state;
            && t.incidents[i].takenBy.None?
            && (IsLeader(t, i, actor) <==>
                  actor != u && AcceptedOn(s.collabs, (i, actor), i) && s.collabs[(i, actor)].role.Leader?)
  {
    var t := ApplyDisengage(s, now, i, u).state;
    assert t.collabs == ContributorsProposed(WithoutLeaver(s.collabs, i, u), i, u);
  }

  /** A step drops the mode of an incident only by a withdrawal or by the anti-freeze revert, and then to nothing. */
  lemma ModeDropsOnlyOnRelease(s: State, now: Time, op: Op, i: IncidentId)
    requires i in s.incidents
    ensures i in Apply(s, now, op).state.incidents ==>
              var r, n := s.incidents[i], Apply(s, now, op).state.incidents[i];
              Rows.ModeRank(n.mode) < Rows.ModeRank(r.mode) ==>
                && ((op.Life? && op.incident == i && op.life.Disengage?) || op == Run(Sweep.AntiGel))
                && n.mode.None? && n.takenBy.None?
  {
    if i in Apply(s, now, op).state.incidents {
      var a := RowEffect(s, now, op, i);
      if a.Some? {
        Rows.ModeOnlyClimbs(s.incidents[i], now, a.value);
      }
    }
  }

  /** Closing by hand needs a leader, dates and every task finished; it is the only guard it has. */
  lemma WhenCloseSucceeds(s: State, now: Time, i: IncidentId, u: UserId, start: Option<int>, end: Option<int>)
    requires i in s.incidents
    ensures ApplyClose(s, now, i, u, start, end).response.Ok?
            <==> && IsLeader(s, i, u) && !s.incidents[i].etat.Resolved? && start.Some? && end.Some?
                 && forall t :: t in s.tasks && s.tasks[t].incident == i ==>
                      s.tasks[t].state.Done? || s.tasks[t].state.Failed?
  {
  }

  /**
   Closing by hand does not wait for an engagement. After an anti-freeze revert, which does not end
   collaborations, the declared incident can be closed by exactly the users with an accepted leader
   collaboration from before, the former leader's own included, once every task is finished.
   */
  lemma FormerLeaderCloses(s: State, now: Time, later: Time, i: IncidentId, u: UserId,
                           start: Option<int>, end: Option<int>)
    requires i in s.incidents && Rows.Watched(s.incidents[i]) && Rows.Expired(s.incidents[i], now)
    ensures var declared := SweepAntiGel(s, now);
            var closed := ApplyClose(declared, later, i, u, start, end);
            && declared.incidents[i].etat.Declared? && declared.incidents[i].takenBy.None?
            && (closed.response.Ok? <==>
                  && AcceptedOn(s.collabs, (i, u), i) && s.collabs[(i, u)].role.Leader?
                  && start.Some? && end.Some? && !HasOpenTask(s.tasks, i))
            && (closed.response.Ok? ==> closed.state.incidents[i].etat.Resolved?)
  {
    assert SweepAntiGel(s, now).incidents[i] == Rows.Next(s.incidents[i], now, Rows.AntiGel);
  }
}
