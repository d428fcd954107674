/** What lets go of an incident, over whole runs: the mode between two releases, and rows no sweep can free. */
module Releases {
  import opened Domain
  import opened Store
  import opened Engagements
  import opened Runs
  import Rows = IncidentRows

  /** Event k is an accepted withdrawal from i. */
  ghost predicate Withdraws(es: seq<Event>, st: seq<State>, k: nat, i: IncidentId) {
    && k < |es| && k < |st|
    && es[k].op.Life? && es[k].op.incident == i && es[k].op.life.Disengage?
    && ApplyDisengage(st[k], es[k].time, i, es[k].op.life.user).response.Ok?
  }

  /** Event k is an anti-freeze sweep that finds i past its deadline. */
  ghost predicate Reverts(es: seq<Event>, st: seq<State>, k: nat, i: IncidentId) {
    && k < |es| && Live(st, k, i) && es[k].op == Run(Sweep.AntiGel)
    && Rows.Watched(RowAt(st, k, i)) && Rows.Expired(RowAt(st, k, i), es[k].time)
  }

  ghost predicate ReleasedAt(es: seq<Event>, st: seq<State>, k: nat, i: IncidentId) {
    Withdraws(es, st, k, i) || Reverts(es, st, k, i)
  }

  /** One event: without a release the mode does not go down, and a release leaves none, and nobody in charge. */
  lemma ReleaseStep(es: seq<Event>, st: seq<State>, k: nat, i: IncidentId)
    requires IsRun(es, st) && k < |es| && Live(st, k, i) && Live(st, k + 1, i)
    ensures var r, n := RowAt(st, k, i), RowAt(st, k + 1, i);
            if ReleasedAt(es, st, k, i)
            then n.mode.None? && n.takenBy.None? && n.takenInChargeAt.None?
            else Rows.ModeRank(r.mode) <= Rows.ModeRank(n.mode)
  {
    var act := StepEffect(es, st, k, i);
    var s, now, op := st[k], es[k].time, es[k].op;
    assert Stepped(es, st, k);
    if Withdraws(es, st, k, i) {
      AfterDisengagement(s, now, i, op.life.user);
    } else if act.Some? && !Reverts(es, st, k, i) {
      Rows.ModeOnlyClimbs(RowAt(st, k, i), now, act.value);
    }
  }

  /**
   Between two events with no release of the incident in between, the mode only climbs: from none to
   internal to collaborative.
   */
  lemma {:induction false} ModeClimbsBetweenReleases(es: seq<Event>, st: seq<State>, a: nat, b: nat, i: IncidentId)
    requires IsRun(es, st) && a <= b <= |es| && LiveThrough(st, a, b, i)
    requires forall k: nat | a <= k < b :: !ReleasedAt(es, st, k, i)
    ensures Rows.ModeRank(RowAt(st, a, i).mode) <= Rows.ModeRank(RowAt(st, b, i).mode)
  {
    if a < b {
      ModeClimbsBetweenReleases(es, st, a, b - 1, i);
      ReleaseStep(es, st, b - 1, i);
    }
  }

  // ---- Rows without a stamp ------------------------------------------------------------------

  /** An engaged row that the anti-freeze sweep does not see, for want of a stamp. */
  ghost predicate Unstamped(r: Rows.Incident) {
    !r.etat.Declared? && r.takenInChargeAt.None?
  }

  /** Such a row goes back to 'declared' exactly when somebody withdraws and leaves no contributor behind. */
  lemma UnstampedReturnsExactly(es: seq<Event>, st: seq<State>, k: nat, i: IncidentId)
    requires IsRun(es, st) && k < |es| && Live(st, k, i) && Live(st, k + 1, i) && Unstamped(RowAt(st, k, i))
    ensures RowAt(st, k + 1, i).etat.Declared? <==>
              && Withdraws(es, st, k, i)
              && forall c :: c in st[k].collabs && IsContributorOf(c, st[k].collabs[c], i) ==> c.1 == es[k].op.life.user
    ensures RowAt(st, k + 1, i).takenInChargeAt.None?
  {
    var act := StepEffect(es, st, k, i);
    assert Stepped(es, st, k);
    if act.Some? {
      Rows.ResolvedAndFreed(RowAt(st, k, i), es[k].time, act.value);
    }
    if Withdraws(es, st, k, i) {
      AfterDisengagement(st[k], es[k].time, i, es[k].op.life.user);
    }
  }

  /**
   So the anti-freeze sweep never frees an incident taken without a stamp, by the legacy request or by a
   new leader after a withdrawal: while nobody withdraws it stays engaged and unstamped for ever.
   */
  lemma {:induction false} UnstampedNeverFreed(es: seq<Event>, st: seq<State>, a: nat, m: nat, i: IncidentId)
    requires IsRun(es, st) && a <= m <= |es| && LiveThrough(st, a, m, i) && Unstamped(RowAt(st, a, i))
    requires forall k: nat | a <= k < m :: !Withdraws(es, st, k, i)
    ensures Unstamped(RowAt(st, m, i))
  {
    if a < m {
      UnstampedNeverFreed(es, st, a, m - 1, i);
      UnstampedReturnsExactly(es, st, m - 1, i);
    }
  }
}
