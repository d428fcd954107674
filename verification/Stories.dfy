/** Runs, given event by event, that show where a promise stops: each is a run of the whole service. */
module Stories {
  import opened Domain
  import opened Store
  import opened Runs
  import opened Timers
  import Rows = IncidentRows

  /** A database with one incident, number 0, and no task. */
  function Solo(r: Rows.Incident, cs: Collabs, asg: Assignments): State {
    State(map[0 := r], cs, asg, map[], map[])
  }

  function LedBy(u: UserId, status: CollabStatus): Collabs {
    map[(0, u) := Collab(Leader, status, None)]
  }

  function Asked(org: OrgId, t: Time, status: AssignmentStatus, answer: Option<Time>): Assignments {
    map[0 := Assignment(0, org, status, t, t + RESPONSE_DELAY, answer, None)]
  }

  function Take(u: UserId): Op {
    Life(0, TakeInCharge(u, Some(Internal), None, true))
  }

  // ---- Single steps on such a database -------------------------------------------------------

  lemma Reported(now: Time, severity: Option<Severity>)
    ensures Apply(EMPTY, now, Report(0, severity)).state == Solo(Rows.NewIncident(severity), map[], map[])
  {
  }

  lemma TakenBy(r: Rows.Incident, now: Time, u: UserId)
    requires Rows.Enabled(r, Rows.TakeInternal(u))
    ensures Apply(Solo(r, map[], map[]), now, Take(u)).state
            == Solo(Rows.Next(r, now, Rows.TakeInternal(u)), LedBy(u, Accepted), map[])
  {
  }

  lemma Swept(r: Rows.Incident, cs: Collabs, asg: Assignments, now: Time)
    ensures Apply(Solo(r, cs, asg), now, Run(Sweep.AntiGel)).state == Solo(Rows.AntiGelStep(r, now), cs, asg)
  {
    assert SweepAntiGel(Solo(r, cs, asg), now).incidents == map[0 := Rows.AntiGelStep(r, now)];
  }

  lemma LeftBy(r: Rows.Incident, now: Time, u: UserId)
    requires r.etat.Taken? && r.takenBy == Some(u)
    ensures Apply(Solo(r, LedBy(u, Accepted), map[]), now, Life(0, Disengage(u))).state
            == Solo(Rows.Next(r, now, Rows.DisengageAlone), LedBy(u, Terminated), map[])
  {
    var cs := WithoutLeaver(LedBy(u, Accepted), 0, u);
    assert cs == LedBy(u, Terminated);
    assert !HasCandidates(cs, 0, u);
    assert CollabsTerminated(cs, 0) == cs;
  }

  lemma OrganisationAsked(r: Rows.Incident, cs: Collabs, now: Time, org: OrgId)
    ensures Apply(Solo(r, cs, map[]), now, Assign(0, 0, AssignTo(Some(org)))).state
            == Solo(r, cs, Asked(org, now, Waiting, None))
  {
  }

  lemma TacitlyTaken(r: Rows.Incident, cs: Collabs, asked: Time, now: Time, org: OrgId, admin: UserId)
    requires r.etat.Declared? && now > asked + RESPONSE_DELAY
    ensures Apply(Solo(r, cs, Asked(org, asked, Waiting, None)), now, Run(AutoAccept(map[org := admin]))).state
            == Solo(Rows.Next(r, now, Rows.EngageTacitly(Some(admin))), cs, Asked(org, asked, Agreed, Some(now)))
  {
    var s := Solo(r, cs, Asked(org, asked, Waiting, None));
    var t := SweepAccept(s, now, map[org := admin]);
    assert SpeaksFor(s, now, 0, 0);
    assert t.incidents == map[0 := Rows.Next(r, now, Rows.EngageTacitly(Some(admin)))];
    assert t.assignments == Asked(org, asked, Agreed, Some(now));
  }

  lemma Resolving(r: Rows.Incident, now: Time, u: UserId)
    requires r.etat.Taken?
    ensures Apply(Solo(r, LedBy(u, Accepted), map[]), now, Life(0, LifeOp.DeclareResolved)).state
            == Solo(Rows.Next(r, now, Rows.DeclareResolved), LedBy(u, Accepted), map[])
  {
  }

  lemma Prepared(r: Rows.Incident, cs: Collabs, now: Time, u: UserId)
    requires r.etat.Taken?
    ensures Apply(Solo(r, cs, map[]), now, Life(0, LifeOp.Prepare(u))).state
            == Solo(Rows.Next(r, now, Rows.Prepare(u)), cs, map[])
  {
  }

  lemma Returned(r: Rows.Incident, cs: Collabs, now: Time)
    requires r.etat.ResolutionPrepared?
    ensures Apply(Solo(r, cs, map[]), now, Life(0, LifeOp.ReturnForCompletion)).state
            == Solo(Rows.Next(r, now, Rows.ReturnForCompletion), cs, map[])
  {
  }

  lemma Validated(r: Rows.Incident, now: Time, u: UserId)
    requires r.etat.InValidation?
    ensures Apply(Solo(r, LedBy(u, Accepted), map[]), now, Life(0, LifeOp.Validate)).state
            == Solo(Rows.Next(r, now, Rows.Validate), LedBy(u, Terminated), map[])
  {
    assert CollabsTerminated(LedBy(u, Accepted), 0) == LedBy(u, Terminated);
  }

  lemma ClosedBy(r: Rows.Incident, cs: Collabs, now: Time, u: UserId, start: int, end: int)
    requires !r.etat.Resolved? && r.takenBy == Some(u)
    ensures Apply(Solo(r, cs, map[]), now, Life(0, LifeOp.Close(u, Some(start), Some(end)))).state
            == Solo(Rows.Next(r, now, Rows.Close(start, end)), cs, map[])
  {
  }

  // ---- Runs, event by event ------------------------------------------------------------------

  /** A run followed by one more event. */
  lemma Prolonged(es: seq<Event>, st: seq<State>, e: Event, next: State)
    requires IsRun(es, st) && Apply(st[|es|], e.time, e.op).state == next
    ensures IsRun(es + [e], st + [next])
  {
    forall k: nat | k < |es| + 1
      ensures Stepped(es + [e], st + [next], k)
    {
      if k < |es| {
        assert Stepped(es, st, k);
      }
    }
  }

  lemma SweptOnce(es: seq<Event>, st: seq<State>, now: Time, r: Rows.Incident, cs: Collabs, asg: Assignments)
    requires IsRun(es, st) && st[|es|] == Solo(r, cs, asg)
    ensures IsRun(es + [Event(now, Run(Sweep.AntiGel))], st + [Solo(Rows.AntiGelStep(r, now), cs, asg)])
  {
    Swept(r, cs, asg, now);
    Prolonged(es, st, Event(now, Run(Sweep.AntiGel)), Solo(Rows.AntiGelStep(r, now), cs, asg));
  }

  /** An incident is reported and taken in charge. */
  lemma Begun(t: Time, severity: Option<Severity>, u: UserId) returns (es: seq<Event>, st: seq<State>, r: Rows.Incident)
    ensures IsRun(es, st) && es == [Event(t, Report(0, severity)), Event(t, Take(u))]
    ensures st[1] == Solo(Rows.NewIncident(severity), map[], map[]) && st[2] == Solo(r, LedBy(u, Accepted), map[])
    ensures r == Rows.Next(Rows.NewIncident(severity), t, Rows.TakeInternal(u))
  {
    var r0 := Rows.NewIncident(severity);
    r := Rows.Next(r0, t, Rows.TakeInternal(u));
    Reported(t, severity);
    TakenBy(r0, t, u);
    Prolonged([], [EMPTY], Event(t, Report(0, severity)), Solo(r0, map[], map[]));
    es, st := [] + [Event(t, Report(0, severity))], [EMPTY] + [Solo(r0, map[], map[])];
    Prolonged(es, st, Event(t, Take(u)), Solo(r, LedBy(u, Accepted), map[]));
    es, st := es + [Event(t, Take(u))], st + [Solo(r, LedBy(u, Accepted), map[])];
  }

  // ---- A definitive resolution that is closed by hand ----------------------------------------

  lemma DefinitiveRun(t: Time, u: UserId) returns (es: seq<Event>, st: seq<State>, r: Rows.Incident)
    ensures IsRun(es, st) && |es| == 4 && forall k | 0 <= k < 4 :: es[k].time == t
    ensures st[4] == Solo(r, LedBy(u, Terminated), map[]) && r.etat.ResolvedDefinitive? && r.takenBy == Some(u)
  {
    var r1: Rows.Incident;
    es, st, r1 := Begun(t, None, u);
    var r2 := Rows.Next(r1, t, Rows.DeclareResolved);
    r := Rows.Next(r2, t, Rows.Validate);
    var declare, validate := Event(t, Life(0, LifeOp.DeclareResolved)), Event(t, Life(0, LifeOp.Validate));
    Resolving(r1, t, u);
    Prolonged(es, st, declare, Solo(r2, LedBy(u, Accepted), map[]));
    es, st := es + [declare], st + [Solo(r2, LedBy(u, Accepted), map[])];
    Validated(r2, t, u);
    Prolonged(es, st, validate, Solo(r, LedBy(u, Terminated), map[]));
    es, st := es + [validate], st + [Solo(r, LedBy(u, Terminated), map[])];
  }

  /** Taken, declared resolved, validated for good by the Super Admin, then closed by hand by its leader. */
  lemma DefinitiveIsNotFinal(t: Time, u: UserId) returns (es: seq<Event>, st: seq<State>)
    ensures IsRun(es, st) && Timed(es) && |es| == 5
    ensures Live(st, 4, 0) && RowAt(st, 4, 0).etat.ResolvedDefinitive?
    ensures ClosesByHand(es, st, 4, 0)
    ensures Live(st, 5, 0) && RowAt(st, 5, 0).etat.Resolved?
  {
    var r: Rows.Incident;
    es, st, r := DefinitiveRun(t, u);
    var close := Event(t, Life(0, LifeOp.Close(u, Some(0), Some(1))));
    var closed := Solo(Rows.Next(r, t, Rows.Close(0, 1)), LedBy(u, Terminated), map[]);
    ClosedBy(r, LedBy(u, Terminated), t, u, 0, 1);
    Prolonged(es, st, close, closed);
    es, st := es + [close], st + [closed];
  }

  // ---- How wide the gap between sweeps may be ------------------------------------------------

  /** The four sweeps that reach an engagement of age zero at s: spaced by a tenth of the deadline and a little more. */
  function LateSweep(s: Time, deadline: Time, n: int): Time {
    s + deadline / 10 * 9 - 1 + (n - 2) * (deadline / 10 + 1)
  }

  /** What the four sweeps make of a row that was just taken: only the second one warns, the last one reverts. */
  lemma FourSweeps(r: Rows.Incident, s: Time, u: UserId)
    requires Armed(r, s, u)
    ensures var deadline := AntiGelDeadline(r.severity);
            var r0 := Rows.AntiGelStep(r, LateSweep(s, deadline, 0));
            var r1 := Rows.AntiGelStep(r0, LateSweep(s, deadline, 1));
            var r2 := Rows.AntiGelStep(r1, LateSweep(s, deadline, 2));
            var r3 := Rows.AntiGelStep(r2, LateSweep(s, deadline, 3));
            && r0 == r && r1 == r2 == r.(warned75 := true, warnings := r.warnings + [Rows.Warning(u, 75)])
            && r3.etat.Declared? && r3.warnings == r1.warnings
  {
  }

  predicate Armed(r: Rows.Incident, s: Time, u: UserId) {
    r.etat.Taken? && r.takenBy == Some(u) && r.takenInChargeAt == Some(s) && !r.warned75 && !r.warned90
  }

  /**
   A tenth of the deadline is the widest gap that makes NoSurpriseRevert true: for every wider one, and every
   severity, here is a run that meets all its other hypotheses in which the leader gets the 75 % warning only.
   */
  lemma TenthIsTheWidestGap(severity: Option<Severity>, s: Time, u: UserId, gap: Time)
    returns (es: seq<Event>, st: seq<State>)
    requires 10 * gap > AntiGelDeadline(severity)
    ensures IsRun(es, st) && Timed(es) && |es| == 6
    ensures EngagesStamped(es, st, 1, 0, u) && HeldBy(st, 1, 5, 0, u)
    ensures var first := RowAt(st, 2, 0);
            first.severity == severity && !first.warned75 && !first.warned90 && first.warnings == []
    ensures Cadence(es, 1, 5, AntiGelDeadline(severity), gap)
    ensures StaysTaken(st, 1, 5, 0) && SeenCadence(es, st, 1, 5, 0, AntiGelDeadline(severity), gap)
    ensures IsFreezeSweep(es[5].op) && Live(st, 6, 0) && RowAt(st, 6, 0).etat.Declared?
    ensures RowAt(st, 6, 0).warnings == [Rows.Warning(u, 75)]
  {
    var deadline := AntiGelDeadline(severity);
    var es2, st2, r := Begun(s, severity, u);
    assert EngagesStamped(es2, st2, 1, 0, u);
    es, st := FourSweepsRun(es2, st2, s, u, r);
    FourInCadence(es, s, deadline, gap);
    TakenMeetsTheSchedule(es, st, 1, 5, 0, deadline, gap);
    assert r.warnings + [Rows.Warning(u, 75)] == [Rows.Warning(u, 75)];
  }

  predicate LateSweepsFollow(es: seq<Event>, s: Time, deadline: Time)
    requires |es| == 6
  {
    && es[2] == Event(LateSweep(s, deadline, 0), Run(Sweep.AntiGel))
    && es[3] == Event(LateSweep(s, deadline, 1), Run(Sweep.AntiGel))
    && es[4] == Event(LateSweep(s, deadline, 2), Run(Sweep.AntiGel))
    && es[5] == Event(LateSweep(s, deadline, 3), Run(Sweep.AntiGel))
  }

  lemma FourSweepsRun(es2: seq<Event>, st2: seq<State>, s: Time, u: UserId, r: Rows.Incident)
    returns (es: seq<Event>, st: seq<State>)
    requires IsRun(es2, st2) && |es2| == 2 && st2[2] == Solo(r, LedBy(u, Accepted), map[]) && Armed(r, s, u)
    ensures IsRun(es, st) && |es| == 6 && es[0] == es2[0] && es[1] == es2[1] && st[1] == st2[1] && st[2] == st2[2]
    ensures LateSweepsFollow(es, s, AntiGelDeadline(r.severity))
    ensures forall k: nat | 1 < k <= 5 ::
              Live(st, k, 0) && RowAt(st, k, 0).etat.Taken? && RowAt(st, k, 0).takenBy == Some(u)
    ensures Live(st, 6, 0) && RowAt(st, 6, 0).etat.Declared?
    ensures RowAt(st, 6, 0).warnings == r.warnings + [Rows.Warning(u, 75)]
  {
    var deadline, cs := AntiGelDeadline(r.severity), LedBy(u, Accepted);
    var sweeps := seq(4, n => Event(LateSweep(s, deadline, n), Run(Sweep.AntiGel)));
    FourSweeps(r, s, u);
    var warned := r.(warned75 := true, warnings := r.warnings + [Rows.Warning(u, 75)]);
    var back := Rows.AntiGelStep(warned, LateSweep(s, deadline, 3));
    SweptOnce(es2, st2, LateSweep(s, deadline, 0), r, cs, map[]);
    var es3, st3 := es2 + [sweeps[0]], st2 + [Solo(r, cs, map[])];
    SweptOnce(es3, st3, LateSweep(s, deadline, 1), r, cs, map[]);
    var es4, st4 := es3 + [sweeps[1]], st3 + [Solo(warned, cs, map[])];
    SweptOnce(es4, st4, LateSweep(s, deadline, 2), warned, cs, map[]);
    var es5, st5 := es4 + [sweeps[2]], st4 + [Solo(warned, cs, map[])];
    SweptOnce(es5, st5, LateSweep(s, deadline, 3), warned, cs, map[]);
    es, st := es5 + [sweeps[3]], st5 + [Solo(back, cs, map[])];
  }

  lemma FourInCadence(es: seq<Event>, s: Time, deadline: Time, gap: Time)
    requires |es| == 6 && es[1].time == s && deadline >= 30 * DAY && deadline % 10 == 0 && 10 * gap > deadline
    requires !IsFreezeSweep(es[1].op)
    requires es[0].time == s && LateSweepsFollow(es, s, deadline)
    ensures Timed(es) && IsFreezeSweep(es[5].op)
    ensures Cadence(es, 1, 5, deadline, gap)
  {
    assert LastFreeze(es, 1, 2) == None;
    assert LastFreeze(es, 1, 3) == Some(es[2].time);
    assert LastFreeze(es, 1, 4) == Some(es[3].time);
    assert LastFreeze(es, 1, 5) == Some(es[4].time);
    forall k: nat | 1 < k <= 5
      ensures InCadence(es, 1, k, deadline, gap)
    {
      assert k == 2 || k == 3 || k == 4 || k == 5;
    }
  }

  // ---- A leader who is never warned ----------------------------------------------------------

  /** Sweeps 44, 50, 56 and 62 days after the second engagement. */
  const SECOND_ENGAGEMENT: Time := 60 * DAY

  function QuietSweep(t: Time, n: int): Time {
    t + SECOND_ENGAGEMENT + (44 + 6 * n) * DAY
  }

  lemma WarnedRow(r: Rows.Incident, s: Time, now: Time, u: UserId)
    requires r.etat.Taken? && r.takenInChargeAt == Some(s) && r.takenBy == Some(u) && r.severity == Some(Medium)
    requires now - s == 54 * DAY && !r.warned90
    ensures Rows.AntiGelStep(r, now)
            == r.(warned75 := true, warned90 := true, warnings := r.warnings + [Rows.Warning(u, 90)])
  {
  }

  lemma QuietRow(r: Rows.Incident, s: Time, now: Time)
    requires r.etat.Taken? && r.takenInChargeAt == Some(s) && r.severity == Some(Medium) && r.warned75 && r.warned90
    ensures now - s < 60 * DAY ==> Rows.AntiGelStep(r, now) == r
    ensures now - s >= 60 * DAY ==>
              Rows.AntiGelStep(r, now).etat.Declared? && Rows.AntiGelStep(r, now).warnings == r.warnings
  {
  }

  /** The first leader, up to the withdrawal. */
  lemma FirstEngagement(t: Time, u: UserId) returns (es: seq<Event>, st: seq<State>, r: Rows.Incident)
    ensures IsRun(es, st) && |es| == 4 && Timed(es) && es[3].time == t + 55 * DAY
    ensures st[4] == Solo(r, LedBy(u, Terminated), map[]) && r.etat.Declared? && r.warned75 && r.warned90
    ensures r.severity == Some(Medium) && r.warnings == [Rows.Warning(u, 90)]
  {
    var r1: Rows.Incident;
    es, st, r1 := Begun(t, Some(Medium), u);
    WarnedRow(r1, t, t + 54 * DAY, u);
    assert [] + [Rows.Warning(u, 90)] == [Rows.Warning(u, 90)];
    var r2 := Rows.AntiGelStep(r1, t + 54 * DAY);
    SweptOnce(es, st, t + 54 * DAY, r1, LedBy(u, Accepted), map[]);
    es, st := es + [Event(t + 54 * DAY, Run(Sweep.AntiGel))], st + [Solo(r2, LedBy(u, Accepted), map[])];
    r := Rows.Next(r2, t + 55 * DAY, Rows.DisengageAlone);
    LeftBy(r2, t + 55 * DAY, u);
    Prolonged(es, st, Event(t + 55 * DAY, Life(0, Disengage(u))), Solo(r, LedBy(u, Terminated), map[]));
    es, st := es + [Event(t + 55 * DAY, Life(0, Disengage(u)))], st + [Solo(r, LedBy(u, Terminated), map[])];
  }

  /** The second engagement follows: the organisation is asked, and its answer becomes tacit. */
  lemma SecondEngagement(t: Time, first: UserId, second: UserId, org: OrgId)
    returns (es: seq<Event>, st: seq<State>, r: Rows.Incident, cs: Collabs, asg: Assignments)
    ensures IsRun(es, st) && |es| == 6 && Timed(es) && es[5].time == t + SECOND_ENGAGEMENT
    ensures !IsFreezeSweep(es[5].op) && EngagesStamped(es, st, 5, 0, second)
    ensures st[6] == Solo(r, cs, asg) && r.warned75 && r.warned90
    ensures r.severity == Some(Medium) && r.warnings == [Rows.Warning(first, 90)]
  {
    var s := t + SECOND_ENGAGEMENT;
    var before: Rows.Incident;
    es, st, before := FirstEngagement(t, first);
    cs := LedBy(first, Terminated);
    var asked := Asked(org, t + 56 * DAY, Waiting, None);
    OrganisationAsked(before, cs, t + 56 * DAY, org);
    Prolonged(es, st, Event(t + 56 * DAY, Assign(0, 0, AssignTo(Some(org)))), Solo(before, cs, asked));
    es, st := es + [Event(t + 56 * DAY, Assign(0, 0, AssignTo(Some(org))))], st + [Solo(before, cs, asked)];
    r := Rows.Next(before, s, Rows.EngageTacitly(Some(second)));
    asg := Asked(org, t + 56 * DAY, Agreed, Some(s));
    TacitlyTaken(before, cs, t + 56 * DAY, s, org, second);
    Prolonged(es, st, Event(s, Run(AutoAccept(map[org := second]))), Solo(r, cs, asg));
    es, st := es + [Event(s, Run(AutoAccept(map[org := second])))], st + [Solo(r, cs, asg)];
  }

  /**
   A flag left up keeps a warning back. The first leader is warned and leaves; the organisation
   asked next lets the answer become tacit; its administrator keeps the incident under sweeps exactly a tenth
   of the deadline apart, and is reverted without a word: the only warning ever sent went to the first leader.
   */
  lemma StaleFlagsSilenceTheWarnings(t: Time, first: UserId, second: UserId, org: OrgId)
    returns (es: seq<Event>, st: seq<State>)
    ensures IsRun(es, st) && Timed(es) && |es| == 10
    ensures EngagesStamped(es, st, 5, 0, second) && HeldBy(st, 5, 9, 0, second)
    ensures RowAt(st, 6, 0).warned75 && RowAt(st, 6, 0).warned90
    ensures RowAt(st, 6, 0).severity == Some(Medium) && Cadence(es, 5, 9, 60 * DAY, 6 * DAY)
    ensures StaysTaken(st, 5, 9, 0) && SeenCadence(es, st, 5, 9, 0, 60 * DAY, 6 * DAY)
    ensures IsFreezeSweep(es[9].op) && Live(st, 10, 0) && RowAt(st, 10, 0).etat.Declared?
    ensures RowAt(st, 10, 0).warnings == RowAt(st, 6, 0).warnings == [Rows.Warning(first, 90)]
  {
    var es6, st6, r, cs, asg := SecondEngagement(t, first, second, org);
    assert RowAt(st6, 6, 0) == r;
    es, st := FourQuietSweeps(es6, st6, t, r, cs, asg);
    QuietCadence(es, t);
    TakenMeetsTheSchedule(es, st, 5, 9, 0, 60 * DAY, 6 * DAY);
  }

  lemma FourQuietSweeps(es6: seq<Event>, st6: seq<State>, t: Time, r: Rows.Incident, cs: Collabs, asg: Assignments)
    returns (es: seq<Event>, st: seq<State>)
    requires IsRun(es6, st6) && |es6| == 6 && st6[6] == Solo(r, cs, asg)
    requires r.etat.Taken? && r.takenInChargeAt == Some(t + SECOND_ENGAGEMENT)
    requires r.severity == Some(Medium) && r.warned75 && r.warned90
    ensures IsRun(es, st) && |es| == 10 && es[..6] == es6 && st[..7] == st6
    ensures es[6] == Event(QuietSweep(t, 0), Run(Sweep.AntiGel)) && st[7] == st6[6]
    ensures es[7] == Event(QuietSweep(t, 1), Run(Sweep.AntiGel)) && st[8] == st6[6]
    ensures es[8] == Event(QuietSweep(t, 2), Run(Sweep.AntiGel)) && st[9] == st6[6]
    ensures es[9] == Event(QuietSweep(t, 3), Run(Sweep.AntiGel)) && Live(st, 10, 0)
    ensures RowAt(st, 10, 0).etat.Declared? && RowAt(st, 10, 0).warnings == r.warnings
  {
    var sweeps := seq(4, n => Event(QuietSweep(t, n), Run(Sweep.AntiGel)));
    var held := Solo(r, cs, asg);
    var last := Solo(Rows.AntiGelStep(r, QuietSweep(t, 3)), cs, asg);
    QuietRows(t, r);
    SweptOnce(es6, st6, QuietSweep(t, 0), r, cs, asg);
    var es7, st7 := es6 + [sweeps[0]], st6 + [held];
    SweptOnce(es7, st7, QuietSweep(t, 1), r, cs, asg);
    var es8, st8 := es7 + [sweeps[1]], st7 + [held];
    SweptOnce(es8, st8, QuietSweep(t, 2), r, cs, asg);
    var es9, st9 := es8 + [sweeps[2]], st8 + [held];
    SweptOnce(es9, st9, QuietSweep(t, 3), r, cs, asg);
    es, st := es9 + [sweeps[3]], st9 + [last];
  }

  lemma QuietRows(t: Time, r: Rows.Incident)
    requires r.etat.Taken? && r.takenInChargeAt == Some(t + SECOND_ENGAGEMENT)
    requires r.severity == Some(Medium) && r.warned75 && r.warned90
    ensures forall n | 0 <= n < 3 :: Rows.AntiGelStep(r, QuietSweep(t, n)) == r
    ensures var last := Rows.AntiGelStep(r, QuietSweep(t, 3));
            last.etat.Declared? && last.warnings == r.warnings
  {
    forall n | 0 <= n < 3
      ensures Rows.AntiGelStep(r, QuietSweep(t, n)) == r
    {
      QuietRow(r, t + SECOND_ENGAGEMENT, QuietSweep(t, n));
    }
    QuietRow(r, t + SECOND_ENGAGEMENT, QuietSweep(t, 3));
  }

  lemma QuietCadence(es: seq<Event>, t: Time)
    requires |es| == 10 && es[5].time == t + SECOND_ENGAGEMENT && !IsFreezeSweep(es[5].op)
    requires es[6] == Event(QuietSweep(t, 0), Run(Sweep.AntiGel))
    requires es[7] == Event(QuietSweep(t, 1), Run(Sweep.AntiGel))
    requires es[8] == Event(QuietSweep(t, 2), Run(Sweep.AntiGel))
    requires es[9] == Event(QuietSweep(t, 3), Run(Sweep.AntiGel))
    ensures Cadence(es, 5, 9, 60 * DAY, 6 * DAY)
  {
    assert LastFreeze(es, 5, 6) == None;
    assert LastFreeze(es, 5, 7) == Some(es[6].time);
    assert LastFreeze(es, 5, 8) == Some(es[7].time);
    assert LastFreeze(es, 5, 9) == Some(es[8].time);
    forall k: nat | 5 < k <= 9
      ensures InCadence(es, 5, k, 60 * DAY, 6 * DAY)
    {
      assert k == 6 || k == 7 || k == 8 || k == 9;
    }
  }

  // ---- A leader whose file is away while the warnings fall due -------------------------------

  /** The tenths of the deadline. */
  function Tenth(s: Time, deadline: Time, n: int): Time {
    s + deadline / 10 * n
  }

  predicate IsWaitingStory(es: seq<Event>, s: Time, u: UserId, deadline: Time) {
    && |es| == 8 && es[0].time == es[1].time == s && !IsFreezeSweep(es[1].op)
    && es[2] == Event(s, Life(0, LifeOp.Prepare(u)))
    && es[3] == Event(Tenth(s, deadline, 7), Run(Sweep.AntiGel))
    && es[4] == Event(Tenth(s, deadline, 8), Run(Sweep.AntiGel))
    && es[5] == Event(Tenth(s, deadline, 9), Run(Sweep.AntiGel))
    && es[6] == Event(Tenth(s, deadline, 10), Life(0, LifeOp.ReturnForCompletion))
    && es[7] == Event(Tenth(s, deadline, 10), Run(Sweep.AntiGel))
  }

  /** A prepared row is passed over by every sweep; on its return at the deadline the next one reverts it. */
  lemma AwayAndBack(r: Rows.Incident, s: Time, u: UserId)
    requires Armed(r, s, u)
    ensures var prepared := Rows.Next(r, s, Rows.Prepare(u));
            var deadline := AntiGelDeadline(r.severity);
            var back := Rows.Next(prepared, Tenth(s, deadline, 10), Rows.ReturnForCompletion);
            var reverted := Rows.AntiGelStep(back, Tenth(s, deadline, 10));
            && prepared.etat.ResolutionPrepared? && prepared.takenBy == Some(u)
            && (forall now :: Rows.AntiGelStep(prepared, now) == prepared)
            && back.etat.Taken? && back.takenBy == Some(u)
            && reverted.etat.Declared? && reverted.warnings == r.warnings
  {
  }

  /** The file leaves, and three sweeps go by. */
  lemma AwaySweeps(es2: seq<Event>, st2: seq<State>, s: Time, deadline: Time, u: UserId, r: Rows.Incident, cs: Collabs)
    returns (es: seq<Event>, st: seq<State>)
    requires IsRun(es2, st2) && |es2| == 2 && st2[2] == Solo(r, cs, map[]) && r.etat.Taken?
    ensures IsRun(es, st) && |es| == 6 && es[..2] == es2 && st[..3] == st2
    ensures es[2] == Event(s, Life(0, LifeOp.Prepare(u)))
    ensures es[3] == Event(Tenth(s, deadline, 7), Run(Sweep.AntiGel))
    ensures es[4] == Event(Tenth(s, deadline, 8), Run(Sweep.AntiGel))
    ensures es[5] == Event(Tenth(s, deadline, 9), Run(Sweep.AntiGel))
    ensures st[3] == st[4] == st[5] == st[6] == Solo(Rows.Next(r, s, Rows.Prepare(u)), cs, map[])
  {
    var prepared := Rows.Next(r, s, Rows.Prepare(u));
    var sweeps := seq(3, n => Event(Tenth(s, deadline, n + 7), Run(Sweep.AntiGel)));
    Prepared(r, cs, s, u);
    Prolonged(es2, st2, Event(s, Life(0, LifeOp.Prepare(u))), Solo(prepared, cs, map[]));
    var es3, st3 := es2 + [Event(s, Life(0, LifeOp.Prepare(u)))], st2 + [Solo(prepared, cs, map[])];
    SweptOnce(es3, st3, Tenth(s, deadline, 7), prepared, cs, map[]);
    var es4, st4 := es3 + [sweeps[0]], st3 + [Solo(prepared, cs, map[])];
    SweptOnce(es4, st4, Tenth(s, deadline, 8), prepared, cs, map[]);
    var es5, st5 := es4 + [sweeps[1]], st4 + [Solo(prepared, cs, map[])];
    SweptOnce(es5, st5, Tenth(s, deadline, 9), prepared, cs, map[]);
    es, st := es5 + [sweeps[2]], st5 + [Solo(prepared, cs, map[])];
  }

  lemma AwayRun(es2: seq<Event>, st2: seq<State>, s: Time, u: UserId, r: Rows.Incident)
    returns (es: seq<Event>, st: seq<State>)
    requires IsRun(es2, st2) && |es2| == 2 && es2[0].time == es2[1].time == s && !IsFreezeSweep(es2[1].op)
    requires Live(st2, 1, 0) && st2[2] == Solo(r, LedBy(u, Accepted), map[]) && Armed(r, s, u)
    ensures IsRun(es, st) && IsWaitingStory(es, s, u, AntiGelDeadline(r.severity))
    ensures es[1] == es2[1] && st[1] == st2[1] && st[2] == st2[2]
    ensures HeldBy(st, 1, 7, 0, u) && Live(st, 8, 0) && RowAt(st, 8, 0).etat.Declared?
    ensures RowAt(st, 8, 0).warnings == r.warnings
  {
    var deadline, cs := AntiGelDeadline(r.severity), LedBy(u, Accepted);
    var prepared := Rows.Next(r, s, Rows.Prepare(u));
    var now := Tenth(s, deadline, 10);
    var back := Rows.Next(prepared, now, Rows.ReturnForCompletion);
    var reverted := Rows.AntiGelStep(back, now);
    AwayAndBack(r, s, u);
    var es6, st6 := AwaySweeps(es2, st2, s, deadline, u, r, cs);
    assert es6[0] == es6[..2][0] && es6[1] == es6[..2][1] && st6[1] == st6[..3][1] && st6[2] == st6[..3][2];
    Returned(prepared, cs, now);
    Prolonged(es6, st6, Event(now, Life(0, LifeOp.ReturnForCompletion)), Solo(back, cs, map[]));
    var es7, st7 := es6 + [Event(now, Life(0, LifeOp.ReturnForCompletion))], st6 + [Solo(back, cs, map[])];
    SweptOnce(es7, st7, now, back, cs, map[]);
    es, st := es7 + [Event(now, Run(Sweep.AntiGel))], st7 + [Solo(reverted, cs, map[])];
  }

  /** The schedule runs every tenth of the deadline, but the first sweep to see the incident reverts it. */
  lemma WaitingCadence(es: seq<Event>, s: Time, u: UserId, deadline: Time)
    requires deadline >= 30 * DAY && deadline % 10 == 0 && IsWaitingStory(es, s, u, deadline)
    ensures Timed(es) && IsFreezeSweep(es[7].op) && Cadence(es, 1, 7, deadline, deadline / 10)
  {
    assert LastFreeze(es, 1, 2) == None;
    assert LastFreeze(es, 1, 3) == None;
    assert LastFreeze(es, 1, 4) == Some(es[3].time);
    assert LastFreeze(es, 1, 5) == Some(es[4].time);
    assert LastFreeze(es, 1, 6) == Some(es[5].time);
    assert LastFreeze(es, 1, 7) == Some(es[5].time);
    forall k: nat | 1 < k <= 7 && IsFreezeSweep(es[k].op)
      ensures InCadence(es, 1, k, deadline, deadline / 10)
    {
      assert k == 3 || k == 4 || k == 5 || k == 7;
    }
  }

  /**
   A sweep only warns of incidents it finds taken. Here the leader keeps the incident from the engagement to
   the revert, both flags were down, and the schedule runs every tenth of the deadline, the first time before
   75 % of it; but the file is with the administrator while the warnings fall due, and comes back at the
   deadline: reverted without a word.
   */
  lemma WaitingFileSilencesTheWarnings(severity: Option<Severity>, s: Time, u: UserId)
    returns (es: seq<Event>, st: seq<State>)
    ensures IsRun(es, st) && Timed(es) && |es| == 8
    ensures EngagesStamped(es, st, 1, 0, u) && HeldBy(st, 1, 7, 0, u)
    ensures var first := RowAt(st, 2, 0);
            first.severity == severity && !first.warned75 && !first.warned90 && first.warnings == []
    ensures var deadline := AntiGelDeadline(severity);
            && Cadence(es, 1, 7, deadline, deadline / 10)
            && !FirstWindowMet(es, st, 1, 7, 0, deadline) && !LastWindowMet(es, st, 1, 7, 0, deadline)
    ensures IsFreezeSweep(es[7].op) && Live(st, 8, 0) && RowAt(st, 8, 0).etat.Declared?
    ensures RowAt(st, 8, 0).warnings == []
  {
    var deadline := AntiGelDeadline(severity);
    var es2, st2, r := Begun(s, severity, u);
    assert EngagesStamped(es2, st2, 1, 0, u);
    es, st := AwayRun(es2, st2, s, u, r);
    WaitingCadence(es, s, u, deadline);
    WhatLeadersAreTold(es, st, 1, 7, 0, u);
    var metFirst, metLast := FirstWindowMet(es, st, 1, 7, 0, deadline), LastWindowMet(es, st, 1, 7, 0, deadline);
    assert r.warnings + Told(r, u, metFirst, metLast) == [];
  }
}
