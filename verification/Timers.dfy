/** What the clocks guarantee over whole runs, given how often the sweeps come round. */
module Timers {
  import opened Domain
  import opened Store
  import opened Invariants
  import opened Runs
  import Rows = IncidentRows

  predicate IsValidationSweep(op: Op) {
    op == Run(AutoValidate)
  }

  predicate IsAnswerSweep(op: Op) {
    op.Run? && op.sweep.AutoAccept?
  }

  predicate IsFreezeSweep(op: Op) {
    op == Run(Sweep.AntiGel)
  }

  /** The instant of the last event before k that satisfies the test, else the start of the service. */
  ghost function LastRun(es: seq<Event>, k: nat, test: Op -> bool, start: Time): Time
    requires k <= |es|
  {
    if k == 0 then start
    else if test(es[k - 1].op) then es[k - 1].time
    else LastRun(es, k - 1, test, start)
  }

  ghost predicate StartedBy(es: seq<Event>, start: Time) {
    forall k :: 0 <= k < |es| ==> start <= es[k].time
  }

  lemma {:induction false} LastRunIsPast(es: seq<Event>, k: nat, test: Op -> bool, start: Time)
    requires Timed(es) && StartedBy(es, start) && k < |es|
    ensures LastRun(es, k, test, start) <= es[k].time
  {
    if k > 0 {
      LastRunIsPast(es, k - 1, test, start);
    }
  }

  // ---- Validation: 72 hours and one sweep ----------------------------------------------------

  /** No deadline survives the sweep that comes after it. */
  lemma {:induction false} NoSweptDeadline(es: seq<Event>, st: seq<State>, start: Time, n: nat, i: IncidentId)
    requires IsRun(es, st) && Timed(es) && StartedBy(es, start) && n <= |es|
    requires Live(st, n, i) && RowAt(st, n, i).etat.InValidation?
    ensures RowAt(st, n, i).file.validationDeadline.Some?
    ensures RowAt(st, n, i).file.validationDeadline.value >= LastRun(es, n, IsValidationSweep, start)
  {
    var k := n - 1;
    if !Live(st, k, i) {
      Birth(es, st, k, i);
    }
    ResolutionStep(es, st, k, i);
    LastRunIsPast(es, k, IsValidationSweep, start);
    if !Declares(es, st, k, i) {
      NoSweptDeadline(es, st, start, k, i);
      if IsValidationSweep(es[k].op) {
        StillInTime(es, st, k, i);
      }
    }
  }

  lemma StillInTime(es: seq<Event>, st: seq<State>, k: nat, i: IncidentId)
    requires IsRun(es, st) && k < |es| && Live(st, k, i) && Live(st, k + 1, i)
    requires IsValidationSweep(es[k].op) && RowAt(st, k + 1, i).etat.InValidation?
    ensures !ValidationOverdue(RowAt(st, k, i), es[k].time)
  {
    var act := StepEffect(es, st, k, i);
  }

  /**
   Whenever the last validation sweep is at most gap old, an incident in validation was declared
   resolved at most 72 hours + gap ago; with the hourly schedule, at most 73 hours.
   */
  lemma ValidatedInTime(es: seq<Event>, st: seq<State>, start: Time, now: Time, gap: Time, i: IncidentId)
    returns (b: nat)
    requires IsRun(es, st) && Timed(es) && StartedBy(es, start)
    requires now - LastRun(es, |es|, IsValidationSweep, start) <= gap
    requires Live(st, |es|, i) && RowAt(st, |es|, i).etat.InValidation?
    ensures LastDeclaration(es, st, b, |es|, i)
    ensures now <= es[b].time + 72 * 3_600_000_000 + gap
    ensures gap == 3_600_000_000 ==> now <= es[b].time + 73 * 3_600_000_000
  {
    b := DeclaredBefore(es, st, |es|, i);
    NoSweptDeadline(es, st, start, |es|, i);
  }

  // ---- Answers of organisations: 72 hours and one sweep --------------------------------------

  ghost predicate Waits(st: seq<State>, k: nat, a: AssignmentId) {
    k < |st| && a in st[k].assignments && st[k].assignments[a].status.Waiting?
  }

  /** A waiting assignment was just asked, or was waiting, unchanged and in time for any sweep. */
  lemma AnswerStep(es: seq<Event>, st: seq<State>, k: nat, a: AssignmentId)
    requires IsRun(es, st) && k < |es| && Waits(st, k + 1, a)
    ensures var row := st[k + 1].assignments[a];
            || row.deadline == es[k].time + 72 * 3_600_000_000
            || (&& Waits(st, k, a) && row == st[k].assignments[a]
                && (IsAnswerSweep(es[k].op) ==> row.deadline >= es[k].time))
  {
    assert Stepped(es, st, k);
    var s, now, op := st[k], es[k].time, es[k].op;
    if Erases(op) {
      var gone := ErasureShape(s, now, op);
    } else if !op.Assign? && !IsAnswerSweep(op) {
      AssignmentsTouched(s, now, op);
    }
  }

  lemma {:induction false} NoSweptAnswer(es: seq<Event>, st: seq<State>, start: Time, n: nat, a: AssignmentId)
    requires IsRun(es, st) && Timed(es) && StartedBy(es, start) && n <= |es| && Waits(st, n, a)
    ensures st[n].assignments[a].deadline >= LastRun(es, n, IsAnswerSweep, start)
  {
    var k := n - 1;
    AnswerStep(es, st, k, a);
    LastRunIsPast(es, k, IsAnswerSweep, start);
    if st[n].assignments[a].deadline != es[k].time + 72 * 3_600_000_000 {
      NoSweptAnswer(es, st, start, k, a);
    }
  }

  /** No organisation keeps an incident waiting for more than 72 hours plus one sweep. */
  lemma AnsweredInTime(es: seq<Event>, st: seq<State>, start: Time, now: Time, gap: Time, a: AssignmentId)
    requires IsRun(es, st) && Timed(es) && StartedBy(es, start) && Waits(st, |es|, a)
    requires now - LastRun(es, |es|, IsAnswerSweep, start) <= gap
    ensures now <= st[|es|].assignments[a].createdAt + 72 * 3_600_000_000 + gap
    ensures gap == 3_600_000_000 ==> now <= st[|es|].assignments[a].createdAt + 73 * 3_600_000_000
  {
    NoSweptAnswer(es, st, start, |es|, a);
    InvAlways(es, st, |es|);
  }

  // ---- Who is warned before a revert ---------------------------------------------------------

  /** Event a engages i under a leader and stamps the row with its own time. */
  ghost predicate EngagesStamped(es: seq<Event>, st: seq<State>, a: nat, i: IncidentId, leader: UserId) {
    && a < |es| && Engages(st, a, i)
    && RowAt(st, a + 1, i).takenBy == Some(leader)
    && RowAt(st, a + 1, i).takenInChargeAt == Some(es[a].time)
  }

  /** The step is a tacit acceptance that finds an administrator for the organisation it speaks for. */
  ghost predicate FindsAdmin(s: State, now: Time, op: Op, i: IncidentId) {
    && IsAnswerSweep(op)
    && exists x :: SpeaksFor(s, now, x, i) && Lookup(op.sweep.firstAdmin, s.assignments[x].organisation).Some?
  }

  /** The leader a tacit acceptance puts in charge, where one assignment at most waits for an incident. */
  lemma TacitLeaderFound(s: State, now: Time, op: Op, i: IncidentId)
    requires OneWaiting(s.assignments) && i in s.incidents && s.incidents[i].etat.Declared? && IsAnswerSweep(op)
    requires exists x :: SpeaksFor(s, now, x, i)
    ensures Apply(s, now, op).state.incidents[i].takenBy.Some? <==> FindsAdmin(s, now, op, i)
    ensures Apply(s, now, op).state.incidents[i].takenInChargeAt == Some(now)
  {
    var admins := op.sweep.firstAdmin;
    forall x, y | SpeaksFor(s, now, x, i) && SpeaksFor(s, now, y, i)
      ensures x == y
    {
      assert WaitingOn(s.assignments, x, i) && WaitingOn(s.assignments, y, i);
    }
    assert Apply(s, now, op).state.incidents[i] == TacitRow(s, now, admins, i);
  }

  /**
   Which engagements put a leader in charge with a stamp: every take-in-charge, every accepted assignment,
   and the tacit acceptance that finds an administrator; never the legacy request. And with which flags: all
   lower them but the tacit acceptance, which leaves them as an earlier engagement left them.
   */
  lemma WhoStamps(es: seq<Event>, st: seq<State>, a: nat, i: IncidentId)
    requires IsRun(es, st) && a < |es| && Engages(st, a, i)
    ensures (exists leader :: EngagesStamped(es, st, a, i, leader)) <==>
              || (es[a].op.Life? && es[a].op.life.TakeInCharge?)
              || es[a].op.Assign?
              || FindsAdmin(st[a], es[a].time, es[a].op, i)
    ensures var r, n := RowAt(st, a, i), RowAt(st, a + 1, i);
            var keeps := IsAnswerSweep(es[a].op) || (es[a].op.Life? && es[a].op.life.Handle?);
            n.warned75 == (keeps && r.warned75) && n.warned90 == (keeps && r.warned90)
  {
    var act := StepEffect(es, st, a, i);
    assert Stepped(es, st, a);
    var n := RowAt(st, a + 1, i);
    Rows.Engaging(RowAt(st, a, i), es[a].time, act.value);
    if IsAnswerSweep(es[a].op) {
      InvAlways(es, st, a);
      TacitLeaderFound(st[a], es[a].time, es[a].op, i);
    }
    if n.takenBy.Some? && n.takenInChargeAt == Some(es[a].time) {
      assert EngagesStamped(es, st, a, i, n.takenBy.value);
    }
  }

  /** So an engagement starts with a stamped leader and both flags down if and only if it is one of these. */
  lemma WhoArms(es: seq<Event>, st: seq<State>, a: nat, i: IncidentId)
    requires IsRun(es, st) && a < |es| && Engages(st, a, i)
    ensures var r, n := RowAt(st, a, i), RowAt(st, a + 1, i);
            (exists leader :: EngagesStamped(es, st, a, i, leader) && !n.warned75 && !n.warned90) <==>
              || (es[a].op.Life? && es[a].op.life.TakeInCharge?)
              || es[a].op.Assign?
              || (FindsAdmin(st[a], es[a].time, es[a].op, i) && !r.warned75 && !r.warned90)
  {
    WhoStamps(es, st, a, i);
  }

  /** From after event a up to event m the leader keeps the incident, taken, prepared, in validation or resolved. */
  ghost predicate HeldBy(st: seq<State>, a: nat, m: nat, i: IncidentId, leader: UserId) {
    && LiveThrough(st, a, m, i)
    && forall k: nat | a < k <= m :: !RowAt(st, k, i).etat.Declared? && RowAt(st, k, i).takenBy == Some(leader)
  }

  /** Event k is an anti-freeze sweep that finds i taken; it passes over an incident whose file is under way. */
  ghost predicate Sees(es: seq<Event>, st: seq<State>, k: nat, i: IncidentId) {
    k < |es| && Live(st, k, i) && IsFreezeSweep(es[k].op) && RowAt(st, k, i).etat.Taken?
  }

  /** elapsed is from 75 % to 90 % of the deadline: where a sweep warns for the first time. */
  predicate InFirstWindow(elapsed: Time, deadline: Time) {
    4 * elapsed >= 3 * deadline && 10 * elapsed < 9 * deadline
  }

  /** elapsed is from 90 % of the deadline to the deadline. */
  predicate InLastWindow(elapsed: Time, deadline: Time) {
    10 * elapsed >= 9 * deadline && elapsed < deadline
  }

  ghost predicate SeenFirst(es: seq<Event>, st: seq<State>, a: nat, j: nat, i: IncidentId, deadline: Time) {
    a < j && a < |es| && Sees(es, st, j, i) && InFirstWindow(es[j].time - es[a].time, deadline)
  }

  ghost predicate SeenLast(es: seq<Event>, st: seq<State>, a: nat, j: nat, i: IncidentId, deadline: Time) {
    a < j && a < |es| && Sees(es, st, j, i) && InLastWindow(es[j].time - es[a].time, deadline)
  }

  /** Between events a and k some sweep saw the incident in the first window. */
  ghost predicate FirstWindowMet(es: seq<Event>, st: seq<State>, a: nat, k: nat, i: IncidentId, deadline: Time) {
    exists j: nat :: j < k && SeenFirst(es, st, a, j, i, deadline)
  }

  ghost predicate LastWindowMet(es: seq<Event>, st: seq<State>, a: nat, k: nat, i: IncidentId, deadline: Time) {
    exists j: nat :: j < k && SeenLast(es, st, a, j, i, deadline)
  }

  /** The windows and the deadline in hours: 22.5, 27 and 30 days, 45, 54 and 60 days, 67.5, 81 and 90 days. */
  lemma WindowsInHours(severity: Option<Severity>, elapsed: Time)
    ensures var deadline := AntiGelDeadline(severity);
            var hours := match severity
                         case Some(High) => (540, 648, 720)
                         case Some(Low) => (1620, 1944, 2160)
                         case _ => (1080, 1296, 1440);
            var first, last, full := hours.0, hours.1, hours.2;
            && (InFirstWindow(elapsed, deadline) <==> first * 3_600_000_000 <= elapsed < last * 3_600_000_000)
            && (InLastWindow(elapsed, deadline) <==> last * 3_600_000_000 <= elapsed < full * 3_600_000_000)
            && deadline == full * 3_600_000_000
  {
  }

  /** The warnings to the leader of an engagement that began as row first, when sweeps met these windows. */
  ghost function Told(first: Rows.Incident, leader: UserId, metFirst: bool, metLast: bool): seq<Rows.Warning> {
    (if !first.warned75 && metFirst then [Rows.Warning(leader, 75)] else [])
    + (if !first.warned90 && metLast then [Rows.Warning(leader, 90)] else [])
  }

  /** Row n is what the sweeps made of first, engaged at s. */
  ghost predicate Tracked(n: Rows.Incident, first: Rows.Incident, s: Time, leader: UserId,
                          metFirst: bool, metLast: bool)
  {
    && n.takenInChargeAt == Some(s) && n.severity == first.severity
    && n.warned75 == (first.warned75 || metFirst || metLast)
    && n.warned90 == (first.warned90 || metLast)
    && n.warnings == first.warnings + Told(first, leader, metFirst, metLast)
  }

  /** One sweep on a row that stays taken. */
  lemma SweepTracked(r: Rows.Incident, first: Rows.Incident, now: Time, s: Time, leader: UserId,
                     metFirst: bool, metLast: bool)
    requires r.etat.Taken? && r.takenBy == Some(leader) && (first.warned90 ==> first.warned75)
    requires Tracked(r, first, s, leader, metFirst, metLast)
    requires metLast ==> 10 * (now - s) >= 9 * AntiGelDeadline(first.severity)
    requires Rows.AntiGelStep(r, now).etat.Taken?
    ensures var deadline := AntiGelDeadline(first.severity);
            Tracked(Rows.AntiGelStep(r, now), first, s, leader,
                    metFirst || InFirstWindow(now - s, deadline), metLast || InLastWindow(now - s, deadline))
  {
    assert Rows.Watched(r);
    assert first.warnings + [] == first.warnings;
  }

  /** Other steps, and sweeps that do not see the incident, leave the engagement as it was. */
  lemma HeldStep(es: seq<Event>, st: seq<State>, k: nat, i: IncidentId)
    requires IsRun(es, st) && k < |es| && Live(st, k, i) && Live(st, k + 1, i)
    requires !RowAt(st, k, i).etat.Declared? && RowAt(st, k, i).takenBy.Some?
    requires !RowAt(st, k + 1, i).etat.Declared? && RowAt(st, k + 1, i).takenBy == RowAt(st, k, i).takenBy
    ensures var r, n := RowAt(st, k, i), RowAt(st, k + 1, i);
            if Sees(es, st, k, i) then n == Rows.AntiGelStep(r, es[k].time) && n.etat.Taken?
            else && n.takenInChargeAt == r.takenInChargeAt && n.severity == r.severity
                 && n.warned75 == r.warned75 && n.warned90 == r.warned90 && n.warnings == r.warnings
  {
    var act := StepEffect(es, st, k, i);
    if act.Some? && !act.value.AntiGel? {
      Rows.EngagementFrame(RowAt(st, k, i), es[k].time, act.value);
    }
  }

  /** One event more: the windows are met if they were, or if this event meets them. */
  lemma WindowsOneMore(es: seq<Event>, st: seq<State>, a: nat, k: nat, i: IncidentId, deadline: Time)
    requires a < k
    ensures FirstWindowMet(es, st, a, k + 1, i, deadline)
            <==> FirstWindowMet(es, st, a, k, i, deadline) || SeenFirst(es, st, a, k, i, deadline)
    ensures LastWindowMet(es, st, a, k + 1, i, deadline)
            <==> LastWindowMet(es, st, a, k, i, deadline) || SeenLast(es, st, a, k, i, deadline)
  {
  }

  /** While the incident is held, flags and warnings say exactly which windows were met by a sweep that saw it. */
  lemma {:induction false} TrackedWhileHeld(es: seq<Event>, st: seq<State>, a: nat, k: nat, i: IncidentId,
                                            leader: UserId)
    requires IsRun(es, st) && Timed(es) && a < k <= |es|
    requires EngagesStamped(es, st, a, i, leader) && HeldBy(st, a, k, i, leader)
    ensures var first := RowAt(st, a + 1, i);
            var deadline := AntiGelDeadline(first.severity);
            Tracked(RowAt(st, k, i), first, es[a].time, leader,
                    FirstWindowMet(es, st, a, k, i, deadline), LastWindowMet(es, st, a, k, i, deadline))
  {
    var first := RowAt(st, a + 1, i);
    var deadline := AntiGelDeadline(first.severity);
    if k == a + 1 {
      assert first.warnings + [] == first.warnings;
    } else {
      TrackedWhileHeld(es, st, a, k - 1, i, leader);
      InvAlways(es, st, a + 1);
      TrackedStep(es, st, a, k - 1, i, leader, first);
    }
  }

  lemma TrackedStep(es: seq<Event>, st: seq<State>, a: nat, k: nat, i: IncidentId, leader: UserId, first: Rows.Incident)
    requires IsRun(es, st) && Timed(es) && a < k < |es| && HeldBy(st, a, k + 1, i, leader)
    requires first.warned90 ==> first.warned75
    requires var deadline := AntiGelDeadline(first.severity);
             Tracked(RowAt(st, k, i), first, es[a].time, leader,
                     FirstWindowMet(es, st, a, k, i, deadline), LastWindowMet(es, st, a, k, i, deadline))
    ensures var deadline := AntiGelDeadline(first.severity);
            Tracked(RowAt(st, k + 1, i), first, es[a].time, leader,
                    FirstWindowMet(es, st, a, k + 1, i, deadline), LastWindowMet(es, st, a, k + 1, i, deadline))
  {
    var deadline := AntiGelDeadline(first.severity);
    WindowsOneMore(es, st, a, k, i, deadline);
    HeldStep(es, st, k, i);
    if Sees(es, st, k, i) {
      SweepTracked(RowAt(st, k, i), first, es[k].time, es[a].time, leader,
                   FirstWindowMet(es, st, a, k, i, deadline), LastWindowMet(es, st, a, k, i, deadline));
    }
  }

  /**
   What a leader is told, with no hypothesis on the sweeps. Event a engages and stamps the incident under a
   leader who keeps it, whatever becomes of the file, until the sweep at event m sends it back to 'declared'.
   The leader got the 75 % warning if and only if the flag was down and a sweep saw the incident taken between
   75 % and 90 % of the deadline, the 90 % warning if and only if the flag was down and one saw it between
   90 % and the deadline, in that order, and nothing else.
   */
  lemma WhatLeadersAreTold(es: seq<Event>, st: seq<State>, a: nat, m: nat, i: IncidentId, leader: UserId)
    requires IsRun(es, st) && Timed(es) && a < m < |es|
    requires EngagesStamped(es, st, a, i, leader) && HeldBy(st, a, m, i, leader)
    requires IsFreezeSweep(es[m].op) && Live(st, m + 1, i) && RowAt(st, m + 1, i).etat.Declared?
    ensures var first, warnings := RowAt(st, a + 1, i), RowAt(st, m + 1, i).warnings;
            var deadline := AntiGelDeadline(first.severity);
            var metFirst := FirstWindowMet(es, st, a, m, i, deadline);
            var metLast := LastWindowMet(es, st, a, m, i, deadline);
            && warnings == first.warnings + Told(first, leader, metFirst, metLast)
            && (warnings == first.warnings + [Rows.Warning(leader, 75), Rows.Warning(leader, 90)]
                <==> !first.warned75 && !first.warned90 && metFirst && metLast)
            && es[a].time + deadline <= es[m].time && Sees(es, st, m, i)
            && (first.severity == Some(High) ==> es[m].time - es[a].time >= 30 * 86_400_000_000)
            && (first.severity == Some(Medium) || first.severity.None? ==>
                  es[m].time - es[a].time >= 60 * 86_400_000_000)
            && (first.severity == Some(Low) ==> es[m].time - es[a].time >= 90 * 86_400_000_000)
  {
    var first := RowAt(st, a + 1, i);
    var deadline := AntiGelDeadline(first.severity);
    TrackedWhileHeld(es, st, a, m, i, leader);
    var act := StepEffect(es, st, m, i);
    ToldBoth(first, leader, FirstWindowMet(es, st, a, m, i, deadline), LastWindowMet(es, st, a, m, i, deadline));
  }

  lemma ToldBoth(first: Rows.Incident, leader: UserId, metFirst: bool, metLast: bool)
    ensures first.warnings + Told(first, leader, metFirst, metLast)
            == first.warnings + [Rows.Warning(leader, 75), Rows.Warning(leader, 90)]
            <==> !first.warned75 && !first.warned90 && metFirst && metLast
  {
    var told, both := Told(first, leader, metFirst, metLast), [Rows.Warning(leader, 75), Rows.Warning(leader, 90)];
    assert |first.warnings + told| == |first.warnings| + |told|;
    assert |first.warnings + both| == |first.warnings| + 2;
  }

  // ---- The cadence that meets both windows ---------------------------------------------------

  /** The last sweep after event a and before event k that saw the incident. */
  ghost function LastSeen(es: seq<Event>, st: seq<State>, a: nat, k: nat, i: IncidentId): Option<Time>
    requires a < k <= |es|
  {
    if k == a + 1 then None
    else if Sees(es, st, k - 1, i) then Some(es[k - 1].time)
    else LastSeen(es, st, a, k - 1, i)
  }

  /** The first sweep that sees the incident comes before 75 % of the deadline, the next ones within gap. */
  ghost predicate SeenCadence(es: seq<Event>, st: seq<State>, a: nat, m: nat, i: IncidentId,
                              deadline: Time, gap: Time)
  {
    && a < m < |es|
    && forall k: nat | a < k <= m && Sees(es, st, k, i) :: SeenInCadence(es, st, a, k, i, deadline, gap)
  }

  ghost predicate SeenInCadence(es: seq<Event>, st: seq<State>, a: nat, k: nat, i: IncidentId,
                                deadline: Time, gap: Time)
    requires a < k < |es|
  {
    match LastSeen(es, st, a, k, i)
    case None => 4 * (es[k].time - es[a].time) < 3 * deadline
    case Some(t) => es[k].time - t <= gap
  }

  /** In cadence, a sweep that sees the incident at 75 % or later was preceded by one in the first window, or is one. */
  lemma {:induction false} CadenceMeetsFirst(es: seq<Event>, st: seq<State>, a: nat, m: nat, k: nat, i: IncidentId,
                                             deadline: Time, gap: Time)
    requires Timed(es) && a < k <= m && SeenCadence(es, st, a, m, i, deadline, gap) && 10 * gap <= deadline
    ensures var last := LastSeen(es, st, a, k, i);
            last.Some? && 4 * (last.value - es[a].time) >= 3 * deadline ==> FirstWindowMet(es, st, a, k, i, deadline)
  {
    if k > a + 1 {
      CadenceMeetsFirst(es, st, a, m, k - 1, i, deadline, gap);
      WindowsOneMore(es, st, a, k - 1, i, deadline);
      if Sees(es, st, k - 1, i) {
        assert SeenInCadence(es, st, a, k - 1, i, deadline, gap);
      }
    }
  }

  /** The last sweep that saw the incident left it taken, so within the deadline; if late it met the last window. */
  lemma {:induction false} LastSeenInTime(es: seq<Event>, st: seq<State>, a: nat, k: nat, i: IncidentId, s: Time)
    requires IsRun(es, st) && a < k <= |es| && KeepsStamp(st, a, k, i, s)
    ensures var last, deadline := LastSeen(es, st, a, k, i), AntiGelDeadline(RowAt(st, k, i).severity);
            last.Some? ==>
              && last.value < s + deadline
              && (s == es[a].time && 10 * (last.value - s) >= 9 * deadline ==> LastWindowMet(es, st, a, k, i, deadline))
  {
    if k > a + 1 {
      LastSeenInTime(es, st, a, k - 1, i, s);
      SeverityKept(es, st, k - 1, i);
      WindowsOneMore(es, st, a, k - 1, i, AntiGelDeadline(RowAt(st, k, i).severity));
      if Sees(es, st, k - 1, i) {
        SweptInTime(es, st, k - 1, i);
      }
    }
  }

  lemma {:induction false} HeldKeepsStamp(es: seq<Event>, st: seq<State>, a: nat, m: nat, i: IncidentId, leader: UserId)
    requires IsRun(es, st) && Timed(es) && a < m <= |es|
    requires EngagesStamped(es, st, a, i, leader) && HeldBy(st, a, m, i, leader)
    ensures KeepsStamp(st, a, m, i, es[a].time)
    ensures RowAt(st, m, i).severity == RowAt(st, a + 1, i).severity
  {
    forall k: nat | a < k <= m
      ensures RowAt(st, k, i).takenInChargeAt == Some(es[a].time)
    {
      TrackedWhileHeld(es, st, a, k, i, leader);
    }
    TrackedWhileHeld(es, st, a, m, i, leader);
  }

  /**
   No surprise revert. If moreover the sweeps that see the incident come at most a tenth of the deadline apart,
   the first one before 75 % of it, both windows are met: the leader is told 75 % and then 90 %, less what a
   flag already up keeps back, and is reverted no earlier than the deadline and less than one gap after it.
   */
  lemma NoSurpriseRevert(es: seq<Event>, st: seq<State>, a: nat, m: nat, i: IncidentId, leader: UserId, gap: Time)
    requires IsRun(es, st) && Timed(es) && a < m < |es|
    requires EngagesStamped(es, st, a, i, leader) && HeldBy(st, a, m, i, leader)
    requires IsFreezeSweep(es[m].op) && Live(st, m + 1, i) && RowAt(st, m + 1, i).etat.Declared?
    requires var deadline := AntiGelDeadline(RowAt(st, a + 1, i).severity);
             10 * gap <= deadline && SeenCadence(es, st, a, m, i, deadline, gap)
    ensures var first, s := RowAt(st, a + 1, i), es[a].time;
            var deadline, warnings := AntiGelDeadline(first.severity), RowAt(st, m + 1, i).warnings;
            && FirstWindowMet(es, st, a, m, i, deadline) && LastWindowMet(es, st, a, m, i, deadline)
            && warnings == first.warnings + Told(first, leader, true, true)
            && (warnings == first.warnings + [Rows.Warning(leader, 75), Rows.Warning(leader, 90)]
                <==> !first.warned75 && !first.warned90)
            && s + deadline <= es[m].time < s + deadline + gap
  {
    var deadline := AntiGelDeadline(RowAt(st, a + 1, i).severity);
    WhatLeadersAreTold(es, st, a, m, i, leader);
    assert SeenInCadence(es, st, a, m, i, deadline, gap);
    CadenceMeetsFirst(es, st, a, m, m, i, deadline, gap);
    HeldKeepsStamp(es, st, a, m, i, leader);
    LastSeenInTime(es, st, a, m, i, es[a].time);
  }

  // ---- The cadence of the schedule -----------------------------------------------------------

  /** The last anti-freeze sweep after event a and before event k, whatever it saw. */
  ghost function LastFreeze(es: seq<Event>, a: nat, k: nat): Option<Time>
    requires a < k <= |es|
  {
    if k == a + 1 then None
    else if IsFreezeSweep(es[k - 1].op) then Some(es[k - 1].time)
    else LastFreeze(es, a, k - 1)
  }

  /** The first sweep after the engagement at a comes before 75 % of the deadline, the next ones within gap. */
  ghost predicate Cadence(es: seq<Event>, a: nat, m: nat, deadline: Time, gap: Time) {
    && a < m < |es|
    && forall k: nat | a < k <= m && IsFreezeSweep(es[k].op) :: InCadence(es, a, k, deadline, gap)
  }

  ghost predicate InCadence(es: seq<Event>, a: nat, k: nat, deadline: Time, gap: Time)
    requires a < k < |es|
  {
    match LastFreeze(es, a, k)
    case None => 4 * (es[k].time - es[a].time) < 3 * deadline
    case Some(t) => es[k].time - t <= gap
  }

  ghost predicate StaysTaken(st: seq<State>, a: nat, m: nat, i: IncidentId) {
    LiveThrough(st, a, m, i) && forall k: nat | a < k <= m :: RowAt(st, k, i).etat.Taken?
  }

  lemma {:induction false} EverySweepSees(es: seq<Event>, st: seq<State>, a: nat, k: nat, i: IncidentId)
    requires a < k <= |es| && StaysTaken(st, a, k, i)
    ensures LastSeen(es, st, a, k, i) == LastFreeze(es, a, k)
  {
    if k > a + 1 {
      EverySweepSees(es, st, a, k - 1, i);
    }
  }

  /**
   While the incident stays taken every sweep sees it, so the cadence of the schedule is enough. It is not
   when the file is away for a while: see WaitingFileSilencesTheWarnings in Stories.dfy.
   */
  lemma TakenMeetsTheSchedule(es: seq<Event>, st: seq<State>, a: nat, m: nat, i: IncidentId, deadline: Time, gap: Time)
    requires StaysTaken(st, a, m, i) && Cadence(es, a, m, deadline, gap)
    ensures SeenCadence(es, st, a, m, i, deadline, gap)
  {
    forall k: nat | a < k <= m && Sees(es, st, k, i)
      ensures SeenInCadence(es, st, a, k, i, deadline, gap)
    {
      EverySweepSees(es, st, a, k, i);
      assert InCadence(es, a, k, deadline, gap);
    }
  }

  // ---- No engagement outlives its deadline ---------------------------------------------------

  /** From after event a up to event m the incident stays engaged, whoever leads it, under the stamp s. */
  ghost predicate KeepsStamp(st: seq<State>, a: nat, m: nat, i: IncidentId, s: Time) {
    && LiveThrough(st, a, m, i)
    && forall k: nat | a < k <= m :: !RowAt(st, k, i).etat.Declared? && RowAt(st, k, i).takenInChargeAt == Some(s)
  }

  lemma SeverityKept(es: seq<Event>, st: seq<State>, k: nat, i: IncidentId)
    requires IsRun(es, st) && k < |es| && Live(st, k, i) && Live(st, k + 1, i)
    ensures RowAt(st, k + 1, i).severity == RowAt(st, k, i).severity
  {
    var act := StepEffect(es, st, k, i);
    if act.Some? {
      Rows.SeverityFixed(RowAt(st, k, i), es[k].time, act.value);
    }
  }

  /** A sweep that sees a stamped incident and leaves it engaged found it within its deadline. */
  lemma SweptInTime(es: seq<Event>, st: seq<State>, k: nat, i: IncidentId)
    requires IsRun(es, st) && k < |es| && Live(st, k + 1, i) && Sees(es, st, k, i)
    requires !RowAt(st, k + 1, i).etat.Declared? && RowAt(st, k + 1, i).takenInChargeAt.Some?
    ensures var n := RowAt(st, k + 1, i);
            es[k].time < n.takenInChargeAt.value + AntiGelDeadline(n.severity)
  {
    var act := StepEffect(es, st, k, i);
    Rows.AntiGelSettles(RowAt(st, k, i), es[k].time);
  }

  /**
   A stamped incident is never kept past its deadline by more than the age of the last sweep that saw it,
   whatever the cadence, the flags and the leader, or the want of one. While it stays taken that is the last
   sweep of all.
   */
  lemma FrozenIncidentsReturn(es: seq<Event>, st: seq<State>, a: nat, m: nat, i: IncidentId, s: Time,
                              gap: Time, now: Time)
    requires IsRun(es, st) && a < m <= |es| && KeepsStamp(st, a, m, i, s)
    ensures var deadline := AntiGelDeadline(RowAt(st, m, i).severity);
            && (LastSeen(es, st, a, m, i).Some? && now - LastSeen(es, st, a, m, i).value <= gap ==>
                  now < s + deadline + gap)
            && (StaysTaken(st, a, m, i) && LastFreeze(es, a, m).Some? && now - LastFreeze(es, a, m).value <= gap ==>
                  now < s + deadline + gap)
            && (LastSeen(es, st, a, m, i).Some? && now - LastSeen(es, st, a, m, i).value <= gap ==>
                  && (RowAt(st, m, i).severity == Some(High) ==> now < s + 30 * 86_400_000_000 + gap)
                  && (RowAt(st, m, i).severity == Some(Low) ==> now < s + 90 * 86_400_000_000 + gap)
                  && (RowAt(st, m, i).severity == Some(Medium) || RowAt(st, m, i).severity.None? ==>
                        now < s + 60 * 86_400_000_000 + gap))
  {
    LastSeenInTime(es, st, a, m, i, s);
    if StaysTaken(st, a, m, i) {
      EverySweepSees(es, st, a, m, i);
    }
  }
}
