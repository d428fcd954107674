/**
 Whole runs. A run is any list of timed requests and sweeps together with the databases it goes
 through, the first one empty. The claims below hold of every run.
 */
module Runs {
  import opened Domain
  import opened Store
  import opened Effects
  import opened Invariants
  import Progress
  import Rows = IncidentRows

  datatype Event = Event(time: Time, op: Op)

  ghost predicate Stepped(es: seq<Event>, st: seq<State>, k: nat) {
    && k < |es| && k + 1 < |st|
    && st[k + 1] == Apply(st[k], es[k].time, es[k].op).state
  }

  /** st lists the databases before, between and after the events es. */
  ghost predicate IsRun(es: seq<Event>, st: seq<State>) {
    && |st| == |es| + 1
    && st[0] == EMPTY
    && forall k: nat :: k < |es| ==> Stepped(es, st, k)
  }

  /** The clock never goes back. */
  ghost predicate Timed(es: seq<Event>) {
    forall j, k :: 0 <= j < k < |es| ==> es[j].time <= es[k].time
  }

  ghost predicate Live(st: seq<State>, k: nat, i: IncidentId) {
    k < |st| && i in st[k].incidents
  }

  ghost function RowAt(st: seq<State>, k: nat, i: IncidentId): Rows.Incident
    requires Live(st, k, i)
  {
    st[k].incidents[i]
  }

  ghost predicate LiveThrough(st: seq<State>, from: nat, to: nat, i: IncidentId) {
    forall j | from <= j <= to :: Live(st, j, i)
  }

  /** Every list of events has its run. */
  lemma {:induction false} RunExists(es: seq<Event>) returns (st: seq<State>)
    ensures IsRun(es, st)
  {
    if es == [] {
      st := [EMPTY];
    } else {
      var n := |es| - 1;
      var before := RunExists(es[..n]);
      st := before + [Apply(before[n], es[n].time, es[n].op).state];
      forall k: nat | k < |es|
        ensures Stepped(es, st, k)
      {
        if k < n {
          assert Stepped(es[..n], before, k);
        }
      }
    }
  }

  /** The invariant holds of every reachable database. */
  lemma {:induction false} InvAlways(es: seq<Event>, st: seq<State>, k: nat)
    requires IsRun(es, st) && k <= |es|
    ensures Inv(st[k])
  {
    if k == 0 {
      InvInitially();
    } else {
      InvAlways(es, st, k - 1);
      assert Stepped(es, st, k - 1);
      InvKept(st[k - 1], es[k - 1].time, es[k - 1].op);
    }
  }

  /** Event k does at most one action to a surviving row, and the row is in order before and after. */
  lemma StepEffect(es: seq<Event>, st: seq<State>, k: nat, i: IncidentId) returns (a: Option<Rows.Action>)
    requires IsRun(es, st) && k < |es| && Live(st, k, i) && Live(st, k + 1, i)
    ensures Explains(a, es[k].op, i, es[k].time, RowAt(st, k, i), RowAt(st, k + 1, i))
    ensures es[k].op == Run(Sweep.AntiGel) ==> a == Some(Rows.AntiGel)
    ensures es[k].op == Run(AutoValidate) && ValidationOverdue(RowAt(st, k, i), es[k].time) ==> a == Some(Rows.Validate)
    ensures Rows.RowInv(RowAt(st, k, i)) && Rows.RowInv(RowAt(st, k + 1, i))
  {
    InvAlways(es, st, k);
    InvAlways(es, st, k + 1);
    assert Stepped(es, st, k);
    a := RowEffect(st[k], es[k].time, es[k].op, i);
  }

  /** An incident starts declared, out of the trash, with nothing remembered. */
  lemma Birth(es: seq<Event>, st: seq<State>, k: nat, i: IncidentId)
    requires IsRun(es, st) && k < |es| && !Live(st, k, i) && Live(st, k + 1, i)
    ensures RowAt(st, k + 1, i).etat.Declared? && !RowAt(st, k + 1, i).isDeleted
  {
    assert Stepped(es, st, k);
    OnlyReportsCreate(st[k], es[k].time, es[k].op, i);
  }

  // ---- The progress column and the tasks -----------------------------------------------------

  /** In every reachable database, whatever happened to tasks and incidents, the cache is the recount. */
  lemma ProgressAlwaysExact(es: seq<Event>, st: seq<State>, k: nat, i: IncidentId)
    requires IsRun(es, st) && k <= |es| && Live(st, k, i)
    ensures RowAt(st, k, i).progress == ProgressOf(RowAt(st, k, i).etat, st[k].tasks, i)
  {
    InvAlways(es, st, k);
  }

  /** In every reachable database every task passes IncidentTask.clean. */
  lemma TasksAlwaysClean(es: seq<Event>, st: seq<State>, k: nat, t: TaskId)
    requires IsRun(es, st) && k <= |es| && t in st[k].tasks
    ensures var task := st[k].tasks[t];
            && task.start <= task.end
            && (task.state.Done? ==> task.proofImage || task.proofVideo)
            && (task.state.Failed? ==> |task.failureReason| > 0)
  {
    InvAlways(es, st, k);
  }

  /** The tasks that count: those of the incident that its leader confirmed. */
  ghost function Counting(ts: Tasks, i: IncidentId): set<TaskId> {
    set t | t in ts && ts[t].incident == i && ts[t].confirmed
  }

  /** Those of them that are done; failing is not doing. */
  ghost function Achieved(ts: Tasks, i: IncidentId): set<TaskId> {
    set t | t in ts && ts[t].incident == i && ts[t].confirmed && ts[t].state == Done
  }

  /**
   The progress of an open incident, counted task by task: it is the rounded percentage of the confirmed tasks
   that are done, so a failed task counts against it. Up to 199 confirmed tasks, 100 means that all of them
   are done and 0 that none is. A resolved incident stands at 100.
   */
  lemma ProgressCounted(es: seq<Event>, st: seq<State>, k: nat, i: IncidentId)
    requires IsRun(es, st) && k <= |es| && Live(st, k, i)
    ensures var r, ts := RowAt(st, k, i), st[k].tasks;
            if r.etat == Resolved || r.etat == ResolvedDefinitive then r.progress == 100
            else if Counting(ts, i) == {} then r.progress == 0
            else && Progress.IsRounded(r.progress, 100 * |Achieved(ts, i)|, |Counting(ts, i)|)
                 && (|Counting(ts, i)| < 200 ==>
                       && (r.progress == 100 <==> forall t :: t in Counting(ts, i) ==> ts[t].state == Done)
                       && (r.progress == 0 <==> forall t :: t in Counting(ts, i) ==> ts[t].state != Done))
  {
    var r, ts := RowAt(st, k, i), st[k].tasks;
    ProgressAlwaysExact(es, st, k, i);
    assert ConfirmedTasks(ts, i) == Counting(ts, i) && DoneTasks(ts, i) == Achieved(ts, i);
    DoneAmongConfirmed(Achieved(ts, i), Counting(ts, i));
    assert forall t :: t in Achieved(ts, i) <==> t in Counting(ts, i) && ts[t].state == Done;
    assert Achieved(ts, i) == {} <==> forall t :: t in Counting(ts, i) ==> ts[t].state != Done;
    if !Closed(r.etat) {
      Progress.PercentageMeans(r.progress, |Achieved(ts, i)|, |Counting(ts, i)|);
    }
  }

  lemma DoneAmongConfirmed(done: set<TaskId>, confirmed: set<TaskId>)
    requires done <= confirmed
    ensures |done| <= |confirmed| && (|done| == |confirmed| <==> done == confirmed) && (|done| == 0 <==> done == {})
  {
    assert confirmed == done + (confirmed - done);
  }

  // ---- The story of a definitive resolution --------------------------------------------------

  /** Event k engages incident i. */
  ghost predicate Engages(st: seq<State>, k: nat, i: IncidentId) {
    && Live(st, k, i) && Live(st, k + 1, i)
    && RowAt(st, k, i).etat.Declared? && RowAt(st, k + 1, i).etat.Taken?
  }

  /** Event k is an accepted declaration of resolution. */
  ghost predicate Declares(es: seq<Event>, st: seq<State>, k: nat, i: IncidentId) {
    && k < |es| && Live(st, k, i)
    && es[k].op == Life(i, LifeOp.DeclareResolved)
    && (RowAt(st, k, i).etat.Taken? || RowAt(st, k, i).etat.ResolutionPrepared?)
  }

  /** b is the last declaration of i before n. */
  ghost predicate LastDeclaration(es: seq<Event>, st: seq<State>, b: nat, n: nat, i: IncidentId) {
    && b < n && Declares(es, st, b, i)
    && forall d: nat | b < d < n :: !Declares(es, st, d, i)
  }

  /** A tacit or an explicit validation at event c. */
  ghost predicate Validates(es: seq<Event>, c: nat, i: IncidentId, declaredAt: Time) {
    && c < |es|
    && (|| es[c].op == Life(i, LifeOp.Validate)
        || (es[c].op == Run(AutoValidate) && es[c].time > declaredAt + 72 * 3_600_000_000))
  }

  /** How one event moves the state and the deadline of a row. */
  lemma ResolutionStep(es: seq<Event>, st: seq<State>, k: nat, i: IncidentId)
    requires IsRun(es, st) && k < |es| && Live(st, k, i) && Live(st, k + 1, i)
    ensures var r, n := RowAt(st, k, i), RowAt(st, k + 1, i);
            && Rows.Arrow(r.etat, n.etat)
            && (Closed(r.etat) ==> Closed(n.etat) && n.progress == 100)
            && (|| n.file.validationDeadline != r.file.validationDeadline
                || (n.etat.InValidation? && !r.etat.InValidation?) ==>
                  Declares(es, st, k, i) && n.file.validationDeadline == Some(es[k].time + 72 * 3_600_000_000))
            && (n.etat.ResolvedDefinitive? && !r.etat.ResolvedDefinitive? ==>
                  && r.etat.InValidation? && r.file.validationDeadline.Some?
                  && Validates(es, k, i, r.file.validationDeadline.value - 72 * 3_600_000_000))
            && (Declares(es, st, k, i) ==> n.etat.InValidation?)
  {
    var act := StepEffect(es, st, k, i);
    var r := RowAt(st, k, i);
    if act.Some? {
      Rows.NextFollowsArrows(r, es[k].time, act.value);
      Rows.Entrances(r, es[k].time, act.value);
      Rows.FileWriters(r, es[k].time, act.value);
    }
    if Declares(es, st, k, i) {
      assert Stepped(es, st, k);
    }
  }

  lemma {:induction false} EngagedBefore(es: seq<Event>, st: seq<State>, n: nat, i: IncidentId) returns (a: nat)
    requires IsRun(es, st) && n <= |es| && Live(st, n, i)
    requires !RowAt(st, n, i).etat.Declared? && !RowAt(st, n, i).etat.Resolved?
    ensures a < n && Engages(st, a, i) && LiveThrough(st, a, n, i)
  {
    if !Live(st, n - 1, i) {
      Birth(es, st, n - 1, i);
    }
    ResolutionStep(es, st, n - 1, i);
    if RowAt(st, n - 1, i).etat.Declared? {
      a := n - 1;
    } else {
      a := EngagedBefore(es, st, n - 1, i);
    }
  }

  /** An incident in validation was declared resolved exactly 72 hours before its deadline. */
  lemma {:induction false} DeclaredBefore(es: seq<Event>, st: seq<State>, n: nat, i: IncidentId) returns (b: nat)
    requires IsRun(es, st) && n <= |es| && Live(st, n, i)
    requires RowAt(st, n, i).etat.InValidation? || RowAt(st, n, i).etat.ResolvedDefinitive?
    ensures LastDeclaration(es, st, b, n, i) && LiveThrough(st, b, n, i)
    ensures RowAt(st, n, i).file.validationDeadline == Some(es[b].time + 72 * 3_600_000_000)
  {
    if !Live(st, n - 1, i) {
      Birth(es, st, n - 1, i);
    }
    ResolutionStep(es, st, n - 1, i);
    if Declares(es, st, n - 1, i) {
      b := n - 1;
    } else {
      b := DeclaredBefore(es, st, n - 1, i);
    }
  }

  /**
   Every definitive resolution has the full story behind it: an engagement, then a declaration, then
   either the Super Admin's validation or the tacit one, strictly more than 72 hours after the last
   declaration; the incident existed all along.
   */
  lemma {:induction false} DefinitiveStory(es: seq<Event>, st: seq<State>, n: nat, i: IncidentId)
    returns (a: nat, b: nat, c: nat)
    requires IsRun(es, st) && n <= |es| && Live(st, n, i) && RowAt(st, n, i).etat.ResolvedDefinitive?
    ensures a < b < c < n && LiveThrough(st, a, n, i)
    ensures Engages(st, a, i) && LastDeclaration(es, st, b, n, i) && Validates(es, c, i, es[b].time)
  {
    if !Live(st, n - 1, i) {
      Birth(es, st, n - 1, i);
    }
    ResolutionStep(es, st, n - 1, i);
    if RowAt(st, n - 1, i).etat.ResolvedDefinitive? {
      a, b, c := DefinitiveStory(es, st, n - 1, i);
    } else {
      c := n - 1;
      b := DeclaredBefore(es, st, c, i);
      a := EngagedBefore(es, st, b, i);
    }
  }

  /** Closed is for ever, as long as the incident exists. */
  lemma {:induction false} ClosedForEver(es: seq<Event>, st: seq<State>, k: nat, n: nat, i: IncidentId)
    requires IsRun(es, st) && k < n <= |es| && LiveThrough(st, k, n, i)
    requires Closed(RowAt(st, k, i).etat)
    ensures Closed(RowAt(st, n, i).etat) && RowAt(st, n, i).progress == 100
  {
    if k + 1 < n {
      ClosedForEver(es, st, k, n - 1, i);
    }
    ResolutionStep(es, st, n - 1, i);
  }

  /** Event k is a request to close i by hand that passes every guard. */
  ghost predicate ClosesByHand(es: seq<Event>, st: seq<State>, k: nat, i: IncidentId) {
    && k < |es| && Live(st, k, i)
    && es[k].op.Life? && es[k].op.incident == i && es[k].op.life.Close?
    && var close := es[k].op.life;
       && IsLeader(st[k], i, close.user) && close.start.Some? && close.end.Some?
       && !HasOpenTask(st[k].tasks, i)
  }

  /** Which events resolve an incident that is not: closing by hand, or the legacy request on a taken one. */
  lemma ResolvedExactly(es: seq<Event>, st: seq<State>, k: nat, i: IncidentId)
    requires IsRun(es, st) && k < |es| && Live(st, k, i) && Live(st, k + 1, i)
    requires !RowAt(st, k, i).etat.Resolved?
    ensures RowAt(st, k + 1, i).etat.Resolved? <==>
              || ClosesByHand(es, st, k, i)
              || (&& RowAt(st, k, i).etat.Taken? && es[k].op.Life? && es[k].op.incident == i
                  && es[k].op.life.Handle? && es[k].op.life.target == Some(Resolved))
  {
    var act := StepEffect(es, st, k, i);
    assert Stepped(es, st, k);
    var s, now, op := st[k], es[k].time, es[k].op;
    if act.Some? {
      Rows.ResolvedAndFreed(s.incidents[i], now, act.value);
    }
    if op.Life? && op.incident == i && op.life.Close? {
      CloseResolves(s, now, i, op.life.user, op.life.start, op.life.end);
    }
  }

  lemma CloseResolves(s: State, now: Time, i: IncidentId, u: UserId, start: Option<int>, end: Option<int>)
    requires i in s.incidents && !s.incidents[i].etat.Resolved?
    ensures ApplyClose(s, now, i, u, start, end).state.incidents[i].etat.Resolved?
            <==> IsLeader(s, i, u) && start.Some? && end.Some? && !HasOpenTask(s.tasks, i)
  {
  }

  /** A definitive resolution is final but for one thing: exactly when it is closed by hand does it become plain. */
  lemma LeavesDefinitiveExactly(es: seq<Event>, st: seq<State>, k: nat, i: IncidentId)
    requires IsRun(es, st) && k < |es| && Live(st, k, i) && Live(st, k + 1, i)
    requires RowAt(st, k, i).etat.ResolvedDefinitive?
    ensures !RowAt(st, k + 1, i).etat.ResolvedDefinitive? <==> ClosesByHand(es, st, k, i)
  {
    ResolvedExactly(es, st, k, i);
    ResolutionStep(es, st, k, i);
  }

  // ---- The trash -----------------------------------------------------------------------------

  ghost predicate Trashes(e: Event, i: IncidentId) {
    e.op == Bin(i, Delete(true)) || e.op == Bin(i, BulkDelete(true))
  }

  /** Event a put i in the trash, where it has been ever since, up to n. */
  ghost predicate TrashedSince(es: seq<Event>, st: seq<State>, a: nat, n: nat, i: IncidentId) {
    && a < n <= |es| && Trashes(es[a], i)
    && LiveThrough(st, a, n, i)
    && forall j: nat | a < j <= n :: RowAt(st, j, i).isDeleted
  }

  lemma TrashStep(es: seq<Event>, st: seq<State>, k: nat, i: IncidentId)
    requires IsRun(es, st) && k < |es| && Live(st, k, i) && Live(st, k + 1, i) && RowAt(st, k + 1, i).isDeleted
    ensures var r, n := RowAt(st, k, i), RowAt(st, k + 1, i);
            || (Trashes(es[k], i) && n.deletedAt == Some(es[k].time))
            || (r.isDeleted && n.deletedAt == r.deletedAt)
  {
    var act := StepEffect(es, st, k, i);
    if act.Some? {
      Rows.TrashWriters(RowAt(st, k, i), es[k].time, act.value);
    }
  }

  /** The remembered date is the one of the trashing in force, even after restores and re-deletions. */
  lemma {:induction false} InTrashSince(es: seq<Event>, st: seq<State>, n: nat, i: IncidentId) returns (a: nat)
    requires IsRun(es, st) && n <= |es| && Live(st, n, i) && RowAt(st, n, i).isDeleted
    ensures TrashedSince(es, st, a, n, i) && RowAt(st, n, i).deletedAt == Some(es[a].time)
  {
    if !Live(st, n - 1, i) {
      Birth(es, st, n - 1, i);
    }
    TrashStep(es, st, n - 1, i);
    if Trashes(es[n - 1], i) && RowAt(st, n, i).deletedAt == Some(es[n - 1].time) {
      a := n - 1;
    } else {
      a := InTrashSince(es, st, n - 1, i);
    }
  }

  /** An incident disappears only from the trash, by force or by a purge. */
  lemma LostOnlyFromTrash(es: seq<Event>, st: seq<State>, k: nat, i: IncidentId)
    requires IsRun(es, st) && k < |es| && Live(st, k, i) && !Live(st, k + 1, i)
    ensures RowAt(st, k, i).isDeleted
    ensures es[k].op == Bin(i, ForceDelete) || es[k].op == Run(PurgeTrash)
  {
    assert Stepped(es, st, k);
    if !Erases(es[k].op) {
      RowsPersist(st[k], es[k].time, es[k].op);
    }
  }

  /** What a purge destroys has been in the trash, without interruption, for more than 30 days. */
  lemma PurgedAfterThirtyDays(es: seq<Event>, st: seq<State>, k: nat, i: IncidentId) returns (a: nat)
    requires IsRun(es, st) && k < |es| && es[k].op == Run(PurgeTrash)
    requires Live(st, k, i) && !Live(st, k + 1, i)
    ensures TrashedSince(es, st, a, k, i) && es[k].time > es[a].time + 30 * 86_400_000_000
  {
    LostOnlyFromTrash(es, st, k, i);
    a := InTrashSince(es, st, k, i);
    assert Stepped(es, st, k);
  }

  /** And the purge forgets nobody: what it leaves in the trash got there within the last 30 days. */
  lemma PurgeForgetsNobody(es: seq<Event>, st: seq<State>, k: nat, i: IncidentId) returns (a: nat)
    requires IsRun(es, st) && k < |es| && es[k].op == Run(PurgeTrash)
    requires Live(st, k + 1, i) && RowAt(st, k + 1, i).isDeleted
    ensures TrashedSince(es, st, a, k + 1, i) && es[k].time <= es[a].time + 30 * 86_400_000_000
  {
    a := InTrashSince(es, st, k + 1, i);
    assert Stepped(es, st, k);
  }
}
