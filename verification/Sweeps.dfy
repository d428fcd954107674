/**
 The sweeps row by row. A sweep first reads the rows it is due to treat, in whatever order the
 database returns them, then treats them one after the other; Store.dfy gives its effect in one
 stroke. Here the two are proved equal, and each sweep is shown to leave itself nothing to do.
 */
module Sweeps {
  import opened Domain
  import opened Store
  import opened Invariants
  import Rows = IncidentRows

  /** order lists the elements of due, each once. */
  ghost predicate Enumerates<T(!new)>(order: seq<T>, due: set<T>) {
    && (forall j, k :: 0 <= j < k < |order| ==> order[j] != order[k])
    && (forall x :: x in order <==> x in due)
  }

  lemma {:induction false} EnumerationExists<T(!new)>(due: set<T>) returns (order: seq<T>)
    ensures Enumerates(order, due)
  {
    if due == {} {
      order := [];
    } else {
      var x :| x in due;
      var rest := EnumerationExists(due - {x});
      order := rest + [x];
    }
  }

  lemma {:induction false} EnumerationSize<T(!new)>(order: seq<T>, due: set<T>)
    requires Enumerates(order, due)
    ensures |order| == |due|
  {
    if order != [] {
      var n := |order| - 1;
      assert forall x :: x in order <==> x in order[..n] || x == order[n];
      EnumerationSize(order[..n], due - {order[n]});
    } else {
      assert due == {};
    }
  }

  lemma EnumeratesOneMore<T(!new)>(order: seq<T>, due: set<T>, x: T)
    requires Enumerates(order, due) && x !in due
    ensures Enumerates(order + [x], due + {x})
  {
  }

  // ---- Fixpoints -----------------------------------------------------------------------------

  lemma AntiGelSweepIdempotent(s: State, now: Time)
    ensures SweepAntiGel(SweepAntiGel(s, now), now) == SweepAntiGel(s, now)
  {
    var t := SweepAntiGel(s, now);
    forall i | i in s.incidents
      ensures SweepAntiGel(t, now).incidents[i] == t.incidents[i]
    {
      Rows.AntiGelIdempotent(s.incidents[i], now);
    }
    assert SweepAntiGel(t, now).incidents == t.incidents;
  }

  lemma NothingOverdueNothingDone(s: State, now: Time, firstAdmin: map<OrgId, UserId>)
    ensures OverdueValidations(s, now) == {} ==> SweepValidate(s, now) == s
    ensures OverdueAnswers(s, now) == {} ==> SweepAccept(s, now, firstAdmin) == s
    ensures ExpiredTrash(s, now) == {} ==> Erased(s, {}) == s
  {
    if OverdueValidations(s, now) == {} {
      assert SweepValidate(s, now) == s;
    }
    if OverdueAnswers(s, now) == {} {
      forall a | a in s.assignments
        ensures !AnswerOverdue(s.assignments[a], now)
      {
        assert a !in OverdueAnswers(s, now);
      }
      assert SweepAccept(s, now, firstAdmin).incidents == s.incidents;
      assert SweepAccept(s, now, firstAdmin).assignments == s.assignments;
    }
    ErasingNobody(s);
  }

  /** One pass is enough: run again at the same instant, every sweep changes nothing and sends nothing. */
  lemma SweepsAreIdempotent(s: State, now: Time, sweep: Sweep)
    ensures ApplySweep(ApplySweep(s, now, sweep), now, sweep) == ApplySweep(s, now, sweep)
  {
    var t := ApplySweep(s, now, sweep);
    match sweep
    case AutoValidate =>
      SweepsLeaveNothingDue(s, now, map[]);
      NothingOverdueNothingDone(t, now, map[]);
    case AntiGel =>
      AntiGelSweepIdempotent(s, now);
    case PurgeTrash =>
      SweepsLeaveNothingDue(s, now, map[]);
      NothingOverdueNothingDone(t, now, map[]);
    case AutoAccept(firstAdmin) =>
      SweepsLeaveNothingDue(s, now, firstAdmin);
      NothingOverdueNothingDone(t, now, firstAdmin);
  }

  lemma ErasingNobody(s: State)
    ensures Erased(s, {}) == s
  {
    assert Erased(s, {}).incidents == s.incidents;
    assert Erased(s, {}).collabs == s.collabs;
    assert Erased(s, {}).assignments == s.assignments;
    assert Erased(s, {}).tasks == s.tasks;
    assert Erased(s, {}).suggestions == s.suggestions;
  }

  /** What the sweeps leave behind: nothing overdue and nothing expired. */
  lemma SweepsLeaveNothingDue(s: State, now: Time, firstAdmin: map<OrgId, UserId>)
    ensures OverdueValidations(ApplySweep(s, now, AutoValidate), now) == {}
    ensures ExpiredTrash(ApplySweep(s, now, PurgeTrash), now) == {}
    ensures OverdueAnswers(ApplySweep(s, now, AutoAccept(firstAdmin)), now) == {}
  {
  }

  /** And no stamped, taken incident at or past its deadline. */
  lemma NothingStaysFrozen(s: State, now: Time, i: IncidentId)
    requires i in s.incidents
    ensures var r := ApplySweep(s, now, Sweep.AntiGel).incidents[i];
            Rows.Watched(r) ==> !Rows.Expired(r, now)
  {
  }

  // ---- The tacit validation is the explicit one, repeated ------------------------------------

  ghost function ValidateAll(s: State, now: Time, order: seq<IncidentId>): State {
    if order == [] then s
    else
      var n := |order| - 1;
      ApplyValidate(ValidateAll(s, now, order[..n]), now, order[n]).state
  }

  /** After validating some of the overdue incidents: the treated rows are validated, the others intact. */
  ghost predicate ValidatedSoFar(s: State, t: State, now: Time, done: seq<IncidentId>) {
    && t.tasks == s.tasks && t.assignments == s.assignments && t.suggestions == s.suggestions
    && t.incidents.Keys == s.incidents.Keys && t.collabs.Keys == s.collabs.Keys
    && (forall i :: i in s.incidents ==>
          t.incidents[i] == if i in done then Rows.Next(s.incidents[i], now, Rows.Validate) else s.incidents[i])
    && (forall k :: k in s.collabs ==>
          t.collabs[k] == if k.0 in done && s.collabs[k].status.Accepted?
                          then s.collabs[k].(status := Terminated) else s.collabs[k])
  }

  lemma ValidateOnce(s: State, now: Time, i: IncidentId)
    ensures var t := ApplyValidate(s, now, i).state;
            if i in s.incidents && s.incidents[i].etat.InValidation?
            then && t.(incidents := s.incidents, collabs := s.collabs) == s
                 && t.incidents == s.incidents[i := Rows.Next(s.incidents[i], now, Rows.Validate)]
                 && t.collabs == CollabsTerminated(s.collabs, i)
            else t == s
  {
  }

  lemma {:induction false} ValidateAllSoFar(s: State, now: Time, order: seq<IncidentId>)
    requires forall j, k :: 0 <= j < k < |order| ==> order[j] != order[k]
    requires forall i :: i in order ==> i in OverdueValidations(s, now)
    ensures ValidatedSoFar(s, ValidateAll(s, now, order), now, order)
  {
    if order != [] {
      var n := |order| - 1;
      ValidateAllSoFar(s, now, order[..n]);
      ValidateOnce(ValidateAll(s, now, order[..n]), now, order[n]);
      assert forall x :: x in order <==> x in order[..n] || x == order[n];
      assert order[n] in order && order[n] !in order[..n];
    }
  }

  /**
   The tacit validation sweep does to the overdue incidents, taken in any order, exactly what the
   Super Admin's validation request would have done to each.
   */
  lemma TacitIsExplicitRepeated(s: State, now: Time, order: seq<IncidentId>)
    requires Enumerates(order, OverdueValidations(s, now))
    ensures ValidateAll(s, now, order) == SweepValidate(s, now)
  {
    ValidateAllSoFar(s, now, order);
    assert ValidateAll(s, now, order).incidents == SweepValidate(s, now).incidents;
    assert ValidateAll(s, now, order).collabs == SweepValidate(s, now).collabs;
  }

  // ---- The tacit acceptance ------------------------------------------------------------------

  /**
   One turn of the acceptance loop. The incident was read before the loop began, in snapshot; only
   the three columns it changes are written back.
   */
  function AcceptOne(s: State, snapshot: Incidents, now: Time, firstAdmin: map<OrgId, UserId>, a: AssignmentId): State {
    if a !in s.assignments then s
    else
      var row := s.assignments[a];
      var i := row.incident;
      var engaged :=
        if i in snapshot && snapshot[i].etat.Declared? && i in s.incidents
        then s.incidents[i := Rows.Stamped(s.incidents[i], Lookup(firstAdmin, row.organisation), now)]
        else s.incidents;
      s.(assignments := s.assignments[a := row.(status := Agreed, respondedAt := Some(now))], incidents := engaged)
  }

  ghost function AcceptAll(s: State, snapshot: Incidents, now: Time, firstAdmin: map<OrgId, UserId>,
                           order: seq<AssignmentId>): State {
    if order == [] then s
    else
      var n := |order| - 1;
      AcceptOne(AcceptAll(s, snapshot, now, firstAdmin, order[..n]), snapshot, now, firstAdmin, order[n])
  }

  /** The last assignment of incident i in the order: the one whose leader stays. */
  ghost function LastFor(s: State, order: seq<AssignmentId>, i: IncidentId): Option<AssignmentId>
    requires forall a :: a in order ==> a in s.assignments
  {
    if order == [] then None
    else
      var n := |order| - 1;
      if s.assignments[order[n]].incident == i then Some(order[n]) else LastFor(s, order[..n], i)
  }

  ghost function EngagedRow(s: State, now: Time, firstAdmin: map<OrgId, UserId>, last: Option<AssignmentId>,
                            i: IncidentId): Rows.Incident
    requires i in s.incidents && (last.Some? ==> last.value in s.assignments)
  {
    if s.incidents[i].etat.Declared? && last.Some?
    then Rows.Stamped(s.incidents[i], Lookup(firstAdmin, s.assignments[last.value].organisation), now)
    else s.incidents[i]
  }

  lemma {:induction false} LastForInOrder(s: State, order: seq<AssignmentId>, i: IncidentId)
    requires forall a :: a in order ==> a in s.assignments
    ensures match LastFor(s, order, i)
            case None => forall a :: a in order ==> s.assignments[a].incident != i
            case Some(a) => a in order && s.assignments[a].incident == i
  {
    if order != [] {
      var n := |order| - 1;
      LastForInOrder(s, order[..n], i);
      assert forall x :: x in order <==> x in order[..n] || x == order[n];
    }
  }

  /** What the loop has done after treating the assignments in done: the last one for each incident wins. */
  ghost predicate AcceptedSoFar(s: State, t: State, now: Time, firstAdmin: map<OrgId, UserId>, done: seq<AssignmentId>)
    requires forall a :: a in done ==> a in s.assignments
  {
    && t.collabs == s.collabs && t.tasks == s.tasks && t.suggestions == s.suggestions
    && t.assignments.Keys == s.assignments.Keys && t.incidents.Keys == s.incidents.Keys
    && (forall a :: a in s.assignments ==>
          t.assignments[a] == if a in done then s.assignments[a].(status := Agreed, respondedAt := Some(now))
                              else s.assignments[a])
    && (forall i :: i in s.incidents ==> LastFor(s, done, i).Some? ==> LastFor(s, done, i).value in s.assignments)
    && (forall i :: i in s.incidents ==> t.incidents[i] == EngagedRow(s, now, firstAdmin, LastFor(s, done, i), i))
  }

  lemma LastForOneMore(s: State, done: seq<AssignmentId>, a: AssignmentId, i: IncidentId)
    requires forall x :: x in done + [a] ==> x in s.assignments
    requires forall x :: x in done ==> x in s.assignments
    ensures LastFor(s, done + [a], i) == if s.assignments[a].incident == i then Some(a) else LastFor(s, done, i)
  {
    assert (done + [a])[..|done|] == done;
  }

  lemma AcceptOneMore(s: State, t: State, now: Time, firstAdmin: map<OrgId, UserId>,
                      done: seq<AssignmentId>, a: AssignmentId)
    requires forall x :: x in done ==> x in s.assignments
    requires a in s.assignments && a !in done
    requires AcceptedSoFar(s, t, now, firstAdmin, done)
    ensures forall x :: x in done + [a] ==> x in s.assignments
    ensures AcceptedSoFar(s, AcceptOne(t, s.incidents, now, firstAdmin, a), now, firstAdmin, done + [a])
  {
    var u := AcceptOne(t, s.incidents, now, firstAdmin, a);
    var j := s.assignments[a].incident;
    assert u.assignments == t.assignments[a := s.assignments[a].(status := Agreed, respondedAt := Some(now))];
    forall i | i in s.incidents
      ensures LastFor(s, done + [a], i).Some? ==> LastFor(s, done + [a], i).value in s.assignments
      ensures u.incidents[i] == EngagedRow(s, now, firstAdmin, LastFor(s, done + [a], i), i)
    {
      LastForOneMore(s, done, a, i);
      assert t.incidents[i] == EngagedRow(s, now, firstAdmin, LastFor(s, done, i), i);
      if i != j {
        assert u.incidents[i] == t.incidents[i];
      }
    }
  }

  lemma {:induction false} AcceptAllSoFar(s: State, now: Time, firstAdmin: map<OrgId, UserId>, order: seq<AssignmentId>)
    requires forall j, k :: 0 <= j < k < |order| ==> order[j] != order[k]
    requires forall a :: a in order ==> a in s.assignments
    ensures AcceptedSoFar(s, AcceptAll(s, s.incidents, now, firstAdmin, order), now, firstAdmin, order)
  {
    if order != [] {
      var n := |order| - 1;
      assert order == order[..n] + [order[n]];
      AcceptAllSoFar(s, now, firstAdmin, order[..n]);
      AcceptOneMore(s, AcceptAll(s, s.incidents, now, firstAdmin, order[..n]), now, firstAdmin, order[..n], order[n]);
    }
  }

  /** Before its turn an assignment is as it was loaded, and no incident has appeared or gone. */
  lemma UntouchedBeforeItsTurn(s: State, now: Time, firstAdmin: map<OrgId, UserId>, order: seq<AssignmentId>, k: nat)
    requires Enumerates(order, OverdueAnswers(s, now)) && k < |order|
    ensures var t := AcceptAll(s, s.incidents, now, firstAdmin, order[..k]);
            && order[k] in s.assignments && order[k] in t.assignments
            && t.assignments[order[k]] == s.assignments[order[k]]
            && t.incidents.Keys == s.incidents.Keys
  {
    assert forall a :: a in order[..k] ==> a in order;
    AcceptAllSoFar(s, now, firstAdmin, order[..k]);
    assert order[k] in order && order[k] !in order[..k];
  }

  /** Two overdue assignments of the same declared incident name the same leader. */
  ghost predicate Agreeing(s: State, now: Time, firstAdmin: map<OrgId, UserId>) {
    forall a, b, i ::
      SpeaksFor(s, now, a, i) && SpeaksFor(s, now, b, i) && i in s.incidents && s.incidents[i].etat.Declared?
      ==> Lookup(firstAdmin, s.assignments[a].organisation) == Lookup(firstAdmin, s.assignments[b].organisation)
  }

  /** The order in which the database returns the rows does not show in the result. */
  ghost predicate OrderFree(s: State, now: Time, firstAdmin: map<OrgId, UserId>) {
    forall o, p | Enumerates(o, OverdueAnswers(s, now)) && Enumerates(p, OverdueAnswers(s, now)) ::
      AcceptAll(s, s.incidents, now, firstAdmin, o) == AcceptAll(s, s.incidents, now, firstAdmin, p)
  }

  lemma TacitLeaderIs(s: State, now: Time, firstAdmin: map<OrgId, UserId>, a: AssignmentId, i: IncidentId)
    requires Agreeing(s, now, firstAdmin) && SpeaksFor(s, now, a, i)
    requires i in s.incidents && s.incidents[i].etat.Declared?
    ensures TacitLeader(s, now, firstAdmin, i) == Lookup(firstAdmin, s.assignments[a].organisation)
  {
  }

  lemma AgreeingRow(s: State, now: Time, firstAdmin: map<OrgId, UserId>, order: seq<AssignmentId>, i: IncidentId)
    requires Agreeing(s, now, firstAdmin) && Enumerates(order, OverdueAnswers(s, now)) && i in s.incidents
    ensures LastFor(s, order, i).Some? ==> LastFor(s, order, i).value in s.assignments
    ensures EngagedRow(s, now, firstAdmin, LastFor(s, order, i), i) == TacitRow(s, now, firstAdmin, i)
  {
    LastForInOrder(s, order, i);
    var last := LastFor(s, order, i);
    if last.Some? {
      assert SpeaksFor(s, now, last.value, i);
      if s.incidents[i].etat.Declared? {
        TacitLeaderIs(s, now, firstAdmin, last.value, i);
      }
    } else {
      assert forall a :: !SpeaksFor(s, now, a, i);
    }
  }

  /** With agreeing assignments the loop, in any order, is the sweep of Store.dfy. */
  lemma AgreeingLoopIsSweep(s: State, now: Time, firstAdmin: map<OrgId, UserId>, order: seq<AssignmentId>)
    requires Agreeing(s, now, firstAdmin) && Enumerates(order, OverdueAnswers(s, now))
    ensures AcceptAll(s, s.incidents, now, firstAdmin, order) == SweepAccept(s, now, firstAdmin)
  {
    AcceptAllSoFar(s, now, firstAdmin, order);
    SoFarIsSweep(s, AcceptAll(s, s.incidents, now, firstAdmin, order), now, firstAdmin, order);
  }

  lemma SoFarIsSweep(s: State, t: State, now: Time, firstAdmin: map<OrgId, UserId>, order: seq<AssignmentId>)
    requires Agreeing(s, now, firstAdmin) && Enumerates(order, OverdueAnswers(s, now))
    requires AcceptedSoFar(s, t, now, firstAdmin, order)
    ensures t == SweepAccept(s, now, firstAdmin)
  {
    var u := SweepAccept(s, now, firstAdmin);
    assert t.incidents == u.incidents by {
      forall i | i in s.incidents
        ensures t.incidents[i] == u.incidents[i]
      {
        AgreeingRow(s, now, firstAdmin, order, i);
      }
    }
    assert t.assignments == u.assignments;
  }

  /** The visiting order is irrelevant exactly when no declared incident is claimed for two leaders. */
  lemma OrderFreeExactly(s: State, now: Time, firstAdmin: map<OrgId, UserId>)
    ensures OrderFree(s, now, firstAdmin) <==> Agreeing(s, now, firstAdmin)
  {
    if Agreeing(s, now, firstAdmin) {
      forall o, p | Enumerates(o, OverdueAnswers(s, now)) && Enumerates(p, OverdueAnswers(s, now))
        ensures AcceptAll(s, s.incidents, now, firstAdmin, o) == AcceptAll(s, s.incidents, now, firstAdmin, p)
      {
        AgreeingLoopIsSweep(s, now, firstAdmin, o);
        AgreeingLoopIsSweep(s, now, firstAdmin, p);
      }
    } else {
      var a, b, i :|
        && SpeaksFor(s, now, a, i) && SpeaksFor(s, now, b, i) && i in s.incidents && s.incidents[i].etat.Declared?
        && Lookup(firstAdmin, s.assignments[a].organisation) != Lookup(firstAdmin, s.assignments[b].organisation);
      var o := EndingWith(s, now, firstAdmin, a, i);
      var p := EndingWith(s, now, firstAdmin, b, i);
    }
  }

  /** An order that treats a last leaves incident i to a's organisation. */
  lemma EndingWith(s: State, now: Time, firstAdmin: map<OrgId, UserId>, a: AssignmentId, i: IncidentId)
    returns (order: seq<AssignmentId>)
    requires SpeaksFor(s, now, a, i) && i in s.incidents && s.incidents[i].etat.Declared?
    ensures Enumerates(order, OverdueAnswers(s, now))
    ensures i in AcceptAll(s, s.incidents, now, firstAdmin, order).incidents
    ensures AcceptAll(s, s.incidents, now, firstAdmin, order).incidents[i].takenBy
            == Lookup(firstAdmin, s.assignments[a].organisation)
  {
    var rest := EnumerationExists(OverdueAnswers(s, now) - {a});
    order := rest + [a];
    AcceptAllSoFar(s, now, firstAdmin, order);
  }

  /** In every database that keeps one waiting assignment per incident, any order gives the sweep. */
  lemma AnyOrderIsSweep(s: State, now: Time, firstAdmin: map<OrgId, UserId>, order: seq<AssignmentId>)
    requires OneWaiting(s.assignments) && Enumerates(order, OverdueAnswers(s, now))
    ensures AcceptAll(s, s.incidents, now, firstAdmin, order) == SweepAccept(s, now, firstAdmin)
  {
    assert Agreeing(s, now, firstAdmin) by {
      forall a, b, i | SpeaksFor(s, now, a, i) && SpeaksFor(s, now, b, i)
        ensures a == b
      {
        assert WaitingOn(s.assignments, a, i) && WaitingOn(s.assignments, b, i);
      }
    }
    AgreeingLoopIsSweep(s, now, firstAdmin, order);
  }

  // ---- The anti-freeze sweep, counted --------------------------------------------------------

  datatype Fate = Kept | Reverts | Warns90 | Warns75

  function FateOf(r: Rows.Incident, now: Time): Fate {
    if !Rows.Watched(r) then Kept
    else if Rows.Expired(r, now) then Reverts
    else if Rows.Past90(r, now) && !r.warned90 then Warns90
    else if Rows.Past75(r, now) && !r.warned75 then Warns75
    else Kept
  }

  function Fated(s: State, now: Time, fate: Fate): set<IncidentId> {
    set i | i in s.incidents && Rows.Watched(s.incidents[i]) && FateOf(s.incidents[i], now) == fate
  }

  function WatchedIncidents(s: State): set<IncidentId> {
    set i | i in s.incidents && Rows.Watched(s.incidents[i])
  }

  /** What is left of a count once the incidents in done are treated. */
  ghost function FatedIn(s: State, now: Time, fate: Fate, done: seq<IncidentId>): set<IncidentId> {
    set i | i in done && i in Fated(s, now, fate)
  }

  lemma FatedOneMore(s: State, now: Time, fate: Fate, done: seq<IncidentId>, i: IncidentId)
    requires i !in done
    ensures |FatedIn(s, now, fate, done + [i])|
            == |FatedIn(s, now, fate, done)| + if i in Fated(s, now, fate) then 1 else 0
  {
    if i in Fated(s, now, fate) {
      assert FatedIn(s, now, fate, done + [i]) == FatedIn(s, now, fate, done) + {i};
    } else {
      assert FatedIn(s, now, fate, done + [i]) == FatedIn(s, now, fate, done);
    }
  }

  ghost predicate CountsSoFar(s: State, now: Time, done: seq<IncidentId>, reverted: nat, warned75: nat, warned90: nat) {
    && reverted == |FatedIn(s, now, Reverts, done)|
    && warned75 == |FatedIn(s, now, Warns75, done)|
    && warned90 == |FatedIn(s, now, Warns90, done)|
  }

  lemma CountsOneMore(s: State, now: Time, done: seq<IncidentId>, i: IncidentId,
                      reverted: nat, warned75: nat, warned90: nat)
    requires CountsSoFar(s, now, done, reverted, warned75, warned90)
    requires i !in done && i in WatchedIncidents(s)
    ensures match FateOf(s.incidents[i], now)
            case Reverts => CountsSoFar(s, now, done + [i], reverted + 1, warned75, warned90)
            case Warns75 => CountsSoFar(s, now, done + [i], reverted, warned75 + 1, warned90)
            case Warns90 => CountsSoFar(s, now, done + [i], reverted, warned75, warned90 + 1)
            case Kept => CountsSoFar(s, now, done + [i], reverted, warned75, warned90)
  {
    FatedOneMore(s, now, Reverts, done, i);
    FatedOneMore(s, now, Warns75, done, i);
    FatedOneMore(s, now, Warns90, done, i);
  }

  /** After the anti-freeze sweep treated the incidents in done, the rest is intact. */
  ghost predicate FreezeCheckedSoFar(s: State, t: State, now: Time, done: seq<IncidentId>) {
    && t.(incidents := s.incidents) == s
    && t.incidents.Keys == s.incidents.Keys
    && forall i :: i in s.incidents ==>
         t.incidents[i] == if i in done then Rows.AntiGelStep(s.incidents[i], now) else s.incidents[i]
  }

  lemma FreezeCheckedOneMore(s: State, t: State, now: Time, done: seq<IncidentId>, i: IncidentId)
    requires FreezeCheckedSoFar(s, t, now, done) && i in s.incidents && i !in done
    ensures i in t.incidents && t.incidents[i] == s.incidents[i]
    ensures var swept := t.(incidents := t.incidents[i := Rows.AntiGelStep(s.incidents[i], now)]);
            FreezeCheckedSoFar(s, swept, now, done + [i])
  {
  }

  lemma FreezeCheckedIsSweep(s: State, t: State, now: Time, order: seq<IncidentId>)
    requires FreezeCheckedSoFar(s, t, now, order) && Enumerates(order, WatchedIncidents(s))
    ensures t == SweepAntiGel(s, now)
    ensures forall fate :: FatedIn(s, now, fate, order) == Fated(s, now, fate)
  {
    assert t.incidents == SweepAntiGel(s, now).incidents;
  }

  // ---- The anti-freeze sweep, in hours -------------------------------------------------------

  /**
   What the sweep makes of a taken row r stamped elapsed microseconds ago, when the first warning is due after
   `first` hours, the last one after `last` hours and the revert after `full` hours.
   */
  ghost predicate SweptByHours(r: Rows.Incident, n: Rows.Incident, elapsed: Time, first: int, last: int, full: int) {
    var reverts, late, soon :=
      elapsed >= full * 3_600_000_000, elapsed >= last * 3_600_000_000, elapsed >= first * 3_600_000_000;
    && (n.etat.Declared? <==> reverts)
    && (reverts ==>
          && n.takenBy.None? && n.mode.None? && n.takenInChargeAt.None? && !n.warned75 && !n.warned90
          && n.warnings == r.warnings)
    && (!reverts ==>
          && n == r.(warned75 := n.warned75, warned90 := n.warned90, warnings := n.warnings)
          && (n.warned90 <==> r.warned90 || late)
          && (n.warned75 <==> r.warned75 || soon)
          && n.warnings == r.warnings
             + if r.takenBy.None? then []
               else if late && !r.warned90 then [Rows.Warning(r.takenBy.value, 90)]
               else if soon && !r.warned75 then [Rows.Warning(r.takenBy.value, 75)]
               else [])
  }

  /** The timetable: 30 days for a high severity, 60 for a medium or unknown one, 90 for a low one. */
  ghost predicate SweptByTimetable(r: Rows.Incident, n: Rows.Incident, now: Time) {
    if !r.etat.Taken? || r.takenInChargeAt.None? then n == r
    else
      var elapsed := now - r.takenInChargeAt.value;
      match r.severity
      case Some(High) => SweptByHours(r, n, elapsed, 540, 648, 720)
      case Some(Medium) => SweptByHours(r, n, elapsed, 1080, 1296, 1440)
      case Some(Low) => SweptByHours(r, n, elapsed, 1620, 1944, 2160)
      case None => SweptByHours(r, n, elapsed, 1080, 1296, 1440)
  }

  ghost predicate TimetableKept(s: State, t: State, now: Time) {
    && t.(incidents := s.incidents) == s
    && t.incidents.Keys == s.incidents.Keys
    && forall i :: i in s.incidents ==> SweptByTimetable(s.incidents[i], t.incidents[i], now)
  }

  /** The sweep keeps to the timetable, incident by incident, and touches nothing else. */
  lemma FreezeSweepTimetable(s: State, now: Time)
    requires RowsInv(s)
    ensures TimetableKept(s, SweepAntiGel(s, now), now)
  {
    forall i | i in s.incidents
      ensures SweptByTimetable(s.incidents[i], SweepAntiGel(s, now).incidents[i], now)
    {
      StepTimetable(s.incidents[i], now);
    }
  }

  lemma StepTimetable(r: Rows.Incident, now: Time)
    requires r.warned90 ==> r.warned75
    ensures SweptByTimetable(r, Rows.AntiGelStep(r, now), now)
  {
    assert r.warnings + [] == r.warnings;
  }

  /** What the three counters of the sweep count, in terms of the rows before and after. */
  lemma FatesAreChanges(s: State, now: Time)
    requires RowsInv(s)
    ensures var t := SweepAntiGel(s, now).incidents;
            && Fated(s, now, Reverts)
               == (set i | i in s.incidents && s.incidents[i].etat.Taken? && t[i].etat.Declared?)
            && Fated(s, now, Warns90)
               == (set i | i in s.incidents && !s.incidents[i].warned90 && t[i].warned90)
            && Fated(s, now, Warns75)
               == (set i | i in s.incidents && !s.incidents[i].warned75 && t[i].warned75 && !t[i].warned90)
  {
  }

  // ---- The purge, one incident after the other -----------------------------------------------

  lemma ErasedOneMore(s: State, gone: set<IncidentId>, i: IncidentId)
    ensures Erased(Erased(s, gone), {i}) == Erased(s, gone + {i})
  {
    var t, u := Erased(Erased(s, gone), {i}), Erased(s, gone + {i});
    assert t.incidents == u.incidents;
    assert t.collabs == u.collabs;
    assert t.assignments == u.assignments;
    assert t.tasks == u.tasks;
    assert t.suggestions == u.suggestions;
  }

  // ---- Trash requests in bulk ----------------------------------------------------------------

  ghost function BinAll(s: State, now: Time, ids: seq<IncidentId>, op: TrashOp): State {
    if ids == [] then s
    else
      var n := |ids| - 1;
      ApplyBin(BinAll(s, now, ids[..n], op), now, ids[n], op).state
  }

  lemma TrashOnceEffect(s: State, now: Time, i: IncidentId, superAdmin: bool)
    ensures var t := ApplyBin(s, now, i, BulkDelete(superAdmin)).state;
            && t.(incidents := s.incidents) == s && t.incidents.Keys == s.incidents.Keys
            && (forall x :: x in s.incidents && x != i ==> t.incidents[x] == s.incidents[x])
            && (i in s.incidents && !s.incidents[i].isDeleted && superAdmin ==>
                  t.incidents[i] == Rows.Next(s.incidents[i], now, Rows.Trash) && t.incidents[i].isDeleted)
            && (i in s.incidents && (s.incidents[i].isDeleted || !superAdmin) ==> t.incidents[i] == s.incidents[i])
  {
  }

  lemma {:induction false} BulkDeleteEffect(s: State, now: Time, ids: seq<IncidentId>, superAdmin: bool)
    ensures var t := BinAll(s, now, ids, BulkDelete(superAdmin));
            && t.(incidents := s.incidents) == s && t.incidents.Keys == s.incidents.Keys
            && forall i :: i in s.incidents ==>
                 t.incidents[i] == if superAdmin && i in ids && !s.incidents[i].isDeleted
                                   then Rows.Next(s.incidents[i], now, Rows.Trash) else s.incidents[i]
  {
    if ids != [] {
      var n := |ids| - 1;
      BulkDeleteEffect(s, now, ids[..n], superAdmin);
      TrashOnceEffect(BinAll(s, now, ids[..n], BulkDelete(superAdmin)), now, ids[n], superAdmin);
      assert forall x :: x in ids <==> x in ids[..n] || x == ids[n];
    }
  }

  lemma RestoreOnceEffect(s: State, now: Time, i: IncidentId)
    ensures var t := ApplyBin(s, now, i, TrashOp.Restore).state;
            && t.(incidents := s.incidents) == s && t.incidents.Keys == s.incidents.Keys
            && (forall x :: x in s.incidents && x != i ==> t.incidents[x] == s.incidents[x])
            && (i in s.incidents && s.incidents[i].isDeleted ==>
                  t.incidents[i] == Rows.Next(s.incidents[i], now, Rows.Restore) && !t.incidents[i].isDeleted)
            && (i in s.incidents && !s.incidents[i].isDeleted ==> t.incidents[i] == s.incidents[i])
  {
  }

  lemma {:induction false} BulkRestoreEffect(s: State, now: Time, ids: seq<IncidentId>)
    ensures var t := BinAll(s, now, ids, TrashOp.Restore);
            && t.(incidents := s.incidents) == s && t.incidents.Keys == s.incidents.Keys
            && forall i :: i in s.incidents ==>
                 t.incidents[i] == if i in ids && s.incidents[i].isDeleted
                                   then Rows.Next(s.incidents[i], now, Rows.Restore) else s.incidents[i]
  {
    if ids != [] {
      var n := |ids| - 1;
      BulkRestoreEffect(s, now, ids[..n]);
      RestoreOnceEffect(BinAll(s, now, ids[..n], TrashOp.Restore), now, ids[n]);
      assert forall x :: x in ids <==> x in ids[..n] || x == ids[n];
    }
  }

  /** The identifiers of the list that belong to the set, in the order of the list. */
  function Among(ids: seq<IncidentId>, which: set<IncidentId>): seq<IncidentId> {
    if ids == [] then []
    else
      var n := |ids| - 1;
      Among(ids[..n], which) + if ids[n] in which then [ids[n]] else []
  }

  function Outside(ids: seq<IncidentId>, which: set<IncidentId>): seq<IncidentId> {
    if ids == [] then []
    else
      var n := |ids| - 1;
      Outside(ids[..n], which) + if ids[n] in which then [] else [ids[n]]
  }

  /** The incidents of the list that are in the trash. */
  function InTrash(s: State, ids: seq<IncidentId>): set<IncidentId> {
    set i | i in ids && i in s.incidents && s.incidents[i].isDeleted
  }

  lemma InTrashOneMore(s: State, ids: seq<IncidentId>, i: IncidentId)
    ensures InTrash(s, ids + [i])
            == InTrash(s, ids) + if i in s.incidents && s.incidents[i].isDeleted then {i} else {}
  {
  }

  /** The answer lists share out the request: each incident of the trash is deleted once, the rest is not found. */
  ghost predicate SharedOut(s: State, ids: seq<IncidentId>, deleted: seq<IncidentId>, notFound: seq<IncidentId>) {
    multiset(deleted) + multiset(notFound) == multiset(ids) && Enumerates(deleted, InTrash(s, ids))
  }

  lemma SharedOutOneMore(s: State, ids: seq<IncidentId>, deleted: seq<IncidentId>, notFound: seq<IncidentId>,
                         i: IncidentId)
    requires SharedOut(s, ids, deleted, notFound)
    ensures if i in s.incidents && s.incidents[i].isDeleted && i !in InTrash(s, ids)
            then && SharedOut(s, ids + [i], deleted + [i], notFound)
                 && InTrash(s, ids + [i]) == InTrash(s, ids) + {i}
            else && SharedOut(s, ids + [i], deleted, notFound + [i])
                 && InTrash(s, ids + [i]) == InTrash(s, ids)
  {
    InTrashOneMore(s, ids, i);
    if i in s.incidents && s.incidents[i].isDeleted && i !in InTrash(s, ids) {
      EnumeratesOneMore(deleted, InTrash(s, ids), i);
    } else {
      assert InTrash(s, ids + [i]) == InTrash(s, ids);
    }
  }

  lemma ForcedOneMore(s: State, t: State, now: Time, ids: seq<IncidentId>, i: IncidentId)
    requires t == Erased(s, InTrash(s, ids))
    ensures ApplyBin(t, now, i, TrashOp.ForceDelete)
            == Outcome(if i in s.incidents && s.incidents[i].isDeleted && i !in InTrash(s, ids) then Ok else NotFound,
                       Erased(s, InTrash(s, ids + [i])))
  {
    InTrashOneMore(s, ids, i);
    ErasedOneMore(s, InTrash(s, ids), i);
    if i in s.incidents && !s.incidents[i].isDeleted {
      assert i in t.incidents && t.incidents[i] == s.incidents[i];
    }
    if i in InTrash(s, ids) {
      assert InTrash(s, ids + [i]) == InTrash(s, ids);
    }
  }

  /** A forced deletion erases the listed incidents that are in the trash, in any order, and nothing else. */
  lemma {:induction false} BulkForceDeleteEffect(s: State, now: Time, ids: seq<IncidentId>)
    ensures BinAll(s, now, ids, TrashOp.ForceDelete) == Erased(s, InTrash(s, ids))
  {
    if ids == [] {
      ErasingNobody(s);
      assert InTrash(s, ids) == {};
    } else {
      var n := |ids| - 1;
      BulkForceDeleteEffect(s, now, ids[..n]);
      assert ids == ids[..n] + [ids[n]];
      ForcedOneMore(s, Erased(s, InTrash(s, ids[..n])), now, ids[..n], ids[n]);
    }
  }

  lemma BulkRestoreEmpties(s: State, now: Time, ids: seq<IncidentId>)
    ensures forall i :: i in ids && i in s.incidents ==>
              && i in BinAll(s, now, ids, TrashOp.Restore).incidents
              && !BinAll(s, now, ids, TrashOp.Restore).incidents[i].isDeleted
  {
    BulkRestoreEffect(s, now, ids);
  }

  /**
   Deleting a list of incidents and restoring the same list, in any order and with repetitions, gives
   back every row that was not in the trash, but for the remembered date; rows already in the trash
   come out of it too.
   */
  lemma BulkRestoreUndoesBulkDelete(s: State, t1: Time, t2: Time, ids: seq<IncidentId>, again: seq<IncidentId>,
                                    i: IncidentId)
    requires RowsInv(s) && i in s.incidents && (forall x :: x in ids <==> x in again)
    ensures var t := BinAll(BinAll(s, t1, ids, BulkDelete(true)), t2, again, TrashOp.Restore);
            && i in t.incidents
            && (i in ids ==> !t.incidents[i].isDeleted)
            && (i !in ids ==> t.incidents[i] == s.incidents[i])
            && (i in ids && !s.incidents[i].isDeleted ==> t.incidents[i] == s.incidents[i].(deletedAt := Some(t1)))
  {
    var mid := BinAll(s, t1, ids, BulkDelete(true));
    BulkDeleteEffect(s, t1, ids, true);
    BulkRestoreEffect(mid, t2, again);
    InAndOutOfTheTrash(s.incidents[i], t1, t2);
  }

  lemma InAndOutOfTheTrash(r: Rows.Incident, t1: Time, t2: Time)
    requires Rows.RowInv(r)
    ensures Rows.Next(r, t1, Rows.Trash).isDeleted && !Rows.Next(r, t2, Rows.Restore).isDeleted
    ensures !r.isDeleted ==> Rows.Next(Rows.Next(r, t1, Rows.Trash), t2, Rows.Restore) == r.(deletedAt := Some(t1))
  {
  }
}
