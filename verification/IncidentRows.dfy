/**
 The life of one incident row. Every endpoint and every sweep changes a row through one of the
 actions below; Store.dfy says which request performs which action, and RowEffect (in Effects.dfy)
 proves that nothing else ever happens to a row.
 */
module IncidentRows {
  import opened Domain

  /** A 'deadline_warning' notification sent to the leader by the anti-freeze sweep. */
  datatype Warning = Warning(to: UserId, percent: int)

  /** The columns that follow a resolution from its preparation to its verdict. */
  datatype ResolutionFile = ResolutionFile(
    submittedBy: Option<UserId>,
    submittedAt: Option<Time>,
    validationDeadline: Option<Time>,
    rejectionReason: Option<string>,
    resolutionStart: Option<int>,
    resolutionEnd: Option<int>)

  const EMPTY_FILE := ResolutionFile(None, None, None, None, None, None)

  datatype Incident = Incident(
    etat: Etat,
    takenBy: Option<UserId>,
    mode: Option<Mode>,
    takenInChargeAt: Option<Time>,
    warned75: bool,
    warned90: bool,
    severity: Option<Severity>,
    file: ResolutionFile,
    isDeleted: bool,
    deletedAt: Option<Time>,
    progress: nat,
    warnings: seq<Warning>)

  function NewIncident(severity: Option<Severity>): Incident {
    Incident(Declared, None, None, None, false, false, severity, EMPTY_FILE,
             false, None, 0, [])
  }

  datatype Action =
    | TakeInternal(user: UserId)
    | Lead(user: UserId)
    | EngageByAssignment(user: UserId)
    | EngageTacitly(admin: Option<UserId>)
    | LegacyTake(user: UserId)
    | LegacyResolve
    | OpenToOthers
    | LeaveInternal
    | Prepare(user: UserId)
    | ReturnForCompletion
    | DeclareResolved
    | DisengageAlone
    | DisengageWithCandidates
    | Validate
    | Reject(motif: string)
    | Close(start: int, end: int)
    | Trash
    | Restore
    | AntiGel
    | Recount(percentage: nat)

  /** Incident.save: a closed incident is stored at 100 %. */
  function Saved(r: Incident): Incident {
    if Closed(r.etat) then r.(progress := 100) else r
  }

  function Stamped(r: Incident, leader: Option<UserId>, now: Time): Incident {
    r.(etat := Taken, takenBy := leader, takenInChargeAt := Some(now))
  }

  function Rearmed(r: Incident): Incident {
    r.(warned75 := false, warned90 := false)
  }

  function Released(r: Incident): Incident {
    r.(takenBy := None, mode := None, takenInChargeAt := None)
  }

  predicate Enabled(r: Incident, a: Action) {
    match a
    case TakeInternal(_) => r.etat.Declared? && r.takenBy.None? && r.mode.None?
    case Lead(_) => !r.etat.Resolved? && r.takenBy.None? && r.mode != Some(Internal)
    case EngageByAssignment(_) => r.etat.Declared?
    case EngageTacitly(_) => r.etat.Declared?
    case LegacyTake(_) => r.etat.Declared?
    case LegacyResolve => r.etat.Taken?
    case OpenToOthers => r.mode.None?
    case LeaveInternal => r.mode == Some(Internal)
    case Prepare(_) => r.etat.Taken?
    case ReturnForCompletion => r.etat.ResolutionPrepared?
    case DeclareResolved => r.etat.Taken? || r.etat.ResolutionPrepared?
    case DisengageAlone => r.etat.Taken?
    case DisengageWithCandidates => r.etat.Taken?
    case Validate => r.etat.InValidation?
    case Reject(motif) => r.etat.InValidation? && motif != ""
    case Close(_, _) => !r.etat.Resolved?
    case Trash => true
    case Restore => r.isDeleted
    case AntiGel => true
    case Recount(p) => p <= 100 && (Closed(r.etat) ==> p == 100)
  }

  function Next(r: Incident, now: Time, a: Action): Incident {
    match a
    case TakeInternal(u) => Rearmed(Stamped(r, Some(u), now)).(mode := Some(Internal))
    case Lead(u) =>
      var led := r.(takenBy := Some(u), mode := Some(Collaborative));
      if r.etat.Declared? then Rearmed(Stamped(led, Some(u), now)) else Saved(led)
    case EngageByAssignment(u) => Rearmed(Stamped(r, Some(u), now))
    case EngageTacitly(admin) => Stamped(r, admin, now)
    case LegacyTake(u) => r.(etat := Taken, takenBy := Some(u))
    case LegacyResolve => Saved(r.(etat := Resolved))
    case OpenToOthers => Saved(r.(mode := Some(Collaborative)))
    case LeaveInternal => Saved(r.(mode := Some(Collaborative)))
    case Prepare(u) =>
      r.(etat := ResolutionPrepared, file := r.file.(submittedBy := Some(u), submittedAt := Some(now)))
    case ReturnForCompletion => r.(etat := Taken)
    case DeclareResolved =>
      r.(etat := InValidation, file := r.file.(validationDeadline := Some(now + RESPONSE_DELAY)))
    case DisengageAlone => Released(r).(etat := Declared)
    case DisengageWithCandidates => Released(r)
    case Validate => Saved(r.(etat := ResolvedDefinitive))
    case Reject(motif) =>
      r.(etat := Taken, file := r.file.(rejectionReason := Some(motif)))
    case Close(start, end) =>
      Saved(r.(etat := Resolved, file := r.file.(resolutionStart := Some(start), resolutionEnd := Some(end))))
    case Trash => Saved(r.(isDeleted := true, deletedAt := Some(now)))
    case Restore => Saved(r.(isDeleted := false))
    case AntiGel => AntiGelStep(r, now)
    case Recount(p) => r.(progress := p)
  }

  // ---- The anti-freeze sweep on one row ------------------------------------------------------

  predicate Watched(r: Incident) {
    r.etat.Taken? && r.takenInChargeAt.Some?
  }

  function Elapsed(r: Incident, now: Time): Time
    requires Watched(r)
  {
    now - r.takenInChargeAt.value
  }

  /** elapsed >= deadline */
  predicate Expired(r: Incident, now: Time)
    requires Watched(r)
  {
    Elapsed(r, now) >= AntiGelDeadline(r.severity)
  }

  /** elapsed >= 0.90 * deadline */
  predicate Past90(r: Incident, now: Time)
    requires Watched(r)
  {
    10 * Elapsed(r, now) >= 9 * AntiGelDeadline(r.severity)
  }

  /** elapsed >= 0.75 * deadline */
  predicate Past75(r: Incident, now: Time)
    requires Watched(r)
  {
    4 * Elapsed(r, now) >= 3 * AntiGelDeadline(r.severity)
  }

  /** _notify_antigel_leader: without a leader nobody is told. */
  function Notified(r: Incident, percent: int): Incident {
    if r.takenBy.None? then r
    else r.(warnings := r.warnings + [Warning(r.takenBy.value, percent)])
  }

  function AntiGelStep(r: Incident, now: Time): Incident {
    if !Watched(r) then r
    else if Expired(r, now) then Rearmed(Released(r)).(etat := Declared)
    else if Past90(r, now) && !r.warned90 then Notified(r, 90).(warned90 := true, warned75 := true)
    else if Past75(r, now) && !r.warned75 then Notified(r, 75).(warned75 := true)
    else r
  }

  /** Run twice at the same instant, the sweep does nothing the second time. */
  lemma AntiGelIdempotent(r: Incident, now: Time)
    ensures AntiGelStep(AntiGelStep(r, now), now) == AntiGelStep(r, now)
  {
    var once := AntiGelStep(r, now);
    if Watched(once) {
      assert Watched(r) && Elapsed(once, now) == Elapsed(r, now) && once.severity == r.severity;
    }
  }

  /** After the sweep no stamped, taken incident is at or past its deadline, nor owed a warning. */
  lemma AntiGelSettles(r: Incident, now: Time)
    ensures var swept := AntiGelStep(r, now);
            Watched(swept) ==>
              && !Expired(swept, now)
              && (Past90(swept, now) ==> swept.warned75)
              && (Past75(swept, now) ==> swept.warned75)
  {
  }

  // ---- Row invariant -------------------------------------------------------------------------

  ghost predicate RowInv(r: Incident) {
    && (r.etat.Declared? ==> r.takenBy.None? && r.takenInChargeAt.None? && r.mode != Some(Internal))
    && (r.mode == Some(Internal) ==> r.takenBy.Some?)
    && (r.warned90 ==> r.warned75)
    && (r.etat.ResolutionPrepared? ==> r.file.submittedBy.Some? && r.file.submittedAt.Some?)
    && (r.etat.InValidation? ==> r.file.validationDeadline.Some?)
    && !r.etat.InProgress?
    && (r.isDeleted ==> r.deletedAt.Some?)
    && r.progress <= 100
    && (Closed(r.etat) ==> r.progress == 100)
  }

  predicate OfEngagement(a: Action) {
    || a.TakeInternal? || a.Lead? || a.EngageByAssignment? || a.EngageTacitly? || a.LegacyTake?
    || a.OpenToOthers? || a.LeaveInternal? || a.DisengageAlone? || a.DisengageWithCandidates?
  }

  predicate OfResolution(a: Action) {
    || a.LegacyResolve? || a.Prepare? || a.ReturnForCompletion? || a.DeclareResolved?
    || a.Validate? || a.Reject? || a.Close?
  }

  lemma EngagementKeepsRowInv(r: Incident, now: Time, a: Action)
    requires RowInv(r) && Enabled(r, a) && OfEngagement(a)
    ensures RowInv(Next(r, now, a))
  {
  }

  lemma ResolutionKeepsRowInv(r: Incident, now: Time, a: Action)
    requires RowInv(r) && Enabled(r, a) && OfResolution(a)
    ensures RowInv(Next(r, now, a))
  {
  }

  lemma SweepKeepsRowInv(r: Incident, now: Time)
    requires RowInv(r)
    ensures RowInv(AntiGelStep(r, now))
  {
  }

  lemma NextKeepsRowInv(r: Incident, now: Time, a: Action)
    requires RowInv(r) && Enabled(r, a)
    ensures RowInv(Next(r, now, a))
  {
    if OfEngagement(a) {
      EngagementKeepsRowInv(r, now, a);
    } else if OfResolution(a) {
      ResolutionKeepsRowInv(r, now, a);
    } else if a.AntiGel? {
      SweepKeepsRowInv(r, now);
    }
  }

  // ---- The documented diagram of states ------------------------------------------------------

  /** The arrows between states, and nothing else. */
  predicate Arrow(from: Etat, to: Etat) {
    || from == to
    || (from.Declared? && to.Taken?)
    || (from.Taken? && (to.Declared? || to.ResolutionPrepared? || to.InValidation? || to.Resolved?))
    || (from.ResolutionPrepared? && (to.Taken? || to.InValidation?))
    || (from.InValidation? && (to.Taken? || to.ResolvedDefinitive?))
    || (to.Resolved? && !from.Resolved?)
  }

  lemma NextFollowsArrows(r: Incident, now: Time, a: Action)
    requires Enabled(r, a)
    ensures Arrow(r.etat, Next(r, now, a).etat)
    ensures Closed(r.etat) ==> Closed(Next(r, now, a).etat)
  {
  }

  /** Each column of the resolution file has one action as its only writer. */
  lemma FileWriters(r: Incident, now: Time, a: Action)
    ensures var before, after := r.file, Next(r, now, a).file;
            && (after.validationDeadline != before.validationDeadline ==> a.DeclareResolved?)
            && (after.rejectionReason != before.rejectionReason ==>
                  a.Reject? && after.rejectionReason == Some(a.motif))
            && (after.submittedAt != before.submittedAt || after.submittedBy != before.submittedBy ==> a.Prepare?)
            && (after.resolutionStart != before.resolutionStart || after.resolutionEnd != before.resolutionEnd ==>
                  a.Close?)
  {
  }

  /** Only the trash requests write the columns of the trash. */
  lemma TrashWriters(r: Incident, now: Time, a: Action)
    ensures var n := Next(r, now, a);
            n.isDeleted != r.isDeleted || n.deletedAt != r.deletedAt ==> a.Trash? || a.Restore?
  {
  }

  lemma SeverityFixed(r: Incident, now: Time, a: Action)
    ensures Next(r, now, a).severity == r.severity
  {
  }

  /** The progress moves by a recount or on closing. */
  lemma ProgressWriters(r: Incident, now: Time, a: Action)
    requires RowInv(r) && Enabled(r, a)
    ensures var n := Next(r, now, a);
            n.progress != r.progress ==> a.Recount? || (Closed(n.etat) && !Closed(r.etat))
  {
  }

  /** The only ways into 'declared', into validation and into the definitive state. */
  lemma Entrances(r: Incident, now: Time, a: Action)
    requires Enabled(r, a)
    ensures var n := Next(r, now, a);
            && (n.etat.InValidation? && !r.etat.InValidation? ==>
                  a.DeclareResolved? && n.file.validationDeadline == Some(now + RESPONSE_DELAY))
            && (n.etat.ResolvedDefinitive? && !r.etat.ResolvedDefinitive? ==> a.Validate?)
            && (n.etat.Declared? && !r.etat.Declared? ==>
                  a.DisengageAlone? || (a.AntiGel? && Watched(r) && Expired(r, now)))
  {
  }

  /** Only two actions resolve a row, and only a lone withdrawal frees one that was never stamped. */
  lemma ResolvedAndFreed(r: Incident, now: Time, a: Action)
    requires Enabled(r, a)
    ensures var n := Next(r, now, a);
            && (n.etat.Resolved? && !r.etat.Resolved? ==> a.Close? || a.LegacyResolve?)
            && (!r.etat.Declared? && r.takenInChargeAt.None? ==>
                  n.takenInChargeAt.None? && (n.etat.Declared? ==> a.DisengageAlone?))
  {
  }

  /** The five actions that engage a declared row, and what they write. */
  lemma Engaging(r: Incident, now: Time, a: Action)
    requires Enabled(r, a) && r.etat.Declared? && Next(r, now, a).etat.Taken?
    ensures var n := Next(r, now, a);
            && (a.TakeInternal? || a.Lead? || a.EngageByAssignment? || a.EngageTacitly? || a.LegacyTake?)
            && n.takenInChargeAt == (if a.LegacyTake? then r.takenInChargeAt else Some(now))
            && (n.takenBy.None? ==> a.EngageTacitly?)
            && n.warned75 == ((a.EngageTacitly? || a.LegacyTake?) && r.warned75)
            && n.warned90 == ((a.EngageTacitly? || a.LegacyTake?) && r.warned90)
  {
  }

  /** A leader who stays in place keeps stamp, flags and warnings, whatever the state, but for the sweep. */
  lemma EngagementFrame(r: Incident, now: Time, a: Action)
    requires RowInv(r) && Enabled(r, a) && !a.AntiGel?
    requires !r.etat.Declared? && r.takenBy.Some?
    requires !Next(r, now, a).etat.Declared? && Next(r, now, a).takenBy == r.takenBy
    ensures var n := Next(r, now, a);
            && n.takenInChargeAt == r.takenInChargeAt
            && n.warned75 == r.warned75 && n.warned90 == r.warned90
            && n.warnings == r.warnings && n.severity == r.severity
  {
  }

  /** Taking an untouched incident in charge and stepping back alone only leaves the flags rearmed. */
  lemma DisengageUndoesTakeInternal(r: Incident, u: UserId, t1: Time, t2: Time)
    requires RowInv(r) && Enabled(r, TakeInternal(u))
    ensures Enabled(Next(r, t1, TakeInternal(u)), DisengageAlone)
    ensures Next(Next(r, t1, TakeInternal(u)), t2, DisengageAlone) == Rearmed(r)
  {
  }

  // ---- Mode of engagement --------------------------------------------------------------------

  function ModeRank(mode: Option<Mode>): nat {
    match mode
    case None => 0
    case Some(Internal) => 1
    case Some(Collaborative) => 2
  }

  /** Within an engagement the mode only climbs; only a disengagement or the sweep's revert drops it. */
  lemma ModeOnlyClimbs(r: Incident, now: Time, a: Action)
    requires Enabled(r, a)
    ensures ModeRank(Next(r, now, a).mode) < ModeRank(r.mode) ==>
              || a.DisengageAlone? || a.DisengageWithCandidates?
              || (a.AntiGel? && Watched(r) && Expired(r, now))
    ensures a.DisengageAlone? || a.DisengageWithCandidates? || (a.AntiGel? && Watched(r) && Expired(r, now)) ==>
              ModeRank(Next(r, now, a).mode) == 0 && Next(r, now, a).takenBy.None?
  {
  }
}
