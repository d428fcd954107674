/** The vocabulary shared by every module: identifiers, the clock, the choice fields of the models. */
module Domain {

  type UserId = nat
  type OrgId = nat
  type IncidentId = nat
  type AssignmentId = nat
  type TaskId = nat

  /** Instants and durations in microseconds, the resolution of Python's timedelta. */
  type Time = int

  const HOUR: Time := 3_600_000_000
  const DAY: Time := 24 * HOUR
  const RESPONSE_DELAY: Time := 72 * HOUR
  const TRASH_DELAY: Time := 30 * DAY

  datatype Option<+T> = None | Some(value: T)

  datatype Etat =
    | Declared
    | Taken
    | InProgress
    | ResolutionPrepared
    | InValidation
    | ResolvedDefinitive
    | Resolved

  /** RESOLVED and RESOLVED_DEFINITIVE, the two states whose progress is forced to 100. */
  predicate Closed(e: Etat) {
    e.Resolved? || e.ResolvedDefinitive?
  }

  datatype Mode = Internal | Collaborative

  datatype Severity = High | Medium | Low

  datatype Role = Leader | Contributor | Observer

  datatype CollabStatus = Pending | Accepted | Declined | Terminated

  datatype AssignmentStatus = Waiting | Agreed | Refused

  datatype TaskState = Todo | Doing | Done | Failed

  datatype OrgRole = OrgAdmin | BureauAgent | FieldAgent

  /** The anti-freeze delay: 30, 60 or 90 days by severity, 60 when the severity is unknown. */
  function AntiGelDeadline(severity: Option<Severity>): (d: Time)
    ensures d >= 30 * DAY
  {
    match severity
    case Some(High) => 30 * DAY
    case Some(Medium) => 60 * DAY
    case Some(Low) => 90 * DAY
    case None => 60 * DAY
  }

  /** The calendar date (UTC) of an instant, counted in days. */
  function DateOf(t: Time): int {
    t / DAY
  }
}
