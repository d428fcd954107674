# Incident lifecycle: a verified model

Map Action collects reports of incidents, lets organisations take them in charge, follows the tasks
done on them and closes them after a validation delay. This project models that machinery in Dafny and
proves what it promises: what every request and every timed sweep keeps, what whole runs guarantee, and
that the code as written (read a row, check, change fields, save, touch the other tables) does what the
model says.

Everything is one transition system. A database state holds incidents, collaborations, organisation
assignments, tasks and partner suggestions. A step is one HTTP request or one run of a Celery sweep, at an instant in
microseconds; a run is any list of timed steps starting from the empty database. Facts a step needs from
elsewhere (the organisation of a user, whether the leader has a mail address, the first administrator of
an organisation) come with the step, so they may change between steps.

| file | content |
|---|---|
| `Domain.dfy` | identifiers, the clock, the choice fields, the 30/60/90 day table |
| `Progress.dfy` | Python's `round` (ties to even) and what the stored percentage means |
| `IncidentRows.dfy` | one incident as an automaton: the actions on its columns, its invariant, the arrows |
| `Store.dfy` | the five tables, every request and sweep as a function from state to state |
| `Effects.dfy` | each step does to each row at most one action, and nothing to other rows |
| `Invariants.dfy` | the global invariant and its preservation by every step |
| `Runs.dfy` | claims about whole runs: the story of a resolution, closed for ever, the trash |
| `Timers.dfy` | claims about deadlines under a cadence of sweeps |
| `Stories.dfy` | runs given event by event that show where a promise stops |
| `Releases.dfy` | the mode between two releases, and incidents that no sweep can free |
| `Succession.dfy` | incidents without a leader, and suggestions answered once |
| `Sweeps.dfy` | loops over rows in any order against the sweeps in one stroke; fixpoints; bulk trash |
| `Engagements.dfy` | requests that change several tables at once |
| `Database.dfy` | the views, tasks and model methods in imperative form, each proved equal to its function |
| `Outcomes.dfy` | request by request, when it is granted and what it leaves, column by column |
| `Answers.dfy` | what organisations answer to an assignment, and how an agreement came about |
| `Decisions.dfy` | what requests about collaborations leave, and how an accepted one came about |
| `Paging.dfy` | keyset paging of the incident chat and of the discussions |
| `ActingOrganisations.dfy` | the list of acting organisations and the query that must agree with it |
| `Listings.dfy` | that list read from the tables, and what it shows after a release |
| `Impact.dfy` | the one-pass impact totals against the per-incident listing |
| `Membership.dfy` | edits and removals of members, and the last-administrator rule |

In the rows below, methods of `Database.Db` are proved equal to a function of `Store.dfy`, and the meaning of
those functions is what the lemmas are about. `Outcomes.dfy`, `Answers.dfy` and `Decisions.dfy` state each
request over again, column by column, with the constants of the source as literals: durations are in hours of
3,600,000,000 microseconds. `Rows` stands for the module `IncidentRows`.

Where the code and its own comments disagree, the model follows the code:

- Contributors are said to be accepted automatically while no leader is designated. The post-save signal
  deletes such a collaboration at once (`Engagements.JoiningNeedsALeader` for taking in charge,
  `Engagements.CollaborationNeedsALeader` for the collaboration request).
- Tasks of the leader are said to be confirmed automatically. The primary key of a task has a default, so
  the test for a new row is never true: every task starts unconfirmed.
- Leaders are said to be warned at 75 % and at 90 % of the deadline. `Timers.WhatLeadersAreTold` says exactly
  what one is told who keeps the incident until the revert: a warning goes out if and only if its flag was
  down at the engagement and some sweep found the incident taken in its window. Either can fail. A tacit
  acceptance does not reset the flags (`Timers.WhoArms`, and the run `Stories.StaleFlagsSilenceTheWarnings`);
  a sweep passes over an incident whose file is in preparation or in validation (the run
  `Stories.WaitingFileSilencesTheWarnings`).
- Tacit acceptance does not see rows changed by its own loop either: it decides on the rows loaded before
  the loop (`Sweeps.OrderFreeExactly`).
- `resolved_definitive` is not final by itself: closing by hand only refuses `resolved`. It is left exactly
  when somebody closes by hand (`Runs.LeavesDefinitiveExactly`, with a run in `Stories.DefinitiveIsNotFinal`);
  the two resolved states together are final (`Runs.ClosedForEver`).
- An engagement without a stamp, by the legacy request or by a new leader after a withdrawal, is never seen
  by the anti-freeze sweep (`Releases.UnstampedNeverFreed`).
- A withdrawal offers the leadership to the contributors, but leaves nobody who may confirm them unless
  another accepted leader collaboration exists, and a confirmation does not set `taken_by`
  (`Engagements.WhoConfirmsCandidates`; over whole runs, `Succession.CandidatesWait`).
- An adopted suggestion can leave no collaboration behind, for the signal removes it where nobody leads, and
  the partner cannot be suggested again (`Succession.AdoptionMayBeLost`, `Succession.AnsweredOnce`).
- The plain list of a discussion is ordered by date alone while its pages break ties by identifier
  (`Paging.DiscussionWalk`).
- Telephones of field agents are checked when they are given, not when a member becomes a field agent
  (`Membership.PhoneClashExactly`).
- The anti-freeze revert leaves collaborations as they were, so a former leader may still close the
  incident (`Engagements.FormerLeaderCloses`) and the organisation stays on the list of those that act on it
  (`Listings.ListAfterRevert`).
- A percentage of 100 means "all tasks done", and 0 "none done", only below 200 confirmed tasks
  (`Progress.HundredMeansAllDone`, `Progress.ZeroMeansNoneDone`).

## Model

| member | source | states |
|---|---|---|
| Runs.DefinitiveStory | Mapapi/views/incident.py:2164-2306 | in every run, a definitively resolved incident was engaged, then declared resolved, then validated explicitly or by the sweep more than 72 h after the last declaration, and existed all along |
| Runs.ClosedForEver | Mapapi/views/incident.py:2002-2038 | no step of any run takes an incident out of the two resolved states, nor its progress away from 100 |
| Runs.LeavesDefinitiveExactly | Mapapi/views/incident.py:2002-2038 | at any step of any run a definitively resolved incident stops being so if and only if a leader closes it by hand with both dates and no open task |
| Runs.ResolvedExactly | Mapapi/views/incident.py:1687-1724 | at any step of any run an incident becomes resolved if and only if it is closed by hand, or taken and resolved by the legacy request |
| Stories.DefinitiveIsNotFinal | Mapapi/views/incident.py:2008-2012 | a run of five events, from the report, in which a definitively resolved incident is closed by hand |
| Runs.DeclaredBefore | Mapapi/views/incident.py:2164-2181 | the deadline of an incident in validation is exactly 72 h after its last accepted declaration |
| Runs.EngagedBefore | Mapapi/views/incident.py:1803-1968 | an incident that is neither declared nor closed by hand was engaged at some step of the run |
| Runs.ResolutionStep | Mapapi/views/incident.py:2075-2361 | which step of a run may move the state, set the deadline or make the resolution definitive |
| Runs.InvAlways | Mapapi/models.py:698-753 | the global invariant holds of every database of every run |
| Runs.ProgressAlwaysExact | Mapapi/models.py:732-753 | the stored progress equals the recount in every database of every run, under any interleaving of task and lifecycle steps |
| Runs.ProgressCounted | Mapapi/models.py:741-750 | in every database of every run, a resolved incident stands at 100, an open one without confirmed tasks at 0, any other at the rounded percentage of its confirmed tasks that are done, failed ones not included; up to 199 of them 100 means all done and 0 none done |
| Runs.TasksAlwaysClean | Mapapi/models.py:1251-1258 | every task of every run starts no later than it ends, has a proof when done and a reason when failed, although no write path calls clean |
| Runs.InTrashSince | Mapapi/views/incident.py:319-333 | deleted_at is the instant of the deletion in force since when the incident has been in the trash, despite earlier restores |
| Runs.PurgedAfterThirtyDays | Mapapi/tasks.py:284-311 | a purged incident had been in the trash without interruption for more than 30 days |
| Runs.PurgeForgetsNobody | Mapapi/tasks.py:294-311 | what a purge leaves in the trash got there at most 30 days before |
| Runs.LostOnlyFromTrash | Mapapi/views/incident.py:2785-2807 | an incident disappears only from the trash, by a forced deletion or a purge |
| Timers.NoSurpriseRevert | Mapapi/tasks.py:191-281 | for every stamped engagement under a leader who keeps the incident until the revert, when the sweeps that find it taken are at most a tenth of the deadline apart and the first comes before 75 %: the leader is told 75 % then 90 %, less those whose flag was already up, so both if and only if both flags were down; and the revert falls in [s+deadline, s+deadline+gap) |
| Timers.WhatLeadersAreTold | Mapapi/tasks.py:216-258 | with no hypothesis on the sweeps: between a stamped engagement and the revert a leader who keeps the incident gets the 75 % warning if and only if its flag was down and a sweep found the incident taken from 75 % to 90 % of the deadline, the 90 % one if and only if its flag was down and a sweep found it taken from 90 % on, in that order and nothing else; both if and only if all four hold; and never a revert before 30 days for a high severity, 60 for a medium or unknown one, 90 for a low one |
| Timers.WindowsInHours | Mapapi/models.py:46-50 | the windows and the deadline in hours: 540, 648 and 720 for a high severity, 1080, 1296 and 1440 for a medium or unknown one, 1620, 1944 and 2160 for a low one |
| Timers.TakenMeetsTheSchedule | Mapapi/tasks.py:217-220 | while the incident stays taken, the cadence of the schedule is the cadence of the sweeps that see it |
| Timers.TrackedWhileHeld | Mapapi/tasks.py:216-261 | while a leader keeps the incident, taken, prepared, in validation or resolved, flags and warnings are those at the engagement plus one for each window in which a sweep found it taken, and the stamp is untouched |
| Timers.FrozenIncidentsReturn | Mapapi/tasks.py:216-241 | an incident that stays engaged under a stamp, whoever leads it and whatever its flags, is never kept past its 30, 60 or 90 days by more than the age of the last sweep that found it taken; while it stays taken, of the last sweep |
| Timers.WhoArms | Mapapi/views/incident.py:113-137 | an engagement starts with a stamped leader and both flags down if and only if it is a take-in-charge, an accepted assignment, or a tacit acceptance that looks up an administrator for an incident with no flag left over |
| Timers.WhoStamps | Mapapi/tasks.py:339-348 | an engagement stamps a leader if and only if it is a take-in-charge, an accepted assignment, or a tacit acceptance whose organisation has an administrator; only the tacit and the legacy engagements keep the flags as they were |
| Stories.TenthIsTheWidestGap | Mapapi/tasks.py:222-258 | for every severity and every gap over a tenth of the deadline, a run that meets all the other hypotheses of NoSurpriseRevert in which the leader gets the 75 % warning only |
| Stories.StaleFlagsSilenceTheWarnings | Mapapi/tasks.py:344-348 | a run of ten events, from the report, with sweeps exactly a tenth of the deadline apart, in which the second leader is reverted without any warning |
| Stories.WaitingFileSilencesTheWarnings | Mapapi/views/incident.py:2120-2135 | for every severity a run of eight events, from the report, in which the leader keeps the incident throughout, both flags were down and sweeps run every tenth of the deadline, and the leader is reverted without any warning: the file was in preparation, and came back at the deadline |
| Releases.UnstampedReturnsExactly | Mapapi/tasks.py:216-220 | an engaged incident without a stamp goes back to declared if and only if somebody withdraws and leaves no accepted contributor |
| Releases.UnstampedNeverFreed | Mapapi/views/incident.py:1706-1714 | while nobody withdraws, an incident engaged without a stamp stays engaged and unstamped through any number of sweeps |
| Releases.ModeClimbsBetweenReleases | Mapapi/views/incident.py:1823-1954 | between two events of a run with no accepted withdrawal and no revert in between, the mode only climbs from none to internal to collaborative |
| Releases.ReleaseStep | Mapapi/views/incident.py:2227-2254 | an accepted withdrawal or a revert leaves no mode, no leader and no stamp; no other event lowers the mode |
| Timers.ValidatedInTime | Mapapi/tasks.py:157-188 | with the last sweep at most gap old no incident has been in validation for more than 72 h + gap: 73 h with hourly sweeps |
| Timers.AnsweredInTime | Mapapi/tasks.py:314-356 | with the last sweep at most gap old no organisation has kept an incident waiting for more than 72 h + gap: 73 h with hourly sweeps |
| Timers.NoSweptDeadline | Mapapi/tasks.py:166-172 | the deadline of an incident still in validation is not before the last validation sweep |
| Sweeps.SweepsAreIdempotent | Mapapi/tasks.py:157-356 | each of the four sweeps, run again at the same instant, changes nothing and sends nothing |
| Sweeps.SweepsLeaveNothingDue | Mapapi/tasks.py:157-356 | after its sweep no validation, no trash and no answer is overdue |
| Sweeps.NothingStaysFrozen | Mapapi/tasks.py:191-261 | after the anti-freeze sweep no stamped, taken incident is at or past its deadline |
| Sweeps.FreezeSweepTimetable | Mapapi/tasks.py:216-261 | incident by incident, with literal hours: a taken, stamped incident is declared after the sweep if and only if 720, 1440 or 2160 hours have gone by for its severity, then with no leader, mode, stamp or flag; else a flag is up if and only if it was or its hours have gone by, and the leader is told of the one raised; nothing else changes |
| Sweeps.FatesAreChanges | Mapapi/tasks.py:221-261 | the three counters count the incidents that went back to declared, whose 90 % flag went up, and whose 75 % flag alone went up |
| Sweeps.TacitIsExplicitRepeated | Mapapi/tasks.py:157-188 | the validation sweep equals the validation request applied to the overdue incidents one by one, in any order |
| Sweeps.OrderFreeExactly | Mapapi/tasks.py:314-356 | the acceptance loop gives the same database in every visiting order if and only if no declared incident is claimed for two different leaders |
| Sweeps.AnyOrderIsSweep | Mapapi/tasks.py:326-356 | with at most one waiting assignment per incident, every visiting order gives the sweep |
| Sweeps.BulkDeleteEffect | Mapapi/views/incident.py:2692-2710 | a bulk deletion by a Super Admin stamps each listed incident not yet in the trash, once, and leaves all else alone; by anybody else it changes nothing |
| Sweeps.BulkRestoreEffect | Mapapi/views/incident.py:2739-2762 | bulk restoration takes each listed incident out of the trash and leaves all else alone |
| Sweeps.BulkForceDeleteEffect | Mapapi/views/incident.py:2785-2807 | a forced deletion erases exactly the listed incidents that are in the trash, whatever their order and repetitions |
| Sweeps.BulkRestoreUndoesBulkDelete | Mapapi/views/incident.py:2685-2762 | deleting then restoring the same incidents, in any order and with repetitions, gives the rows back but for the remembered date |
| Engagements.AfterDisengagement | Mapapi/views/incident.py:2215-2259 | after a disengagement nobody holds the incident: declared without active collaboration, or taken with a candidate and no active contributor; which one depends exactly on another active contributor |
| Engagements.AfterValidation | Mapapi/views/incident.py:140-151 | explicit and tacit validation leave no active collaboration |
| Engagements.AfterTakingTheLead | Mapapi/views/incident.py:1889-1924 | a new collaborative leader leads, and every other contributor awaits confirmation |
| Engagements.CollaborationNeedsALeader | Mapapi/views/collaboration.py:294-339 | a requested collaboration survives its creation if and only if the incident has a leader who can be told or who asked; only an observer comes out accepted |
| Engagements.JoiningNeedsALeader | Mapapi/views/incident.py:1938-1968 | the same for a contributor or observer who takes in charge: without a leader nothing of it is left but the collaborative mode |
| Engagements.RepeatedRequest | Mapapi/signals.py:190-246 | a request repeated at once is admitted again if and only if the signal removed the first one |
| Engagements.WhoConfirmsCandidates | Mapapi/views/collaboration.py:566-604 | after a withdrawal with candidates, a user can confirm one if and only if another accepted leader collaboration is theirs; otherwise both forms of acceptance are forbidden; none sets taken_by |
| Succession.CandidatesWait | Mapapi/views/collaboration.py:566-766 | over any run: after a withdrawal with no other accepted leader collaboration, and as long as nobody takes the incident in charge, no acceptance of any collaboration on it succeeds |
| Succession.StaysLeaderless | Mapapi/views/collaboration.py:566-766 | over any run an incident that nobody leads stays so until somebody takes it in charge |
| Succession.WithdrawalLeavesNobody | Mapapi/views/incident.py:2215-2259 | a withdrawal leaves an incident that nobody leads if and only if it goes back to declared or no other accepted leader collaboration existed |
| Succession.AdoptionMayBeLost | Mapapi/views/partner_suggestion.py:254-268 | an adopted suggestion leaves no collaboration if and only if there was none and nobody leads, or the leader cannot be told; otherwise an accepted one with the suggested role |
| Succession.AnsweredOnce | Mapapi/models.py:1309-1311 | over any run an answered suggestion keeps its answer while the incident exists, and is neither answered nor made again |
| Engagements.WhoMayAskAgain | Mapapi/views/collaboration.py:294-339 | for every role and end date a request on an unresolved incident is admitted if and only if it does not ask for leadership, does not end today or before, and no earlier one is pending or accepted |
| Engagements.ModeDropsOnlyOnRelease | Mapapi/views/incident.py:2227-2254 | the mode goes down only by a disengagement or the anti-freeze revert, and then to nothing with no leader |
| Engagements.FormerLeaderCloses | Mapapi/permissions.py:64-105 | after an anti-freeze revert a user can close the declared incident if and only if an accepted leader collaboration is theirs, both dates are given and no task is open |
| Effects.RowEffect | Mapapi/views/incident.py:1687-2361 | whatever the step, a surviving incident goes through at most one enabled action, caused by that step |
| Effects.OthersUntouched | Mapapi/views/incident.py:1687-2361 | a request about one incident leaves every other incident as it was |
| Effects.OnlyReportsCreate | Mapapi/views/incident.py:415-432 | of all requests and sweeps only a report makes an incident appear, declared and held by nobody |
| Effects.RefusalsChangeNothing | Mapapi/views/incident.py:1803-2361 | a refused request leaves all five tables unchanged |
| Outcomes.ReportOutcome | Mapapi/models.py:594-692 | a report is stored declared, held by nobody, with every other column blank |
| Outcomes.HandleOutcome | Mapapi/views/incident.py:1687-1724 | the legacy request: granted exactly from declared or taken, writes state and leader, or state and progress |
| Outcomes.TakeInternalOutcome | Mapapi/views/incident.py:1823-1862 | granted exactly on an untouched declared incident; writes leader, state, mode, stamp and flags, and the leader collaboration if there was none |
| Outcomes.LeadOutcome | Mapapi/views/incident.py:1889-1924 | granted exactly where nobody leads and the caller has no collaboration; who leads, which stamp and flags, and what happens to each collaboration |
| Outcomes.JoinOutcome | Mapapi/views/incident.py:1938-1968 | who may join as contributor or observer, the mode it sets and the collaboration it stores |
| Outcomes.PrepareOutcome | Mapapi/views/incident.py:2075-2092 | granted exactly when taken; stores who submitted and when |
| Outcomes.ReturnOutcome | Mapapi/views/incident.py:2120-2135 | granted exactly when prepared; back to taken |
| Outcomes.DeclareOutcome | Mapapi/views/incident.py:2164-2181 | granted exactly when taken or prepared; in validation with a deadline 72 h later |
| Outcomes.ValidateOutcome | Mapapi/views/incident.py:2287-2306 | granted exactly in validation; definitive at 100 %, active collaborations of the incident over, others untouched |
| Outcomes.RejectOutcome | Mapapi/views/incident.py:2338-2361 | granted exactly in validation with a reason; taken again, the reason stored |
| Outcomes.CloseOutcome | Mapapi/views/incident.py:2002-2038 | granted exactly to a leader with both dates and every task done or failed; start and end each in its own column |
| Outcomes.DisengageGranted | Mapapi/views/incident.py:2215-2226 | granted exactly to a leader of a taken incident |
| Outcomes.DisengageOutcome | Mapapi/views/incident.py:2227-2259 | the row freed, declared exactly when no other accepted contributor exists; each collaboration in both cases |
| Outcomes.DeleteOutcome | Mapapi/views/incident.py:319-333 | granted exactly to a Super Admin; dates the deletion, in bulk only when not deleted yet |
| Outcomes.RestoreOutcome | Mapapi/views/incident.py:2849-2858 | granted exactly in the trash; lifts the mark and keeps the date |
| Outcomes.ForceDeleteOutcome | Mapapi/views/incident.py:2793-2801 | granted exactly in the trash; erases the incident with what hangs on it, and keeps all else |
| Outcomes.PurgeOutcome | Mapapi/tasks.py:294-311 | erases exactly the incidents deleted for more than 30 days with what hangs on them, and keeps all else |
| Outcomes.ValidationSweepOutcome | Mapapi/tasks.py:166-188 | makes definitive exactly the incidents in validation past their deadline, ends exactly their active collaborations, and keeps all else |
| Outcomes.CreateOutcome | Mapapi/views/task.py:71-79 | which tasks can be created, and every column stored, unconfirmed |
| Outcomes.UpdateOutcome | Mapapi/serializer.py:887-916 | which edits are granted, judged on the merged values, and every column stored |
| Outcomes.CompleteOutcome | Mapapi/views/task.py:255-279 | granted exactly with a proof; done, proofs added |
| Outcomes.FailOutcome | Mapapi/views/task.py:317-335 | granted exactly with a reason; failed, the reason stored |
| Outcomes.RelaunchOutcome | Mapapi/views/task.py:364-381 | granted exactly when failed; to be done again |
| Outcomes.ConfirmOutcome | Mapapi/views/task.py:107-117 | confirmed, every other column as it was |
| Outcomes.RemoveOutcome | Mapapi/models.py:1286-1292 | removed, and nothing but the progress of its incident follows |
| Answers.AskOutcome | Mapapi/views/incident.py:2483-2534 | granted exactly when nothing waits for the incident; the assignment stored with 72 h to answer |
| Answers.DeclineOutcome | Mapapi/views/incident.py:2632-2662 | granted exactly to the organisation asked, once; stored refused with its date and reason, touching nothing else and making no organisation an agreed one |
| Answers.AcceptOutcome | Mapapi/views/incident.py:2565-2595 | granted exactly to the organisation asked, once; stored agreed, the organisation listed as agreed, and the incident engaged for the caller exactly when it was declared |
| Answers.TacitOutcome | Mapapi/tasks.py:326-356 | exactly the assignments past their deadline become agreed; each engages its incident, if declared, for the administrator of its organisation |
| Answers.AgreedBefore | Mapapi/tasks.py:326-338 | in every run an agreement was given by a member of that organisation, or by the sweep more than 72 h after the demand, and has stood since |
| Answers.ListedOnlyIfAgreed | Mapapi/services/incident_orgs.py:64-67 | in every run an organisation counts as assigned only if it agreed, in its own time or by silence |
| Decisions.DecideOutcome | Mapapi/views/collaboration.py:566-604 | granted exactly to a leader; an acceptance keeps role and end date and opens an internal incident, a refusal stores declined and touches nothing else |
| Decisions.AcceptOrDeclineOutcome | Mapapi/views/collaboration.py:631-766 | the endpoint that accepts refuses what is accepted or past its date; the one that declines stores declined |
| Decisions.DeclinedIsOut | Mapapi/permissions.py:178-208 | who was declined is no active collaborator, and may neither lead nor suggest unless in charge |
| Decisions.RequestGranted | Mapapi/views/collaboration.py:294-339 | who may ask for what, spelled out |
| Decisions.RequestOutcome | Mapapi/views/collaboration.py:294-339 | role, status and end date stored, and the mode set exactly on an automatic acceptance |
| Decisions.SuggestOutcome | Mapapi/serializer.py:979-1036 | who may suggest whom and in which role, and what is stored |
| Decisions.SuggestionAnswers | Mapapi/views/partner_suggestion.py:237-322 | adoption and dismissal are granted exactly to a leader or Super Admin on an open suggestion, and what each stores |
| Decisions.DiscussOutcome | Mapapi/views/message.py:428-489 | who is let into the discussion, and the collaboration it leaves |
| Decisions.AcceptedBefore | Mapapi/views/collaboration.py:294-766 | in every run an active collaboration was accepted by a leader, on a suggestion, automatically for an observer, by joining the discussion or by taking in charge, and has been active since |
| Invariants.InvKept | Mapapi/tasks.py:157-356 | every request and sweep keeps the global invariant |
| Invariants.OneWaitingKept | Mapapi/views/incident.py:2504-2519 | at most one assignment waits for an incident, with its deadline 72 h after it was asked |
| Invariants.CleanKept | Mapapi/serializer.py:887-916 | every task step keeps every task clean |
| Invariants.ProgressKept | Mapapi/models.py:1274-1292 | every step keeps the stored progress equal to the recount |
| Invariants.TaskStepShape | Mapapi/views/task.py:255-381 | a task step changes one task and, of incidents, only the progress of its own, to the new recount |
| Invariants.LinksKept | Mapapi/tasks.py:284-311 | foreign keys never dangle: what hangs on an erased incident goes with it |
| Invariants.SuggestionStep | Mapapi/views/partner_suggestion.py:166-322 | a step makes suggestions only on request, as offers of a minor role, and changes one only from offered to answered, never its role |
| IncidentRows.NextKeepsRowInv | Mapapi/views/incident.py:1687-2361 | every action keeps: declared means nobody, no stamp, not internal; internal means a leader; warned 90 means warned 75; a prepared resolution has its submission, a validation its deadline |
| IncidentRows.NextFollowsArrows | Mapapi/views/incident.py:1687-2361 | states move along the documented arrows only, and never out of the resolved pair |
| IncidentRows.Entrances | Mapapi/views/incident.py:2164-2306 | the only ways back to declared, into validation and into the definitive state |
| IncidentRows.FileWriters | Mapapi/views/incident.py:2075-2361 | each column of the resolution file has one writer |
| IncidentRows.EngagementFrame | Mapapi/views/incident.py:2075-2361 | no action but the sweep changes stamp, flags or warnings under a leader who keeps the incident, whatever its state |
| IncidentRows.AntiGelIdempotent | Mapapi/tasks.py:216-258 | one row through the sweep twice is as after once |
| IncidentRows.AntiGelSettles | Mapapi/tasks.py:216-258 | after the sweep a watched row is within its deadline and owed no 75 % warning |
| IncidentRows.DisengageUndoesTakeInternal | Mapapi/views/incident.py:1823-1845 | taking an untouched incident and stepping back alone leaves only the flags reset |
| IncidentRows.ModeOnlyClimbs | Mapapi/views/incident.py:1823-1954 | an action lowers the mode only by a withdrawal or an expired revert, and those leave none |
| Progress.RoundHalfEvenExactly | Mapapi/models.py:744-750 | the computed percentage is the one integer nearest to the quotient, ties to even |
| Progress.PercentageInRange | Mapapi/models.py:744-750 | the percentage is within 0..100 |
| Progress.PercentageMonotone | Mapapi/models.py:744-750 | one more finished task never lowers it |
| Progress.HundredMeansAllDone | Mapapi/models.py:744-750 | 100 means all tasks done if and only if there are fewer than 200 |
| Progress.ZeroMeansNoneDone | Mapapi/models.py:744-750 | 0 means no task done if and only if there are fewer than 200 |
| Database.Db.Save | Mapapi/models.py:698-712 | a closed incident is stored at 100 % |
| Database.Db.UpdateProgress | Mapapi/models.py:732-753 | the stored value becomes the recount of confirmed tasks, what that counts being Runs.ProgressCounted |
| Database.Db.SaveTask | Mapapi/models.py:1274-1284 | saving a task refreshes its incident |
| Database.Db.EngageIncident | Mapapi/views/incident.py:113-137 | engages a declared incident, stamp and flags included; does nothing otherwise |
| Database.Db.HandleIncident | Mapapi/views/incident.py:1687-1724 | the legacy request: takes without a stamp, or resolves |
| Database.Db.CreateCollaboration | Mapapi/signals.py:190-246 | a collaboration is created and survives only if there is a leader to tell |
| Database.Db.TakeInCharge | Mapapi/views/incident.py:1803-1968 | the whole take-in-charge request, every branch and refusal |
| Database.Db.TakeInternally | Mapapi/views/incident.py:1823-1862 | the internal mode |
| Database.Db.TakeTheLead | Mapapi/views/incident.py:1889-1924 | the collaborative leader |
| Database.Db.CloseIncident | Mapapi/views/incident.py:2002-2038 | closing by hand |
| Database.Db.PrepareResolution | Mapapi/views/incident.py:2075-2092 | the submission of a resolution |
| Database.Db.ReturnForCompletion | Mapapi/views/incident.py:2120-2135 | back to the field |
| Database.Db.DeclareResolved | Mapapi/views/incident.py:2164-2181 | the declaration and its 72 h deadline |
| Database.Db.TerminateActiveCollaborations | Mapapi/views/incident.py:140-151 | no collaboration is active on the incident any more; those that were are terminated, all others and all roles and dates are as before |
| Engagements.NoneActiveExactly | Mapapi/views/incident.py:140-151 | those four facts leave only one possible table |
| Database.Db.ValidateResolution | Mapapi/views/incident.py:2287-2306 | the explicit validation |
| Database.Db.RejectResolution | Mapapi/views/incident.py:2338-2361 | the rejection with its reason |
| Database.Db.Disengage | Mapapi/views/incident.py:2215-2259 | the withdrawal of a leader, with or without candidates |
| Database.Db.RequestCollaboration | Mapapi/views/collaboration.py:294-339 | a request to collaborate, its re-activation and its refusals |
| Database.Db.HandleCollaboration | Mapapi/views/collaboration.py:566-682 | the leader accepts or declines |
| Database.Db.AcceptCollaboration | Mapapi/views/collaboration.py:713-766 | acceptance by a leader, refused when already accepted or past its end date; opens an internal incident |
| Database.Db.AdoptSuggestion | Mapapi/views/partner_suggestion.py:237-273 | a leader or Super Admin turns an offered suggestion into an accepted collaboration and marks it adopted; unknown and answered ones are refused |
| Database.Db.SuggestPartner | Mapapi/serializer.py:979-1036 | who may suggest whom, in which role, checked on the incident named in the body and stored for that of the URL |
| Database.Db.DismissSuggestion | Mapapi/views/partner_suggestion.py:301-322 | a leader or Super Admin marks an offered suggestion dismissed |
| Database.Db.JoinDiscussion | Mapapi/views/message.py:428-489 | the collaboration a discussion creates or repairs for its caller |
| Database.Db.AssignToOrganisation | Mapapi/views/incident.py:2483-2534 | an existing organisation is asked for 72 h, unless one is being waited for |
| Database.Db.AcceptAssignment | Mapapi/views/incident.py:2565-2595 | an organisation accepts and engages |
| Database.Db.DeclineAssignment | Mapapi/views/incident.py:2632-2662 | an organisation declines with a reason |
| Database.Db.DeleteIncident | Mapapi/views/incident.py:319-333 | a Super Admin puts the incident in the trash, anybody else is refused |
| Database.Db.BulkDeleteIncidents | Mapapi/views/incident.py:2685-2717 | the loop equals single deletions in order; each of the three answer lists holds its part of the request in its order; an empty list is refused |
| Database.Db.RestoreIncident | Mapapi/views/incident.py:2849-2858 | out of the trash, keeping the date |
| Database.Db.BulkRestoreIncidents | Mapapi/views/incident.py:2739-2762 | the loop equals single restorations in order, the two answer lists share out the request, and an empty list is refused |
| Database.Db.ForceDelete | Mapapi/views/incident.py:2793-2801 | one turn erases an incident of the trash with all that hangs on it |
| Database.Db.BulkForceDeleteIncidents | Mapapi/views/incident.py:2785-2807 | the loop erases exactly the listed incidents of the trash, names each of them once as deleted and the rest as not found; an empty list is refused |
| Database.Db.ValidateTask | Mapapi/serializer.py:887-916 | accepts exactly the clean tasks of incidents that are not resolved |
| Database.Db.CreateTask | Mapapi/views/task.py:71-79 | a new, unconfirmed task and the refreshed progress |
| Database.Db.UpdateTask | Mapapi/views/task.py:201-216 | an edit of a task, judged on the merged values |
| Database.Db.CompleteTask | Mapapi/views/task.py:255-279 | done, with at least one proof |
| Database.Db.FailTask | Mapapi/views/task.py:317-335 | failed, with a reason |
| Database.Db.RelaunchTask | Mapapi/views/task.py:364-381 | a failed task back to be done, even on a closed incident |
| Database.Db.ConfirmTask | Mapapi/views/task.py:107-117 | a task starts to count |
| Database.Db.DeleteTask | Mapapi/models.py:1286-1292 | a task goes and the progress is refreshed |
| Database.Db.AutoValidateOverdueResolutions | Mapapi/tasks.py:157-188 | the loop equals the sweep and returns the number of overdue incidents |
| Database.Db.RevertStaleTakenIncidents | Mapapi/tasks.py:191-261 | the loop equals the sweep, keeps to the timetable in hours, and its three counters count reverts and warnings |
| Database.Db.NotifyLeader | Mapapi/tasks.py:264-281 | exactly one warning is appended for a leader, none without one, and no other column moves |
| Database.Db.PurgeExpiredTrash | Mapapi/tasks.py:284-311 | the loop erases exactly the expired incidents |
| Database.Db.AutoAcceptOverdueAssignments | Mapapi/tasks.py:314-356 | the loop over rows loaded beforehand; equal to the sweep when one assignment at most waits for an incident |
| Paging.WalkIsExact | Mapapi/views/incident.py:3013-3079 | following next_before to the end rebuilds the sorted listing with ties and concurrent arrivals, without gap or duplicate, in exactly max(1, ceil(n/size)) requests, where size is the limit brought between 1 and 100 |
| Paging.WalkEnds | Mapapi/views/message.py:505-555 | as long as more is announced, the requests so far have not covered the chat: no walk is endless |
| Paging.WalkGetsPages | Mapapi/views/message.py:505-555 | no request of a walk is refused, and no page exceeds the limit brought between 1 and 100 |
| Paging.ListingAscending | Mapapi/views/incident.py:3031-3040 | the listing is strictly sorted by (created_at, id) with the messages of the thread, no more, no less |
| Paging.TakePage | Mapapi/views/incident.py:3053-3079 | limit + 1 rows newest first, cut and turned round, are the end of the listing |
| Paging.ServeAnswers | Mapapi/views/message.py:520-555 | every request with a limit gets the answer owed to it: its size, order, contents, has_more, next_before and refusal, spelled out |
| Paging.GetChat | Mapapi/views/incident.py:3013-3079 | a malformed limit is refused; with a limit, refused if and only if the cursor is not in the thread, else the newest min(limit between 1 and 100, older ones) of the messages before the cursor, by date and identifier, has_more and next_before if and only if some remain; without, the whole listing |
| Paging.ListDiscussion | Mapapi/views/message.py:505-555 | the same pages and refusals, but the plain form is whatever arrangement by date the database returned |
| Paging.DiscussionWalk | Mapapi/views/message.py:498-518 | the walk gives one of the lists by date, and equals every one of them if and only if no two messages share their date |
| Paging.DatesDecide | Mapapi/views/message.py:501-503 | there is a single arrangement by date if and only if no two messages share theirs |
| ActingOrganisations.ListActingOrganisations | Mapapi/services/incident_orgs.py:43-74 | exactly the organisations with an active relation, each once, with the strongest one, by rank |
| ActingOrganisations.Found.Add | Mapapi/services/incident_orgs.py:52-57 | appends a new organisation, strengthens a known one in place, or does nothing |
| ActingOrganisations.OrderOfRowsIsIrrelevant | Mapapi/services/incident_orgs.py:43-74 | the entries do not depend on the order in which rows are fetched |
| ActingOrganisations.QueryAgreesWithList | Mapapi/services/incident_orgs.py:14-27 | the query selects the incident if and only if the list shows the user's organisation or the user is an assigned agent; without an organisation, if and only if the user took it or is an agent |
| Listings.ListedInStore | Mapapi/services/incident_orgs.py:43-74 | read from any database, the list shows an organisation if and only if its member leads, it agreed to an assignment, or a member has an accepted collaboration, with the strongest of the three |
| Listings.ListAfterRevert | Mapapi/tasks.py:229-239 | after an anti-freeze revert in any run, an organisation is listed if and only if it had agreed to an assignment or had an accepted collaboration, and never as leader |
| Listings.ListAfterWithdrawal | Mapapi/views/incident.py:2244-2254 | after a withdrawal that leaves nobody, only the organisations that agreed to an assignment are listed |
| Impact.Dashboard | Mapapi/views/impact.py:163-216 | every figure of the one-pass loop is the sum of the records of the completed predictions in scope |
| Impact.AddInfra | Mapapi/views/impact.py:187-189 | the inner loop adds every type of infrastructure once, direct and indirect |
| Impact.DashboardIsSumOfListing | Mapapi/views/impact.py:297-328 | the totals equal the sum of the per-incident records of the same incidents |
| Impact.AllIsResolvedPlusTaken | Mapapi/views/impact.py:93-118 | for any organisation, every figure and the number of incidents of all is resolved plus taken_action |
| Impact.PlatformIsSumOfOrganisations | Mapapi/views/impact.py:93-118 | every platform figure is the sum over organisations plus the incidents whose leader has none |
| Impact.ScopeDistinct | Mapapi/views/impact.py:93-118 | the scope holds exactly the incidents that satisfy base and filter, each once |
| Impact.ScopeMeans | Mapapi/views/impact.py:93-118 | what each filter keeps, spelled out: never the trash, and an open incident only with a leader and a task done |
| Impact.ShownMeans | Mapapi/views/impact.py:297-328 | what is shown of an incident, spelled out: nothing before its prediction is complete, then each figure, 0 where missing |
| Membership.AnAdminRemains | Mapapi/views/organisation.py:852-921 | after any sequence of edits and removals by actors who are not Super Admin, an organisation that had an active administrator has one |
| Membership.LockedOutExactly | Mapapi/views/organisation.py:852-921 | a request takes the last active administrator if and only if a Super Admin removes or demotes the only one |
| Membership.RefusedExactly | Mapapi/views/organisation.py:33-42 | the lock-out refusal comes if and only if an administrator would remove or demote the only active one |
| Membership.WhoMayChange | Mapapi/views/organisation.py:783-824 | who may change which member: Super Admin, administrators of the same organisation, and bureau agents for field agents whose role they leave alone |
| Membership.PatchOutcome | Mapapi/views/organisation.py:794-878 | which edits are granted, spelled out, and every column stored: contacts and role of the request where given, the rest as it was |
| Membership.DeleteOutcome | Mapapi/views/organisation.py:880-921 | which removals are granted, spelled out, and that exactly the target goes |
| Membership.PhoneClashExactly | Mapapi/views/organisation.py:842-872 | two field agents come to share a telephone if and only if a member who already has the telephone of a field agent is made one without a telephone being given |
| Membership.EmailsStayDistinct | Mapapi/views/organisation.py:826-833 | no sequence of edits and removals, by anybody, gives two users the same e-mail |
| Membership.OthersKept | Mapapi/views/organisation.py:794-921 | only the target changes, only in its role and contacts, and a refusal changes nothing |
| Membership.Members.HandlePatch | Mapapi/views/organisation.py:794-878 | the edit of a member, every refusal in order |
| Membership.Members.HandleDelete | Mapapi/views/organisation.py:880-921 | the removal of a member, every refusal in order |

## Left out

- Generic writes that bypass the lifecycle (incident PUT, PATCH and POST with any `etat` or `taken_by`), the Django admin and the deletion of users: the invariants are about the lifecycle endpoints and the sweeps only.
- Direct PATCH and DELETE of a collaboration, and the bulk collaboration requests: they repeat or bypass the guarded requests.
- Permission classes beyond the leader checks that decide a step and the Super Admin checks made inside deletions; authentication, tokens, PINs.
- Reports by telephone, and the other columns of a report.
- HTTP, serialisation, mail, WebSocket, Celery delivery, storage, thumbnails, telephony and AI calls.
- Notifications other than the two deadline warnings, the user action log, unread counters.
- Concurrency inside a request or a sweep: each is one step, as the code takes no locks.
- Failures of the database and exceptions swallowed by the sweeps.
- Identifiers are fresh numbers; a create with an identifier in use is answered as a bad request. A suggestion is named by its incident and partner, which are unique together.
- Changes of severity after the report, which only the generic writes make.
- Proof files are flags (present or not); reasons are strings already stripped.
- Floating point in `done * 100 / total` and in the impact area: exact quotients, squared radii without the factor pi and the conversion to hectares. Figures of the model's answer that are not whole numbers are not covered.
- Impact sections shown to the platform only (resolution delays and rates, mobilisation, citizens) and the parsing of the period: the period is a fact about each incident.
- Names and the agent code of members.
- The creation of members and the deletion of users elsewhere, which have no lock-out rule.
- The set of messages a caller may read in a discussion: the thread is given. Deleting messages during a walk is not covered.
- SQL UPDATE statements over several rows are one assignment; signals they do not fire are not fired.
- Database.Db.AutoAcceptOverdueAssignments: requires foreign keys that point at existing incidents, which the database enforces and `Invariants.LinksKept` proves of every run.
- Database.Db.AcceptAssignment: requires the same of its own assignment.
- Timers.NoSurpriseRevert: supposes an engagement that stamps a leader; `Timers.WhoStamps` says exactly which ones do. A tacit acceptance without an administrator has nobody to warn.
- Who suggested a partner and why, and the choice of a user for a suggested organisation: the partner is a user.
- Paging.WalkIsExact: supposes that messages arriving meanwhile are newer than the cursor, as in the promise it states.
