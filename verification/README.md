# Regiment platform: a verified model of its protocols

The backend keeps a regiment's roster, calendar and enlistments in a database and mirrors
parts of them into a Discord guild. What can go wrong there is rarely one function: it is a
job retried after half of it landed, two sweeps racing on one row, a reading that was true
when it was taken. This project models those protocols as state machines and classes, and
proves what every run of them keeps.

`dafny verify dfyconfig.toml` checks the whole project.

## How to read it

- **Roles** — `Roster` (what a member should be wearing, and the five admin actions that
  change it), `RoleModes` (the four role-writing jobs against a guild that fails or does
  not answer), `RoleConvergence` (both as one concurrent protocol, one role write at a
  time), `RoleAdoption` (learning a rank from the guild), `Hierarchy` (who may act on whom) and
  `CommandChain` (what a sequence of such acts can do).
- **The outbox** — `Outbox` (the table, the drain's choice, bounded waiting, termination),
  `OutboxWorker` (the worker's loops proved against it), `OutboxLife` (one row through
  crashes), `RelinkFanOut` (the self-re-enqueuing cursor).
- **The announcement** — `Announcement` (coalesced refresh, close, the two RSVP writers).
- **The calendar** — `Gregorian`, `Recurrence`, `RecurrenceRuns`, `EventTime`, `Reanchor`,
  `Reminders`, `ReminderRuns`, `EventStatus`.
- **Verdicts and ledgers** — `GuildBreaker`, `GuildVerdict`, `HandleLedger`, `RankLadder`,
  `Applications`, `AuditCsv`. `Wrappers` holds the option type.

Where the source changes state step by step the model is a class whose methods are proved
against specification functions; theorems about whole runs are lemmas over those functions.
Gateway calls, failed saves and unanswered reads are nondeterministic choices. A query is
its stated set, and a save or a transaction is one step, except where a property is about
what happens in between.

## Where the code differs from its prose

These are results: the code is modelled as it is, and each has its exact condition or a
concrete run.

- Enqueues follow the domain save and are outside its transaction. A process that dies in
  between leaves a role no job will push (`RoleConvergence.LostEnqueueStrands`).
- The save that records a failed attempt is not guarded. When it fails too, the row stays
  `processing` with its work undone until a restart, the tick is dropped, and nothing is
  queued or on record as failed: a role is missing (`RoleConvergence.FailedSaveStrands`), an
  answer is not shown (`Announcement.AbandonedRefreshIsNotShown`). Short of a terminal failure
  on record, and of the stale saves below, these two are the only ways a pair can be left behind
  (`RoleConvergence.OnlyLostWorkCanStrand`). Both heal with the next action or answer that names
  the same thing, whatever stays on record (`RoleConvergence.ActRepairs`,
  `Announcement.NextAnswerHeals`). Ticks cut short do not count towards the waiting bound, and
  what a restart re-queues is charged to it (`Outbox.BoundedWaiting`).
- A request loads a member's row, and saves it whole some time later; the roles it puts in
  scope are those of the row it loaded. A rank another request gave in between is overwritten,
  and its role is in nobody's scope: it stays on with nothing queued, failed or lost
  (`RoleConvergence.StaleSaveStrands`). A profile edit does the same. The convergence theorems
  hold of the runs in which no save does that, and the condition on one save is exact
  (`Roster.StaleSaveIsCoveredExactlyWhen`, `RoleConvergence.StaleSaveKeepsOrderExactlyWhen`).
- The announce job composes its embed when it is queued, and a refresh requested before the
  message exists is dropped. An answer given in that gap is not shown until somebody answers
  again (`Announcement.DeliveryStartsInOrderExactlyWhen`,
  `Announcement.StaleDeliveryStaysStale`).
- Unlinking a role carries no incoming role id, which the worker takes for a legacy row, so
  its additive pass runs as well and can hand a holder unrelated roles
  (`RelinkFanOut.UnlinkTouchesOtherRolesExactlyWhen`).
- A cascade whose rows move in different directions can pass the pre-flight and still be
  refused by the unique index half-way (`Reanchor.MixedSignsCanBlock`, a template with two
  occurrences in zones of their own); the request succeeds exactly when no row lands on a slot
  that one written after it still holds (`Reanchor.EventsService.ReanchorEvent`).
- The re-anchor guard looks at the named row's start only. It stops a second run exactly when
  the first one moved that start (`Reanchor.SecondRunIsRefusedExactlyWhen`); an event that
  starts at offset zero and ends after the clocks went forward loses an hour off its end on
  the first run and another on the second (`Reanchor.UnmovedStartLetsTheEndSlip`).
- Nothing caps a rank's precedence, so the reorder's shift by 1000 can collide
  (`RankLadder.FarRankCanCollide`); both phases have their exact condition.
- An edit reads `sentAt` and writes it back later. A sweep that claims a kept lead time in
  between is overwritten, and the reminder goes out twice
  (`ReminderRuns.AnOvertakenEditSendsTwice`); the guarantee holds exactly where that does not
  happen (`ReminderRuns.WriteIsSafeExactlyWhen`, `ReminderRuns.OvertakenMeansTwice`).
- A claim and its enqueue, and an occurrence's commit and its announcement, are two steps. What
  falls between them is gone for good: a row stamped as sent whose reminder nobody gets
  (`ReminderRuns.ADeathInBetweenIsNeverSent`), an occurrence no later sweep announces
  (`RecurrenceRuns.ADeathInBetweenIsSilentForGood`); and nothing else is
  (`ReminderRuns.EveryClaimIsSentExactlyWhen`, `RecurrenceRuns.EveryRowIsAnnouncedExactlyWhen`).
- A wall clock is read by guessing one offset, today's or the anchor's, and correcting it once.
  Within a day of an offset change a guess that is in force on neither side of it can make the
  reading late by the change (`EventTime.AForeignOffsetCanMislead`); for a clock the
  zone has, that is the only way local time is not kept
  (`Recurrence.OccurrenceShowsItsClockExactlyWhen`) and the re-anchor repair differs from a
  fresh create (`EventTime.ReanchorIsWhatCreateWouldStore`).
- Dropping a reminder lead time and adding it back in a second edit forgets that it was sent
  (`ReminderRuns.DroppingForgets`).
- Nothing in the tables arbitrates between two overlapping decisions on one application, or
  between a submission and a block (`Applications.DecisionIsFinalExactlyWhen`,
  `Applications.SubmissionIsTidyExactlyWhen`, `Applications.ABlockCanBeOutrun`).
- A job skipped because its switch is off ends as succeeded, so the convergence theorems are
  about runs in which the switches stay on.

## Model

| member | source | states |
|---|---|---|
| Roster.DesiredInFull | src/discord/discord-sync.worker.ts:705-737 | role by role, which roles a member should wear: the rank's link, the links of medals held, and the membership role in the four enrolled seats — Owner, Admin, Moderator, Member — and not for a Mercenary or an Applicant; no answer at all for a missing or banned member |
| Roster.ManagedInFull | src/discord/discord-sync.worker.ts:913-926 | a role is managed exactly when some rank, some medal or the membership setting is linked to it |
| Roster.DesiredIsManaged | src/discord/discord-sync.worker.ts:913-926 | every role the roster can ask for is one the bot manages, so the strip's exclusions are complete |
| Roster.ScopeBoundsChange | src/members/members.service.ts:391-435 | no accepted admin action can change the answer for a role outside the scope it enqueues; a derive may add medal roles but never lose one |
| Roster.FreshSaveIsCovered | src/members/members.service.ts:404-434 | a row saved as it was loaded never moves the answer for a role outside the scope |
| Roster.AwardsAreCovered | src/members/members.service.ts:404-594 | nor does a stale save of the row, for roles that medals give |
| Roster.StaleSaveIsCoveredExactlyWhen | src/members/members.service.ts:404-434 | a save over a row another request changed moves no unnamed answer exactly when the rank role it overwrites is in its scope or still given by the membership role, and the seat it overwrites stands alike or is named |
| Roster.WithoutLatestRemovesOne | src/members/members.service.ts:557-594 | removing a medal removes exactly one award of it |
| Roster.WithoutLatestKeepsOthers | src/members/members.service.ts:557-594 | and no award of another medal |
| Roster.DeriveIsIdempotent | src/members/members.service.ts:636-771 | a second derive has no medal left to credit |
| Roster.MembersService.EnqueueScopedRoleSync | src/discord/discord-sync.service.ts:192-208 | queues one job naming exactly the non-empty roles given, or none when there are none |
| Roster.MembersService.EnqueueRoleGrant | src/discord/discord-sync.service.ts:166-175 | queues one additive job for the member |
| Roster.MembersService.ChangeMemberRank | src/members/members.service.ts:391-435 | the row moves and the outbox grows exactly by the action's own jobs, or neither does |
| Roster.MembersService.ChangeMemberRole | src/members/members.service.ts:448-509 | forbidden exactly for an Owner grant, a target not strictly below the caller, oneself, the owner, or a grant above the caller; otherwise the row moves and its job is queued, and a no-op writes nothing |
| Roster.MembersService.AwardMemberMedal | src/members/members.service.ts:512-551 | the same for an award |
| Roster.MembersService.RemoveMemberMedal | src/members/members.service.ts:557-594 | the same for a removal; the latest award goes |
| Roster.MembersService.DeriveFromDiscord | src/members/members.service.ts:636-771 | the same for a derive; only medals the roster lacks are credited, and nothing to derive writes nothing |
| RoleModes.RoleWorker.DesiredRoleIds | src/discord/discord-sync.worker.ts:705-737 | the loop computes the roster's answer, or "touch nothing" for a missing or banned member; for each of the six seats by name, whether it takes in the membership role |
| RoleModes.RoleWorker.ManagedRoleIds | src/discord/discord-sync.worker.ts:913-926 | the loop collects every linked rank, medal and membership role |
| RoleModes.RoleWorker.ReconcileScoped | src/discord/discord-sync.worker.ts:760-785 | finished, the member's roles inside the scope are scope ∩ desired and all others untouched; abandoned, each role is as it was or as aimed |
| RoleModes.RoleWorker.GrantRoles | src/discord/discord-sync.worker.ts:799-814 | finished: current ∪ desired; it can remove nothing |
| RoleModes.RoleWorker.ReconcileRoles | src/discord/discord-sync.worker.ts:838-867 | finished: (current − (managed − desired)) ∪ desired when the member was readable, current ∪ desired when not |
| RoleModes.RoleWorker.ApplyBanRole | src/discord/discord-sync.worker.ts:890-906 | finished and readable, the member wears no managed role but the ban role, which is on, and every unmanaged role as before; unreadable, only the ban role is added |
| RoleModes.RoleWorker.ApplyRelink | src/discord/discord-sync.worker.ts:345-367 | with an incoming role, exactly the two ends converge; without one, the outgoing role goes and everything desired is added |
| RoleModes.MovedRoleByRole | src/discord/discord-sync.worker.ts:770-785 | what the role-writing contracts share, role by role: nobody else's roles change, a role is lost or gained only as the mode aims, and a finished job has done all of it |
| RoleModes.LossIsLicensed | src/discord/discord-sync.worker.ts:760-906 | over any run of jobs, finished or abandoned, a lost role was taken by a job licensed to: scoped to it, an explicit remove, or a readable resync or ban |
| RoleModes.LicensedExactlyWhenTaken | src/discord/discord-sync.worker.ts:760-906 | the licence is exact: a job holds it for just the roles its target leaves out whatever the member wears |
| RoleModes.TargetsAreFixedPoints | src/discord/discord-sync.worker.ts:35-56 | re-running a finished role job changes nothing |
| RoleModes.RetryReachesTheSameTarget | src/discord/discord-sync.worker.ts:928-970 | a retry after any partial run aims where the first run aimed |
| RoleConvergence.VisitsReachTarget | src/discord/discord-sync.worker.ts:770-785 | writing one role at a time in any order, skipping what the reading showed, ends at the mode's target |
| RoleConvergence.ModesAreOneLoop | src/discord/discord-sync.worker.ts:760-867 | scoped, grant and resync are one loop that differs in what it visits |
| RoleConvergence.WritesReachTheTarget | src/discord/discord-sync.worker.ts:760-867 | in the protocol too: a job that reads, whose reading is still true, and that finishes its writes leaves the member exactly at its mode's target, and nobody else touched |
| RoleConvergence.BareJobIsDone | src/discord/discord-sync.worker.ts:311-320 | the applicant role's job writes that role, one way or the other, and nothing else |
| RoleConvergence.ActKeepsOrder | src/members/members.service.ts:404-434 | an action whose save, however stale, overwrites nothing unnamed leaves each pair agreeing or answered for by a job it is about to enqueue |
| RoleConvergence.ResaveKeepsOrder | src/members/members.service.ts:319-354 | a save of a loaded row by any other request, which owes no job, keeps the pairs whose row roles it leaves as they are |
| RoleConvergence.WorkKeepsOrder | src/discord/discord-sync.worker.ts:235-263 | no read or write of the worker, however stale, breaks a pair |
| RoleConvergence.RequeueKeepsOrder | src/discord/discord-sync.worker.ts:928-1011 | neither a failed attempt, recorded or not, nor a restart whose reaper gets only part-way breaks a pair |
| RoleConvergence.ClaimKeepsOrder | src/discord/discord-sync.worker.ts:235-240 | claiming a job keeps every pair in order, its work now held by the worker |
| RoleConvergence.QueueKeepsOrder | src/discord/discord-sync.service.ts:192-235 | enqueueing, losing an enqueue and operator requests keep every pair in order |
| RoleConvergence.OrderIsKept | src/discord/discord-sync.worker.ts:705-785 | the per-pair invariant holds through every interleaving of stale saves that overwrite nothing unnamed, enqueues, claims, reads, single role writes, failures, failed saves of failures and crashes |
| RoleConvergence.StaleSaveKeepsOrderExactlyWhen | src/members/members.service.ts:404-434 | from a settled pair an admin action over a stale row keeps the invariant exactly when the role is in its scope or wanted as before |
| RoleConvergence.FreshSavesAreCareful | src/members/members.service.ts:404-434 | a save of the row as it stands overwrites nothing unnamed, whatever it changes |
| RoleConvergence.RunsWithoutSavesAreCareful | src/discord/discord-sync.worker.ts:705-785 | and a run that saves no row of the member overwrites nothing of theirs |
| RoleConvergence.OrderIsKeptAfresh | src/discord/discord-sync.worker.ts:928-1011 | a pair in order on the strength of new work alone stays so: no failure already on record ever has to answer for it, even when a reaper re-queues some of the old rows |
| RoleConvergence.Convergence | src/discord/discord-sync.worker.ts:705-785 | whatever was queued or on record at the start, a pair that agreed then agrees whenever the run is at rest with nothing new failed, lost or abandoned; while it does not, work of the run has the role in its scope |
| RoleConvergence.ActRepairs | src/discord/discord-sync.service.ts:192-208 | whatever the drift, and whatever failed, was lost or was abandoned before, one action naming the role repairs it by the next rest without a new failure |
| RoleConvergence.OnlyLostWorkCanStrand | src/members/members.service.ts:404-434 | at rest with nothing queued and no new failure recorded, a pair that comes to disagree is named by an enqueue thrown away during the run or by a failed attempt whose own save failed during it |
| RoleConvergence.LostEnqueueStrands | src/members/members.service.ts:404-434 | a concrete run in which the process dies between save and enqueue and the role is stranded |
| RoleConvergence.FailedSaveStrands | src/discord/discord-sync.worker.ts:928-940 | a concrete run in which an attempt fails, its save fails, and the role is stranded with an empty queue |
| RoleConvergence.PromotingAgainRepairs | src/members/members.service.ts:391-435 | from either of the two stranded states a second promotion to the same rank puts the role right by the next rest without a new failure |
| RoleConvergence.TheRepairComesToRest | src/discord/discord-sync.worker.ts:760-785 | and a run of one enqueue and one drain gets there |
| RoleConvergence.StaleSaveStrands | src/members/members.service.ts:404-434 | a concrete run in which a promotion is saved and drained, an older load is saved over it, and the role stays on with nothing outstanding, queued, failed, lost or abandoned |
| RoleConvergence.ReaperFindsTheUndone | src/discord/discord-sync.worker.ts:979-1011 | a restart whose reaper gets through re-queues every such row |
| RoleConvergence.JobsAreConserved | src/discord/discord-sync.worker.ts:235-263 | no step loses sight of a job or counts one twice: an action or a request brings its own in, a job done and saved or whose member is gone leaves, and every other step, failures and restarts included, only moves them |
| RoleConvergence.EveryJobIsAccountedFor | src/discord/discord-sync.worker.ts:928-1011 | so over any run every job there was or that was asked for has ended, or is still waiting, held, done but unrecorded, or on record as failed, abandoned or lost |
| RoleAdoption.EligibleInFull | src/discord/discord-role-adoption.service.ts:193-207 | a rank is eligible exactly when its non-empty linked role is worn, it is unprotected, and it stands strictly above the floor if there is one |
| RoleAdoption.HighestHeldRank | src/discord/discord-role-adoption.service.ts:193-207 | the first top-precedence rank among those worn, unprotected and strictly above the floor; none exactly when there is none |
| RoleAdoption.ReadGuildState | src/discord/discord-role-adoption.service.ts:141-176 | exactly when each of the four failures is reported, with any of the settings, the gateway and the catalogues throwing, and that a successful reading is exact in ranks and medals |
| RoleAdoption.SecondDeriveFindsNothing | src/members/members.service.ts:636-771 | with the adopted rank as the new floor nothing is eligible and no medal is missing: deriving is promotion-only and idempotent |
| Hierarchy.TheLadder | src/members/member-hierarchy.ts:142-184 | seat by seat, who is strictly below whom, and that one may grant one's own seat and those |
| Hierarchy.PermittedActions | src/members/member-hierarchy.ts:309-318 | every action has a flag, true exactly when the capability is held and the hierarchy allows it |
| CommandChain.AttemptTakesEffectExactlyWhen | src/members/member-hierarchy.ts:259-272 | what one appointment or sanction does: exactly who may on whom, exactly what it changes, and nobody else |
| CommandChain.NoChainClimbs | src/members/member-hierarchy.ts:161-184 | whatever members at or below a tier attempt, through any chain of appointments, seats at or above it are untouched and nobody passes it |
| CommandChain.AdminsAreKept | src/members/members.service.ts:448-509 | without the owner acting no admin is lost and no owner appears |
| CommandChain.TheOwnerIsUntouchable | src/members/member-hierarchy.ts:259-272 | the owner-pointer's seat survives every run of attempts by anybody |
| Outbox.KindsByName | src/discord/discord-sync.worker.ts:35-56 | the nineteen kinds by name: which two are the fan-out's, and which ten may be run again |
| Outbox.PickIsFair | src/discord/discord-sync.worker.ts:194-226 | row by row: a tick picks due rows only, in queue order with the fan-out last, at most twelve of the fan-out and twenty in all; it leaves a due fan-out row out only for twelve before it, and any other only when all twenty slots are taken and every non-fan-out row picked is before it |
| Outbox.ALightTickTakesAll | src/discord/discord-sync.worker.ts:194-226 | so with at most twelve due fan-out rows and eight other due rows the picked rows are exactly the due ones |
| Outbox.ALightTickDrainsAll | src/discord/discord-sync.worker.ts:219-226 | and a tick that runs to its end has dispatched every one of them and touched no other row |
| Outbox.TickRowByRow | src/discord/discord-sync.worker.ts:219-263 | what a tick does to each row that was there: due rows only are touched, and run to its end it leaves a due row as it was only fairly |
| Outbox.TickSpends | src/discord/discord-sync.worker.ts:82-91 | a tick that runs to its end and passes over a due job spends, of its own half of the queue and ahead of it, at least twelve attempts if it is a fan-out job and at least eight if it is not |
| Outbox.CutTickSpends | src/discord/discord-sync.worker.ts:214-226 | a tick a failing save cuts short gives none of those attempts back |
| Outbox.BoundedWaiting | src/discord/discord-sync.worker.ts:194-226 | for both halves: while a due job is kept waiting, the ticks that run to their end number at most a twelfth (fan-out jobs) or an eighth (all others) of the attempts left to the jobs of its half ahead of it and of those restarts give back there, however deep the other half and however many ticks are cut short in between |
| Outbox.DispatchedWithin | src/discord/discord-sync.worker.ts:194-226 | a run with floor(M/12)+1, or floor(M/8)+1, ticks that run to their end, M being those attempts, has dispatched it |
| Outbox.RestartGivesBack | src/discord/discord-sync.worker.ts:979-1011 | between ticks the attempts ahead grow by no more than what a restart's reaper re-queues there |
| Outbox.OneLifeGivesNothingBack | src/discord/discord-sync.worker.ts:979-1011 | without a restart that is nothing |
| Outbox.WaitsAtMost | src/discord/discord-sync.worker.ts:82-94 | so without a restart, with n jobs of its half of at most five attempts waiting ahead of it, a due job is passed over by at most 5n/12, or 5n/8, complete ticks |
| Outbox.BeyondLast | src/discord/discord-sync.service.ts:772-785 | the page after a page's last id is exactly what is left of the holders |
| Outbox.SpawnsAreReserved | src/discord/discord-sync.service.ts:681-732 | whatever a dispatch inserts was already paid for by the row it settles, with one to spare, even when an expansion fails half-way |
| Outbox.ExpansionSpawns | src/discord/discord-sync.service.ts:681-732 | the rows an expansion may insert, one by one: five-attempt applies of its own batch for holders past its cursor, and one cursor after a full page of fifty |
| Outbox.FinitelyManyDispatches | src/discord/discord-sync.worker.ts:928-970 | from any finite outbox with no outside enqueue, even an always-failing gateway gets finitely many dispatches, bounded by a computed measure; re-links of different ranks and medals may run side by side |
| Outbox.BackoffGrows | src/discord/discord-sync.worker.ts:94-94 | the first five retries wait ever longer, from five seconds to half an hour, and all later ones alike |
| OutboxLife.UnsentIsKept | src/discord/discord-sync.worker.ts:235-263 | while a message job is pending or claimed nothing has gone out, in every run |
| OutboxLife.DeliveredAtMostOnce | src/discord/discord-sync.worker.ts:979-1011 | the nine one-shot kinds, by name — announce, reminder, thread ping, the three submission posts, audit mirror, decision DM, welcome — deliver at most once in every run across retries, failed bookkeeping and process deaths |
| OutboxLife.DispatchesAreBounded | src/discord/discord-sync.worker.ts:928-970 | without a restart no job is dispatched more often than its attempt limit |
| OutboxLife.RestartRequeuesIdempotentWork | src/discord/discord-sync.worker.ts:979-1011 | a process death alone never ends a job of the other ten kinds, by name |
| OutboxLife.ADeadJobIsRerunExactlyWhenIdempotent | src/discord/discord-sync.worker.ts:979-1011 | a process that dies on a call, landed or not, leaves a row that waits again after the restart exactly when its kind is idempotent, and any other failed |
| OutboxLife.AnIdempotentJobCanDeliverTwice | src/discord/discord-sync.worker.ts:35-56 | so at-most-once is false of those: a concrete run that delivers a role job twice |
| OutboxLife.CleanLife | src/discord/discord-sync.worker.ts:235-263 | one dispatch that lands and is recorded ends the job, of any kind |
| OutboxLife.RefusedLife | src/discord/discord-sync.worker.ts:928-970 | one refused dispatch, recorded, puts it back for later while attempts remain and the refusal is not for good, and fails it otherwise |
| OutboxWorker.DiscordSyncWorker.InsertJob | src/discord/discord-sync.service.ts:888-897 | appends one fresh pending row |
| OutboxWorker.DiscordSyncWorker.ExpandRelinkPage | src/discord/discord-sync.service.ts:681-732 | inserts one apply per holder of the page and the next cursor after a full one, or a prefix of that when it throws |
| OutboxWorker.DiscordSyncWorker.Dispatch | src/discord/discord-sync.worker.ts:308-475 | a dispatch inserts only what its kind may spawn |
| OutboxWorker.DiscordSyncWorker.HandleFailure | src/discord/discord-sync.worker.ts:928-970 | re-queues with backoff while attempts remain and the error is not permanent, otherwise fails the row |
| OutboxWorker.DiscordSyncWorker.ProcessJob | src/discord/discord-sync.worker.ts:235-263 | one claimed row settles or stays `processing`, and only what it spawned is appended; when it throws, the row may also be as it was |
| OutboxWorker.DiscordSyncWorker.DrainRows | src/discord/discord-sync.worker.ts:219-226 | the rows before the one that throws are processed, that one at most touched, the rest untouched |
| OutboxWorker.DiscordSyncWorker.Drain | src/discord/discord-sync.worker.ts:194-233 | a tick processes a prefix of the picked rows, at most twenty, all of them unless a save or a query throws, and lowers the termination measure by as many; a re-entrant call does nothing |
| OutboxWorker.DiscordSyncWorker.ReapOrphanedJobs | src/discord/discord-sync.worker.ts:979-1011 | up to the row whose save throws, each of the nine one-shot kinds by name ends failed and the ten others are pending again, due at once; everything else is untouched |
| OutboxWorker.PickedOnce | src/discord/discord-sync.worker.ts:194-226 | no row is picked twice in one tick |
| RelinkFanOut.LinkedHoldersAreExact | src/discord/discord-sync.service.ts:740-769 | the holder query is exactly the linked current holders other than the excluded actor, in id order |
| RelinkFanOut.CleanFanOutIsExact | src/discord/discord-sync.service.ts:646-732 | in every run in which no expansion of the batch fails, among any other jobs and batches, when its last cursor is done there are floor(n/50)+1 cursor jobs and exactly one apply job per holder, in id order |
| RelinkFanOut.AFanOutCanFinish | src/discord/discord-sync.service.ts:681-732 | from every live cursor there is such a run to the end: no walk is stuck |
| RelinkFanOut.ARequestSeedsItsBatch | src/discord/discord-sync.service.ts:646-679 | a request's cursor, in an outbox that knows nothing of its batch, is such a start |
| RelinkFanOut.WalkStep | src/discord/discord-sync.service.ts:681-732 | a dispatch in a walk, failed or not, keeps every holder queued or still ahead of the one live cursor |
| RelinkFanOut.SeededFanOutIsComplete | src/discord/discord-sync.service.ts:646-732 | in particular for every re-link from its seed, among whatever else is queued |
| RelinkFanOut.RetriedFanOutIsComplete | src/discord/discord-sync.service.ts:681-732 | however often pages were half-inserted and re-expanded, once every cursor succeeded the members with an apply job are exactly the holders |
| RelinkFanOut.DrainOrderDoesNotMatter | src/discord/discord-sync.worker.ts:345-367 | draining the applies in any order with any repeats ends in one and the same guild |
| RelinkFanOut.RelinkConvergesItsTwoRoles | src/discord/discord-sync.worker.ts:345-367 | afterwards each unbanned holder agrees with the roster on both ends of the mapping and no other role of anybody moved |
| RelinkFanOut.UnlinkTouchesOtherRolesExactlyWhen | src/discord/discord-sync.worker.ts:358-367 | an unlink leaves other roles alone exactly when the holder already wears everything else the roster wants |
| RelinkFanOut.UnlinkGrantsAnUnrelatedRole | src/discord/discord-sync.worker.ts:358-367 | a concrete holder handed a rank role by a medal's unlink |
| Announcement.RenderOne | src/discord/event-announcement.service.ts:113-120 | what an embed says of one person, for each answer and none: on the list of that answer, under their mention when their identity is linked and their name when not |
| Announcement.RenderJoins | src/discord/event-announcement.service.ts:113-120 | and of many: the parts' lists one after the other, which with `RenderOne` is the whole embed |
| Announcement.RosterFor | src/discord/event-announcement.service.ts:100-122 | the three lists are the stored answers in roster order; a neutral answer is in none |
| Announcement.OrderStep | src/discord/discord-sync.worker.ts:527-540 | every protocol step, failed saves of failed edits and part-way reapers included, keeps "a stale open message, or a stale reading of it, is owed a refresh or is on record as abandoned since", for any record of earlier failures |
| Announcement.NoUpdateIsLost | src/discord/discord-sync.service.ts:313-341 | under every interleaving, retry and crash; at rest with nothing newly failed, lost or abandoned half-way the message shows the stored roster |
| Announcement.NextAnswerHeals | src/discord/discord-sync.service.ts:313-341 | whatever an open message shows and whatever failed before, after the next answer it shows the stored roster at the first rest without a new failure |
| Announcement.TheNextAnswerIsShown | src/discord/discord-sync.worker.ts:527-540 | and one refresh gets there from every idle open message |
| Announcement.AbandonedRefreshIsNotShown | src/discord/discord-sync.worker.ts:928-940 | a concrete run in which a refresh fails, its save fails, and an answer is missing with an empty queue |
| Announcement.ClosedStaysClosed | src/discord/discord-sync.worker.ts:618-638 | once closed, queued refreshes never change the message or revive its buttons |
| Announcement.ClosedForLife | src/discord/discord-sync.worker.ts:618-638 | so in every run from the moment the announce job is queued |
| Announcement.APromptPostIsInOrder | src/discord/discord-sync.service.ts:277-295 | a message posted before anybody answers shows what is stored and has its buttons |
| Announcement.TheCloseIsShown | src/discord/discord-sync.worker.ts:618-638 | one close carried out from an idle open message shows the stored roster, takes the buttons away and is stamped |
| Announcement.SecondAnswerIsCoalesced | src/discord/discord-sync.service.ts:313-341 | a second answer while a refresh is pending queues none, and the one pending is for a roster with both |
| Announcement.AFullRestartRequeuesAll | src/discord/discord-sync.worker.ts:979-1011 | what a restart whose reaper gets through puts back, row by row, and that producers in flight are lost |
| Announcement.AwaitingUntilDelivery | src/discord/discord-sync.service.ts:313-341 | in every run up to the post, no refresh is queued for the missing message and its embed is not recomposed |
| Announcement.DeliveryStartsInOrderExactlyWhen | src/discord/discord-sync.service.ts:277-295 | a post starts in order exactly when its frozen roster is still the stored one or a producer has yet to count |
| Announcement.StaleDeliveryStaysStale | src/discord/discord-sync.service.ts:313-341 | otherwise it stays stale until the next answer or the close |
| Announcement.AnswerBeforePostIsNotShown | src/discord/discord-sync.service.ts:277-295 | a concrete run in which one answer is missing from the message at rest |
| Announcement.EventDesk.RecordDelivery | src/discord/event-announcement.service.ts:163-168 | the message is open to refreshes from here on, a re-announced one too |
| Announcement.EventDesk.MarkClosed | src/discord/event-announcement.service.ts:176-178 | a recorded message is closed to them |
| Announcement.EventDesk.EnqueueRefresh | src/discord/discord-sync.service.ts:313-341 | afterwards an open announcement has a refresh pending, never a needless second |
| Announcement.EventDesk.AnswerOnWebsite | src/events/events.service.ts:748-779 | replaces the row, lead time included, and leaves an open announcement owed a refresh |
| Announcement.EventDesk.Withdraw | src/events/events.service.ts:782-788 | removes the row and leaves an open announcement owed a refresh |
| Announcement.EventDesk.PressButton | src/discord/event-rsvp-interaction.service.ts:82-157 | changes the answer only, keeping the lead time asked for on the website |
| Announcement.ChunkMentions | src/discord/discord-sync.worker.ts:66-76 | every attendee once, in order, all messages but the last full |
| Gregorian.FieldsRoundTrip | src/events/event-recurrence.scheduler.ts:46-49 | calendar fields and local clocks are two views of one thing |
| Gregorian.MonthsByNumber | src/events/event-recurrence.scheduler.ts:33-34 | the lengths of the twelve months, February by the leap rule |
| Gregorian.YearsTile | src/events/event-recurrence.scheduler.ts:33-34 | day zero is the first of January 1970, and years have 365 days, or 366 by the leap rule |
| Gregorian.MonthsLaterFields | src/events/event-recurrence.scheduler.ts:33-34 | adding n months lands n months on, on the anchor's day or that month's last, at the same time of day |
| Gregorian.MonthsAreFourWeeksApart | src/events/event-recurrence.scheduler.ts:33-34 | clamped or not, successive monthly dates are at least 28 days apart |
| Gregorian.SteppingClampsForGood | src/events/event-recurrence.scheduler.ts:53-60 | stepping month by month keeps a day exactly while every month so far has it |
| Gregorian.AnchoringAgreesWithSteppingExactlyWhen | src/events/event-recurrence.scheduler.ts:53-60 | so the anchored date differs from the stepped one exactly when a month on the way was too short for it |
| Recurrence.WallsFollowTheCadence | src/events/event-recurrence.scheduler.ts:23-36 | the n-th clock is n days or n weeks on, or the anchor's day of the n-th month on, clamped to that month |
| Recurrence.OccurrencesApart | src/events/event-recurrence.scheduler.ts:23-36 | in a zone whose offsets stay within a day of each other from two days before the anchor on, no offset change brings two occurrences together or out of order, at any cadence |
| Recurrence.EstimateBrackets | src/events/event-recurrence.scheduler.ts:39-51 | once the anchor has passed, the estimate is never more than two occurrences away from now |
| Recurrence.MonthlyEstimateIsWithinOne | src/events/event-recurrence.scheduler.ts:46-49 | and for monthly at most one, where no offset change straddles a month's end |
| Recurrence.AFixedZoneIsSteady | src/events/event-recurrence.scheduler.ts:39-51 | both hypotheses hold of every zone that never changes its offset |
| Recurrence.FastForward | src/events/event-recurrence.scheduler.ts:86-89 | for any rising sequence and an estimate this close, the guarded loops reach the least n ≥ 1 strictly after now; neither guard truncates |
| Recurrence.Emit | src/events/event-recurrence.scheduler.ts:91-100 | the emission loop outputs, ascending, exactly what is due below the 500th occurrence looked at |
| Recurrence.CapIsNeverReached | src/events/event-recurrence.scheduler.ts:17-20 | 500 occurrences reach past the 60-day horizon at every cadence |
| Recurrence.ComputeOccurrenceStarts | src/events/event-recurrence.scheduler.ts:66-100 | at the sweep's horizon the output is exactly every occurrence n ≥ 1 after now, within the horizon, without a row; at any horizon, exactly that up to the cap |
| Recurrence.OccurrenceShowsItsClockExactlyWhen | src/events/event-recurrence.scheduler.ts:53-60 | whatever offset changes lie between it and the anchor, an occurrence shows its wall clock exactly when the zone has it and the anchor's offset does not mislead the reading, which takes a change within a day |
| Recurrence.LocalTimeIsKept | src/events/event-recurrence.scheduler.ts:53-60 | that clock is the anchor's local time of day, weekday or clamped day of the month |
| Recurrence.LocalTimeIsKeptAcrossChanges | src/events/event-recurrence.scheduler.ts:53-60 | in particular for every occurrence with no change within a day of it, however far its offset is from the anchor's |
| Recurrence.AWholeDayShiftCanRepeatAStart | src/events/event-recurrence.scheduler.ts:23-36 | why offsets must stay within a day: a zone that repeats a whole day has two occurrences at one instant |
| RecurrenceRuns.EventRecurrenceScheduler.TryCreateOccurrence | src/events/event-recurrence.scheduler.ts:237-261 | a taken start is skipped and announced to nobody; a new one makes one row and one announcement |
| RecurrenceRuns.EventRecurrenceScheduler.GenerateForTemplate | src/events/event-recurrence.scheduler.ts:178-221 | an undisturbed sweep creates and announces exactly the missing occurrences of its window, once each |
| RecurrenceRuns.StaysSound | src/events/event-recurrence.scheduler.ts:178-261 | under racing and dying sweeps rows stay unique, each seen by some sweep, and every window is split between rows and what is still to insert |
| RecurrenceRuns.ASweepCanFinish | src/events/event-recurrence.scheduler.ts:178-221 | a sweep left alone runs to its end, whoever raced it before: every start it meant to insert has a row and no announcement is thrown away |
| RecurrenceRuns.WholeRun | src/events/event-recurrence.scheduler.ts:157-221 | if completed sweeps are never more than the horizon apart, the rows ever created are exactly the occurrences after the first sweep up to the last one's horizon, once each |
| RecurrenceRuns.EveryRowIsAnnouncedExactlyWhen | src/events/event-recurrence.scheduler.ts:237-261 | in every run of racing and dying sweeps no row is announced twice; once all are over, every row has been announced exactly when no enqueue was swallowed and no sweep died between a commit and its enqueue |
| RecurrenceRuns.ADeathInBetweenIsSilentForGood | src/events/event-recurrence.scheduler.ts:246-260 | a row whose sweep died there is never announced, whatever follows |
| RecurrenceRuns.CancelledStaysCancelled | src/events/event-recurrence.scheduler.ts:183-191 | a soft-deleted occurrence stays deleted and its start is never taken again |
| EventTime.InputsInFull | src/events/event-time.ts:18-24 | a true instant is stored as it is; a bare clock is read in the event's zone |
| EventTime.MatchesWithinOneSecond | src/events/event-time.ts:61-71 | the guard passes exactly when a parsed expectation and the row lie in one and the same second |
| EventTime.RereadShowsTheClockExactlyWhenItExists | src/events/event-time.ts:53-58 | with at most one offset change within a day, and from any guess, reading a clock by guess and one correction shows it exactly when some instant does and the guess does not mislead |
| EventTime.RereadAroundAChange | src/events/event-time.ts:53-58 | for a named change: a guess misleads exactly when it overshoots the new offset and the change lies between the two instants they suggest; the reading is then late by the change |
| EventTime.OnlyAForeignOffsetMisleads | src/events/event-time.ts:18-24 | so a guess in force on either side of the change, or any guess where none lies within a day, never misleads |
| EventTime.AForeignOffsetCanMislead | src/events/event-time.ts:18-24 | a concrete zone, clock and moment for which the create path stores an instant one hour late |
| EventTime.SkippedClockLandsPastTheGap | src/events/event-time.ts:53-58 | a clock that was skipped is read, from any guess, as the one the length of the gap later |
| EventTime.ReanchorKeepsTheClock | src/events/event-time.ts:53-58 | the repaired instant shows the old UTC clock exactly when the zone has that clock, and is the only one to when it has it once |
| EventTime.ReanchorIsWhatCreateWouldStore | src/events/event-time.ts:18-24 | for a clock that occurs once, at whole seconds, it equals what creating the event with that clock stores today exactly when today's offset does not mislead that reading, though the two start from different guesses |
| EventTime.DurationIsKept | src/events/events.service.ts:611-622 | start and end repaired separately keep the wall-clock duration across a DST change |
| EventTime.OneDeltaIsEnoughExactlyWhen | src/events/event-time.ts:41-52 | moving the end by the start's delta would be right exactly when both repaired ends see one offset |
| EventTime.RepeatNeverMovesAgain | src/events/event-time.ts:61-71 | repeating the repair of one start with the same expected clock never moves it a second time, for any clock |
| Reanchor.ActedInFull | src/events/events.service.ts:608-660 | without cascade no row but the named one can change, whatever the answer; once done exactly it and, with cascade, every row whose template it is, deleted ones included, have moved, each by its own zone at both ends and in no other column |
| Reanchor.AnswerInFull | src/events/events.service.ts:579-606 | not found: missing or deleted; a bad request: a UTC event, an expectation not of the stored second, or a cascade on anything but a recurring template; exactly |
| Reanchor.UniqueInFull | src/events/events.service.ts:930-956 | the unique index forbids two occurrences of one template at one start, deleted ones included, and nothing else |
| Reanchor.WritableExactlyWhenUnblocked | src/events/events.service.ts:640-660 | after a clean pre-flight the row-by-row write goes through exactly when no step lands on a slot a later step has yet to vacate |
| Reanchor.UniqueStep | src/events/events.service.ts:640-660 | the unique index holds between any two updates |
| Reanchor.SortedPlanIsUnblockedExactlyWhen | src/events/events.service.ts:623-638 | however the sort breaks ties, the plan is unblocked exactly when no target lands on a slot that a later one still holds |
| Reanchor.OrderUnblocks | src/events/events.service.ts:623-660 | which is so for every series that moves one way, or whose rows lie farther apart than they move |
| Reanchor.ASeriesMovingOneWayIsNotRaced | src/events/events.service.ts:623-660 | in the request's own terms: with all its rows moving earlier, or none of them, it is never refused half-way |
| Reanchor.PreflightIsExact | src/events/events.service.ts:930-956 | the pre-flight refuses a plan exactly when the state it aims at breaks the index |
| Reanchor.MixedSignsCanBlock | src/events/events.service.ts:608-660 | a template and two occurrences in zones of their own for which the request is admitted, its aim is unique, every sorted plan passes the pre-flight, and none can be written |
| Reanchor.RepairShowsOldClocks | src/events/event-time.ts:41-58 | every repaired row shows, in its own zone, each old clock that zone has, and so keeps its wall-clock duration |
| Reanchor.NamedRowStartsOnce | src/events/events.service.ts:585-596 | however often a request is repeated, the named row starts where the first answer put it |
| Reanchor.SecondRunIsRefusedExactlyWhen | src/events/events.service.ts:591-596 | the guard refuses a second run exactly when the first moved the named row's start |
| Reanchor.UnmovedStartLetsTheEndSlip | src/events/events.service.ts:591-635 | a concrete event whose start does not move and whose end moves by an hour on each of two runs |
| Reanchor.EventsService.SortTargets | src/events/events.service.ts:623-640 | every target once, by start, in the direction that vacates slots first |
| Reanchor.EventsService.AssertNoOccurrenceCollision | src/events/events.service.ts:930-956 | the growing claimed-set loop decides exactly whether two rows would share a slot, counting static and deleted rows |
| Reanchor.EventsService.PlanRepair | src/events/events.service.ts:623-636 | the plan names each target once with its own re-reading, in the order the sort puts them |
| Reanchor.EventsService.WritePlan | src/events/events.service.ts:640-660 | all rows written with the index holding, or none |
| Reanchor.EventsService.CarryOut | src/events/events.service.ts:638-660 | a conflict exactly when the aimed-at state is not unique, refused half-way exactly when the plan is blocked, else done |
| Reanchor.EventsService.RepairTargets | src/events/events.service.ts:608-660 | the same of the targets themselves, and done leaves exactly the repaired table |
| Reanchor.EventsService.RepairNamed | src/events/events.service.ts:608-660 | past the guards: the targets found, repaired and written, or the conflict reported |
| Reanchor.EventsService.ReanchorEvent | src/events/events.service.ts:579-690 | exactly which request is not found, bad, in conflict, refused half-way or done; column by column, that done moves exactly the named row and, with cascade, all rows pointing at it to their own clocks, that every other row stays, and that any other answer changes nothing |
| Reminders.GroupByEvent | src/events/event-reminder.scheduler.ts:101-108 | the map of due rows by event: every row in exactly one group, nearest first |
| Reminders.EventReminderScheduler.DueListInFull | src/events/event-reminder.scheduler.ts:148-168 | what makes a row due: its event is live, it is unsent, and its lead time in minutes has begun; at most fifty, nearest first within an event |
| Reminders.EventReminderScheduler.Claim | src/events/event-reminder.scheduler.ts:173-179 | true for exactly the caller that changed an unsent row |
| Reminders.EventReminderScheduler.ResolveEvent | src/events/event-reminder.scheduler.ts:111-135 | all the event's due rows are resolved; the nearest is sent exactly when the event has not started |
| Reminders.EventReminderScheduler.Sweep | src/events/event-reminder.scheduler.ts:97-137 | exactly the due rows are resolved; one reminder per event still to come, its nearest due, and none for a started one |
| Reminders.SweepInFull | src/events/event-reminder.scheduler.ts:97-137 | the whole effect of a sweep row by row: due rows stamped and no others, and per event still to come exactly one reminder, for the nearest of its due rows |
| ReminderRuns.OncePerRow | src/events/event-reminder.scheduler.ts:97-179 | over any run of racing and dying sweeps and of edits no sweep overtakes between their read and their rewrite, a surviving row is claimed at most once and enqueued at most once |
| ReminderRuns.RunsWithoutRewritesAreCalm | src/events/events.service.ts:984-1005 | no run without a rewrite has one overtaken |
| ReminderRuns.EveryClaimIsSentExactlyWhen | src/events/event-reminder.scheduler.ts:126-137 | once all sweeps of such a run are over, every reminder whose row was claimed has been enqueued exactly when no enqueue was swallowed and no sweep died between a claim and its enqueue |
| ReminderRuns.ADeathInBetweenIsNeverSent | src/events/event-reminder.scheduler.ts:126-137 | a row whose sweep died there stays stamped and its reminder is never enqueued |
| ReminderRuns.NeverLate | src/events/event-reminder.scheduler.ts:111-135 | over any run whatever, with events moved and rows rewritten under way, every reminder a sweep sends goes out from its lead time on and before the start that sweep read |
| ReminderRuns.NeverLateFromTheStart | src/events/event-reminder.scheduler.ts:111-135 | in particular in every run that starts with no sweep under way, in minutes and milliseconds |
| ReminderRuns.SweepAlone | src/events/event-reminder.scheduler.ts:97-137 | a sweep nothing interferes with does in the protocol what the scheduler's `Sweep` does: every due row stamped, and the reminders owed sent |
| ReminderRuns.WriteIsSafeExactlyWhen | src/events/events.service.ts:984-1005 | a rewrite keeps every claimed row marked exactly when no sweep claimed a kept row to send it since the edit read it as unsent |
| ReminderRuns.OvertakenMeansTwice | src/events/events.service.ts:984-1005 | after an overtaken rewrite of a row that is due before its event starts, one more sweep claims the same row again, and sends it again if it was sent |
| ReminderRuns.AnOvertakenEditSendsTwice | src/events/events.service.ts:984-1005 | a concrete run, from the edit's read to the second reminder |
| ReminderRuns.EditKeepsHistory | src/events/events.service.ts:984-1005 | an undisturbed edit that re-submits a lead time keeps whether it was sent |
| ReminderRuns.EditInFull | src/events/events.service.ts:984-1005 | what an edit leaves: of its own event exactly the lead times asked for, each as it was read or fresh, and of other events everything as it is |
| ReminderRuns.DroppingForgets | src/events/events.service.ts:984-1005 | dropping it and adding it back in a second edit does not |
| Reminders.LeadTimesDecrease | src/events/event-reminder.scheduler.ts:97-137 | over successive sweeps, each doing what `Sweep` does, an event none of whose due rows the batch limit cut off the earlier sweep sends strictly nearer lead times |
| EventStatus.EventStatusScheduler.AdvanceStatuses | src/events/event-status.scheduler.ts:83-113 | the two ordered bulk updates amount to one judgement per event; an open-ended event long past its start counts twice |
| EventStatus.MissedSweepsDoNotMatter | src/events/event-status.scheduler.ts:74-82 | a late sweep alone gives what an earlier one and then the late one give |
| EventStatus.OnlyTheLastSweepMatters | src/events/event-status.scheduler.ts:74-82 | so over any series only the last sweep matters; a previous event stays so and an ongoing one never goes back to upcoming |
| GuildBreaker.BreakerFields.BreakerAllows | src/auth/guild-membership.service.ts:352-358 | let through exactly when the breaker is closed, or its cooldown is over and no probe is out; an attempt through an open breaker marks the probe |
| GuildBreaker.BreakerFields.OnLookupSuccess | src/auth/guild-membership.service.ts:360-368 | a success closes the breaker whoever it belongs to |
| GuildBreaker.BreakerFields.OnLookupFailure | src/auth/guild-membership.service.ts:370-376 | a failure releases the probe mark and counts; the third in a row and every later one opens the breaker for 60 s from now |
| GuildBreaker.LetThroughExactlyWhen | src/auth/guild-membership.service.ts:352-376 | over every run from boot, however attempts overlap: a lookup may start exactly when fewer than three in a row have failed, or 60 s have passed since the last failure and none is in flight |
| GuildBreaker.ClosedForAMinute | src/auth/guild-membership.service.ts:370-376 | from the third failure in a row on, no lookup starts for 60 s unless one in flight succeeds |
| GuildBreaker.FailuresAreCounted | src/auth/guild-membership.service.ts:360-376 | the counter is the number of failures since the last success |
| GuildBreaker.AttemptsSettleInTime | src/auth/guild-membership.service.ts:33-38 | no attempt is out for longer than four seconds |
| GuildBreaker.OneProbeAtATime | src/auth/guild-membership.service.ts:226-246 | with attempts overlapping in real time, once an open breaker's cooldown has elapsed at most one lookup is in flight, and exactly one iff the probe is marked |
| GuildBreaker.FailingStreakIsSpaced | src/auth/guild-membership.service.ts:38-49 | while nothing succeeds, attempts let through the open breaker start at least 60 s apart |
| GuildBreaker.ThirdFailureOpens | src/auth/guild-membership.service.ts:370-376 | a concrete run from boot: three overlapping failures open the breaker for 60 s |
| GuildBreaker.OneSuccessCloses | src/auth/guild-membership.service.ts:352-368 | and from there: nobody for 60 s, then one probe and no second, whose success closes it |
| GuildVerdict.GuildMembershipService.Resolve | src/auth/guild-membership.service.ts:206-217 | a fresh cache entry answers, else a running lookup is joined, else exactly one is started |
| GuildVerdict.GuildMembershipService.FinishLookup | src/auth/guild-membership.service.ts:323-344 | an unconfirmed probe is cached briefly and stored nowhere; a confirmed one is stored and cached |
| GuildVerdict.GuildMembershipService.DropLookup | src/auth/guild-membership.service.ts:206-217 | a lookup that throws stops running and leaves cache and rows alone |
| GuildVerdict.GuildMembershipService.RecordEventVerdict | src/auth/guild-membership.service.ts:305-320 | a live event is a confirmed observation; one for an unknown user is ignored |
| GuildVerdict.GuildMembershipService.SignIn | src/auth/auth.service.ts:117-153 | a sign-in writes the pair only when its probe was confirmed |
| GuildVerdict.GuildMembershipService.SyncCache | src/auth/guild-membership.service.ts:254-268 | the cache is aligned with the stored pair, or dropped when it was never confirmed |
| GuildVerdict.GuildMembershipService.IsGatedOut | src/auth/guild-membership.service.ts:164-170 | the request gate reads the stored pair only |
| GuildVerdict.GatedOnlyByAnObservation | src/auth/guild-membership.service.ts:134-170 | in every run a caller is gated out exactly when the last recorded confirmed observation said non-member |
| GuildVerdict.ADepartureGates | src/auth/guild-membership.service.ts:305-320 | a concrete run: signed in unconfirmed, then seen to leave, and gated and answered from the cache from then on |
| GuildVerdict.ALookupReadmits | src/auth/guild-membership.service.ts:206-217 | and on: nothing is looked up for fifteen minutes, then one lookup that finds them lets them in |
| GuildVerdict.OutageChangesNothing | src/auth/guild-membership.service.ts:323-344 | an outage of any length, with sign-ins, changes no stored pair |
| GuildVerdict.CachedAnswersAreFresh | src/auth/guild-membership.service.ts:22-31 | a non-degraded cached answer is under 15 minutes old, a degraded one is retried within the minute |
| GuildVerdict.CachedAnswersAreTheStoredOnes | src/auth/guild-membership.service.ts:254-344 | a non-degraded cached answer for a known identity is its stored pair, and the last confirmed observation of it |
| GuildVerdict.SingleFlight | src/auth/guild-membership.service.ts:206-217 | at most one lookup runs per identity, lookups that throw and restarts included |
| GuildVerdict.JoinedLookupsAreRunning | src/auth/guild-membership.service.ts:206-217 | and nobody joins one that has ended, thrown or died |
| HandleLedger.Handles.ClaimFor | src/members/username.service.ts:108-131 | the member as it would be saved and the handle it releases, or the first refusal in the stated order; nothing is reserved |
| HandleLedger.Handles.UpdateSelf | src/members/members.service.ts:319-354 | saved exactly when the request renames; the old handle is then held back |
| HandleLedger.Handles.HoldAfterRelease | src/members/username.service.ts:134-144 | a released handle is held for the cooldown |
| HandleLedger.Handles.BlockPermanently | src/members/username.service.ts:153-163 | or for ever |
| HandleLedger.Handles.ExecuteSelfDeletion | src/members/members.service.ts:1064-1126 | the row loses its handle and the handle is blocked for ever |
| HandleLedger.ClaimWaited | src/members/username.service.ts:65-97 | a successful claim finds every earlier holding of that handle over for at least the cooldown |
| HandleLedger.LedgerIsHonest | src/members/username.service.ts:65-198 | in every run: one holder per handle, holdings of one handle and claims of one member a cooldown apart, nothing reserved ever held |
| HandleLedger.BuriedForever | src/members/members.service.ts:1064-1126 | a handle held at deletion is never held again |
| HandleLedger.AClaimedHandleIsBuried | src/members/members.service.ts:1064-1126 | a concrete run from boot: a new member's handle, claimed and buried with them |
| HandleLedger.ARenameWaitsThirtyDays | src/members/username.service.ts:65-97 | another run: a second rename thirty days after the first and not a millisecond sooner, after which the old handle is held for as long |
| RankLadder.AcceptedIsPermutation | src/ranks/ranks.service.ts:202-210 | the size and membership tests hold exactly when the order is a permutation of the regiment's rank ids |
| RankLadder.ShiftIsSafeExactlyWhen | src/ranks/ranks.service.ts:213-215 | the one-statement shift is safe in every row order exactly when no two ranks lie one offset apart |
| RankLadder.RewrittenAt | src/ranks/ranks.service.ts:212-220 | after n writes the first n ids hold 1..n and the rest their shifted values |
| RankLadder.RewriteIsSafeExactlyWhen | src/ranks/ranks.service.ts:212-220 | the rewrite keeps the index at every step exactly when no waiting row sits on a position already handed out |
| RankLadder.SmallLaddersAreSafe | src/ranks/ranks.service.ts:28-32 | a ladder numbered within 1..1000 of at most 1000 ranks meets neither hazard |
| RankLadder.FarRankCanCollide | src/ranks/ranks.service.ts:28-32 | a two-rank ladder the service accepts whose shift can collide |
| RankLadder.RanksService.ShiftAll | src/ranks/ranks.service.ts:213-215 | row by row in any order, and never refused when the shift is safe |
| RankLadder.RanksService.Renumber | src/ranks/ranks.service.ts:212-220 | the indexed loop ends with the i-th id at i+1 and is never refused when no row is buried |
| RankLadder.RanksService.Reorder | src/ranks/ranks.service.ts:197-231 | the i-th id ends at i+1, or nothing changed; refused only on one of the two hazards |
| Applications.OpenInFull | src/applications/applications.service.ts:127-190 | open is pending or held, by this identity, and nothing else |
| Applications.ApplicationsService.Submit | src/applications/applications.service.ts:127-222 | accepted exactly when recruiting, the track open, the identity unblocked and nothing of theirs open; flags a re-application |
| Applications.ApplicationsService.Decide | src/applications/applications.service.ts:450-754 | written exactly when the application is open and, for an approval, its track is open, the entry rank exists and the identity is not enlisted yet |
| Applications.ApplicationsService.BlockApplicant | src/applications/applications.service.ts:306-362 | the block and the bulk decline of everything the identity has open |
| Applications.OrderlyQueue | src/applications/applications.service.ts:127-754 | over runs in which no save outlives its check: a blocked applicant has nothing open, nobody has two open, decisions are final, one member row per approval |
| Applications.BlocksInFull | src/applications/applications.service.ts:306-362 | a block lands on an identity that has applied, declines what it has open and bars it; lifting it changes nothing else |
| Applications.AnApprovalEnlists | src/applications/applications.service.ts:450-754 | an undisturbed submission and approval, from an empty table, end as one approved application and one member |
| Applications.SubmissionIsTidyExactlyWhen | src/applications/applications.service.ts:127-190 | a submission keeps that exactly when it would still pass its own check as it is saved |
| Applications.DecisionIsFinalExactlyWhen | src/applications/applications.service.ts:878-885 | a decision saved late overturns an earlier one unless it repeats it or its enlistment rolls back |
| Applications.ABlockCanBeOutrun | src/applications/applications.service.ts:127-190 | a concrete run that leaves a blocked applicant in the queue |
| AuditCsv.TableInFull | src/audit/audit.service.ts:241-257 | one line per row and one field per column, each what the export makes of that column |
| AuditCsv.ExportedInFull | src/audit/audit.service.ts:286-292 | an absent text is empty, and a text that starts with one of `= + - @` or a tab gets a quote before it |
| AuditCsv.NoBreakIsLeft | src/audit/audit.service.ts:286-292 | no line break is left in a field |
| AuditCsv.PiecesAreSpacedApart | src/audit/audit.service.ts:286-292 | and a text is spaced piece by piece, as long as no run of breaks is cut in two |
| AuditCsv.ExportCsv | src/audit/audit.service.ts:223-261 | whatever the fields hold, an RFC 4180 reader gets back exactly the exported table |
| AuditCsv.RoundTrip | src/audit/audit.service.ts:286-292 | the same for the joined text: no field leaks into another or onto a new line |
| AuditCsv.VerbatimExactlyWhen | src/audit/audit.service.ts:279-292 | a text survives unchanged exactly when it has no line break and does not start like a formula |

## Left out

- Switches and settings: every run has the bot and its features on; a skipped job ends as succeeded and is not modelled as skipped.
- The gateway, discord.js, HTTP controllers, guards, DTOs, SEO, storage, health and deployment: wrappers or I/O. The gateway is nondeterministic success, failure or no answer.
- Races between loading a row and saving it inside one request are one step, except where a property names them: saves of member rows in `RoleConvergence`, `Applications`, and the edits of `ReminderRuns`. `Roster.MembersService` runs each action to its end.
- A save of a loaded row writes every column that differs from the stored one, as TypeORM's `save` does; TypeORM is not part of this model. Two derives that credit one medal twice are not modelled: an action's awards and a ban are looked up when they are needed.
- Role convergence fixes the catalogue, takes members as never banned during the run, has only the bot change roles, and excludes the Applicant rank's role, which bare jobs write without roster state.
- Re-link fan-outs assume a fixed holder set per batch and no cancel; superseding batches and cancel-versus-drain are not guaranteed by the code and not modelled.
- The announcement's thread (create, ping, record) and its embed wording: only the chunking of mentions is modelled. Archived and deleted events are not re-rendered and are not modelled.
- Outbox rows are never re-opened by an operator in the model, because no such path exists; between ticks rows are appended, cancelled, or re-queued by a restart's reaper.
- Recurrence takes one template with a fixed anchor, cadence and zone. A zone is an offset at each instant; the date library's reading of a wall clock (guess, correct once, the smaller offset in a gap) is written out as Luxon publishes it, and Luxon is not part of this model. Readings are about clocks with at most one offset change within a day of them. An invalid zone is the UTC one. The end of an occurrence and its cloned platforms, tags and lead times are not modelled.
- Reanchor.OrderUnblocks: one direction only, because the exact condition is the one in `Reanchor.SortedPlanIsUnblockedExactlyWhen`.
- A re-anchor that loses a race with the recurrence sweep is refused half-way like a blocked one; the sweep's insert is not a step of that model.
- Reminder batches over 50 rows: the order in which lead times are sent is then not guaranteed, so `Reminders.LeadTimesDecrease` is about sweeps that see everything due of the event.
- Handles: taking save and reserve, and delete and block, as one step each; the two-writer race on the unique index is not split, and neither is a whole-row save by another request that loaded the member before a rename. Validity, normalisation and reserved names are abstract predicates.
- Guild verdicts: the identity row is written by id; a stale write of a whole identity row by a concurrent sign-in is not modelled. Log throttling is left out.
- Approvals' service records, carried-over medals, DMs and audit rows; the applicant's own edits, withdrawal and erasure of applications; the two writes of a block are one step.
- Account suspension expiry and the authorization matrix: a suspension or ban is one flag on a seat.
- Lists, projections, pagination, medal reorder, gallery and profile fields: no property across operations.
