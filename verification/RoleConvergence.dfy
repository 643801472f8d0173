/**
 The outbox as a concurrent protocol: roster actions commit and only later enqueue;
 one worker claims a job, reads the member, reads the awards, reads the guild, and
 then writes one role at a time, failing or crashing anywhere in between. Nothing is
 atomic but the single reads and writes, so every reading may be stale by the time it
 is used.

 The theorem is per (member, role) pair: once the pair is in order — the guild agrees
 with the roster, or some unresolved job answers for the role — it stays in order
 through every interleaving, and when nothing is left unresolved it agrees.
 */
module RoleConvergence {
  import opened Hierarchy
  import opened RoleModes
  import opened Roster
  import opened Wrappers

  datatype Job =
    | Sync(role: RoleJob)
    /** The bare applicant-role job: no roster state behind it. */
    | Bare(member: MemberId, roleId: RoleId, add: bool)

  function Target(job: Job): MemberId {
    match job
    case Sync(role) => role.member
    case Bare(member, _, _) => member
  }

  /** What the worker holds in memory for the job it has claimed. */
  datatype Worker =
    | Idle
    | Claimed(job: Job)
    | HasRow(job: Job, row: MemberRow)
    | HasDesired(job: Job, desired: set<RoleId>)
    | Writing(job: Job, desired: set<RoleId>, current: Option<set<RoleId>>, todo: set<RoleId>)

  datatype System = System(
    roster: map<MemberId, MemberRow>,
    guild: map<MemberId, set<RoleId>>,
    /** Committed actions whose enqueue has not happened yet. */
    outstanding: multiset<Job>,
    pending: multiset<Job>,
    worker: Worker,
    /** Finished, but the bookkeeping save failed: the row still says `processing`. */
    stuck: multiset<Job>,
    /** Failed, and the save of that failure failed too: the row says `processing`, the work is not done. */
    undone: multiset<Job>,
    failed: multiset<Job>,
    /** Enqueues that a swallowed error or a process death threw away. */
    lost: multiset<Job>)

  datatype Event =
    /** An admin action that loaded the member's row earlier, as `seen`, saves it and owes its jobs. */
    | Act(member: MemberId, seen: MemberRow, change: Change)
    /** Any other request that saves a row it loaded: a profile edit, a suspension. It owes no job. */
    | Resave(member: MemberId, seen: MemberRow)
    | Enqueue(job: Job)
    | LoseEnqueue(job: Job)
    | RequestResync(member: MemberId)
    | RequestApplicantRole(member: MemberId, add: bool)
    | Claim(job: Job)
    | SkipGone
    | ReadRow
    | ReadAwards
    | Fetch(readable: bool)
    | WriteRole(roleId: RoleId)
    | WriteBare
    | Finish(saved: bool)
    | FailAttempt(terminal: bool, saved: bool)
    /** The process dies and restarts; the boot-time reaper re-queues these rows before a save of its own throws. */
    | Crash(redone: multiset<Job>, repeated: multiset<Job>)

  /** The roles a mode visits once it knows what is wanted and what is worn. */
  function Todo(cat: Catalogue, job: RoleJob, desired: set<RoleId>, current: Option<set<RoleId>>): set<RoleId> {
    match job
    case ScopedJob(_, scope) => scope
    case GrantJob(_) => desired
    case ResyncJob(_) => desired + (if current.Some? then current.value * Managed(cat) else {})
  }

  /** One visit: a call is issued unless the reading already shows the wanted state. */
  function Written(current: Option<set<RoleId>>, desired: set<RoleId>, roleId: RoleId, worn: set<RoleId>): set<RoleId> {
    if roleId in desired then
      if current.None? || roleId !in current.value then worn + {roleId} else worn
    else
      if current.None? || roleId in current.value then worn - {roleId} else worn
  }

  function Visit(visits: seq<RoleId>, current: Option<set<RoleId>>, desired: set<RoleId>, worn: set<RoleId>): set<RoleId> {
    if visits == [] then worn else Visit(visits[1..], current, desired, Written(current, desired, visits[0], worn))
  }

  /** Visiting the roles of `todo` in any order lands on the scoped target for it. */
  lemma {:induction false} VisitsReachTarget(visits: seq<RoleId>, current: Option<set<RoleId>>, desired: set<RoleId>,
                                             worn: set<RoleId>)
    requires forall i, j | 0 <= i < j < |visits| :: visits[i] != visits[j]
    requires current.Some? ==> forall roleId | roleId in visits :: roleId in current.value <==> roleId in worn
    ensures Visit(visits, current, desired, worn) == ScopedTarget(worn, (set roleId | roleId in visits), desired)
  {
    if visits != [] {
      var rest := visits[1..];
      VisitsReachTarget(rest, current, desired, Written(current, desired, visits[0], worn));
      assert visits == [visits[0]] + rest;
    }
  }

  /** The three roster-driven modes are one loop: they differ only in what they visit. */
  lemma ModesAreOneLoop(cat: Catalogue, job: RoleJob, desired: set<RoleId>, current: Option<set<RoleId>>, worn: set<RoleId>)
    requires current.Some? ==> current.value == worn
    ensures ScopedTarget(worn, Todo(cat, job, desired, current), desired) ==
            match job
            case ScopedJob(_, scope) => ScopedTarget(worn, scope, desired)
            case GrantJob(_) => GrantTarget(worn, desired)
            case ResyncJob(_) => ResyncTarget(worn, Managed(cat), desired, current.Some?)
  {
  }

  predicate Enabled(cat: Catalogue, applicantRole: RoleId, s: System, e: Event) {
    match e
    case Act(member, seen, change) =>
      member in s.roster && LoadedEarlier(s.roster[member], seen) && Accepted(cat, seen, change)
    case Resave(member, seen) => member in s.roster && LoadedEarlier(s.roster[member], seen)
    case Enqueue(job) => job in s.outstanding
    case LoseEnqueue(job) => job in s.outstanding
    case RequestResync(_) => true
    case RequestApplicantRole(_, _) => true
    case Claim(job) => s.worker.Idle? && job in s.pending
    case SkipGone =>
      s.worker.Claimed? && s.worker.job.Sync? &&
      (Target(s.worker.job) in s.roster ==> s.roster[Target(s.worker.job)].banned)
    case ReadRow =>
      s.worker.Claimed? && s.worker.job.Sync? &&
      Target(s.worker.job) in s.roster && !s.roster[Target(s.worker.job)].banned
    case ReadAwards => s.worker.HasRow? && s.worker.job.Sync? && Target(s.worker.job) in s.roster
    case Fetch(readable) => s.worker.HasDesired? && s.worker.job.Sync? && (readable ==> Target(s.worker.job) in s.guild)
    case WriteRole(roleId) =>
      s.worker.Writing? && s.worker.job.Sync? && roleId in s.worker.todo && Target(s.worker.job) in s.guild
    case WriteBare => s.worker.Claimed? && s.worker.job.Bare? && s.worker.job.member in s.guild
    case Finish(_) => s.worker.Writing? && s.worker.todo == {}
    case FailAttempt(_, _) => !s.worker.Idle?
    case Crash(redone, repeated) => redone <= s.undone + Held(s.worker) && repeated <= s.stuck
  }

  function Held(worker: Worker): multiset<Job> {
    if worker.Idle? then multiset{} else multiset{worker.job}
  }

  function JobsOf(jobs: seq<RoleJob>): multiset<Job> {
    if jobs == [] then multiset{} else multiset{Sync(jobs[0])} + JobsOf(jobs[1..])
  }

  function Next(cat: Catalogue, applicantRole: RoleId, s: System, e: Event): System
    requires Enabled(cat, applicantRole, s, e)
  {
    match e
    case Act(member, seen, change) =>
      s.(roster := s.roster[member := SavedOver(s.roster[member], seen, change)],
         outstanding := s.outstanding + JobsOf(JobsFor(cat, member, seen, change)))
    case Resave(member, seen) => s.(roster := s.roster[member := seen])
    case Enqueue(job) => s.(outstanding := s.outstanding - multiset{job}, pending := s.pending + multiset{job})
    case LoseEnqueue(job) => s.(outstanding := s.outstanding - multiset{job}, lost := s.lost + multiset{job})
    case RequestResync(member) => s.(pending := s.pending + multiset{Sync(ResyncJob(member))})
    case RequestApplicantRole(member, add) =>
      s.(outstanding := s.outstanding + multiset{Bare(member, applicantRole, add)})
    case Claim(job) => s.(pending := s.pending - multiset{job}, worker := Claimed(job))
    case SkipGone => s.(worker := Idle)
    case ReadRow => s.(worker := HasRow(s.worker.job, s.roster[Target(s.worker.job)]))
    case ReadAwards =>
      s.(worker := HasDesired(s.worker.job,
                              RowRoles(cat, s.worker.row) + AwardRoles(cat, s.roster[Target(s.worker.job)].awards)))
    case Fetch(readable) =>
      var current := if readable then Some(s.guild[Target(s.worker.job)]) else None;
      s.(worker := Writing(s.worker.job, s.worker.desired, current, Todo(cat, s.worker.job.role, s.worker.desired, current)))
    case WriteRole(roleId) =>
      var member := Target(s.worker.job);
      s.(guild := s.guild[member := Written(s.worker.current, s.worker.desired, roleId, s.guild[member])],
         worker := s.worker.(todo := s.worker.todo - {roleId}))
    case WriteBare =>
      var job := s.worker.job;
      s.(guild := s.guild[job.member := if job.add then s.guild[job.member] + {job.roleId}
                                        else s.guild[job.member] - {job.roleId}],
         worker := Idle)
    case Finish(saved) => s.(worker := Idle, stuck := if saved then s.stuck else s.stuck + Held(s.worker))
    case FailAttempt(terminal, saved) =>
      if !saved then s.(worker := Idle, undone := s.undone + Held(s.worker))
      else if terminal then s.(worker := Idle, failed := s.failed + Held(s.worker))
      else s.(worker := Idle, pending := s.pending + Held(s.worker))
    case Crash(redone, repeated) =>
      s.(outstanding := multiset{}, lost := s.lost + s.outstanding, worker := Idle,
         pending := s.pending + redone + repeated,
         undone := s.undone + Held(s.worker) - redone, stuck := s.stuck - repeated)
  }

  ghost predicate Runs(cat: Catalogue, applicantRole: RoleId, s: System, es: seq<Event>)
    decreases |es|
  {
    es == [] ||
    (Enabled(cat, applicantRole, s, es[0]) && Runs(cat, applicantRole, Next(cat, applicantRole, s, es[0]), es[1..]))
  }

  ghost function After(cat: Catalogue, applicantRole: RoleId, s: System, es: seq<Event>): System
    requires Runs(cat, applicantRole, s, es)
    decreases |es|
  {
    if es == [] then s else After(cat, applicantRole, Next(cat, applicantRole, s, es[0]), es[1..])
  }

  // ── The per-pair invariant ─────────────────────────────────────────────────

  predicate Agrees(cat: Catalogue, s: System, member: MemberId, roleId: RoleId)
    requires member in s.roster && member in s.guild
  {
    roleId in s.guild[member] <==> Wants(cat, s.roster[member], roleId)
  }

  /** A scoped job answers for its scope; a grant answers for what is wanted now. */
  predicate Answers(cat: Catalogue, s: System, job: Job, member: MemberId, roleId: RoleId)
    requires member in s.roster
  {
    job.Sync? && job.role.member == member &&
    match job.role
    case ScopedJob(_, scope) => roleId in scope
    case GrantJob(_) => Wants(cat, s.roster[member], roleId)
    case ResyncJob(_) => false
  }

  /** Waiting to be queued, queued, terminally failed, abandoned half-way, or thrown away. */
  predicate Unresolved(s: System, job: Job) {
    job in s.outstanding || job in s.pending || job in s.failed || job in s.undone || job in s.lost
  }

  predicate Known(s: System, job: Job) {
    Unresolved(s, job) || job in s.stuck || (!s.worker.Idle? && s.worker.job == job)
  }

  ghost predicate Covered(cat: Catalogue, s: System, member: MemberId, roleId: RoleId)
    requires member in s.roster
  {
    exists job :: Unresolved(s, job) && Answers(cat, s, job, member, roleId)
  }

  /** The worker's readings still say the truth about this role. */
  predicate Fresh(cat: Catalogue, s: System, member: MemberId, roleId: RoleId)
    requires member in s.roster && member in s.guild && !s.worker.Idle?
  {
    match s.worker
    case Claimed(_) => true
    case HasRow(_, row) => roleId in RowRoles(cat, row) <==> roleId in RowRoles(cat, s.roster[member])
    case HasDesired(_, desired) => roleId in desired <==> Wants(cat, s.roster[member], roleId)
    case Writing(_, desired, current, todo) =>
      (roleId in desired <==> Wants(cat, s.roster[member], roleId)) &&
      (current.Some? ==> (roleId in current.value <==> roleId in s.guild[member]) || roleId !in todo)
  }

  ghost predicate InOrder(cat: Catalogue, s: System, member: MemberId, roleId: RoleId) {
    member in s.roster && member in s.guild && !s.roster[member].banned &&
    (Covered(cat, s, member, roleId) ||
     if s.worker.Idle? || Target(s.worker.job) != member || s.worker.job.Bare? then Agrees(cat, s, member, roleId)
     else
       Fresh(cat, s, member, roleId) &&
       (Agrees(cat, s, member, roleId) ||
        (Answers(cat, s, s.worker.job, member, roleId) && (s.worker.Writing? ==> roleId in s.worker.todo))))
  }

  lemma JobsOfHas(jobs: seq<RoleJob>, job: RoleJob)
    requires job in jobs
    ensures Sync(job) in JobsOf(jobs)
  {
  }

  /** Covers survive: a job that answered and is still unresolved still answers. */
  lemma StaysCovered(cat: Catalogue, s: System, t: System, member: MemberId, roleId: RoleId)
    requires member in s.roster && member in t.roster
    requires Wants(cat, s.roster[member], roleId) ==> Wants(cat, t.roster[member], roleId)
    requires forall job :: Unresolved(s, job) ==> Unresolved(t, job)
    requires Covered(cat, s, member, roleId)
    ensures Covered(cat, t, member, roleId)
  {
  }

  /** The step's save, if it is one of this member's row, moves the role's answer only with the role in its scope. */
  predicate Careful(cat: Catalogue, s: System, e: Event, member: MemberId, roleId: RoleId) {
    match e
    case Act(target, seen, change) =>
      target == member && member in s.roster ==> Covers(cat, s.roster[member], seen, change, roleId)
    case Resave(target, seen) =>
      target == member && member in s.roster ==> (roleId in RowRoles(cat, seen) <==> roleId in RowRoles(cat, s.roster[member]))
    case _ => true
  }

  /** A role in the action's scope is answered for by its scoped job. */
  lemma ScopeAnswers(cat: Catalogue, applicantRole: RoleId, s: System, e: Event, roleId: RoleId)
    requires e.Act? && Enabled(cat, applicantRole, s, e) && roleId in Scope(cat, e.seen, e.change)
    ensures var t, job := Next(cat, applicantRole, s, e), Sync(ScopedJob(e.member, Scope(cat, e.seen, e.change)));
            job in t.outstanding && Answers(cat, t, job, e.member, roleId)
  {
    JobsOfHas(JobsFor(cat, e.member, e.seen, e.change), ScopedJob(e.member, Scope(cat, e.seen, e.change)));
  }

  /** A covered action either leaves the pair alone or leaves a job answering for it. */
  lemma ActKeepsOrder(cat: Catalogue, applicantRole: RoleId, s: System, e: Event, member: MemberId, roleId: RoleId)
    requires e.Act? && Enabled(cat, applicantRole, s, e) && InOrder(cat, s, member, roleId)
    requires Careful(cat, s, e, member, roleId)
    ensures InOrder(cat, Next(cat, applicantRole, s, e), member, roleId)
  {
    var t := Next(cat, applicantRole, s, e);
    if e.member != member {
      if Covered(cat, s, member, roleId) {
        StaysCovered(cat, s, t, member, roleId);
      }
    } else if roleId in Scope(cat, e.seen, e.change) {
      ScopeAnswers(cat, applicantRole, s, e, roleId);
    } else {
      UnnamedKeepsOrder(cat, applicantRole, s, e, roleId);
    }
  }

  /** For a role outside its scope the answer is as it was, or a derive's additive job answers for it. */
  lemma UnnamedKeepsOrder(cat: Catalogue, applicantRole: RoleId, s: System, e: Event, roleId: RoleId)
    requires e.Act? && Enabled(cat, applicantRole, s, e) && InOrder(cat, s, e.member, roleId)
    requires Careful(cat, s, e, e.member, roleId) && roleId !in Scope(cat, e.seen, e.change)
    ensures InOrder(cat, Next(cat, applicantRole, s, e), e.member, roleId)
  {
    var t := Next(cat, applicantRole, s, e);
    AwardsAreCovered(cat, s.roster[e.member], e.seen, e.change, roleId);
    if Wants(cat, t.roster[e.member], roleId) && !Wants(cat, s.roster[e.member], roleId) {
      JobsOfHas(JobsFor(cat, e.member, e.seen, e.change), GrantJob(e.member));
      assert Answers(cat, t, Sync(GrantJob(e.member)), e.member, roleId);
    } else if Covered(cat, s, e.member, roleId) {
      StaysCovered(cat, s, t, e.member, roleId);
    }
  }

  lemma ResaveKeepsOrder(cat: Catalogue, applicantRole: RoleId, s: System, e: Event, member: MemberId, roleId: RoleId)
    requires e.Resave? && Enabled(cat, applicantRole, s, e) && InOrder(cat, s, member, roleId)
    requires Careful(cat, s, e, member, roleId)
    ensures InOrder(cat, Next(cat, applicantRole, s, e), member, roleId)
  {
    if Covered(cat, s, member, roleId) {
      StaysCovered(cat, s, Next(cat, applicantRole, s, e), member, roleId);
    }
  }

  /** The worker's own steps, from claim to the last write. */
  lemma WorkKeepsOrder(cat: Catalogue, applicantRole: RoleId, s: System, e: Event, member: MemberId, roleId: RoleId)
    requires e.SkipGone? || e.ReadRow? || e.ReadAwards? || e.Fetch? || e.WriteRole? || e.WriteBare? || e.Finish?
    requires Enabled(cat, applicantRole, s, e) && InOrder(cat, s, member, roleId)
    requires s.worker.job.Bare? ==> roleId != s.worker.job.roleId
    ensures InOrder(cat, Next(cat, applicantRole, s, e), member, roleId)
  {
    var t := Next(cat, applicantRole, s, e);
    if Covered(cat, s, member, roleId) {
      StaysCovered(cat, s, t, member, roleId);
    }
  }

  /** With roster, guild and worker alone, more unresolved work does no harm. */
  lemma MoreWorkKeepsOrder(cat: Catalogue, s: System, t: System, member: MemberId, roleId: RoleId)
    requires s.roster == t.roster && s.guild == t.guild && s.worker == t.worker
    requires forall job :: Unresolved(s, job) ==> Unresolved(t, job)
    requires InOrder(cat, s, member, roleId)
    ensures InOrder(cat, t, member, roleId)
  {
    if Covered(cat, s, member, roleId) {
      StaysCovered(cat, s, t, member, roleId);
    }
  }

  lemma QueueKeepsJobs(cat: Catalogue, applicantRole: RoleId, s: System, e: Event, job: Job)
    requires e.Enqueue? || e.LoseEnqueue? || e.RequestResync? || e.RequestApplicantRole?
    requires Enabled(cat, applicantRole, s, e) && Unresolved(s, job)
    ensures Unresolved(Next(cat, applicantRole, s, e), job)
  {
  }

  /** Moves into the queue: an enqueue, or the record that one was thrown away. */
  lemma QueueKeepsOrder(cat: Catalogue, applicantRole: RoleId, s: System, e: Event, member: MemberId, roleId: RoleId)
    requires e.Enqueue? || e.LoseEnqueue? || e.RequestResync? || e.RequestApplicantRole?
    requires Enabled(cat, applicantRole, s, e) && InOrder(cat, s, member, roleId)
    ensures InOrder(cat, Next(cat, applicantRole, s, e), member, roleId)
  {
    forall job | Unresolved(s, job) ensures Unresolved(Next(cat, applicantRole, s, e), job) {
      QueueKeepsJobs(cat, applicantRole, s, e, job);
    }
    MoreWorkKeepsOrder(cat, s, Next(cat, applicantRole, s, e), member, roleId);
  }

  lemma ClaimKeepsOrder(cat: Catalogue, applicantRole: RoleId, s: System, e: Event, member: MemberId, roleId: RoleId)
    requires e.Claim? && Enabled(cat, applicantRole, s, e) && InOrder(cat, s, member, roleId)
    ensures InOrder(cat, Next(cat, applicantRole, s, e), member, roleId)
  {
    var t := Next(cat, applicantRole, s, e);
    if Covered(cat, s, member, roleId) {
      var job :| Unresolved(s, job) && Answers(cat, s, job, member, roleId);
      assert Answers(cat, t, job, member, roleId);
      if job != e.job {
        assert Unresolved(t, job);
      }
    }
  }

  /** The claimed job goes back unfinished: a failed attempt, or a restart's reaper. */
  lemma RequeueKeepsOrder(cat: Catalogue, applicantRole: RoleId, s: System, e: Event, member: MemberId, roleId: RoleId)
    requires e.FailAttempt? || e.Crash?
    requires Enabled(cat, applicantRole, s, e) && InOrder(cat, s, member, roleId)
    ensures InOrder(cat, Next(cat, applicantRole, s, e), member, roleId)
  {
    var t := Next(cat, applicantRole, s, e);
    assert t.worker.Idle?;
    assert !s.worker.Idle? ==> Unresolved(t, s.worker.job);
    if Covered(cat, s, member, roleId) {
      StaysCovered(cat, s, t, member, roleId);
    } else if !Agrees(cat, s, member, roleId) {
      assert Answers(cat, t, s.worker.job, member, roleId);
    }
  }

  /** Bare jobs only ever carry the applicant role. */
  ghost predicate BareIsApplicant(applicantRole: RoleId, s: System) {
    forall job :: Known(s, job) && job.Bare? ==> job.roleId == applicantRole
  }

  /** How many such jobs there are, wherever they stand. */
  function Count(s: System, job: Job): nat {
    s.outstanding[job] + s.pending[job] + s.failed[job] + s.undone[job] + s.lost[job] + s.stuck[job] + Held(s.worker)[job]
  }

  /** The jobs a step brings in: an action's, or a requested one. */
  function Asked(cat: Catalogue, applicantRole: RoleId, e: Event): multiset<Job> {
    match e
    case Act(member, seen, change) => JobsOf(JobsFor(cat, member, seen, change))
    case RequestResync(member) => multiset{Sync(ResyncJob(member))}
    case RequestApplicantRole(member, add) => multiset{Bare(member, applicantRole, add)}
    case _ => multiset{}
  }

  /** And the one it lets go of: carried out and saved, or its member gone. */
  function Ended(s: System, e: Event): multiset<Job> {
    if e.SkipGone? || e.WriteBare? || (e.Finish? && e.saved) then Held(s.worker) else multiset{}
  }

  lemma QueueConserves(cat: Catalogue, applicantRole: RoleId, s: System, e: Event, job: Job)
    requires Enabled(cat, applicantRole, s, e) && (e.Act? || e.Resave? || e.Enqueue? || e.LoseEnqueue? || e.RequestResync? || e.RequestApplicantRole?)
    ensures Count(Next(cat, applicantRole, s, e), job) + Ended(s, e)[job] ==
            Count(s, job) + Asked(cat, applicantRole, e)[job]
  {
  }

  lemma WorkConserves(cat: Catalogue, applicantRole: RoleId, s: System, e: Event, job: Job)
    requires Enabled(cat, applicantRole, s, e) && (e.Claim? || e.SkipGone? || e.ReadRow? || e.ReadAwards? || e.Fetch? || e.WriteRole? || e.WriteBare?)
    ensures Count(Next(cat, applicantRole, s, e), job) + Ended(s, e)[job] ==
            Count(s, job) + Asked(cat, applicantRole, e)[job]
  {
  }

  lemma FinishConserves(cat: Catalogue, applicantRole: RoleId, s: System, e: Event, job: Job)
    requires Enabled(cat, applicantRole, s, e) && e.Finish?
    ensures Count(Next(cat, applicantRole, s, e), job) + Ended(s, e)[job] == Count(s, job)
  {
  }

  lemma FailureConserves(cat: Catalogue, applicantRole: RoleId, s: System, e: Event, job: Job)
    requires Enabled(cat, applicantRole, s, e) && e.FailAttempt?
    ensures Count(Next(cat, applicantRole, s, e), job) + Ended(s, e)[job] == Count(s, job)
  {
    var t, held := Next(cat, applicantRole, s, e), Held(s.worker);
    if !e.saved {
      assert t == s.(worker := Idle, undone := s.undone + held);
    } else if e.terminal {
      assert t == s.(worker := Idle, failed := s.failed + held);
    } else {
      assert t == s.(worker := Idle, pending := s.pending + held);
    }
  }

  /** No job is lost sight of, or counted twice, in any step whatever. */
  lemma JobsAreConserved(cat: Catalogue, applicantRole: RoleId, s: System, e: Event, job: Job)
    requires Enabled(cat, applicantRole, s, e)
    ensures Count(Next(cat, applicantRole, s, e), job) + Ended(s, e)[job] ==
            Count(s, job) + Asked(cat, applicantRole, e)[job]
  {
    if e.Crash? {
      assert e.redone[job] <= (s.undone + Held(s.worker))[job] && e.repeated[job] <= s.stuck[job];
    } else if e.Finish? {
      FinishConserves(cat, applicantRole, s, e, job);
    } else if e.FailAttempt? {
      FailureConserves(cat, applicantRole, s, e, job);
    } else if e.Claim? || e.SkipGone? || e.ReadRow? || e.ReadAwards? || e.Fetch? || e.WriteRole? || e.WriteBare? {
      WorkConserves(cat, applicantRole, s, e, job);
    } else {
      QueueConserves(cat, applicantRole, s, e, job);
    }
  }

  ghost function AskedIn(cat: Catalogue, applicantRole: RoleId, es: seq<Event>, job: Job): nat {
    if es == [] then 0 else Asked(cat, applicantRole, es[0])[job] + AskedIn(cat, applicantRole, es[1..], job)
  }

  ghost function EndedIn(cat: Catalogue, applicantRole: RoleId, s: System, es: seq<Event>, job: Job): nat
    requires Runs(cat, applicantRole, s, es)
    decreases |es|
  {
    if es == [] then 0
    else Ended(s, es[0])[job] + EndedIn(cat, applicantRole, Next(cat, applicantRole, s, es[0]), es[1..], job)
  }

  /**
   So over any run, crashes and failed saves included, every job that was there or was asked
   for has ended or is still waiting, held, done but unrecorded, or on record.
   */
  lemma {:induction false} EveryJobIsAccountedFor(cat: Catalogue, applicantRole: RoleId, s: System, es: seq<Event>, job: Job)
    requires Runs(cat, applicantRole, s, es)
    ensures Count(After(cat, applicantRole, s, es), job) + EndedIn(cat, applicantRole, s, es, job) ==
            Count(s, job) + AskedIn(cat, applicantRole, es, job)
    decreases |es|
  {
    if es != [] {
      JobsAreConserved(cat, applicantRole, s, es[0], job);
      EveryJobIsAccountedFor(cat, applicantRole, Next(cat, applicantRole, s, es[0]), es[1..], job);
    }
  }

  /** Only actions and requests bring new jobs into the system; everything else moves the ones it has. */
  lemma JobsOnlyMove(cat: Catalogue, applicantRole: RoleId, s: System, e: Event, job: Job)
    requires Enabled(cat, applicantRole, s, e) && Known(Next(cat, applicantRole, s, e), job)
    requires !e.Act? && !e.RequestResync? && !e.RequestApplicantRole?
    ensures Known(s, job)
  {
    JobsAreConserved(cat, applicantRole, s, e, job);
  }

  lemma BareStaysApplicant(cat: Catalogue, applicantRole: RoleId, s: System, e: Event)
    requires Enabled(cat, applicantRole, s, e) && BareIsApplicant(applicantRole, s)
    ensures BareIsApplicant(applicantRole, Next(cat, applicantRole, s, e))
  {
    var t := Next(cat, applicantRole, s, e);
    forall job | Known(t, job) && job.Bare? ensures job.roleId == applicantRole {
      if e.Act? {
        OnlySyncs(JobsFor(cat, e.member, e.seen, e.change), job);
        assert Known(s, job);
      } else if !e.RequestResync? && !e.RequestApplicantRole? {
        JobsOnlyMove(cat, applicantRole, s, e, job);
      }
    }
  }

  lemma OnlySyncs(jobs: seq<RoleJob>, job: Job)
    requires job.Bare?
    ensures job !in JobsOf(jobs)
  {
  }

  // ── The theorems ───────────────────────────────────────────────────────────

  /** In order is inductive: no step, failure or crash can break a pair, short of a save that is not covered. */
  lemma StepKeepsOrder(cat: Catalogue, applicantRole: RoleId, s: System, e: Event, member: MemberId, roleId: RoleId)
    requires Enabled(cat, applicantRole, s, e) && Careful(cat, s, e, member, roleId)
    requires BareIsApplicant(applicantRole, s) && roleId != applicantRole
    requires InOrder(cat, s, member, roleId)
    ensures InOrder(cat, Next(cat, applicantRole, s, e), member, roleId)
  {
    if e.Act? {
      ActKeepsOrder(cat, applicantRole, s, e, member, roleId);
    } else if e.Resave? {
      ResaveKeepsOrder(cat, applicantRole, s, e, member, roleId);
    } else if e.SkipGone? || e.ReadRow? || e.ReadAwards? || e.Fetch? || e.WriteRole? || e.WriteBare? || e.Finish? {
      assert Known(s, s.worker.job);
      WorkKeepsOrder(cat, applicantRole, s, e, member, roleId);
    } else if e.Claim? {
      ClaimKeepsOrder(cat, applicantRole, s, e, member, roleId);
    } else if e.FailAttempt? || e.Crash? {
      RequeueKeepsOrder(cat, applicantRole, s, e, member, roleId);
    } else {
      QueueKeepsOrder(cat, applicantRole, s, e, member, roleId);
    }
  }

  /** No save of the run overwrites, unnamed, what gives the member this role. */
  ghost predicate CarefulRun(cat: Catalogue, applicantRole: RoleId, s: System, es: seq<Event>, member: MemberId, roleId: RoleId)
    requires Runs(cat, applicantRole, s, es)
    decreases |es|
  {
    es == [] ||
    (Careful(cat, s, es[0], member, roleId) &&
     CarefulRun(cat, applicantRole, Next(cat, applicantRole, s, es[0]), es[1..], member, roleId))
  }

  /** A save of the row as it stands overwrites nothing, whatever it changes. */
  lemma FreshSavesAreCareful(cat: Catalogue, s: System, target: MemberId, change: Change, member: MemberId, roleId: RoleId)
    requires target in s.roster && Accepted(cat, s.roster[target], change)
    ensures Careful(cat, s, Act(target, s.roster[target], change), member, roleId)
    ensures Careful(cat, s, Resave(target, s.roster[target]), member, roleId)
  {
    if target == member {
      FreshSaveIsCovered(cat, s.roster[target], change, roleId);
    }
  }

  /** And a run that saves no row of the member's is careful of every role of theirs. */
  lemma {:induction false} RunsWithoutSavesAreCareful(cat: Catalogue, applicantRole: RoleId, s: System, es: seq<Event>,
                                                      member: MemberId, roleId: RoleId)
    requires Runs(cat, applicantRole, s, es)
    requires forall e | e in es :: (e.Act? || e.Resave?) ==> e.member != member
    ensures CarefulRun(cat, applicantRole, s, es, member, roleId)
    decreases |es|
  {
    if es != [] {
      assert es[0] in es && forall e | e in es[1..] :: e in es;
      RunsWithoutSavesAreCareful(cat, applicantRole, Next(cat, applicantRole, s, es[0]), es[1..], member, roleId);
    }
  }

  lemma {:induction false} OrderIsKept(cat: Catalogue, applicantRole: RoleId, s: System, es: seq<Event>,
                                       member: MemberId, roleId: RoleId)
    requires Runs(cat, applicantRole, s, es) && CarefulRun(cat, applicantRole, s, es, member, roleId)
    requires BareIsApplicant(applicantRole, s) && roleId != applicantRole
    requires InOrder(cat, s, member, roleId)
    ensures InOrder(cat, After(cat, applicantRole, s, es), member, roleId)
    decreases |es|
  {
    if es != [] {
      StepKeepsOrder(cat, applicantRole, s, es[0], member, roleId);
      BareStaysApplicant(cat, applicantRole, s, es[0]);
      OrderIsKept(cat, applicantRole, Next(cat, applicantRole, s, es[0]), es[1..], member, roleId);
    }
  }

  /**
   The condition is exact. From a settled pair a stale save of a rank or app role — loaded
   before another request changed the row — leaves it in order exactly when the scope names
   the role or the member wants it as before; otherwise no job will ever put it right.
   */
  lemma StaleSaveKeepsOrderExactlyWhen(cat: Catalogue, applicantRole: RoleId, s: System, e: Event, roleId: RoleId)
    requires e.Act? && !e.change.Derive? && Enabled(cat, applicantRole, s, e) && s.worker.Idle?
    requires InOrder(cat, s, e.member, roleId) && forall job :: Unresolved(s, job) ==> Target(job) != e.member
    ensures var t := Next(cat, applicantRole, s, e);
            InOrder(cat, t, e.member, roleId) <==>
            roleId in Scope(cat, e.seen, e.change) ||
            (Wants(cat, t.roster[e.member], roleId) <==> Wants(cat, s.roster[e.member], roleId))
  {
    var t, scope := Next(cat, applicantRole, s, e), Scope(cat, e.seen, e.change);
    AccordingToScope(cat, e.member, e.seen, e.change);
    if roleId in scope {
      assert Unresolved(t, Sync(ScopedJob(e.member, scope)));
      assert Answers(cat, t, Sync(ScopedJob(e.member, scope)), e.member, roleId);
    } else {
      AwardsAreCovered(cat, s.roster[e.member], e.seen, e.change, roleId);
      forall job | Unresolved(t, job) ensures !Answers(cat, t, job, e.member, roleId) {
        assert Unresolved(s, job) || job == Sync(ScopedJob(e.member, scope));
      }
    }
  }

  lemma AccordingToScope(cat: Catalogue, id: MemberId, row: MemberRow, change: Change)
    requires !change.Derive?
    ensures var scope := Scope(cat, row, change);
            JobsOf(JobsFor(cat, id, row, change)) == if scope == {} then multiset{} else multiset{Sync(ScopedJob(id, scope))}
  {
    var scope := Scope(cat, row, change);
    if scope == {} {
      assert JobsFor(cat, id, row, change) == [];
    } else {
      assert JobsFor(cat, id, row, change) == [ScopedJob(id, scope)];
      assert [ScopedJob(id, scope)][1..] == [];
    }
  }

  // ── Leaving old failures out of account ────────────────────────────────────

  /** Failures are on record for good; these are the ones there were at some earlier moment. */
  datatype Record = Record(failed: multiset<Job>, lost: multiset<Job>, undone: multiset<Job>)

  function RecordOf(s: System): Record {
    Record(s.failed, s.lost, s.undone)
  }

  predicate Holds(s: System, past: Record) {
    past.failed <= s.failed && past.lost <= s.lost && past.undone <= s.undone
  }

  /** The system as if those had never been. */
  function Without(s: System, past: Record): System {
    s.(failed := s.failed - past.failed, lost := s.lost - past.lost, undone := s.undone - past.undone)
  }

  /** What is left of the old record: rows a reaper re-queues are taken from the old ones first. */
  function Left(e: Event, past: Record): Record {
    if e.Crash? then past.(undone := past.undone - e.redone) else past
  }

  function Carried(es: seq<Event>, past: Record): Record
    decreases |es|
  {
    if es == [] then past else Carried(es[1..], Left(es[0], past))
  }

  lemma QuietStep(cat: Catalogue, applicantRole: RoleId, s: System, e: Event, past: Record)
    requires Enabled(cat, applicantRole, s, e) && Holds(s, past)
    requires !e.Crash? && !e.FailAttempt? && !e.LoseEnqueue?
    ensures Enabled(cat, applicantRole, Without(s, past), e)
    ensures Holds(Next(cat, applicantRole, s, e), past)
    ensures Without(Next(cat, applicantRole, s, e), past) == Next(cat, applicantRole, Without(s, past), e)
  {
  }

  lemma FailingStep(cat: Catalogue, applicantRole: RoleId, s: System, e: Event, past: Record)
    requires Enabled(cat, applicantRole, s, e) && Holds(s, past) && (e.FailAttempt? || e.LoseEnqueue?)
    ensures Enabled(cat, applicantRole, Without(s, past), e)
    ensures Holds(Next(cat, applicantRole, s, e), past)
    ensures Without(Next(cat, applicantRole, s, e), past) == Next(cat, applicantRole, Without(s, past), e)
  {
    var more := if e.LoseEnqueue? then multiset{e.job} else Held(s.worker);
    assert s.failed + more - past.failed == s.failed - past.failed + more;
    assert s.lost + more - past.lost == s.lost - past.lost + more;
    assert s.undone + more - past.undone == s.undone - past.undone + more;
  }

  /** Old rows a restart re-queues come on top of what the restart would have queued without them. */
  lemma RestartStep(cat: Catalogue, applicantRole: RoleId, s: System, e: Event, past: Record)
    requires Enabled(cat, applicantRole, s, e) && Holds(s, past) && e.Crash?
    ensures var left, restart := Left(e, past), Crash(e.redone - past.undone, e.repeated);
            Holds(Next(cat, applicantRole, s, e), left) &&
            Enabled(cat, applicantRole, Without(s, past), restart) &&
            var t := Next(cat, applicantRole, Without(s, past), restart);
            Without(Next(cat, applicantRole, s, e), left) == t.(pending := t.pending + (e.redone - restart.redone))
  {
    var left, anew, held := past.undone - e.redone, e.redone - past.undone, Held(s.worker);
    assert anew <= s.undone - past.undone + held;
    assert left <= s.undone + held - e.redone;
    assert (s.undone + held - e.redone) - left == (s.undone - past.undone) + held - anew;
    assert s.pending + e.redone + e.repeated == s.pending + anew + e.repeated + (e.redone - anew);
    assert s.lost + s.outstanding - past.lost == s.lost - past.lost + s.outstanding;
  }

  lemma MorePendingKeepsOrder(cat: Catalogue, s: System, more: multiset<Job>, member: MemberId, roleId: RoleId)
    requires InOrder(cat, s, member, roleId)
    ensures InOrder(cat, s.(pending := s.pending + more), member, roleId)
  {
    MoreWorkKeepsOrder(cat, s, s.(pending := s.pending + more), member, roleId);
  }

  lemma RestartKeepsOrderAfresh(cat: Catalogue, applicantRole: RoleId, s: System, e: Event, past: Record,
                                member: MemberId, roleId: RoleId)
    requires Enabled(cat, applicantRole, s, e) && Holds(s, past) && e.Crash?
    requires InOrder(cat, Without(s, past), member, roleId)
    ensures var t := Next(cat, applicantRole, s, e);
            Holds(t, Left(e, past)) && InOrder(cat, Without(t, Left(e, past)), member, roleId)
  {
    var s', restart := Without(s, past), Crash(e.redone - past.undone, e.repeated);
    RestartStep(cat, applicantRole, s, e, past);
    RequeueKeepsOrder(cat, applicantRole, s', restart, member, roleId);
    MorePendingKeepsOrder(cat, Next(cat, applicantRole, s', restart), e.redone - restart.redone, member, roleId);
  }

  lemma StepKeepsOrderAfresh(cat: Catalogue, applicantRole: RoleId, s: System, e: Event, past: Record,
                             member: MemberId, roleId: RoleId)
    requires Enabled(cat, applicantRole, s, e) && Holds(s, past) && Careful(cat, s, e, member, roleId)
    requires BareIsApplicant(applicantRole, s) && roleId != applicantRole
    requires InOrder(cat, Without(s, past), member, roleId)
    ensures var t := Next(cat, applicantRole, s, e);
            Holds(t, Left(e, past)) && InOrder(cat, Without(t, Left(e, past)), member, roleId)
  {
    if e.Crash? {
      RestartKeepsOrderAfresh(cat, applicantRole, s, e, past, member, roleId);
    } else {
      if e.FailAttempt? || e.LoseEnqueue? {
        FailingStep(cat, applicantRole, s, e, past);
      } else {
        QuietStep(cat, applicantRole, s, e, past);
      }
      assert BareIsApplicant(applicantRole, Without(s, past)) by {
        assert forall job :: Known(Without(s, past), job) ==> Known(s, job);
      }
      StepKeepsOrder(cat, applicantRole, Without(s, past), e, member, roleId);
    }
  }

  /** A pair in order on the strength of new work alone stays so. */
  lemma {:induction false} OrderIsKeptAfresh(cat: Catalogue, applicantRole: RoleId, s: System, es: seq<Event>, past: Record,
                                             member: MemberId, roleId: RoleId)
    requires Runs(cat, applicantRole, s, es) && Holds(s, past) && CarefulRun(cat, applicantRole, s, es, member, roleId)
    requires BareIsApplicant(applicantRole, s) && roleId != applicantRole
    requires InOrder(cat, Without(s, past), member, roleId)
    ensures var t := After(cat, applicantRole, s, es);
            Holds(t, Carried(es, past)) && InOrder(cat, Without(t, Carried(es, past)), member, roleId)
    decreases |es|
  {
    if es != [] {
      StepKeepsOrderAfresh(cat, applicantRole, s, es[0], past, member, roleId);
      BareStaysApplicant(cat, applicantRole, s, es[0]);
      OrderIsKeptAfresh(cat, applicantRole, Next(cat, applicantRole, s, es[0]), es[1..], Left(es[0], past), member, roleId);
    }
  }

  /** Nothing is in hand or waiting, and nothing failed, was lost or was abandoned since. */
  predicate AtRestSince(s: System, es: seq<Event>, t: System) {
    t.worker.Idle? && t.outstanding + t.pending == multiset{} && RecordOf(t) == Carried(es, RecordOf(s))
  }

  lemma NothingUnresolvedSince(s: System, es: seq<Event>, t: System)
    requires AtRestSince(s, es, t)
    ensures forall job :: !Unresolved(Without(t, Carried(es, RecordOf(s))), job)
  {
    forall job ensures !Unresolved(Without(t, Carried(es, RecordOf(s))), job) {
      assert (t.outstanding + t.pending)[job] == 0;
    }
  }

  /** With no failure on record at all, rest is rest. */
  predicate Quiescent(s: System) {
    s.worker.Idle? && s.outstanding + s.pending + s.failed + s.undone + s.lost == multiset{}
  }

  lemma QuiescentIsAtRest(s: System, es: seq<Event>, t: System)
    requires Quiescent(t) && Holds(t, Carried(es, RecordOf(s)))
    ensures AtRestSince(s, es, t)
  {
    forall job ensures t.outstanding[job] == t.pending[job] == t.failed[job] == t.undone[job] == t.lost[job] == 0 {
      assert (t.outstanding + t.pending + t.failed + t.undone + t.lost)[job] == 0;
    }
    assert t.outstanding + t.pending == multiset{};
    assert t.failed == multiset{} && t.undone == multiset{} && t.lost == multiset{};
  }

  /**
   Convergence. A pair that agrees when the run starts, with the bot idle and the queue and
   the record of failures in any state, agrees again whenever the run comes to rest without
   a new failure — in any drain order, through stale reads, unreadable members, partial
   writes, retries and restarts. While it does not agree, work of this run answers for it.
   */
  lemma Convergence(cat: Catalogue, applicantRole: RoleId, s: System, es: seq<Event>, member: MemberId, roleId: RoleId)
    requires Runs(cat, applicantRole, s, es) && CarefulRun(cat, applicantRole, s, es, member, roleId) && s.worker.Idle?
    requires BareIsApplicant(applicantRole, s) && roleId != applicantRole
    requires member in s.roster && member in s.guild && !s.roster[member].banned && Agrees(cat, s, member, roleId)
    ensures var t, past := After(cat, applicantRole, s, es), Carried(es, RecordOf(s));
            member in t.roster && member in t.guild && Holds(t, past) &&
            (AtRestSince(s, es, t) || Quiescent(t) ==> Agrees(cat, t, member, roleId)) &&
            (t.worker.Idle? && !Agrees(cat, t, member, roleId) ==> Covered(cat, Without(t, past), member, roleId))
  {
    OrderIsKeptAfresh(cat, applicantRole, s, es, RecordOf(s), member, roleId);
    var t := After(cat, applicantRole, s, es);
    if Quiescent(t) {
      QuiescentIsAtRest(s, es, t);
    }
    if AtRestSince(s, es, t) {
      NothingUnresolvedSince(s, es, t);
    }
  }

  /**
   Self-repair: whatever drift a pair starts from, and whatever failures left it, one
   accepted action naming the role puts it right: it agrees at the next rest without a new
   failure.
   */
  lemma ActRepairs(cat: Catalogue, applicantRole: RoleId, s: System, e: Event, es: seq<Event>, roleId: RoleId)
    requires e.Act? && e.member in s.roster && e.member in s.guild && !s.roster[e.member].banned
    requires roleId in Scope(cat, e.seen, e.change)
    requires BareIsApplicant(applicantRole, s) && roleId != applicantRole
    requires Runs(cat, applicantRole, s, [e] + es) && CarefulRun(cat, applicantRole, s, [e] + es, e.member, roleId)
    ensures var t := After(cat, applicantRole, s, [e] + es);
            AtRestSince(s, [e] + es, t) ==>
              e.member in t.roster && e.member in t.guild && Agrees(cat, t, e.member, roleId)
  {
    assert ([e] + es)[0] == e && ([e] + es)[1..] == es;
    var u := Next(cat, applicantRole, s, e);
    ScopeAnswers(cat, applicantRole, s, e, roleId);
    assert Unresolved(Without(u, RecordOf(s)), Sync(ScopedJob(e.member, Scope(cat, e.seen, e.change))));
    BareStaysApplicant(cat, applicantRole, s, e);
    OrderIsKeptAfresh(cat, applicantRole, u, es, RecordOf(s), e.member, roleId);
    var t := After(cat, applicantRole, s, [e] + es);
    if AtRestSince(s, [e] + es, t) {
      NothingUnresolvedSince(s, [e] + es, t);
    }
  }

  lemma LostSightOf(cat: Catalogue, t: System, past: Record, member: MemberId, roleId: RoleId)
    requires InOrder(cat, Without(t, past), member, roleId) && !Agrees(cat, t, member, roleId)
    requires t.worker.Idle? && t.outstanding + t.pending == multiset{} && t.failed == past.failed
    ensures exists job :: job in (t.lost - past.lost) + (t.undone - past.undone) && Answers(cat, t, job, member, roleId)
  {
    var job :| Unresolved(Without(t, past), job) && Answers(cat, Without(t, past), job, member, roleId);
    assert (t.outstanding + t.pending)[job] == 0;
    assert (t.failed - past.failed)[job] == 0;
    assert Answers(cat, t, job, member, roleId);
  }

  /**
   At rest with nothing queued and no new failure recorded, a pair that disagrees is
   answered for by work the process lost sight of during the run: an enqueue that never
   happened, or a failed attempt whose own save failed and whose row no tick will read again.
   */
  lemma OnlyLostWorkCanStrand(cat: Catalogue, applicantRole: RoleId, s: System, es: seq<Event>,
                              member: MemberId, roleId: RoleId)
    requires Runs(cat, applicantRole, s, es) && CarefulRun(cat, applicantRole, s, es, member, roleId) && s.worker.Idle?
    requires BareIsApplicant(applicantRole, s) && roleId != applicantRole
    requires member in s.roster && member in s.guild && !s.roster[member].banned && Agrees(cat, s, member, roleId)
    ensures var t := After(cat, applicantRole, s, es);
            t.worker.Idle? && t.outstanding + t.pending == multiset{} && t.failed == s.failed ==>
              member in t.roster && member in t.guild &&
              (Agrees(cat, t, member, roleId) ||
               exists job :: job in (t.lost - s.lost) + (t.undone - Carried(es, RecordOf(s)).undone) &&
                             Answers(cat, t, job, member, roleId))
  {
    var t := After(cat, applicantRole, s, es);
    OrderIsKeptAfresh(cat, applicantRole, s, es, RecordOf(s), member, roleId);
    CarriedKeepsTheRest(es, RecordOf(s));
    if t.worker.Idle? && t.outstanding + t.pending == multiset{} && t.failed == s.failed && !Agrees(cat, t, member, roleId) {
      LostSightOf(cat, t, Carried(es, RecordOf(s)), member, roleId);
    }
  }

  /** Only re-queued rows leave the record. */
  lemma {:induction false} CarriedKeepsTheRest(es: seq<Event>, past: Record)
    ensures Carried(es, past).failed == past.failed && Carried(es, past).lost == past.lost
    ensures (forall e | e in es :: !e.Crash?) ==> Carried(es, past) == past
    decreases |es|
  {
    if es != [] {
      assert es[0] in es && forall e | e in es[1..] :: e in es;
      CarriedKeepsTheRest(es[1..], Left(es[0], past));
    }
  }

  // ── A drain without a hitch ────────────────────────────────────────────────

  function WritesOf(visits: seq<RoleId>): seq<Event> {
    if visits == [] then [] else [WriteRole(visits[0])] + WritesOf(visits[1..])
  }

  /** The worker's writes, in any order that takes each role of the to-do list once, are the visits of the mode's loop. */
  lemma {:induction false} WritesAreVisits(cat: Catalogue, applicantRole: RoleId, s: System, visits: seq<RoleId>)
    requires s.worker.Writing? && s.worker.job.Sync? && Target(s.worker.job) in s.guild
    requires (forall i, j | 0 <= i < j < |visits| :: visits[i] != visits[j]) && s.worker.todo == set roleId | roleId in visits
    ensures Runs(cat, applicantRole, s, WritesOf(visits))
    ensures var worn := Visit(visits, s.worker.current, s.worker.desired, s.guild[Target(s.worker.job)]);
            After(cat, applicantRole, s, WritesOf(visits)) ==
            s.(guild := s.guild[Target(s.worker.job) := worn], worker := s.worker.(todo := {}))
    decreases |visits|
  {
    if visits == [] {
      assert s.worker.todo == {};
      assert s.guild[Target(s.worker.job) := s.guild[Target(s.worker.job)]] == s.guild;
    } else {
      var rest, u := visits[1..], Next(cat, applicantRole, s, WriteRole(visits[0]));
      assert visits == [visits[0]] + rest;
      assert s.worker.todo - {visits[0]} == set roleId | roleId in rest;
      WritesAreVisits(cat, applicantRole, u, rest);
      Prepend(cat, applicantRole, s, WriteRole(visits[0]), u, WritesOf(rest));
      var member := Target(s.worker.job);
      var worn := Visit(visits, s.worker.current, s.worker.desired, s.guild[member]);
      assert u.guild[member := worn] == s.guild[member := worn];
    }
  }

  /**
   So a job that got as far as its writes, from a reading that is still true or from none,
   and finishes them, leaves the member exactly where its mode aims and nobody else touched.
   */
  lemma WritesReachTheTarget(cat: Catalogue, applicantRole: RoleId, s: System, visits: seq<RoleId>)
    requires s.worker.Writing? && s.worker.job.Sync? && Target(s.worker.job) in s.guild
    requires s.worker.todo == Todo(cat, s.worker.job.role, s.worker.desired, s.worker.current)
    requires s.worker.current.Some? ==> s.worker.current.value == s.guild[Target(s.worker.job)]
    requires (forall i, j | 0 <= i < j < |visits| :: visits[i] != visits[j]) && s.worker.todo == set roleId | roleId in visits
    ensures Runs(cat, applicantRole, s, WritesOf(visits))
    ensures var member, desired, current := Target(s.worker.job), s.worker.desired, s.worker.current;
            var worn := s.guild[member];
            After(cat, applicantRole, s, WritesOf(visits)).guild ==
            s.guild[member :=
              match s.worker.job.role
              case ScopedJob(_, scope) => ScopedTarget(worn, scope, desired)
              case GrantJob(_) => GrantTarget(worn, desired)
              case ResyncJob(_) => ResyncTarget(worn, Managed(cat), desired, current.Some?)]
  {
    WritesAreVisits(cat, applicantRole, s, visits);
    VisitsReachTarget(visits, s.worker.current, s.worker.desired, s.guild[Target(s.worker.job)]);
    ModesAreOneLoop(cat, s.worker.job.role, s.worker.desired, s.worker.current, s.guild[Target(s.worker.job)]);
  }

  /** The applicant role's job writes that role, one way or the other, and nothing else. */
  lemma BareJobIsDone(cat: Catalogue, applicantRole: RoleId, s: System)
    requires s.worker.Claimed? && s.worker.job.Bare? && s.worker.job.member in s.guild
    ensures Enabled(cat, applicantRole, s, WriteBare)
    ensures var t, job := Next(cat, applicantRole, s, WriteBare), s.worker.job;
            t == s.(guild := t.guild, worker := Idle) && t.guild.Keys == s.guild.Keys &&
            forall member, roleId | member in s.guild ::
              roleId in t.guild[member] <==>
              if member == job.member && roleId == job.roleId then job.add else roleId in s.guild[member]
  {
  }

  // ── Concrete runs ──────────────────────────────────────────────────────────

  lemma Prepend(cat: Catalogue, applicantRole: RoleId, s: System, e: Event, u: System, es: seq<Event>)
    requires Enabled(cat, applicantRole, s, e) && u == Next(cat, applicantRole, s, e) && Runs(cat, applicantRole, u, es)
    ensures Runs(cat, applicantRole, s, [e] + es)
    ensures After(cat, applicantRole, s, [e] + es) == After(cat, applicantRole, u, es)
  {
    assert ([e] + es)[0] == e && ([e] + es)[1..] == es;
  }

  /** One member with an empty queue, and what was lost on the way there. */
  function Quiet(row: MemberRow, lost: multiset<Job>, undone: multiset<Job>): System {
    System(map["m" := row], map["m" := {}], multiset{}, multiset{}, Idle, multiset{}, undone, multiset{}, lost)
  }

  /** A catalogue of two ranks, the lower one linked to no role. */
  function TwoRanks(): Catalogue {
    Catalogue(map["j" := None, "k" := Some("r")], map[], None)
  }

  function Ranked(rank: RankId): MemberRow {
    MemberRow(Some(rank), Member, false, [])
  }

  /** Promoted to "k" by a request that loaded the row as it is. */
  function Promotion(rank: RankId): Event {
    Act("m", Ranked(rank), ChangeRank("k"))
  }

  const PROMOTED: Job := Sync(ScopedJob("m", {"r"}))

  /** The one job a promotion to "k", from either rank, leaves to enqueue. */
  lemma PromotionOwes(rank: RankId)
    requires rank in {"j", "k"}
    ensures var cat, row := TwoRanks(), Ranked(rank);
            JobsOf(JobsFor(cat, "m", row, ChangeRank("k"))) == multiset{PROMOTED} &&
            Scope(cat, row, ChangeRank("k")) == {"r"} &&
            Accepted(cat, row, ChangeRank("k")) && Apply(row, ChangeRank("k")) == Ranked("k") &&
            (Wants(cat, row, "r") <==> rank == "k")
  {
    var cat, row := TwoRanks(), Ranked(rank);
    assert AwardRoles(cat, []) == {};
    assert Scope(cat, row, ChangeRank("k")) == {"r"};
    assert JobsFor(cat, "m", row, ChangeRank("k")) == [ScopedJob("m", {"r"})];
    assert [ScopedJob("m", {"r"})][1..] == [];
  }

  /** The promotion committed, its job not yet queued. */
  lemma PromotionCommits(rank: RankId, lost: multiset<Job>, undone: multiset<Job>)
    requires rank in {"j", "k"}
    ensures Enabled(TwoRanks(), "applicant", Quiet(Ranked(rank), lost, undone), Promotion(rank))
    ensures Next(TwoRanks(), "applicant", Quiet(Ranked(rank), lost, undone), Promotion(rank)) ==
            Quiet(Ranked("k"), lost, undone).(outstanding := multiset{PROMOTED})
    ensures Agrees(TwoRanks(), Quiet(Ranked(rank), lost, undone), "m", "r") <==> rank == "j"
  {
    PromotionOwes(rank);
  }

  lemma RestartLoses(cat: Catalogue, applicantRole: RoleId, u: System)
    requires u.worker.Idle?
    ensures var run := [Crash(multiset{}, multiset{})];
            Runs(cat, applicantRole, u, run) &&
            After(cat, applicantRole, u, run) == u.(outstanding := multiset{}, lost := u.lost + u.outstanding)
  {
    var t, crash := u.(outstanding := multiset{}, lost := u.lost + u.outstanding), Crash(multiset{}, multiset{});
    assert Held(u.worker) == multiset{};
    assert u.undone + multiset{} - multiset{} == u.undone;
    assert u.pending + multiset{} + multiset{} == u.pending;
    assert u.stuck - multiset{} == u.stuck;
    Prepend(cat, applicantRole, u, crash, t, []);
    assert [crash] + [] == [crash];
  }

  /**
   And it does strand: the enqueue happens after the save and outside its transaction,
   so a process that dies in between leaves a rank role no job will ever push.
   */
  lemma LostEnqueueStrands(s: System, t: System)
    requires s == Quiet(Ranked("j"), multiset{}, multiset{})
    requires t == Quiet(Ranked("k"), multiset{PROMOTED}, multiset{})
    ensures var es := [Promotion("j")] + [Crash(multiset{}, multiset{})];
            Runs(TwoRanks(), "applicant", s, es) && After(TwoRanks(), "applicant", s, es) == t
    ensures Agrees(TwoRanks(), s, "m", "r") && !Agrees(TwoRanks(), t, "m", "r")
  {
    var u := Quiet(Ranked("k"), multiset{}, multiset{}).(outstanding := multiset{PROMOTED});
    PromotionCommits("j", multiset{}, multiset{});
    PromotionCommits("k", multiset{PROMOTED}, multiset{});
    RestartLoses(TwoRanks(), "applicant", u);
    Prepend(TwoRanks(), "applicant", s, Promotion("j"), u, [Crash(multiset{}, multiset{})]);
  }

  /** An outstanding job is queued, claimed and abandoned in `undone`. */
  lemma JobIsAbandoned(cat: Catalogue, applicantRole: RoleId, u: System, job: Job)
    requires u.worker.Idle? && u.outstanding == multiset{job} && u.pending == multiset{}
    ensures var run := [Enqueue(job)] + ([Claim(job)] + ([FailAttempt(false, false)] + []));
            Runs(cat, applicantRole, u, run) &&
            After(cat, applicantRole, u, run) == u.(outstanding := multiset{}, undone := u.undone + multiset{job})
  {
    var queued := u.(outstanding := multiset{}, pending := multiset{job});
    var claimed := u.(outstanding := multiset{}, worker := Claimed(job));
    var t := u.(outstanding := multiset{}, undone := u.undone + multiset{job});
    Prepend(cat, applicantRole, claimed, FailAttempt(false, false), t, []);
    Prepend(cat, applicantRole, queued, Claim(job), claimed, [FailAttempt(false, false)] + []);
    Prepend(cat, applicantRole, u, Enqueue(job), queued, [Claim(job)] + ([FailAttempt(false, false)] + []));
  }

  /** A restart whose reaper gets through puts every such row back in the queue. */
  lemma ReaperFindsTheUndone(cat: Catalogue, applicantRole: RoleId, s: System)
    ensures var restart := Crash(s.undone + Held(s.worker), s.stuck);
            Enabled(cat, applicantRole, s, restart) &&
            var t := Next(cat, applicantRole, s, restart);
            t.undone == multiset{} && t.stuck == multiset{} && forall job | job in s.undone :: job in t.pending
  {
  }

  /**
   The other way: the job runs, the gateway refuses, and the save that should put the row
   back fails as well. Nothing is queued, nothing is on record, and the role is missing
   until a restart's reaper finds the row.
   */
  lemma FailedSaveStrands(s: System, t: System)
    requires s == Quiet(Ranked("j"), multiset{}, multiset{})
    requires t == Quiet(Ranked("k"), multiset{}, multiset{PROMOTED})
    ensures var es := [Promotion("j")] + ([Enqueue(PROMOTED)] + ([Claim(PROMOTED)] + ([FailAttempt(false, false)] + [])));
            Runs(TwoRanks(), "applicant", s, es) && After(TwoRanks(), "applicant", s, es) == t
    ensures Agrees(TwoRanks(), s, "m", "r") && !Agrees(TwoRanks(), t, "m", "r")
    ensures t.worker.Idle? && t.outstanding + t.pending + t.failed + t.lost == multiset{}
  {
    var u := Quiet(Ranked("k"), multiset{}, multiset{}).(outstanding := multiset{PROMOTED});
    PromotionCommits("j", multiset{}, multiset{});
    PromotionCommits("k", multiset{}, multiset{PROMOTED});
    JobIsAbandoned(TwoRanks(), "applicant", u, PROMOTED);
    Prepend(TwoRanks(), "applicant", s, Promotion("j"), u,
            [Enqueue(PROMOTED)] + ([Claim(PROMOTED)] + ([FailAttempt(false, false)] + [])));
  }

  /** Either stranded pair is put right by promoting again: in every careful run, at the next rest without a new failure. */
  lemma PromotingAgainRepairs(t: System, es: seq<Event>)
    requires t in {Quiet(Ranked("k"), multiset{PROMOTED}, multiset{}), Quiet(Ranked("k"), multiset{}, multiset{PROMOTED})}
    requires Runs(TwoRanks(), "applicant", t, [Promotion("k")] + es)
    requires CarefulRun(TwoRanks(), "applicant", t, [Promotion("k")] + es, "m", "r")
    ensures var u := After(TwoRanks(), "applicant", t, [Promotion("k")] + es);
            AtRestSince(t, [Promotion("k")] + es, u) ==>
              "m" in u.roster && "m" in u.guild && Agrees(TwoRanks(), u, "m", "r")
  {
    PromotionOwes("k");
    ActRepairs(TwoRanks(), "applicant", t, Promotion("k"), es, "r");
  }

  /** A one-role job from its enqueue to its clean end. */
  function Drain(job: Job, roleId: RoleId): seq<Event> {
    [Enqueue(job)] + ([Claim(job)] + ([ReadRow] + ([ReadAwards] + ([Fetch(false)] + ([WriteRole(roleId)] +
    ([Finish(true)] + []))))))
  }

  lemma DrainsWithoutRestart(job: Job, roleId: RoleId)
    ensures forall e | e in Drain(job, roleId) :: !e.Crash?
  {
  }

  lemma RoleIsWritten(cat: Catalogue, applicantRole: RoleId, s: System, job: Job, desired: set<RoleId>, roleId: RoleId)
    requires s.worker == Writing(job, desired, None, {roleId}) && job.Sync? && roleId in desired && Target(job) in s.guild
    ensures var run := [WriteRole(roleId)] + ([Finish(true)] + []);
            Runs(cat, applicantRole, s, run) &&
            After(cat, applicantRole, s, run) ==
            s.(worker := Idle, guild := s.guild[Target(job) := s.guild[Target(job)] + {roleId}])
  {
    var t := s.(worker := Idle, guild := s.guild[Target(job) := s.guild[Target(job)] + {roleId}]);
    var done := t.(worker := Writing(job, desired, None, {}));
    Prepend(cat, applicantRole, done, Finish(true), t, []);
    Prepend(cat, applicantRole, s, WriteRole(roleId), done, [Finish(true)] + []);
  }

  /** A claimed one-role job goes through its reads, unreadable guild included, to the write. */
  lemma RoleIsRead(cat: Catalogue, applicantRole: RoleId, s: System, member: MemberId, roleId: RoleId, es: seq<Event>)
    requires s.worker == Claimed(Sync(ScopedJob(member, {roleId}))) && member in s.roster && !s.roster[member].banned
    requires var row := s.roster[member];
             var desired := RowRoles(cat, row) + AwardRoles(cat, row.awards);
             Runs(cat, applicantRole, s.(worker := Writing(s.worker.job, desired, None, {roleId})), es)
    ensures var row := s.roster[member];
            var desired := RowRoles(cat, row) + AwardRoles(cat, row.awards);
            var run := [ReadRow] + ([ReadAwards] + ([Fetch(false)] + es));
            Runs(cat, applicantRole, s, run) &&
            After(cat, applicantRole, s, run) ==
            After(cat, applicantRole, s.(worker := Writing(s.worker.job, desired, None, {roleId})), es)
  {
    var job, row := s.worker.job, s.roster[member];
    var desired := RowRoles(cat, row) + AwardRoles(cat, row.awards);
    var wanting := s.(worker := HasDesired(job, desired));
    Prepend(cat, applicantRole, wanting, Fetch(false), s.(worker := Writing(job, desired, None, {roleId})), es);
    Prepend(cat, applicantRole, s.(worker := HasRow(job, row)), ReadAwards, wanting, [Fetch(false)] + es);
    Prepend(cat, applicantRole, s, ReadRow, s.(worker := HasRow(job, row)), [ReadAwards] + ([Fetch(false)] + es));
  }

  /** An outstanding one-role job, drained without a hitch. */
  lemma JobIsDone(cat: Catalogue, applicantRole: RoleId, u: System, member: MemberId, roleId: RoleId)
    requires u.worker.Idle? && u.pending == multiset{} && u.outstanding == multiset{Sync(ScopedJob(member, {roleId}))}
    requires member in u.roster && member in u.guild && !u.roster[member].banned && Wants(cat, u.roster[member], roleId)
    ensures var job := Sync(ScopedJob(member, {roleId}));
            Runs(cat, applicantRole, u, Drain(job, roleId)) &&
            After(cat, applicantRole, u, Drain(job, roleId)) ==
            u.(outstanding := multiset{}, guild := u.guild[member := u.guild[member] + {roleId}])
  {
    var job, row := Sync(ScopedJob(member, {roleId})), u.roster[member];
    var desired := RowRoles(cat, row) + AwardRoles(cat, row.awards);
    var queued := u.(outstanding := multiset{}, pending := multiset{job});
    var claimed := u.(outstanding := multiset{}, worker := Claimed(job));
    var writes := [WriteRole(roleId)] + ([Finish(true)] + []);
    var work := [ReadRow] + ([ReadAwards] + ([Fetch(false)] + writes));
    RoleIsWritten(cat, applicantRole, claimed.(worker := Writing(job, desired, None, {roleId})), job, desired, roleId);
    RoleIsRead(cat, applicantRole, claimed, member, roleId, writes);
    Prepend(cat, applicantRole, queued, Claim(job), claimed, work);
    Prepend(cat, applicantRole, u, Enqueue(job), queued, [Claim(job)] + work);
  }

  /** And there is such a run: the promotion, its enqueue and one drain, from either stranded pair. */
  lemma TheRepairComesToRest(t: System) returns (es: seq<Event>)
    requires t in {Quiet(Ranked("k"), multiset{PROMOTED}, multiset{}), Quiet(Ranked("k"), multiset{}, multiset{PROMOTED})}
    ensures Runs(TwoRanks(), "applicant", t, [Promotion("k")] + es)
    ensures var u := After(TwoRanks(), "applicant", t, [Promotion("k")] + es);
            AtRestSince(t, [Promotion("k")] + es, u) && u == t.(guild := map["m" := {"r"}])
  {
    var u := t.(outstanding := multiset{PROMOTED});
    PromotionOwes("k");
    PromotionCommits("k", t.lost, t.undone);
    JobIsDone(TwoRanks(), "applicant", u, "m", "r");
    var worn: set<RoleId> := {};
    assert worn + {"r"} == {"r"};
    assert t.guild == map["m" := worn];
    assert t.guild["m" := worn + {"r"}] == map["m" := {"r"}];
    es := Drain(PROMOTED, "r");
    Prepend(TwoRanks(), "applicant", t, Promotion("k"), u, es);
    DrainsWithoutRestart(PROMOTED, "r");
    CarriedKeepsTheRest([Promotion("k")] + es, RecordOf(t));
  }

  /** Promoted to "k", and the one job drained. */
  function Settled(): System {
    Quiet(Ranked("k"), multiset{}, multiset{}).(guild := map["m" := {"r"}])
  }

  lemma PromotionSettles(s: System)
    requires s == Quiet(Ranked("j"), multiset{}, multiset{})
    ensures var es := [Promotion("j")] + Drain(PROMOTED, "r");
            Runs(TwoRanks(), "applicant", s, es) && After(TwoRanks(), "applicant", s, es) == Settled()
  {
    var u := Quiet(Ranked("k"), multiset{}, multiset{}).(outstanding := multiset{PROMOTED});
    var worn: set<RoleId> := {};
    assert worn + {"r"} == {"r"};
    assert u.guild == map["m" := worn] && u.guild["m" := worn + {"r"}] == map["m" := {"r"}];
    PromotionOwes("k");
    PromotionCommits("j", multiset{}, multiset{});
    JobIsDone(TwoRanks(), "applicant", u, "m", "r");
    Prepend(TwoRanks(), "applicant", s, Promotion("j"), u, Drain(PROMOTED, "r"));
  }

  /** A rank change to "j" by a request that loaded the member there names no role, and so owes no job. */
  lemma DemotionOwesNothing()
    ensures var cat, row := TwoRanks(), Ranked("j");
            JobsOf(JobsFor(cat, "m", row, ChangeRank("j"))) == multiset{} && Accepted(cat, row, ChangeRank("j"))
  {
    AccordingToScope(TwoRanks(), "m", Ranked("j"), ChangeRank("j"));
    assert Scope(TwoRanks(), Ranked("j"), ChangeRank("j")) == {};
  }

  lemma SavedBack(e: Event)
    requires e in {Act("m", Ranked("j"), ChangeRank("j")), Resave("m", Ranked("j"))}
    ensures Enabled(TwoRanks(), "applicant", Settled(), e)
    ensures Next(TwoRanks(), "applicant", Settled(), e) == Settled().(roster := map["m" := Ranked("j")])
  {
    DemotionOwesNothing();
    assert Settled().outstanding + multiset{} == multiset{};
    assert Settled().roster["m" := Ranked("j")] == map["m" := Ranked("j")];
  }

  /**
   The third way, without any failure: a request loads the member at rank "j", another
   promotes them and its job drains, and the first one saves what it loaded — as a rank
   change to "j" or as a profile edit. Nothing is queued, lost or on record, and the role
   of rank "k" stays on.
   */
  lemma StaleSaveStrands(s: System, e: Event)
    requires s == Quiet(Ranked("j"), multiset{}, multiset{})
    requires e in {Act("m", Ranked("j"), ChangeRank("j")), Resave("m", Ranked("j"))}
    ensures var es := [Promotion("j")] + Drain(PROMOTED, "r");
            Runs(TwoRanks(), "applicant", s, es) && After(TwoRanks(), "applicant", s, es) == Settled()
    ensures Quiescent(Settled()) && Agrees(TwoRanks(), Settled(), "m", "r") && Enabled(TwoRanks(), "applicant", Settled(), e)
    ensures var u := Next(TwoRanks(), "applicant", Settled(), e);
            Quiescent(u) && "m" in u.roster && "m" in u.guild && !Agrees(TwoRanks(), u, "m", "r")
  {
    PromotionSettles(s);
    SavedBack(e);
    PromotionOwes("k");
    PromotionOwes("j");
  }
}
