/**
 One outbox row through claims, sends, swallowed write-backs, failed bookkeeping and
 process deaths. A message job is re-run only when its side effect certainly did not
 happen, so its lead message goes out at most once; an idempotent job may be re-run
 freely and always is.
 */
module OutboxLife {
  import opened Outbox

  /** What the live process is doing with the row; a death forgets it, the row stays. */
  datatype Phase = Away | Claimed | Sent | Refused(permanent: bool)

  datatype Life = Life(job: Job, phase: Phase, delivered: nat, dispatches: nat, restarts: nat)

  datatype Event =
    | Claim(now: int)
    /** The gateway call returned; a call that failed had no effect. */
    | Send(ok: bool, permanent: bool)
    | Bookkeep(saved: bool, now: int)
    /** The process dies; `landed` when it died during a call whose effect took place. */
    | Die(landed: bool)
    | Reap(now: int)
    | Cancel

  predicate Enabled(l: Life, e: Event) {
    match e
    case Claim(now) => l.phase.Away? && Due(l.job, now)
    case Send(_, _) => l.phase.Claimed?
    case Bookkeep(_, _) => l.phase.Sent? || l.phase.Refused?
    case Die(landed) => landed ==> l.phase.Claimed?
    case Reap(_) => l.phase.Away?
    case Cancel => l.phase.Away? && l.job.status == Pending
  }

  function OutcomeOf(phase: Phase): Outcome
    requires phase.Sent? || phase.Refused?
  {
    if phase.Sent? then Delivered else if phase.permanent then Permanent else Transient
  }

  function Next(l: Life, e: Event): Life
    requires Enabled(l, e)
  {
    match e
    case Claim(_) => l.(job := l.job.(status := Processing), phase := Claimed, dispatches := l.dispatches + 1)
    case Send(ok, permanent) =>
      if ok then l.(phase := Sent, delivered := l.delivered + 1) else l.(phase := Refused(permanent))
    case Bookkeep(saved, now) => l.(job := Recorded(l.job, OutcomeOf(l.phase), saved, now), phase := Away)
    case Die(landed) => l.(phase := Away, delivered := if landed then l.delivered + 1 else l.delivered)
    // Runs once on boot, before the first drain: everything still processing is orphaned.
    case Reap(now) => l.(job := Reaped(l.job, now), restarts := l.restarts + 1)
    case Cancel => l.(job := l.job.(status := Cancelled))
  }

  ghost predicate Runs(l: Life, es: seq<Event>)
    decreases |es|
  {
    es == [] || (Enabled(l, es[0]) && Runs(Next(l, es[0]), es[1..]))
  }

  ghost function After(l: Life, es: seq<Event>): Life
    requires Runs(l, es)
    decreases |es|
  {
    if es == [] then l else After(Next(l, es[0]), es[1..])
  }

  function Born(kind: Kind, maxAttempts: nat, now: int): Life {
    Life(Job(kind, Pending, 0, maxAttempts, now), Away, 0, 0, 0)
  }

  // ── At most once ───────────────────────────────────────────────────────────

  /** Pending, or claimed and not yet sent: certainly nothing has gone out. */
  predicate Unsent(l: Life) {
    !Idempotent(l.job.kind) &&
    l.delivered <= 1 &&
    (l.job.status == Pending ==> l.delivered == 0 && l.phase.Away?) &&
    (l.phase.Claimed? || l.phase.Refused? ==> l.delivered == 0) &&
    (!l.phase.Away? ==> l.job.status == Processing)
  }

  lemma UnsentStep(l: Life, e: Event)
    requires Enabled(l, e) && Unsent(l)
    ensures Unsent(Next(l, e)) && Next(l, e).job.kind == l.job.kind
  {
  }

  lemma {:induction false} UnsentIsKept(l: Life, es: seq<Event>)
    requires Runs(l, es) && Unsent(l)
    ensures Unsent(After(l, es))
    decreases |es|
  {
    if es != [] {
      UnsentStep(l, es[0]);
      UnsentIsKept(Next(l, es[0]), es[1..]);
    }
  }

  /**
   An announcement, welcome, DM or mirror job delivers its lead message at most once in
   any run whatever, so the one announce job of an event pings its role at most once.
   */
  lemma DeliveredAtMostOnce(kind: Kind, maxAttempts: nat, now: int, es: seq<Event>)
    requires kind.Announce? || kind.EventReminder? || kind.EventThreadPing? || kind.ApplicationSubmitted? ||
             kind.GallerySubmitted? || kind.GalleryApproved? || kind.AuditLog? || kind.ApplicationDecision? || kind.Welcome?
    requires Runs(Born(kind, maxAttempts, now), es)
    ensures After(Born(kind, maxAttempts, now), es).delivered <= 1
  {
    UnsentIsKept(Born(kind, maxAttempts, now), es);
  }

  // ── Attempts are bounded ───────────────────────────────────────────────────

  /** Every dispatch is on the row, or in progress, or behind a save that failed. */
  predicate Counted(l: Life) {
    l.restarts == 0 &&
    l.dispatches <= l.job.attempts + (if l.job.status in {Processing, Succeeded} then 1 else 0) &&
    l.job.attempts <= l.job.maxAttempts &&
    (l.job.status in {Pending, Processing, Succeeded} ==> l.job.attempts < l.job.maxAttempts) &&
    (!l.phase.Away? ==> l.job.status == Processing)
  }

  lemma {:induction false} CountedIsKept(l: Life, es: seq<Event>)
    requires Runs(l, es) && Counted(l) && forall e | e in es :: !e.Reap?
    ensures Counted(After(l, es)) && After(l, es).job.maxAttempts == l.job.maxAttempts
    decreases |es|
  {
    if es != [] {
      assert es[0] in es;
      assert forall e | e in es[1..] :: e in es;
      CountedIsKept(Next(l, es[0]), es[1..]);
    }
  }

  /** Without a restart no job is dispatched more often than its attempt limit. */
  lemma DispatchesAreBounded(kind: Kind, maxAttempts: nat, now: int, es: seq<Event>)
    requires maxAttempts > 0 && Runs(Born(kind, maxAttempts, now), es) && forall e | e in es :: !e.Reap?
    ensures After(Born(kind, maxAttempts, now), es).dispatches <= maxAttempts
  {
    CountedIsKept(Born(kind, maxAttempts, now), es);
  }

  // ── Idempotent work is never dropped ───────────────────────────────────────

  /** A row is out of the queue only for a recorded reason. */
  predicate Accounted(l: Life) {
    Idempotent(l.job.kind) &&
    (!l.phase.Away? ==> l.job.status == Processing) &&
    (l.job.status == Succeeded || l.phase.Sent? ==> l.delivered > 0) &&
    (l.job.status == Failed ==> l.job.attempts > 0)
  }

  lemma {:induction false} AccountedIsKept(l: Life, es: seq<Event>)
    requires Runs(l, es) && Accounted(l)
    ensures Accounted(After(l, es))
    decreases |es|
  {
    if es != [] {
      AccountedIsKept(Next(l, es[0]), es[1..]);
    }
  }

  /**
   After a restart an idempotent job is waiting to run again unless it was delivered,
   cancelled, or refused by the gateway for good: a process death alone never ends one.
   */
  lemma RestartRequeuesIdempotentWork(kind: Kind, maxAttempts: nat, born: int, es: seq<Event>, now: int)
    requires kind.RoleAssign? || kind.RoleRemove? || kind.RoleGrant? || kind.RoleScopedSync? || kind.RoleFullResync? ||
             kind.MemberBanRole? || kind.RoleRelinkExpand? || kind.RoleRelinkApply? ||
             kind.EventAnnouncementRefresh? || kind.EventAnnouncementClose?
    requires Runs(Born(kind, maxAttempts, born), es)
    requires After(Born(kind, maxAttempts, born), es).phase.Away?
    ensures var t := Next(After(Born(kind, maxAttempts, born), es), Reap(now));
            t.job.status == Pending || t.job.status == Cancelled ||
            (t.job.status == Succeeded && t.delivered > 0) || (t.job.status == Failed && t.job.attempts > 0)
  {
    AccountedIsKept(Born(kind, maxAttempts, born), es);
  }

  lemma Prepend(l: Life, e: Event, m: Life, es: seq<Event>)
    requires Enabled(l, e) && m == Next(l, e) && Runs(m, es)
    ensures Runs(l, [e] + es) && After(l, [e] + es) == After(m, es)
  {
    assert ([e] + es)[0] == e && ([e] + es)[1..] == es;
  }

  /** A job's clean life, of any kind: one dispatch, one delivery, recorded. */
  lemma CleanLife(l: Life, now: int)
    requires l.phase.Away? && l.job.status == Pending && l.job.scheduledAt <= now
    ensures var run := [Claim(now)] + ([Send(true, false)] + ([Bookkeep(true, now)] + []));
            Runs(l, run) &&
            After(l, run) == l.(job := l.job.(status := Succeeded), delivered := l.delivered + 1, dispatches := l.dispatches + 1)
  {
    var claimed := l.(job := l.job.(status := Processing), phase := Claimed, dispatches := l.dispatches + 1);
    var sent := claimed.(phase := Sent, delivered := l.delivered + 1);
    Prepend(sent, Bookkeep(true, now), sent.(job := l.job.(status := Succeeded), phase := Away), []);
    Prepend(claimed, Send(true, false), sent, [Bookkeep(true, now)] + []);
    Prepend(l, Claim(now), claimed, [Send(true, false)] + ([Bookkeep(true, now)] + []));
  }

  /**
   Why the two sorts are told apart: a process that dies on a call, landed or not, leaves a
   row that is waiting again after the restart exactly when its kind is idempotent; any
   other has failed, though nothing may have gone out.
   */
  lemma ADeadJobIsRerunExactlyWhenIdempotent(l: Life, now: int, landed: bool)
    requires l.phase.Away? && l.job.status == Pending && l.job.scheduledAt <= now
    ensures var run := [Claim(now)] + ([Die(landed)] + ([Reap(now)] + []));
            Runs(l, run) &&
            var t := After(l, run);
            t.delivered == l.delivered + (if landed then 1 else 0) && t.phase.Away? &&
            t.job.status == if Idempotent(l.job.kind) then Pending else Failed
  {
    var claimed := l.(job := l.job.(status := Processing), phase := Claimed, dispatches := l.dispatches + 1);
    var dead := claimed.(phase := Away, delivered := l.delivered + if landed then 1 else 0);
    Prepend(dead, Reap(now), Next(dead, Reap(now)), []);
    Prepend(claimed, Die(landed), dead, [Reap(now)] + []);
    Prepend(l, Claim(now), claimed, [Die(landed)] + ([Reap(now)] + []));
  }

  lemma AnIdempotentJobCanDeliverTwice(now: int)
    ensures var l := Born(RoleAssign, 5, now);
            var run := [Claim(now)] + ([Die(true)] + ([Reap(now)] + ([Claim(now)] + ([Send(true, false)] + ([Bookkeep(true, now)] + [])))));
            Runs(l, run) && After(l, run).delivered == 2
  {
    var l := Born(RoleAssign, 5, now);
    var claimed := l.(job := l.job.(status := Processing), phase := Claimed, dispatches := 1);
    var dead := claimed.(phase := Away, delivered := 1);
    var again := [Claim(now)] + ([Send(true, false)] + ([Bookkeep(true, now)] + []));
    var reaped := Next(dead, Reap(now));
    CleanLife(reaped, now);
    Prepend(dead, Reap(now), reaped, again);
    Prepend(claimed, Die(true), dead, [Reap(now)] + again);
    Prepend(l, Claim(now), claimed, [Die(true)] + ([Reap(now)] + again));
  }

  /** One refused attempt, recorded: back in the queue while attempts remain and the refusal is not for good, else failed. */
  lemma RefusedLife(l: Life, now: int, permanent: bool)
    requires l.phase.Away? && l.job.status == Pending && l.job.scheduledAt <= now
    ensures var run := [Claim(now)] + ([Send(false, permanent)] + ([Bookkeep(true, now)] + []));
            Runs(l, run) &&
            var t := After(l, run);
            t.phase.Away? && t.delivered == l.delivered && t.dispatches == l.dispatches + 1 &&
            t.job.attempts == l.job.attempts + 1 &&
            (t.job.status == Pending <==> l.job.attempts + 1 < l.job.maxAttempts && !permanent) &&
            (t.job.status == Pending || t.job.status == Failed) && (t.job.status == Pending ==> t.job.scheduledAt > now)
  {
    var claimed := l.(job := l.job.(status := Processing), phase := Claimed, dispatches := l.dispatches + 1);
    var refused := claimed.(phase := Refused(permanent));
    Prepend(refused, Bookkeep(true, now), Next(refused, Bookkeep(true, now)), []);
    Prepend(claimed, Send(false, permanent), refused, [Bookkeep(true, now)] + []);
    Prepend(l, Claim(now), claimed, [Send(false, permanent)] + ([Bookkeep(true, now)] + []));
  }
}
