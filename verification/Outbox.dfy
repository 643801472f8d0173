/**
 The outbox table and what one dispatch does to it. Rows are kept in `createdAt`
 order and never deleted, so a row's index is its identity and its place in the queue.
 */
module Outbox {
  import opened Wrappers

  datatype Kind =
    | RoleAssign | RoleRemove | RoleGrant | RoleScopedSync | RoleFullResync | MemberBanRole
    | Announce | EventReminder | EventAnnouncementRefresh | EventThreadPing | EventAnnouncementClose
    | ApplicationSubmitted | GallerySubmitted | GalleryApproved | AuditLog | ApplicationDecision | Welcome
    /** `batch` names one re-link request, and so the rank or medal whose holders are walked. */
    | RoleRelinkExpand(batch: nat, cursor: Option<int>)
    | RoleRelinkApply(batch: nat, member: int)

  datatype Status = Pending | Processing | Succeeded | Failed | Cancelled

  datatype Job = Job(kind: Kind, status: Status, attempts: nat, maxAttempts: nat, scheduledAt: int)

  const BATCH_SIZE: nat := 20
  const BULK_SLOTS_PER_TICK: nat := 12
  const RELINK_PAGE_SIZE: nat := 50
  const DEFAULT_ATTEMPTS: nat := 5

  predicate Bulk(kind: Kind) {
    kind.RoleRelinkExpand? || kind.RoleRelinkApply?
  }

  /** Safe to re-run after a restart: role jobs, and edits recomposed from the database. */
  predicate Idempotent(kind: Kind) {
    kind.RoleAssign? || kind.RoleRemove? || kind.RoleGrant? || kind.RoleScopedSync? || kind.RoleFullResync? ||
    kind.MemberBanRole? || Bulk(kind) || kind.EventAnnouncementRefresh? || kind.EventAnnouncementClose?
  }

  /** The nineteen kinds by name: which are the fan-out's, and which may be run again. */
  lemma KindsByName(kind: Kind)
    ensures Bulk(kind) <==> kind.RoleRelinkExpand? || kind.RoleRelinkApply?
    ensures Idempotent(kind) <==>
            match kind
            case RoleAssign => true
            case RoleRemove => true
            case RoleGrant => true
            case RoleScopedSync => true
            case RoleFullResync => true
            case MemberBanRole => true
            case RoleRelinkExpand(_, _) => true
            case RoleRelinkApply(_, _) => true
            case EventAnnouncementRefresh => true
            case EventAnnouncementClose => true
            case Announce => false
            case EventReminder => false
            case EventThreadPing => false
            case ApplicationSubmitted => false
            case GallerySubmitted => false
            case GalleryApproved => false
            case AuditLog => false
            case ApplicationDecision => false
            case Welcome => false
  {
  }

  function Fresh(kind: Kind, now: int): Job {
    Job(kind, Pending, 0, DEFAULT_ATTEMPTS, now)
  }

  const BACKOFF_MS: seq<nat> := [5_000, 30_000, 120_000, 600_000, 1_800_000]

  /** Retry backoff in milliseconds by attempt number: one step of the table each, then its last step for good. */
  function Backoff(attempts: nat): (ms: nat)
    requires attempts > 0
    ensures ms in BACKOFF_MS
  {
    BACKOFF_MS[(if attempts < |BACKOFF_MS| then attempts else |BACKOFF_MS|) - 1]
  }

  /** Each retry waits longer than the one before, up to the fifth; after that they wait alike. */
  lemma BackoffGrows(earlier: nat, later: nat)
    requires 0 < earlier < later
    ensures if earlier < |BACKOFF_MS| then Backoff(earlier) < Backoff(later) else Backoff(earlier) == Backoff(later)
    ensures Backoff(1) == 5_000 && Backoff(2) == 30_000 && Backoff(3) == 120_000 && Backoff(4) == 600_000
    ensures later >= 5 ==> Backoff(later) == 1_800_000
  {
  }

  datatype Outcome = Delivered | Transient | Permanent

  /** The row after the attempt, as the worker saves it. */
  function Settled(job: Job, outcome: Outcome, now: int): Job {
    if outcome == Delivered then job.(status := Succeeded)
    else if job.attempts + 1 < job.maxAttempts && outcome == Transient then
      job.(status := Pending, attempts := job.attempts + 1, scheduledAt := now + Backoff(job.attempts + 1))
    else job.(status := Failed, attempts := job.attempts + 1)
  }

  /** A failed save leaves the row as the claim left it. */
  function Recorded(job: Job, outcome: Outcome, saved: bool, now: int): Job {
    if saved then Settled(job, outcome, now) else job.(status := Processing)
  }

  /** What the boot-time reaper makes of a row a dead process left behind. */
  function Reaped(job: Job, now: int): Job {
    if job.status != Processing then job
    else if Idempotent(job.kind) then job.(status := Pending, scheduledAt := now)
    else job.(status := Failed)
  }

  // ── The re-link fan-out ────────────────────────────────────────────────────

  predicate Ascending(holders: seq<int>) {
    forall i, j | 0 <= i < j < |holders| :: holders[i] < holders[j]
  }

  /** For each batch, the linked holders of its rank or medal, in id order. */
  type Holders = nat -> seq<int>

  ghost predicate AllAscending(holders: Holders) {
    forall batch :: Ascending(holders(batch))
  }

  /** The holders a page query still has to visit: ids strictly past the cursor, in id order. */
  function Beyond(holders: seq<int>, cursor: Option<int>): seq<int> {
    if holders == [] || cursor.None? || holders[0] > cursor.value then holders else Beyond(holders[1..], cursor)
  }

  function Page(holders: seq<int>, cursor: Option<int>): (page: seq<int>)
    ensures |page| <= RELINK_PAGE_SIZE
  {
    var rest := Beyond(holders, cursor);
    if |rest| <= RELINK_PAGE_SIZE then rest else rest[..RELINK_PAGE_SIZE]
  }

  function ApplyRows(batch: nat, page: seq<int>, now: int): (rows: seq<Job>)
    ensures |rows| == |page|
    ensures forall i | 0 <= i < |page| :: rows[i] == Fresh(RoleRelinkApply(batch, page[i]), now)
  {
    seq(|page|, i requires 0 <= i < |page| => Fresh(RoleRelinkApply(batch, page[i]), now))
  }

  /** A full page may not be the last one, so it is followed by the next cursor. */
  function NextCursor(batch: nat, page: seq<int>, now: int): seq<Job> {
    if |page| == RELINK_PAGE_SIZE then [Fresh(RoleRelinkExpand(batch, Some(page[|page| - 1])), now)] else []
  }

  /** The rows one dispatch may insert: an expansion that threw stops after some of its applies. */
  predicate Spawns(holders: Holders, kind: Kind, outcome: Outcome, now: int, rows: seq<Job>) {
    rows == [] ||
    match kind
    case RoleRelinkExpand(batch, cursor) =>
      var page := Page(holders(batch), cursor);
      if outcome == Delivered then rows == ApplyRows(batch, page, now) + NextCursor(batch, page, now)
      else rows <= ApplyRows(batch, page, now)
    case MemberBanRole => outcome == Delivered && rows == [Fresh(AuditLog, now)]
    // A terminal failure is audited as `discord.sync.failed`, which is never mirrored.
    case _ => false
  }

  /**
   The rows an expansion may insert, one by one: applies of its own batch for holders past
   its cursor, five attempts each and due at once; and after a full page of fifty one cursor.
   */
  lemma ExpansionSpawns(holders: Holders, batch: nat, cursor: Option<int>, outcome: Outcome, now: int, rows: seq<Job>)
    requires AllAscending(holders) && Spawns(holders, RoleRelinkExpand(batch, cursor), outcome, now, rows)
    ensures forall i | 0 <= i < |rows| ::
              rows[i].status == Pending && rows[i].attempts == 0 && rows[i].maxAttempts == 5 && rows[i].scheduledAt == now &&
              match rows[i].kind
              case RoleRelinkApply(b, member) =>
                b == batch && member in holders(batch) && (cursor.Some? ==> member > cursor.value)
              case RoleRelinkExpand(b, next) => b == batch && outcome == Delivered && i == |rows| - 1 == 50 && next.Some?
              case _ => false
  {
    if rows != [] {
      var page := Page(holders(batch), cursor);
      BeyondIsPast(holders(batch), cursor);
      var applies := ApplyRows(batch, page, now);
      forall i | 0 <= i < |rows| && i < |page|
        ensures rows[i] == applies[i] && page[i] in holders(batch) && (cursor.Some? ==> page[i] > cursor.value)
      {
        assert page[i] == Beyond(holders(batch), cursor)[i];
      }
      if |rows| > |page| {
        assert rows == applies + NextCursor(batch, page, now) && rows[|page|] == NextCursor(batch, page, now)[0];
      }
    }
  }

  lemma {:induction false} BeyondIsPast(holders: seq<int>, cursor: Option<int>)
    requires Ascending(holders)
    ensures forall id :: id in Beyond(holders, cursor) <==> id in holders && (cursor.Some? ==> id > cursor.value)
  {
    if holders != [] {
      BeyondIsPast(holders[1..], cursor);
      assert forall id :: id in holders <==> id == holders[0] || id in holders[1..];
      assert forall i | 0 < i < |holders| :: holders[0] < holders[i];
    }
  }

  /** One claimed job run to its end: its row settles, and what it spawned is appended. */
  ghost predicate Dispatched(holders: Holders, js: seq<Job>, i: nat, now: int, ks: seq<Job>) {
    i < |js| && js[i].status == Pending &&
    exists outcome, saved, rows ::
      Spawns(holders, js[i].kind, outcome, now, rows) && ks == js[i := Recorded(js[i], outcome, saved, now)] + rows
  }

  // ── The drain's choice ─────────────────────────────────────────────────────

  predicate Due(job: Job, now: int) {
    job.status == Pending && job.scheduledAt <= now
  }

  predicate Eligible(job: Job, now: int, bulk: bool) {
    Due(job, now) && Bulk(job.kind) == bulk
  }

  /** The first `k` eligible rows in queue order, from `from` on. */
  function Take(js: seq<Job>, now: int, bulk: bool, k: nat, from: nat): (picked: seq<nat>)
    requires from <= |js|
    ensures |picked| <= k
    ensures forall n | 0 <= n < |picked| :: from <= picked[n] < |js| && Eligible(js[picked[n]], now, bulk)
    ensures forall m, n | 0 <= m < n < |picked| :: picked[m] < picked[n]
    decreases |js| - from
  {
    if k == 0 || from == |js| then []
    else if Eligible(js[from], now, bulk) then [from] + Take(js, now, bulk, k - 1, from + 1)
    else Take(js, now, bulk, k, from + 1)
  }

  function BulkPicked(js: seq<Job>, now: int): seq<nat> {
    Take(js, now, true, BULK_SLOTS_PER_TICK, 0)
  }

  function InteractivePicked(js: seq<Job>, now: int): seq<nat> {
    Take(js, now, false, BATCH_SIZE - |BulkPicked(js, now)|, 0)
  }

  /** What one tick drains, in order: the interactive jobs lead. */
  function Picked(js: seq<Job>, now: int): seq<nat> {
    InteractivePicked(js, now) + BulkPicked(js, now)
  }

  /** A processed row: over, abandoned mid-save, or one attempt poorer and backed off. */
  predicate Spent(was: Job, now: Job) {
    now.kind == was.kind && now.maxAttempts == was.maxAttempts &&
    (now.status in {Succeeded, Failed, Processing} ||
     (now.status == Pending && now.attempts == was.attempts + 1 && now.attempts < was.maxAttempts))
  }

  /**
   One tick that got through the first `done` picked rows. A save that throws while a row is
   claimed, or put back, ends the tick there: that row is as it was or spent, the rest untouched.
   */
  ghost predicate Ticked(js: seq<Job>, now: int, done: nat, ks: seq<Job>) {
    var picked := Picked(js, now);
    done <= |picked| && |js| <= |ks| &&
    forall i | 0 <= i < |js| ::
      if i in picked[..done] then Spent(js[i], ks[i])
      else if done < |picked| && i == picked[done] then ks[i] == js[i] || Spent(js[i], ks[i])
      else ks[i] == js[i]
  }

  // ── Bounded waiting ────────────────────────────────────────────────────────

  /** Dispatches a row can still take, if nothing but its own failures re-queues it. */
  function Remaining(job: Job): nat {
    if job.status != Pending then 0
    else if job.attempts < job.maxAttempts then job.maxAttempts - job.attempts
    else 1
  }

  /** The remaining attempts of the rows in `[from, i)`, fan-out rows or the others. */
  function Ahead(js: seq<Job>, bulk: bool, from: nat, i: nat): nat
    requires from <= i <= |js|
    decreases i - from
  {
    if from == i then 0
    else (if Bulk(js[from].kind) == bulk then Remaining(js[from]) else 0) + Ahead(js, bulk, from + 1, i)
  }

  lemma {:induction false} AheadShrinks(js: seq<Job>, ks: seq<Job>, bulk: bool, from: nat, i: nat)
    requires from <= i <= |js| <= |ks|
    requires forall j | from <= j < i :: ks[j].kind == js[j].kind && Remaining(ks[j]) <= Remaining(js[j])
    ensures Ahead(ks, bulk, from, i) <= Ahead(js, bulk, from, i)
    decreases i - from
  {
    if from < i {
      AheadShrinks(js, ks, bulk, from + 1, i);
    }
  }

  /** An eligible row that was passed over saw every one of the `k` slots go to a row ahead of it. */
  lemma {:induction false} PassedOverSpends(js: seq<Job>, ks: seq<Job>, now: int, bulk: bool, k: nat, from: nat, i: nat)
    requires from <= i < |js| <= |ks|
    requires Eligible(js[i], now, bulk) && i !in Take(js, now, bulk, k, from)
    requires forall j | from <= j < i :: ks[j].kind == js[j].kind && Remaining(ks[j]) <= Remaining(js[j])
    requires forall j | j in Take(js, now, bulk, k, from) :: Remaining(ks[j]) < Remaining(js[j])
    ensures Ahead(ks, bulk, from, i) + k <= Ahead(js, bulk, from, i)
    decreases i - from
  {
    if k == 0 {
      AheadShrinks(js, ks, bulk, from, i);
    } else if Eligible(js[from], now, bulk) {
      var rest := Take(js, now, bulk, k - 1, from + 1);
      assert forall j | j in rest :: j in Take(js, now, bulk, k, from);
      PassedOverSpends(js, ks, now, bulk, k - 1, from + 1, i);
    } else {
      PassedOverSpends(js, ks, now, bulk, k, from + 1, i);
    }
  }

  /** What a tick that runs to its end spends on each half: rows picked are spent, the others are as they were. */
  lemma TickSpendsThePicked(js: seq<Job>, ks: seq<Job>, now: int)
    requires Ticked(js, now, |Picked(js, now)|, ks)
    ensures |js| <= |ks| && forall j | 0 <= j < |js| :: ks[j].kind == js[j].kind && Remaining(ks[j]) <= Remaining(js[j])
    ensures forall j | j in InteractivePicked(js, now) :: Remaining(ks[j]) < Remaining(js[j])
    ensures forall j | j in BulkPicked(js, now) :: Remaining(ks[j]) < Remaining(js[j])
  {
    var picked := Picked(js, now);
    assert picked[..|picked|] == picked;
    forall j | 0 <= j < |js| ensures j in picked ==> Spent(js[j], ks[j])
                             ensures j !in picked ==> ks[j] == js[j] {
    }
    forall j | j in InteractivePicked(js, now) || j in BulkPicked(js, now) ensures Remaining(ks[j]) < Remaining(js[j]) {
      assert j in picked && Spent(js[j], ks[j]);
    }
  }

  /**
   A tick that runs to its end and passes over a due job has spent attempts ahead of it:
   twelve of fan-out jobs if it is one, eight of the others if it is not — however deep the
   other half of the queue.
   */
  lemma TickSpends(js: seq<Job>, ks: seq<Job>, now: int, i: nat)
    requires i < |js| && Due(js[i], now) && i !in Picked(js, now)
    requires Ticked(js, now, |Picked(js, now)|, ks)
    ensures var bulk := Bulk(js[i].kind);
            Ahead(ks, bulk, 0, i) + (if bulk then 12 else 8) <= Ahead(js, bulk, 0, i)
  {
    TickSpendsThePicked(js, ks, now);
    if Bulk(js[i].kind) {
      PassedOverSpends(js, ks, now, true, BULK_SLOTS_PER_TICK, 0, i);
    } else {
      PassedOverSpends(js, ks, now, false, BATCH_SIZE - |BulkPicked(js, now)|, 0, i);
    }
  }

  function RowsOf(picks: seq<nat>): set<nat> {
    set i | i in picks
  }

  /** The rows among these that are the fan-out's. */
  function FanOutOf(js: seq<Job>, rows: set<nat>): set<nat> {
    set i | i in rows && i < |js| && (js[i].kind.RoleRelinkExpand? || js[i].kind.RoleRelinkApply?)
  }

  lemma RowsOfBoth(a: seq<nat>, b: seq<nat>)
    ensures RowsOf(a + b) == RowsOf(a) + RowsOf(b)
  {
  }

  lemma KindsOfTheHalves(js: seq<Job>, now: int)
    ensures forall i | i in InteractivePicked(js, now) :: i < |js| && !Bulk(js[i].kind)
    ensures forall i | i in BulkPicked(js, now) :: i < |js| && Bulk(js[i].kind)
  {
  }

  lemma HalvesOfThePick(js: seq<Job>, now: int)
    ensures FanOutOf(js, RowsOf(Picked(js, now))) == RowsOf(BulkPicked(js, now))
    ensures RowsOf(Picked(js, now)) - RowsOf(BulkPicked(js, now)) == RowsOf(InteractivePicked(js, now))
    ensures |RowsOf(BulkPicked(js, now))| == |BulkPicked(js, now)|
    ensures |RowsOf(Picked(js, now))| == |Picked(js, now)|
  {
    RowsOfBoth(InteractivePicked(js, now), BulkPicked(js, now));
    KindsOfTheHalves(js, now);
    SplitByKind(js, InteractivePicked(js, now), BulkPicked(js, now));
    SizeOfTaken(BulkPicked(js, now));
    SizeOfTaken(InteractivePicked(js, now));
  }

  lemma SplitByKind(js: seq<Job>, others: seq<nat>, fanOut: seq<nat>)
    requires forall i | i in others :: i < |js| && !Bulk(js[i].kind)
    requires forall i | i in fanOut :: i < |js| && Bulk(js[i].kind)
    ensures FanOutOf(js, RowsOf(others) + RowsOf(fanOut)) == RowsOf(fanOut)
    ensures RowsOf(others) + RowsOf(fanOut) - RowsOf(fanOut) == RowsOf(others)
    ensures |RowsOf(others) + RowsOf(fanOut)| == |RowsOf(others)| + |RowsOf(fanOut)|
  {
    assert RowsOf(others) !! RowsOf(fanOut);
  }

  lemma {:induction false} SizeOfTaken(taken: seq<nat>)
    requires forall m, n | 0 <= m < n < |taken| :: taken[m] < taken[n]
    ensures |RowsOf(taken)| == |taken|
  {
    if taken != [] {
      var last, init := taken[|taken| - 1], taken[..|taken| - 1];
      SizeOfTaken(init);
      assert RowsOf(taken) == RowsOf(init) + {last} by {
        assert taken == init + [last];
      }
      assert last !in RowsOf(init) by {
        assert forall m | 0 <= m < |init| :: init[m] < last;
      }
    }
  }

  lemma {:induction false} LeftOut(js: seq<Job>, now: int, bulk: bool, k: nat, from: nat, i: nat)
    requires from <= i < |js| && Eligible(js[i], now, bulk) && i !in Take(js, now, bulk, k, from)
    ensures |Take(js, now, bulk, k, from)| == k && forall j | j in Take(js, now, bulk, k, from) :: j < i
    decreases i - from
  {
    if k > 0 {
      var less := if Eligible(js[from], now, bulk) then k - 1 else k;
      if less < k {
        assert Take(js, now, bulk, k, from) == [from] + Take(js, now, bulk, less, from + 1);
        assert from in Take(js, now, bulk, k, from);
        assert forall j | j in Take(js, now, bulk, less, from + 1) :: j in Take(js, now, bulk, k, from);
      }
      LeftOut(js, now, bulk, less, from + 1, i);
    }
  }

  /** Why a due row may be left out: twelve of its own sort before it, or all twenty slots taken. */
  predicate LeftOutFairly(js: seq<Job>, picked: set<nat>, i: nat)
    requires i < |js|
  {
    var fanOut := FanOutOf(js, picked);
    if js[i].kind.RoleRelinkExpand? || js[i].kind.RoleRelinkApply?
    then |fanOut| == 12 && forall j | j in fanOut :: j < i
    else |picked| == 20 && forall j | j in picked - fanOut :: j < i
  }

  lemma DueIsPickedOrLeftOutFairly(js: seq<Job>, now: int, i: nat)
    requires i < |js| && Due(js[i], now) && i !in Picked(js, now)
    ensures LeftOutFairly(js, RowsOf(Picked(js, now)), i)
  {
    HalvesOfThePick(js, now);
    if Bulk(js[i].kind) {
      LeftOut(js, now, true, BULK_SLOTS_PER_TICK, 0, i);
    } else {
      LeftOut(js, now, false, BATCH_SIZE - |BulkPicked(js, now)|, 0, i);
    }
  }

  /**
   The choice itself, row by row: only due rows, at most twelve of the fan-out and twenty in
   all, the fan-out last and within each half the older row first; a due fan-out row is left out only for twelve before it, any other only when all
   twenty are taken and by rows of its own sort before it.
   */
  lemma PickIsFair(js: seq<Job>, now: int)
    ensures forall i | i in Picked(js, now) :: i < |js| && js[i].status == Pending && js[i].scheduledAt <= now
    ensures |Picked(js, now)| <= 20 && |RowsOf(Picked(js, now))| == |Picked(js, now)|
    ensures |FanOutOf(js, RowsOf(Picked(js, now)))| <= 12
    ensures forall m, n | 0 <= m < n < |Picked(js, now)| ::
              var earlier, later := Picked(js, now)[m], Picked(js, now)[n];
              earlier < |js| && later < |js| &&
              var first, second := js[earlier].kind, js[later].kind;
              if first.RoleRelinkExpand? || first.RoleRelinkApply?
              then (second.RoleRelinkExpand? || second.RoleRelinkApply?) && earlier < later
              else second.RoleRelinkExpand? || second.RoleRelinkApply? || earlier < later
    ensures forall i: nat | i < |js| && js[i].status == Pending && js[i].scheduledAt <= now && i !in Picked(js, now) ::
              LeftOutFairly(js, RowsOf(Picked(js, now)), i)
  {
    HalvesOfThePick(js, now);
    forall i: nat | i < |js| && js[i].status == Pending && js[i].scheduledAt <= now && i !in Picked(js, now)
      ensures LeftOutFairly(js, RowsOf(Picked(js, now)), i)
    {
      DueIsPickedOrLeftOutFairly(js, now, i);
    }
  }

  lemma SameSizeIsAll(a: set<nat>, b: set<nat>)
    requires a <= b && |b| <= |a|
    ensures a == b
  {
    assert b == a + (b - a) && |b| == |a| + |b - a|;
  }

  /** So a tick with at most twelve due fan-out rows and eight other due rows leaves none of them out. */
  lemma ALightTickTakesAll(js: seq<Job>, now: int, due: set<nat>)
    requires due == set i: nat | i < |js| && js[i].status == Pending && js[i].scheduledAt <= now
    requires |FanOutOf(js, due)| <= 12 && |due - FanOutOf(js, due)| <= 8
    ensures forall i :: i in Picked(js, now) <==> i in due
  {
    PickIsFair(js, now);
    forall i | i in due ensures i in Picked(js, now) {
      if i !in Picked(js, now) {
        LeftOutOnlyUnderLoad(js, due, RowsOf(Picked(js, now)), i);
      }
    }
  }

  /** And run to its end it has dispatched every one of them. */
  lemma ALightTickDrainsAll(js: seq<Job>, now: int, ks: seq<Job>, due: set<nat>)
    requires due == set i: nat | i < |js| && js[i].status == Pending && js[i].scheduledAt <= now
    requires |FanOutOf(js, due)| <= 12 && |due - FanOutOf(js, due)| <= 8
    requires Ticked(js, now, |Picked(js, now)|, ks)
    ensures |js| <= |ks|
    ensures forall i | i in due :: ks[i].status in {Succeeded, Failed, Processing} || ks[i].attempts == js[i].attempts + 1
    ensures forall i | 0 <= i < |js| && i !in due :: ks[i] == js[i]
  {
    ALightTickTakesAll(js, now, due);
    var picked := Picked(js, now);
    assert picked[..|picked|] == picked;
    forall i | 0 <= i < |js| ensures if i in due then Spent(js[i], ks[i]) else ks[i] == js[i] {
      assert i in due <==> i in picked[..|picked|];
    }
  }

  lemma LeftOutOnlyUnderLoad(js: seq<Job>, due: set<nat>, picked: set<nat>, i: nat)
    requires picked <= due && i in due && i < |js| && |FanOutOf(js, picked)| <= 12 && LeftOutFairly(js, picked, i)
    requires |FanOutOf(js, due)| <= 12 && |due - FanOutOf(js, due)| <= 8
    ensures i in picked
  {
    var taken := FanOutOf(js, picked);
    assert picked == taken + (picked - taken) && |picked| == |taken| + |picked - taken|;
    if i in FanOutOf(js, due) {
      SameSizeIsAll(taken, FanOutOf(js, due));
    } else {
      SameSizeIsAll(picked - taken, due - FanOutOf(js, due));
    }
  }

  /** What a tick does to each row that was there: it touches due rows only, and run to its end leaves a due one out only fairly. */
  lemma TickRowByRow(js: seq<Job>, now: int, done: nat, ks: seq<Job>)
    requires Ticked(js, now, done, ks)
    ensures |js| <= |ks|
    ensures forall i | 0 <= i < |js| ::
              ks[i] == js[i] ||
              (js[i].status == Pending && js[i].scheduledAt <= now && ks[i].kind == js[i].kind &&
               (ks[i].status in {Succeeded, Failed, Processing} ||
                (ks[i].status == Pending && ks[i].attempts == js[i].attempts + 1 && ks[i].attempts < js[i].maxAttempts)))
    ensures done == |Picked(js, now)| ==>
              forall i: nat | i < |js| && js[i].status == Pending && js[i].scheduledAt <= now && ks[i] == js[i] ::
                LeftOutFairly(js, RowsOf(Picked(js, now)), i)
  {
    var picked := Picked(js, now);
    forall i | 0 <= i < |js| && ks[i] != js[i] ensures i in picked && Spent(js[i], ks[i]) {
    }
    if done == |picked| {
      assert picked[..done] == picked;
      forall i: nat | i < |js| && Due(js[i], now) && ks[i] == js[i] ensures LeftOutFairly(js, RowsOf(picked), i) {
        assert !Spent(js[i], js[i]);
        DueIsPickedOrLeftOutFairly(js, now, i);
      }
    }
  }

  /** A tick cut short may spend nothing, but it gives nothing back. */
  lemma CutTickSpends(js: seq<Job>, ks: seq<Job>, now: int, done: nat, i: nat)
    requires i < |js| && Ticked(js, now, done, ks)
    ensures forall bulk :: Ahead(ks, bulk, 0, i) <= Ahead(js, bulk, 0, i)
  {
    AheadShrinks(js, ks, true, 0, i);
    AheadShrinks(js, ks, false, 0, i);
  }

  /** Between ticks a row may be re-queued or failed by a restart's reaper, and cancelled while it waits. */
  predicate MayBecome(was: Job, job: Job) {
    var reaped := Reaped(was, job.scheduledAt);
    job == was || job == reaped || (reaped.status == Pending && job == reaped.(status := Cancelled))
  }

  /** Rows may be appended too; a reaper that throws has been to some of the rows only. */
  predicate BetweenTicks(ks: seq<Job>, js: seq<Job>) {
    |ks| <= |js| && forall i | 0 <= i < |ks| :: MayBecome(ks[i], js[i])
  }

  /** The attempts a restart gives back to the rows in `[from, i)`, fan-out rows or the others. */
  function GivenBack(ks: seq<Job>, js: seq<Job>, bulk: bool, from: nat, i: nat): nat
    requires from <= i <= |ks| <= |js|
    decreases i - from
  {
    if from == i then 0
    else
      (if Bulk(ks[from].kind) == bulk && ks[from].status == Processing then Remaining(js[from]) else 0) +
      GivenBack(ks, js, bulk, from + 1, i)
  }

  lemma {:induction false} RestartGivesBack(ks: seq<Job>, js: seq<Job>, bulk: bool, from: nat, i: nat)
    requires BetweenTicks(ks, js) && from <= i <= |ks|
    ensures Ahead(js, bulk, from, i) <= Ahead(ks, bulk, from, i) + GivenBack(ks, js, bulk, from, i)
    decreases i - from
  {
    if from < i {
      assert MayBecome(ks[from], js[from]);
      RestartGivesBack(ks, js, bulk, from + 1, i);
    }
  }

  /**
   Row by row, all that can happen between ticks: new rows, a waiting row cancelled, a row
   left processing re-queued, or cancelled after that, or failed — and nothing else.
   */
  lemma BetweenTicksInFull(ks: seq<Job>, js: seq<Job>)
    ensures BetweenTicks(ks, js) <==>
            |ks| <= |js| &&
            forall i | 0 <= i < |ks| ::
              var again := Idempotent(ks[i].kind);
              js[i] == ks[i] ||
              (ks[i].status == Pending && js[i] == ks[i].(status := Cancelled)) ||
              (ks[i].status == Processing && again && js[i] == ks[i].(status := Pending, scheduledAt := js[i].scheduledAt)) ||
              (ks[i].status == Processing && again && js[i] == ks[i].(status := Cancelled, scheduledAt := js[i].scheduledAt)) ||
              (ks[i].status == Processing && !again && js[i] == ks[i].(status := Failed))
  {
  }

  datatype Tick = Tick(before: seq<Job>, now: int, done: nat, after: seq<Job>)

  ghost predicate Ticks(run: seq<Tick>) {
    (forall n | 0 <= n < |run| :: Ticked(run[n].before, run[n].now, run[n].done, run[n].after)) &&
    (forall n | 0 < n < |run| :: BetweenTicks(run[n - 1].after, run[n].before))
  }

  predicate Complete(tick: Tick) {
    tick.done == |Picked(tick.before, tick.now)|
  }

  function Completed(run: seq<Tick>): nat {
    if run == [] then 0 else (if Complete(run[0]) then 1 else 0) + Completed(run[1..])
  }

  /** Any tick at all starts a run, and any tick after what may happen in between carries one on. */
  lemma RunsGrow(run: seq<Tick>, tick: Tick)
    requires Ticked(tick.before, tick.now, tick.done, tick.after)
    ensures Ticks([tick])
    ensures run != [] && Ticks(run) && BetweenTicks(run[|run| - 1].after, tick.before) ==> Ticks(run + [tick])
  {
  }

  /** A tick that is not cut short counts. */
  lemma {:induction false} EveryTickCompleted(run: seq<Tick>)
    requires forall n | 0 <= n < |run| :: run[n].done == |Picked(run[n].before, run[n].now)|
    ensures Completed(run) == |run|
  {
    if run != [] {
      assert forall n | 0 <= n < |run[1..]| :: run[1..][n] == run[n + 1];
      EveryTickCompleted(run[1..]);
    }
  }

  /** In every tick of the run the job was due and the tick left it as it was. */
  ghost predicate KeptWaiting(run: seq<Tick>, i: nat) {
    forall n | 0 <= n < |run| ::
      i < |run[n].before| && run[n].before[i].status == Pending && run[n].before[i].scheduledAt <= run[n].now &&
      i < |run[n].after| && run[n].after[i] == run[n].before[i]
  }

  /** What restarts gave back to such rows ahead of `i` in the course of the run. */
  ghost function Requeued(run: seq<Tick>, bulk: bool, i: nat): nat
    requires Ticks(run) && forall n | 0 <= n < |run| :: i < |run[n].before|
    decreases |run|
  {
    if |run| < 2 then 0
    else
      assert Ticked(run[0].before, run[0].now, run[0].done, run[0].after) && BetweenTicks(run[0].after, run[1].before);
      GivenBack(run[0].after, run[1].before, bulk, 0, i) + Requeued(run[1..], bulk, i)
  }

  lemma KindIsKept(tick: Tick, next: Tick, i: nat)
    requires i < |tick.before| && Ticked(tick.before, tick.now, tick.done, tick.after) && BetweenTicks(tick.after, next.before)
    ensures i < |next.before| && next.before[i].kind == tick.before[i].kind
  {
    assert MayBecome(tick.after[i], next.before[i]);
  }

  /**
   Bounded waiting, for both halves. While a due job is kept waiting, the ticks that run to
   their end number at most a twelfth of the attempts left to the fan-out jobs ahead of it
   and those that restarts give back, if it is one of them, and at most an eighth of the
   others' if it is not — however many ticks a failing save or a dying process cuts short
   in between.
   */
  lemma {:induction false} BoundedWaiting(run: seq<Tick>, i: nat)
    requires run != [] && Ticks(run) && KeptWaiting(run, i)
    ensures var bulk := Bulk(run[0].before[i].kind);
            (if bulk then 12 else 8) * Completed(run) <= Ahead(run[0].before, bulk, 0, i) + Requeued(run, bulk, i)
    decreases |run|
  {
    var first, rest := run[0], run[1..];
    if Complete(first) {
      assert Picked(first.before, first.now)[..first.done] == Picked(first.before, first.now);
      assert !Spent(first.before[i], first.after[i]);
      TickSpends(first.before, first.after, first.now, i);
    } else {
      CutTickSpends(first.before, first.after, first.now, first.done, i);
    }
    if rest != [] {
      assert forall n | 0 <= n < |rest| :: rest[n] == run[n + 1];
      KindIsKept(first, rest[0], i);
      RestartGivesBack(first.after, rest[0].before, Bulk(first.before[i].kind), 0, i);
      BoundedWaiting(rest, i);
    }
  }

  /** The same, as the number of ticks it takes: one of so many that run to their end reaches it. */
  lemma DispatchedWithin(run: seq<Tick>, i: nat)
    requires run != [] && Ticks(run)
    requires forall n | 0 <= n < |run| ::
               i < |run[n].before| && run[n].before[i].status == Pending && run[n].before[i].scheduledAt <= run[n].now
    requires var bulk := Bulk(run[0].before[i].kind);
             Completed(run) == (Ahead(run[0].before, bulk, 0, i) + Requeued(run, bulk, i)) / (if bulk then 12 else 8) + 1
    ensures exists n :: 0 <= n < |run| && i < |run[n].after| && run[n].after[i] != run[n].before[i]
  {
    assert forall n | 0 <= n < |run| :: Ticked(run[n].before, run[n].now, run[n].done, run[n].after);
    if KeptWaiting(run, i) {
      BoundedWaiting(run, i);
      assert false;
    }
  }

  /** Rows the reaper has not been to give nothing back. */
  lemma {:induction false} NothingGivenBack(ks: seq<Job>, js: seq<Job>, bulk: bool, from: nat, i: nat)
    requires from <= i <= |ks| <= |js|
    requires forall j | from <= j < i :: ks[j].status == Processing ==> js[j].status == Processing
    ensures GivenBack(ks, js, bulk, from, i) == 0
    decreases i - from
  {
    if from < i {
      NothingGivenBack(ks, js, bulk, from + 1, i);
    }
  }

  /** No reaper has been to a row ahead of `i` in the course of the run. */
  ghost predicate OneLife(run: seq<Tick>, i: nat)
    requires Ticks(run) && forall n | 0 <= n < |run| :: i < |run[n].before|
  {
    forall n, j | 0 < n < |run| && 0 <= j < i ::
      run[n - 1].after[j].status == Processing ==> run[n].before[j].status == Processing
  }

  /** Rows other than those left processing never matter to it. */
  lemma NothingProcessingIsOneLife(run: seq<Tick>, i: nat)
    requires Ticks(run) && forall n | 0 <= n < |run| :: i < |run[n].before|
    requires forall n, j | 0 <= n < |run| && 0 <= j < i :: run[n].after[j].status != Processing
    ensures OneLife(run, i)
  {
  }

  /** So in one life of the process the bound is the attempts ahead at its start. */
  lemma {:induction false} OneLifeGivesNothingBack(run: seq<Tick>, bulk: bool, i: nat)
    requires Ticks(run) && (forall n | 0 <= n < |run| :: i < |run[n].before|) && OneLife(run, i)
    ensures Requeued(run, bulk, i) == 0
    decreases |run|
  {
    if |run| >= 2 {
      var rest := run[1..];
      assert BetweenTicks(run[0].after, run[1].before);
      NothingGivenBack(run[0].after, run[1].before, bulk, 0, i);
      assert forall n | 0 <= n < |rest| :: rest[n] == run[n + 1];
      OneLifeGivesNothingBack(rest, bulk, i);
    }
  }

  /** Rows of five attempts or fewer, as the queue's are unless asked otherwise, put at most five each ahead of a later one. */
  lemma {:induction false} FiveAttemptsEach(js: seq<Job>, bulk: bool, from: nat, i: nat, rows: set<nat>)
    requires from <= i <= |js| && forall j | from <= j < i :: js[j].maxAttempts <= 5
    requires rows == set j: nat | from <= j < i && js[j].status == Pending && Bulk(js[j].kind) == bulk
    ensures Ahead(js, bulk, from, i) <= 5 * |rows|
    decreases i - from
  {
    if from < i {
      var rest := rows - {from};
      FiveAttemptsEach(js, bulk, from + 1, i, rest);
      assert |rest| == if from in rows then |rows| - 1 else |rows|;
    }
  }

  /** In one life of the process the bound is what is ahead of the job at the start. */
  lemma WaitsInOneLife(run: seq<Tick>, i: nat)
    requires run != [] && Ticks(run) && KeptWaiting(run, i)
    requires OneLife(run, i)
    ensures var bulk := Bulk(run[0].before[i].kind);
            (if bulk then 12 else 8) * Completed(run) <= Ahead(run[0].before, bulk, 0, i)
  {
    OneLifeGivesNothingBack(run, Bulk(run[0].before[i].kind), i);
    BoundedWaiting(run, i);
  }

  /**
   With five attempts a row a due job is then kept waiting through at most 5n/8 ticks that
   run to their end, n being the jobs of its sort waiting ahead of it; 5n/12 in the fan-out.
   */
  lemma WaitsAtMost(run: seq<Tick>, i: nat, rows: set<nat>)
    requires run != [] && Ticks(run) && KeptWaiting(run, i)
    requires OneLife(run, i)
    requires forall j | 0 <= j < i :: run[0].before[j].maxAttempts <= 5
    requires var js := run[0].before;
             rows == set j: nat | j < i && js[j].status == Pending && Bulk(js[j].kind) == Bulk(js[i].kind)
    ensures Bulk(run[0].before[i].kind) ==> 12 * Completed(run) <= 5 * |rows|
    ensures !Bulk(run[0].before[i].kind) ==> 8 * Completed(run) <= 5 * |rows|
    ensures (forall n | 0 <= n < |run| :: run[n].done == |Picked(run[n].before, run[n].now)|) ==> Completed(run) == |run|
  {
    var js := run[0].before;
    WaitsInOneLife(run, i);
    FiveAttemptsEach(js, Bulk(js[i].kind), 0, i, rows);
    if forall n | 0 <= n < |run| :: run[n].done == |Picked(run[n].before, run[n].now)| {
      EveryTickCompleted(run);
    }
  }

  // ── Termination ────────────────────────────────────────────────────────────

  /** Dispatches a brand-new cursor over `h` unvisited holders can still cause, itself included. */
  function Chain(h: nat): nat {
    5 * (1 + 5 * (if h < RELINK_PAGE_SIZE then h else RELINK_PAGE_SIZE)) +
    (if h >= RELINK_PAGE_SIZE then Chain(h - RELINK_PAGE_SIZE) else 0)
  }

  /** Dispatches a row can still cause: its own, and those of everything it may spawn. */
  function Cost(holders: Holders, job: Job): nat {
    if job.status != Pending then 0
    else
      match job.kind
      case RoleRelinkExpand(batch, cursor) =>
        var h := |Beyond(holders(batch), cursor)|;
        Remaining(job) * (1 + DEFAULT_ATTEMPTS * |Page(holders(batch), cursor)|) +
        (if h >= RELINK_PAGE_SIZE then Chain(h - RELINK_PAGE_SIZE) else 0)
      case MemberBanRole => Remaining(job) + DEFAULT_ATTEMPTS
      case _ => Remaining(job)
  }

  function Total(holders: Holders, js: seq<Job>): nat {
    if js == [] then 0 else Total(holders, js[..|js| - 1]) + Cost(holders, js[|js| - 1])
  }

  lemma {:induction false} TotalAppend(holders: Holders, js: seq<Job>, ks: seq<Job>)
    ensures Total(holders, js + ks) == Total(holders, js) + Total(holders, ks)
    decreases |ks|
  {
    if ks == [] {
      assert js + ks == js;
    } else {
      var init := ks[..|ks| - 1];
      assert (js + ks)[..|js + ks| - 1] == js + init;
      TotalAppend(holders, js, init);
    }
  }

  lemma {:induction false} TotalUpdate(holders: Holders, js: seq<Job>, i: nat, job: Job)
    requires i < |js|
    ensures Total(holders, js[i := job]) + Cost(holders, js[i]) == Total(holders, js) + Cost(holders, job)
    decreases |js|
  {
    var init := js[..|js| - 1];
    if i < |init| {
      TotalUpdate(holders, init, i, job);
      assert js[i := job][..|js| - 1] == init[i := job];
    } else {
      assert js[i := job][..|js| - 1] == init;
    }
  }

  lemma {:induction false} AppliesCost(holders: Holders, rows: seq<Job>)
    requires forall k | 0 <= k < |rows| ::
               rows[k].kind.RoleRelinkApply? && rows[k].status == Pending && Remaining(rows[k]) == DEFAULT_ATTEMPTS
    ensures Total(holders, rows) == DEFAULT_ATTEMPTS * |rows|
  {
    if rows != [] {
      AppliesCost(holders, rows[..|rows| - 1]);
    }
  }

  lemma {:induction false} BeyondLast(holders: seq<int>, cursor: Option<int>, n: nat)
    requires Ascending(holders) && 0 < n <= |Beyond(holders, cursor)|
    ensures Beyond(holders, Some(Beyond(holders, cursor)[n - 1])) == Beyond(holders, cursor)[n..]
  {
    var rest := Beyond(holders, cursor);
    if holders == rest {
      BeyondAt(holders, n);
    } else {
      BeyondLast(holders[1..], cursor, n);
      BeyondIsSuffix(holders[1..], cursor);
      assert rest[n - 1] in holders[1..];
      assert holders[0] < rest[n - 1];
    }
  }

  lemma {:induction false} BeyondAt(holders: seq<int>, n: nat)
    requires Ascending(holders) && 0 < n <= |holders|
    ensures Beyond(holders, Some(holders[n - 1])) == holders[n..]
  {
    if n > 1 {
      BeyondAt(holders[1..], n - 1);
      assert holders[1..][n - 1..] == holders[n..];
    } else {
      var tail := holders[1..];
      assert tail != [] ==> tail[0] > holders[0];
      assert Beyond(tail, Some(holders[0])) == tail;
    }
  }

  lemma {:induction false} BeyondIsSuffix(holders: seq<int>, cursor: Option<int>)
    ensures |Beyond(holders, cursor)| <= |holders|
    ensures Beyond(holders, cursor) == holders[|holders| - |Beyond(holders, cursor)|..]
  {
    if Beyond(holders, cursor) != holders {
      BeyondIsSuffix(holders[1..], cursor);
    }
  }

  /** What one attempt costs: a page of applies and the attempt itself. */
  function AttemptCost(holders: seq<int>, cursor: Option<int>): nat {
    1 + DEFAULT_ATTEMPTS * |Page(holders, cursor)|
  }

  /** What the cursors after a full page are kept for. */
  function Reserve(h: nat): nat {
    if h >= RELINK_PAGE_SIZE then Chain(h - RELINK_PAGE_SIZE) else 0
  }

  lemma CursorCost(holders: Holders, job: Job)
    requires job.status == Pending && job.kind.RoleRelinkExpand?
    ensures Cost(holders, job) ==
            Remaining(job) * AttemptCost(holders(job.kind.batch), job.kind.cursor) +
            Reserve(|Beyond(holders(job.kind.batch), job.kind.cursor)|)
  {
  }

  lemma OneTimeLess(n: nat, w: nat)
    requires n >= 1
    ensures (n - 1) * w + w == n * w && n * w >= w
  {
  }

  /** An attempt that settles the cursor, or loses its save, gives up everything but what it delivered. */
  lemma LastAttempt(holders: Holders, job: Job, after: Job)
    requires job.status == Pending && job.kind.RoleRelinkExpand? && after.status != Pending
    ensures Cost(holders, after) + AttemptCost(holders(job.kind.batch), job.kind.cursor) +
            Reserve(|Beyond(holders(job.kind.batch), job.kind.cursor)|) <= Cost(holders, job)
  {
    CursorCost(holders, job);
    OneTimeLess(Remaining(job), AttemptCost(holders(job.kind.batch), job.kind.cursor));
  }

  /** An attempt that puts the cursor back gives up one attempt. */
  lemma RetriedAttempt(holders: Holders, job: Job, after: Job)
    requires job.status == after.status == Pending && job.kind.RoleRelinkExpand? && after.kind == job.kind
    requires Remaining(after) == Remaining(job) - 1
    ensures Cost(holders, after) + AttemptCost(holders(job.kind.batch), job.kind.cursor) == Cost(holders, job)
  {
    CursorCost(holders, job);
    CursorCost(holders, after);
    OneTimeLess(Remaining(job), AttemptCost(holders(job.kind.batch), job.kind.cursor));
  }

  lemma OneAttemptLess(holders: Holders, job: Job, outcome: Outcome, saved: bool, now: int)
    requires job.status == Pending && job.kind.RoleRelinkExpand?
    ensures Cost(holders, Recorded(job, outcome, saved, now)) + AttemptCost(holders(job.kind.batch), job.kind.cursor) <=
            Cost(holders, job) -
            (if outcome == Delivered then Reserve(|Beyond(holders(job.kind.batch), job.kind.cursor)|) else 0)
  {
    var after := Recorded(job, outcome, saved, now);
    if after.status == Pending {
      RetriedAttempt(holders, job, after);
    } else {
      LastAttempt(holders, job, after);
    }
  }

  /** A delivered expansion inserts a page of applies and, after a full one, a cursor over the rest. */
  lemma PageAndCursorCost(holders: Holders, batch: nat, cursor: Option<int>, now: int)
    requires AllAscending(holders)
    ensures var page, h := Page(holders(batch), cursor), |Beyond(holders(batch), cursor)|;
            Total(holders, ApplyRows(batch, page, now) + NextCursor(batch, page, now)) ==
            DEFAULT_ATTEMPTS * |page| + Reserve(h)
  {
    var page := Page(holders(batch), cursor);
    var applies, next := ApplyRows(batch, page, now), NextCursor(batch, page, now);
    AppliesCost(holders, applies);
    TotalAppend(holders, applies, next);
    if next != [] {
      BeyondLast(holders(batch), cursor, RELINK_PAGE_SIZE);
      CostOfFreshCursor(holders, next[0]);
      TotalOne(holders, next[0]);
    }
  }

  lemma ExpandIsReserved(holders: Holders, job: Job, outcome: Outcome, saved: bool, now: int, rows: seq<Job>)
    requires AllAscending(holders) && job.status == Pending && job.kind.RoleRelinkExpand?
    requires Spawns(holders, job.kind, outcome, now, rows) && rows != []
    ensures Cost(holders, Recorded(job, outcome, saved, now)) + Total(holders, rows) + 1 <= Cost(holders, job)
  {
    OneAttemptLess(holders, job, outcome, saved, now);
    if outcome == Delivered {
      PageAndCursorCost(holders, job.kind.batch, job.kind.cursor, now);
    } else {
      var applies := ApplyRows(job.kind.batch, Page(holders(job.kind.batch), job.kind.cursor), now);
      assert forall k | 0 <= k < |rows| :: rows[k] == applies[k];
      AppliesCost(holders, rows);
    }
  }

  lemma TotalOne(holders: Holders, job: Job)
    ensures Total(holders, [job]) == Cost(holders, job)
  {
  }

  /** What a dispatch spawns was already paid for by the row it settles, with one to spare. */
  lemma SpawnsAreReserved(holders: Holders, job: Job, outcome: Outcome, saved: bool, now: int, rows: seq<Job>)
    requires AllAscending(holders) && job.status == Pending && Spawns(holders, job.kind, outcome, now, rows)
    ensures Cost(holders, Recorded(job, outcome, saved, now)) + Total(holders, rows) + 1 <= Cost(holders, job)
  {
    if job.kind.RoleRelinkExpand? {
      if rows != [] {
        ExpandIsReserved(holders, job, outcome, saved, now, rows);
      } else {
        OneAttemptLess(holders, job, outcome, saved, now);
      }
    } else if rows != [] {
      TotalOne(holders, rows[0]);
    }
  }

  lemma CostOfFreshCursor(holders: Holders, job: Job)
    requires job.kind.RoleRelinkExpand? && job.status == Pending && job.attempts == 0 && job.maxAttempts == DEFAULT_ATTEMPTS
    ensures Cost(holders, job) == Chain(|Beyond(holders(job.kind.batch), job.kind.cursor)|)
  {
  }

  lemma DispatchCosts(holders: Holders, js: seq<Job>, i: nat, now: int, ks: seq<Job>)
    requires AllAscending(holders) && Dispatched(holders, js, i, now, ks)
    ensures Total(holders, ks) + 1 <= Total(holders, js)
  {
    var outcome, saved, rows :|
      Spawns(holders, js[i].kind, outcome, now, rows) && ks == js[i := Recorded(js[i], outcome, saved, now)] + rows;
    SpawnsAreReserved(holders, js[i], outcome, saved, now, rows);
    TotalUpdate(holders, js, i, Recorded(js[i], outcome, saved, now));
    TotalAppend(holders, js[i := Recorded(js[i], outcome, saved, now)], rows);
  }

  datatype Dispatch = Dispatch(i: nat, now: int)

  /**
   Termination: even a gateway that always fails gets finitely many dispatches, and this is
   how many, in a run with no outside enqueue and no restart: one dispatch after another.
   */
  lemma {:induction false} FinitelyManyDispatches(holders: Holders, states: seq<seq<Job>>, run: seq<Dispatch>)
    requires AllAscending(holders) && |states| == |run| + 1
    requires forall n | 0 <= n < |run| :: Dispatched(holders, states[n], run[n].i, run[n].now, states[n + 1])
    ensures |run| + Total(holders, states[|run|]) <= Total(holders, states[0])
    decreases |run|
  {
    if run != [] {
      DispatchCosts(holders, states[0], run[0].i, run[0].now, states[1]);
      assert forall n | 0 <= n < |run[1..]| :: run[1..][n] == run[n + 1] && states[1..][n] == states[n + 1];
      FinitelyManyDispatches(holders, states[1..], run[1..]);
    }
  }
}
