/**
 The drain itself: claim, dispatch, record, retry, reap. The gateway and the database
 answer nondeterministically; what a tick does to the table is pinned down by `Outbox`.
 */
module OutboxWorker {
  import opened Outbox
  import opened Wrappers

  class DiscordSyncWorker {
    const holders: Holders
    var jobs: seq<Job>
    var draining: bool

    constructor (holders: Holders, jobs: seq<Job>)
      ensures this.holders == holders && this.jobs == jobs && !draining
    {
      this.holders, this.jobs, draining := holders, jobs, false;
    }

    method InsertJob(kind: Kind, now: int)
      modifies this`jobs
      ensures jobs == old(jobs) + [Fresh(kind, now)]
      ensures jobs == old(jobs) + [Job(kind, Pending, 0, 5, now)]
    {
      jobs := jobs + [Job(kind, Pending, 0, DEFAULT_ATTEMPTS, now)];
    }

    /** Expand one page; an insert may throw, and a gate or a cancel stops it before the first. */
    method ExpandRelinkPage(batch: nat, cursor: Option<int>, now: int) returns (ok: bool)
      modifies this`jobs
      ensures exists rows ::
                jobs == old(jobs) + rows &&
                Spawns(holders, RoleRelinkExpand(batch, cursor), if ok then Delivered else Transient, now, rows)
    {
      var stopped: bool := *;
      if stopped {
        assert jobs == old(jobs) + [];
        return true;
      }
      var page := Page(holders(batch), cursor);
      ghost var applies := ApplyRows(batch, page, now);
      for n := 0 to |page|
        invariant jobs == old(jobs) + applies[..n]
      {
        var inserted: bool := *;
        if !inserted {
          return false;
        }
        InsertJob(RoleRelinkApply(batch, page[n]), now);
        assert applies[..n + 1] == applies[..n] + [applies[n]];
      }
      assert applies[..|page|] == applies;
      ok := true;
      ghost var next := NextCursor(batch, page, now);
      if |page| == RELINK_PAGE_SIZE {
        ok := *;
        if ok {
          InsertJob(RoleRelinkExpand(batch, Some(page[|page| - 1])), now);
        }
      }
      assert jobs == old(jobs) + (if ok then applies + next else applies);
    }

    /** The side effect of one job, and whatever it enqueues on the way. */
    method Dispatch(kind: Kind, now: int) returns (outcome: Outcome)
      modifies this`jobs
      ensures exists rows :: jobs == old(jobs) + rows && Spawns(holders, kind, outcome, now, rows)
      ensures !kind.RoleRelinkExpand? && !kind.MemberBanRole? ==> jobs == old(jobs)
      ensures kind.MemberBanRole? ==>
                jobs == old(jobs) || (outcome == Delivered && jobs == old(jobs) + [Job(AuditLog, Pending, 0, 5, now)])
    {
      if kind.RoleRelinkExpand? {
        var ok := ExpandRelinkPage(kind.batch, kind.cursor, now);
        outcome := if ok then Delivered else Transient;
      } else {
        var sent: bool := *;
        var permanent: bool := *;
        outcome := if sent then Delivered else if permanent then Permanent else Transient;
        var mirrored: bool := *;
        if kind.MemberBanRole? && sent && mirrored {
          InsertJob(AuditLog, now);
        } else {
          assert jobs == old(jobs) + [];
        }
      }
    }

    /** Retry with backoff while attempts remain and the error is not a permanent one. */
    method HandleFailure(i: nat, claimed: Job, permanent: bool, now: int)
      requires i < |jobs|
      modifies this`jobs
      ensures jobs == old(jobs)[i := Settled(claimed, if permanent then Permanent else Transient, now)]
      ensures jobs[i].attempts == claimed.attempts + 1 && jobs[i].kind == claimed.kind && jobs[i].maxAttempts == claimed.maxAttempts
      ensures if claimed.attempts + 1 < claimed.maxAttempts && !permanent
              then jobs[i].status == Pending &&
                   jobs[i].scheduledAt == now + (match claimed.attempts case 0 => 5_000 case 1 => 30_000 case 2 => 120_000
                                                 case 3 => 600_000 case _ => 1_800_000)
              else jobs[i].status == Failed
    {
      var attempts := claimed.attempts + 1;
      if attempts < claimed.maxAttempts && !permanent {
        jobs := jobs[i := claimed.(status := Pending, attempts := attempts, scheduledAt := now + Backoff(attempts))];
        return;
      }
      jobs := jobs[i := claimed.(status := Failed, attempts := attempts)];
    }

    /**
     Claim, dispatch, record. A claim that cannot be saved throws, whatever it did to the
     row; so does a failure that cannot be, or the bookkeeping after it. Only the save after
     a success is guarded.
     */
    method ProcessJob(i: nat, now: int) returns (threw: bool)
      requires i < |jobs| && jobs[i].status == Pending
      modifies this`jobs
      ensures Dispatched(holders, old(jobs), i, now, jobs) || (threw && jobs == old(jobs))
    {
      ghost var was := jobs;
      var job := jobs[i];
      var claimed: bool := *;
      if claimed {
        jobs := jobs[i := job.(status := Processing)];
      }
      threw := *;
      if !claimed || threw {
        assert claimed ==> Spawns(holders, job.kind, Transient, now, []) &&
                           jobs == was[i := Recorded(was[i], Transient, false, now)] + [];
        return true;
      }
      var outcome := Dispatch(job.kind, now);
      ghost var rows :|
        jobs == was[i := job.(status := Processing)] + rows && Spawns(holders, job.kind, outcome, now, rows);
      var saved: bool := *;
      if saved {
        if outcome == Delivered {
          jobs := jobs[i := job.(status := Succeeded)];
        } else {
          HandleFailure(i, job, outcome == Permanent, now);
        }
      }
      assert jobs == was[i := Recorded(was[i], outcome, saved, now)] + rows;
      if outcome != Delivered {
        var bookkept: bool := *;
        threw := !saved || !bookkept;
      }
    }

    /** The `for (const job of due)` loop, up to the row whose save throws, if any. */
    method DrainRows(due: seq<nat>, now: int) returns (done: nat)
      requires AllAscending(holders) && due == Picked(jobs, now)
      modifies this`jobs
      ensures done <= |due| && Ticked(old(jobs), now, done, jobs)
      ensures Total(holders, jobs) + done <= Total(holders, old(jobs))
    {
      ghost var was := jobs;
      PickedOnce(jobs, now);
      done := 0;
      while done < |due|
        invariant done <= |due| && Drained(was, due, done, jobs)
        invariant Total(holders, jobs) + done <= Total(holders, was)
      {
        ghost var mid := jobs;
        var threw := ProcessJob(due[done], now);
        if threw {
          DrainedCut(holders, was, due, done, mid, jobs, now);
          return;
        }
        DispatchCosts(holders, mid, due[done], now, jobs);
        DrainedStep(holders, was, due, done, mid, jobs, now);
        done := done + 1;
      }
      DrainedAll(was, due, jobs, now);
    }

    /** One tick: an exception ends it and it reports nothing done. A re-entrant call does nothing. */
    method Drain(now: int) returns (processed: nat, ghost done: nat)
      requires AllAscending(holders)
      modifies this`jobs, this`draining
      ensures draining == old(draining)
      ensures old(draining) ==> processed == done == 0 && jobs == old(jobs)
      ensures !old(draining) ==>
                Ticked(old(jobs), now, done, jobs) && processed <= 20 &&
                processed in {0, done} && (processed == 0 || processed == |Picked(old(jobs), now)|) &&
                Total(holders, jobs) + done <= Total(holders, old(jobs))
    {
      if draining {
        return 0, 0;
      }
      draining := true;
      var read: bool := *;
      if !read {
        draining := false;
        return 0, 0;
      }
      var bulk := BulkPicked(jobs, now);
      var interactive := InteractivePicked(jobs, now);
      var due := interactive + bulk;
      var got := DrainRows(due, now);
      processed, done := if got == |due| then got else 0, got;
      draining := false;
    }

    /** On boot every `processing` row is orphaned: re-queue what is safe, surface the rest, and stop where a save throws. */
    method ReapOrphanedJobs(now: int) returns (ghost reaped: nat)
      modifies this`jobs
      ensures reaped <= |jobs| == |old(jobs)|
      ensures forall i | 0 <= i < reaped :: jobs[i] == Reaped(old(jobs)[i], now)
      ensures forall i | reaped <= i < |jobs| :: jobs[i] == old(jobs)[i]
      ensures forall i | 0 <= i < reaped && old(jobs)[i].status != Processing :: jobs[i] == old(jobs)[i]
      ensures forall i | 0 <= i < reaped && old(jobs)[i].status == Processing ::
                match old(jobs)[i].kind
                case Announce => jobs[i] == old(jobs)[i].(status := Failed)
                case EventReminder => jobs[i] == old(jobs)[i].(status := Failed)
                case EventThreadPing => jobs[i] == old(jobs)[i].(status := Failed)
                case ApplicationSubmitted => jobs[i] == old(jobs)[i].(status := Failed)
                case GallerySubmitted => jobs[i] == old(jobs)[i].(status := Failed)
                case GalleryApproved => jobs[i] == old(jobs)[i].(status := Failed)
                case AuditLog => jobs[i] == old(jobs)[i].(status := Failed)
                case ApplicationDecision => jobs[i] == old(jobs)[i].(status := Failed)
                case Welcome => jobs[i] == old(jobs)[i].(status := Failed)
                // The eight role jobs, the fan-out's two among them, and the two edits of an announcement.
                case _ => jobs[i] == old(jobs)[i].(status := Pending, scheduledAt := now)
    {
      var n := 0;
      while n < |jobs|
        invariant n <= |jobs| == |old(jobs)|
        invariant forall i | 0 <= i < n :: jobs[i] == Reaped(old(jobs)[i], now)
        invariant forall i | n <= i < |jobs| :: jobs[i] == old(jobs)[i]
      {
        var job := jobs[n];
        if job.status == Processing {
          var saved: bool := *;
          if !saved {
            return n;
          }
          if Idempotent(job.kind) {
            jobs := jobs[n := job.(status := Pending, scheduledAt := now)];
          } else {
            jobs := jobs[n := job.(status := Failed)];
          }
        }
        n := n + 1;
      }
      reaped := n;
    }
  }

  /** The first `n` due rows are processed, and nothing else that was there has moved. */
  ghost predicate Drained(was: seq<Job>, due: seq<nat>, n: nat, js: seq<Job>)
    requires n <= |due|
  {
    |was| <= |js| &&
    (forall k | 0 <= k < |due| :: due[k] < |was|) &&
    (forall k | 0 <= k < n :: Spent(was[due[k]], js[due[k]])) &&
    (forall i | 0 <= i < |was| && i !in due[..n] :: js[i] == was[i])
  }

  lemma DrainedStep(holders: Holders, was: seq<Job>, due: seq<nat>, n: nat, js: seq<Job>, ks: seq<Job>, now: int)
    requires n < |due| && Drained(was, due, n, js) && Dispatched(holders, js, due[n], now, ks)
    requires forall k, m | 0 <= k < m < |due| :: due[k] != due[m]
    ensures Drained(was, due, n + 1, ks)
  {
  }

  lemma DrainedAll(was: seq<Job>, due: seq<nat>, js: seq<Job>, now: int)
    requires Drained(was, due, |due|, js) && due == Picked(was, now)
    ensures Ticked(was, now, |due|, js)
  {
  }

  /** A tick that stops at row `n` has processed the rows before it and at most touched that one. */
  lemma DrainedCut(holders: Holders, was: seq<Job>, due: seq<nat>, n: nat, js: seq<Job>, ks: seq<Job>, now: int)
    requires n < |due| && due == Picked(was, now) && Drained(was, due, n, js)
    requires forall k, m | 0 <= k < m < |due| :: due[k] != due[m]
    requires Dispatched(holders, js, due[n], now, ks) || ks == js
    requires AllAscending(holders)
    ensures Ticked(was, now, n, ks) && Total(holders, ks) <= Total(holders, js)
  {
    assert due[n] !in due[..n] && js[due[n]] == was[due[n]];
    assert forall i | 0 <= i < |js| && i != due[n] :: i < |ks| && ks[i] == js[i];
    if ks != js {
      DispatchCosts(holders, js, due[n], now, ks);
    }
    forall i | 0 <= i < |was| && i in due[..n] ensures Spent(was[i], ks[i]) {
      var k :| 0 <= k < n && due[k] == i;
    }
  }

  /** No row is picked twice: the two halves of a tick never share a kind. */
  lemma PickedOnce(js: seq<Job>, now: int)
    ensures forall m, n | 0 <= m < n < |Picked(js, now)| :: Picked(js, now)[m] != Picked(js, now)[n]
  {
  }

}
