/**
 Re-linking a rank or medal to another Discord role: one cursor job walks the holders a
 page at a time, queueing one apply job each and then itself. What has to hold is that
 the walk misses nobody, visits nobody twice, and that a page expanded twice after a
 failed insert ends in the same guild.
 */
module RelinkFanOut {
  import opened Outbox
  import opened RoleModes
  import Roster
  import opened Wrappers

  datatype Candidate = Candidate(id: int, linked: bool, holds: bool)

  /** A current holder with a Discord identity, and not the actor. */
  predicate Queries(m: Candidate, actor: Option<int>) {
    m.linked && m.holds && actor != Some(m.id)
  }

  /** The page query without its cursor. */
  function LinkedHolders(members: seq<Candidate>, actor: Option<int>): seq<int> {
    if members == [] then []
    else (if Queries(members[0], actor) then [members[0].id] else []) + LinkedHolders(members[1..], actor)
  }

  lemma {:induction false} LinkedHolderIs(members: seq<Candidate>, actor: Option<int>, id: int)
    ensures id in LinkedHolders(members, actor) <==> exists m :: m in members && m.id == id && Queries(m, actor)
  {
    if members != [] {
      LinkedHolderIs(members[1..], actor, id);
      assert forall m :: m in members <==> m == members[0] || m in members[1..];
    }
  }

  /** Exactly the linked current holders other than the actor, in id order. */
  lemma {:induction false} LinkedHoldersAreExact(members: seq<Candidate>, actor: Option<int>)
    requires forall i, j | 0 <= i < j < |members| :: members[i].id < members[j].id
    ensures Ascending(LinkedHolders(members, actor))
    ensures forall id :: id in LinkedHolders(members, actor) <==>
              exists m :: m in members && m.id == id && m.linked && m.holds && actor != Some(id)
  {
    forall id ensures id in LinkedHolders(members, actor) <==> exists m :: m in members && m.id == id && Queries(m, actor) {
      LinkedHolderIs(members, actor, id);
    }
    if members != [] {
      var rest := LinkedHolders(members[1..], actor);
      LinkedHoldersAreExact(members[1..], actor);
      forall k | 0 <= k < |rest| ensures members[0].id < rest[k] {
        assert rest[k] in rest;
        var m :| m in members[1..] && m.id == rest[k] && Queries(m, actor);
        var i :| 0 <= i < |members[1..]| && members[1..][i] == m;
        assert members[i + 1] == m;
      }
    }
  }

  // ── The rows of one batch ──────────────────────────────────────────────────

  /** The members the batch's apply jobs name, in queue order. */
  function Members(js: seq<Job>, batch: nat): seq<int> {
    if js == [] then []
    else (if js[0].kind.RoleRelinkApply? && js[0].kind.batch == batch then [js[0].kind.member] else []) +
         Members(js[1..], batch)
  }

  predicate IsCursor(job: Job, batch: nat) {
    job.kind.RoleRelinkExpand? && job.kind.batch == batch
  }

  function Cursors(js: seq<Job>, batch: nat): nat {
    if js == [] then 0 else (if IsCursor(js[0], batch) then 1 else 0) + Cursors(js[1..], batch)
  }

  lemma {:induction false} Split(js: seq<Job>, ks: seq<Job>, batch: nat)
    ensures Members(js + ks, batch) == Members(js, batch) + Members(ks, batch)
    ensures Cursors(js + ks, batch) == Cursors(js, batch) + Cursors(ks, batch)
  {
    if js == [] {
      assert js + ks == ks;
    } else {
      Split(js[1..], ks, batch);
      assert (js + ks)[0] == js[0] && (js + ks)[1..] == js[1..] + ks;
      var first := if js[0].kind.RoleRelinkApply? && js[0].kind.batch == batch then [js[0].kind.member] else [];
      assert first + (Members(js[1..], batch) + Members(ks, batch)) == (first + Members(js[1..], batch)) + Members(ks, batch);
    }
  }

  /** A dispatch changes a row's state, never what it is. */
  lemma {:induction false} KindsCount(js: seq<Job>, ks: seq<Job>, batch: nat)
    requires |js| == |ks| && forall i | 0 <= i < |js| :: ks[i].kind == js[i].kind
    ensures Members(ks, batch) == Members(js, batch) && Cursors(ks, batch) == Cursors(js, batch)
  {
    if js != [] {
      KindsCount(js[1..], ks[1..], batch);
    }
  }

  lemma {:induction false} AppliesNameThePage(batch: nat, page: seq<int>, now: int)
    ensures Members(ApplyRows(batch, page, now), batch) == page && Cursors(ApplyRows(batch, page, now), batch) == 0
  {
    if page != [] {
      assert ApplyRows(batch, page, now)[1..] == ApplyRows(batch, page[1..], now);
      AppliesNameThePage(batch, page[1..], now);
    }
  }

  /** Rows of other batches and other kinds count for nothing here. */
  lemma {:induction false} StrangersDoNotCount(js: seq<Job>, batch: nat)
    requires forall i | 0 <= i < |js| ::
               !IsCursor(js[i], batch) && (js[i].kind.RoleRelinkApply? ==> js[i].kind.batch != batch)
    ensures Members(js, batch) == [] && Cursors(js, batch) == 0
  {
    if js != [] {
      StrangersDoNotCount(js[1..], batch);
    }
  }

  /** What a whole page inserts: its members once each, and one cursor if the page was full. */
  lemma PageCounts(batch: nat, page: seq<int>, now: int)
    ensures var rows := ApplyRows(batch, page, now) + NextCursor(batch, page, now);
            Members(rows, batch) == page && Cursors(rows, batch) == if |page| == RELINK_PAGE_SIZE then 1 else 0
  {
    var next := NextCursor(batch, page, now);
    AppliesNameThePage(batch, page, now);
    Split(ApplyRows(batch, page, now), next, batch);
    assert next != [] ==> next[1..] == [];
  }

  // ── The walk ───────────────────────────────────────────────────────────────

  predicate Queued(js: seq<Job>, batch: nat, id: int) {
    exists k :: 0 <= k < |js| && js[k].kind == RoleRelinkApply(batch, id)
  }

  /** What a dispatch of row `i` did: its outcome, whether its save landed, and what it inserted. */
  datatype Deed = Deed(i: nat, now: int, outcome: Outcome, saved: bool, rows: seq<Job>)

  /** A dispatch, of any job of any batch, that no gate or cancel stopped: an expansion that returned did its whole page. */
  predicate Worked(holders: Holders, batch: nat, js: seq<Job>, d: Deed, ks: seq<Job>) {
    d.i < |js| && js[d.i].status == Pending &&
    Spawns(holders, js[d.i].kind, d.outcome, d.now, d.rows) &&
    ks == js[d.i := Recorded(js[d.i], d.outcome, d.saved, d.now)] + d.rows &&
    (IsCursor(js[d.i], batch) && d.outcome == Delivered ==>
       var page := Page(holders(batch), js[d.i].kind.cursor);
       d.rows == ApplyRows(batch, page, d.now) + NextCursor(batch, page, d.now))
  }

  /** At most one cursor is live, and every holder is queued or still ahead of it. */
  ghost predicate WalkedUpTo(holders: Holders, batch: nat, js: seq<Job>, e: nat) {
    e < |js| && IsCursor(js[e], batch) &&
    (forall i | 0 <= i < |js| && i != e && IsCursor(js[i], batch) :: js[i].status != Pending) &&
    (js[e].status == Pending ==>
       forall id | id in holders(batch) :: Queued(js, batch, id) || id in Beyond(holders(batch), js[e].kind.cursor)) &&
    (js[e].status == Succeeded ==> forall id | id in holders(batch) :: Queued(js, batch, id))
  }

  ghost predicate Walking(holders: Holders, batch: nat, js: seq<Job>) {
    (forall id | Queued(js, batch, id) :: id in holders(batch)) && exists e :: WalkedUpTo(holders, batch, js, e)
  }

  lemma QueuedGrows(js: seq<Job>, i: nat, job: Job, rows: seq<Job>, batch: nat)
    requires i < |js| && job.kind == js[i].kind
    ensures forall id :: Queued(js[i := job] + rows, batch, id) <==> Queued(js, batch, id) || Queued(rows, batch, id)
  {
    var ks := js[i := job] + rows;
    forall id ensures Queued(ks, batch, id) <==> Queued(js, batch, id) || Queued(rows, batch, id) {
      if k :| 0 <= k < |js| && js[k].kind == RoleRelinkApply(batch, id) {
        assert ks[k].kind == RoleRelinkApply(batch, id);
      }
      if k :| 0 <= k < |rows| && rows[k].kind == RoleRelinkApply(batch, id) {
        assert ks[|js| + k].kind == RoleRelinkApply(batch, id);
      }
      if k :| 0 <= k < |ks| && ks[k].kind == RoleRelinkApply(batch, id) {
        assert k < |js| ==> js[k].kind == RoleRelinkApply(batch, id);
        assert k >= |js| ==> rows[k - |js|].kind == RoleRelinkApply(batch, id);
      }
    }
  }

  /** An expansion queues only holders. */
  lemma PageRowsAreHolders(holders: Holders, batch: nat, cursor: Option<int>, now: int, rows: seq<Job>, outcome: Outcome)
    requires Spawns(holders, RoleRelinkExpand(batch, cursor), outcome, now, rows)
    ensures forall id | Queued(rows, batch, id) :: id in holders(batch)
  {
    var page := Page(holders(batch), cursor);
    BeyondIsSuffix(holders(batch), cursor);
    forall id | Queued(rows, batch, id) ensures id in holders(batch) {
      var k :| 0 <= k < |rows| && rows[k].kind == RoleRelinkApply(batch, id);
      assert k < |page| && rows[k] == ApplyRows(batch, page, now)[k];
      assert page[k] == id && id in Beyond(holders(batch), cursor);
    }
  }

  /** And a delivered one its whole page. */
  lemma PageIsQueued(batch: nat, page: seq<int>, now: int, rows: seq<Job>)
    requires rows == ApplyRows(batch, page, now) + NextCursor(batch, page, now)
    ensures forall id | id in page :: Queued(rows, batch, id)
  {
    forall id | id in page ensures Queued(rows, batch, id) {
      var k :| 0 <= k < |page| && page[k] == id;
      assert rows[k] == ApplyRows(batch, page, now)[k];
    }
  }

  lemma WalkStep(holders: Holders, batch: nat, js: seq<Job>, d: Deed, ks: seq<Job>)
    requires AllAscending(holders) && Walking(holders, batch, js) && Worked(holders, batch, js, d, ks)
    ensures Walking(holders, batch, ks)
  {
    var e :| WalkedUpTo(holders, batch, js, e);
    QueuedGrows(js, d.i, Recorded(js[d.i], d.outcome, d.saved, d.now), d.rows, batch);
    if d.i != e {
      OtherStep(holders, batch, js, e, d, ks);
    } else {
      ExpansionStep(holders, batch, js, e, d, ks);
    }
  }

  /** Any other job's dispatch leaves the batch's walk where it was. */
  lemma OtherStep(holders: Holders, batch: nat, js: seq<Job>, e: nat, d: Deed, ks: seq<Job>)
    requires Worked(holders, batch, js, d, ks) && WalkedUpTo(holders, batch, js, e) && d.i != e
    requires forall id | Queued(js, batch, id) :: id in holders(batch)
    requires forall id :: Queued(ks, batch, id) <==> Queued(js, batch, id) || Queued(d.rows, batch, id)
    ensures Walking(holders, batch, ks) && !IsCursor(js[d.i], batch)
    ensures forall k | 0 <= k < |d.rows| ::
              !IsCursor(d.rows[k], batch) && (d.rows[k].kind.RoleRelinkApply? ==> d.rows[k].kind.batch != batch)
  {
    assert !IsCursor(js[d.i], batch);
    SpawnIsOfItsBatch(holders, js[d.i].kind, d.outcome, d.now, d.rows);
    assert WalkedUpTo(holders, batch, ks, e);
  }

  lemma SpawnIsOfItsBatch(holders: Holders, kind: Kind, outcome: Outcome, now: int, rows: seq<Job>)
    requires Spawns(holders, kind, outcome, now, rows)
    ensures forall k | 0 <= k < |rows| ::
              (rows[k].kind.RoleRelinkApply? || rows[k].kind.RoleRelinkExpand?) ==>
              kind.RoleRelinkExpand? && rows[k].kind.batch == kind.batch
  {
    if kind.RoleRelinkExpand? && rows != [] {
      var page := Page(holders(kind.batch), kind.cursor);
      assert forall k | 0 <= k < |rows| && k < |page| :: rows[k] == ApplyRows(kind.batch, page, now)[k];
    }
  }

  /** The live cursor's own dispatch: the walk moves on a page, ends, or stays where it was. */
  lemma ExpansionStep(holders: Holders, batch: nat, js: seq<Job>, e: nat, d: Deed, ks: seq<Job>)
    requires AllAscending(holders) && Walking(holders, batch, js) && WalkedUpTo(holders, batch, js, e)
    requires Worked(holders, batch, js, d, ks) && d.i == e
    requires forall id :: Queued(ks, batch, id) <==> Queued(js, batch, id) || Queued(d.rows, batch, id)
    ensures Walking(holders, batch, ks)
    ensures d.outcome == Delivered ==>
              WalkedUpTo(holders, batch, ks,
                         if |Page(holders(batch), js[e].kind.cursor)| == RELINK_PAGE_SIZE
                         then |js| + RELINK_PAGE_SIZE else e)
  {
    var cursor := js[e].kind.cursor;
    var page := Page(holders(batch), cursor);
    PageRowsAreHolders(holders, batch, cursor, d.now, d.rows, d.outcome);
    if d.outcome == Delivered {
      PageIsQueued(batch, page, d.now, d.rows);
    }
    if d.outcome == Delivered && |page| == RELINK_PAGE_SIZE {
      BeyondLast(holders(batch), cursor, RELINK_PAGE_SIZE);
      assert Beyond(holders(batch), cursor) == page + Beyond(holders(batch), Some(page[|page| - 1]));
      assert WalkedUpTo(holders, batch, ks, |js| + |page|);
    } else {
      assert d.outcome == Delivered ==> page == Beyond(holders(batch), cursor);
      assert forall k | 0 <= k < |d.rows| :: d.rows[k].kind.RoleRelinkApply?;
      assert WalkedUpTo(holders, batch, ks, e);
    }
  }

  ghost predicate WorkRun(holders: Holders, batch: nat, states: seq<seq<Job>>, run: seq<Deed>) {
    |states| == |run| + 1 && forall n | 0 <= n < |run| :: Worked(holders, batch, states[n], run[n], states[n + 1])
  }

  lemma RunTail(holders: Holders, batch: nat, states: seq<seq<Job>>, run: seq<Deed>)
    requires WorkRun(holders, batch, states, run) && run != []
    ensures WorkRun(holders, batch, states[1..], run[1..])
  {
    assert forall n | 0 <= n < |run[1..]| :: run[1..][n] == run[n + 1] && states[1..][n] == states[n + 1];
  }

  /**
   Retried expansions reach the same place: however often a page was half-inserted and
   expanded again, and whatever other jobs and batches ran in between, once every cursor
   has succeeded the members with an apply job are exactly the holders.
   */
  lemma {:induction false} RetriedFanOutIsComplete(holders: Holders, batch: nat, states: seq<seq<Job>>, run: seq<Deed>)
    requires AllAscending(holders) && WorkRun(holders, batch, states, run) && Walking(holders, batch, states[0])
    ensures var end := states[|run|];
            (forall i | 0 <= i < |end| && IsCursor(end[i], batch) :: end[i].status == Succeeded) ==>
              forall id :: Queued(end, batch, id) <==> id in holders(batch)
    decreases |run|
  {
    if run != [] {
      WalkStep(holders, batch, states[0], run[0], states[1]);
      RunTail(holders, batch, states, run);
      RetriedFanOutIsComplete(holders, batch, states[1..], run[1..]);
    } else {
      var e :| WalkedUpTo(holders, batch, states[0], e);
    }
  }

  /** The outbox as the request leaves it: the batch's one cursor, at the start, among whatever else is queued. */
  predicate Seeded(js: seq<Job>, batch: nat, e: nat) {
    e < |js| && js[e].kind == RoleRelinkExpand(batch, None) && js[e].status == Pending &&
    forall i | 0 <= i < |js| && i != e ::
      !IsCursor(js[i], batch) && (js[i].kind.RoleRelinkApply? ==> js[i].kind.batch != batch)
  }

  lemma SeedIsWalking(holders: Holders, batch: nat, js: seq<Job>, e: nat)
    requires Seeded(js, batch, e)
    ensures Walking(holders, batch, js) && Members(js, batch) == [] && Cursors(js, batch) == 1
  {
    assert Beyond(holders(batch), None) == holders(batch);
    assert WalkedUpTo(holders, batch, js, e);
    var before, after := js[..e], js[e + 1..];
    assert js == before + ([js[e]] + after);
    StrangersDoNotCount(before, batch);
    StrangersDoNotCount(after, batch);
    Split(before, [js[e]] + after, batch);
    Split([js[e]], after, batch);
    assert [js[e]][1..] == [];
  }

  /** From its seed, so for every re-link: all cursors succeeded means exactly the holders were queued. */
  lemma SeededFanOutIsComplete(holders: Holders, batch: nat, states: seq<seq<Job>>, run: seq<Deed>, e: nat)
    requires AllAscending(holders) && WorkRun(holders, batch, states, run) && Seeded(states[0], batch, e)
    ensures var end := states[|run|];
            (forall i | 0 <= i < |end| && IsCursor(end[i], batch) :: end[i].status == Succeeded) ==>
              forall id :: Queued(end, batch, id) <==> id in holders(batch)
  {
    SeedIsWalking(holders, batch, states[0], e);
    RetriedFanOutIsComplete(holders, batch, states, run);
  }

  // ── The walk without failures ──────────────────────────────────────────────

  /** The rows so far name a prefix of the holders, once each, with one cursor per full page and the live one. */
  ghost predicate CleanUpTo(holders: Holders, batch: nat, js: seq<Job>, e: nat) {
    WalkedUpTo(holders, batch, js, e) && (forall id | Queued(js, batch, id) :: id in holders(batch)) &&
    if js[e].status == Pending
    then Members(js, batch) + Beyond(holders(batch), js[e].kind.cursor) == holders(batch) &&
         |Members(js, batch)| == RELINK_PAGE_SIZE * (Cursors(js, batch) - 1)
    else Members(js, batch) == holders(batch) && Cursors(js, batch) == |holders(batch)| / RELINK_PAGE_SIZE + 1
  }

  lemma RowsAreAppended(holders: Holders, batch: nat, js: seq<Job>, d: Deed, ks: seq<Job>)
    requires Worked(holders, batch, js, d, ks)
    ensures Members(ks, batch) == Members(js, batch) + Members(d.rows, batch)
    ensures Cursors(ks, batch) == Cursors(js, batch) + Cursors(d.rows, batch)
  {
    var settled := js[d.i := Recorded(js[d.i], d.outcome, d.saved, d.now)];
    KindsCount(js, settled, batch);
    Split(settled, d.rows, batch);
  }

  lemma CleanStep(holders: Holders, batch: nat, js: seq<Job>, e: nat, d: Deed, ks: seq<Job>) returns (live: nat)
    requires AllAscending(holders) && CleanUpTo(holders, batch, js, e) && Worked(holders, batch, js, d, ks)
    requires IsCursor(js[d.i], batch) ==> d.outcome == Delivered
    ensures CleanUpTo(holders, batch, ks, live)
  {
    QueuedGrows(js, d.i, Recorded(js[d.i], d.outcome, d.saved, d.now), d.rows, batch);
    if d.i != e {
      live := e;
      CleanOtherStep(holders, batch, js, e, d, ks);
    } else {
      live := if |Page(holders(batch), js[e].kind.cursor)| == RELINK_PAGE_SIZE then |js| + RELINK_PAGE_SIZE else e;
      CleanExpansion(holders, batch, js, e, d, ks, live);
    }
  }

  lemma CleanOtherStep(holders: Holders, batch: nat, js: seq<Job>, e: nat, d: Deed, ks: seq<Job>)
    requires CleanUpTo(holders, batch, js, e) && Worked(holders, batch, js, d, ks) && d.i != e
    requires forall id :: Queued(ks, batch, id) <==> Queued(js, batch, id) || Queued(d.rows, batch, id)
    ensures CleanUpTo(holders, batch, ks, e)
  {
    RowsAreAppended(holders, batch, js, d, ks);
    OtherStep(holders, batch, js, e, d, ks);
    StrangersDoNotCount(d.rows, batch);
    assert ks[e] == js[e] && WalkedUpTo(holders, batch, ks, e);
  }

  lemma CleanExpansion(holders: Holders, batch: nat, js: seq<Job>, e: nat, d: Deed, ks: seq<Job>, live: nat)
    requires AllAscending(holders) && CleanUpTo(holders, batch, js, e) && Worked(holders, batch, js, d, ks)
    requires d.i == e && d.outcome == Delivered
    requires forall id :: Queued(ks, batch, id) <==> Queued(js, batch, id) || Queued(d.rows, batch, id)
    requires live == if |Page(holders(batch), js[e].kind.cursor)| == RELINK_PAGE_SIZE then |js| + RELINK_PAGE_SIZE else e
    ensures CleanUpTo(holders, batch, ks, live)
  {
    var page := Page(holders(batch), js[e].kind.cursor);
    ExpansionStep(holders, batch, js, e, d, ks);
    RowsAreAppended(holders, batch, js, d, ks);
    PageCounts(batch, page, d.now);
    if |page| == RELINK_PAGE_SIZE {
      FullPageMovesOn(holders(batch), js[e].kind.cursor, Members(js, batch), page);
    } else {
      ShortPageEnds(holders(batch), js[e].kind.cursor, Members(js, batch), Cursors(js, batch));
    }
    PageRowsAreHolders(holders, batch, js[e].kind.cursor, d.now, d.rows, d.outcome);
    LiveCursorIs(holders, batch, js, e, d, ks, live);
  }

  /** After a full page the next cursor is live; after a short one there is none. */
  lemma LiveCursorIs(holders: Holders, batch: nat, js: seq<Job>, e: nat, d: Deed, ks: seq<Job>, live: nat)
    requires Worked(holders, batch, js, d, ks) && d.i == e && IsCursor(js[e], batch) && d.outcome == Delivered
    requires live == if |Page(holders(batch), js[e].kind.cursor)| == RELINK_PAGE_SIZE then |js| + RELINK_PAGE_SIZE else e
    ensures live < |ks|
    ensures var page := Page(holders(batch), js[e].kind.cursor);
            if |page| == RELINK_PAGE_SIZE
            then ks[live] == Fresh(RoleRelinkExpand(batch, Some(page[|page| - 1])), d.now)
            else ks[live].status != Pending
  {
  }

  /** A full page leaves the rest past its last id. */
  lemma FullPageMovesOn(holders: seq<int>, cursor: Option<int>, before: seq<int>, page: seq<int>)
    requires Ascending(holders) && before + Beyond(holders, cursor) == holders
    requires page == Page(holders, cursor) && |page| == RELINK_PAGE_SIZE
    ensures (before + page) + Beyond(holders, Some(page[|page| - 1])) == holders
  {
    BeyondLast(holders, cursor, RELINK_PAGE_SIZE);
    var all := Beyond(holders, cursor);
    var rest := all[RELINK_PAGE_SIZE..];
    assert page == all[..RELINK_PAGE_SIZE] && all == page + rest;
    Regroup(before, page, rest);
  }

  lemma Regroup(a: seq<int>, b: seq<int>, c: seq<int>)
    ensures (a + b) + c == a + (b + c)
  {
  }

  /** A short page was the rest. */
  lemma ShortPageEnds(holders: seq<int>, cursor: Option<int>, before: seq<int>, cursors: nat)
    requires before + Beyond(holders, cursor) == holders && |before| == RELINK_PAGE_SIZE * (cursors - 1)
    requires |Page(holders, cursor)| < RELINK_PAGE_SIZE
    ensures before + Page(holders, cursor) == holders && cursors == |holders| / RELINK_PAGE_SIZE + 1
  {
    assert Page(holders, cursor) == Beyond(holders, cursor);
    assert |holders| == |before| + |Beyond(holders, cursor)|;
    PagesCounted(|before|, |holders|, cursors);
  }

  lemma PagesCounted(before: nat, all: nat, cursors: nat)
    requires before == 50 * (cursors - 1) && before <= all < before + 50
    ensures cursors == all / 50 + 1
  {
  }

  /** No expansion of the batch fails. */
  predicate NoneFailed(batch: nat, states: seq<seq<Job>>, run: seq<Deed>)
    requires |states| == |run| + 1
  {
    forall n | 0 <= n < |run| ::
      run[n].i < |states[n]| && IsCursor(states[n][run[n].i], batch) ==> run[n].outcome == Delivered
  }

  lemma {:induction false} CleanRun(holders: Holders, batch: nat, states: seq<seq<Job>>, run: seq<Deed>, e: nat)
    returns (live: nat)
    requires AllAscending(holders) && WorkRun(holders, batch, states, run) && CleanUpTo(holders, batch, states[0], e)
    requires NoneFailed(batch, states, run)
    ensures CleanUpTo(holders, batch, states[|run|], live)
    decreases |run|
  {
    if run == [] {
      live := e;
    } else {
      var next := CleanStep(holders, batch, states[0], e, run[0], states[1]);
      RunTail(holders, batch, states, run);
      assert forall n | 0 <= n < |run[1..]| :: run[1..][n] == run[n + 1] && states[1..][n] == states[n + 1];
      live := CleanRun(holders, batch, states[1..], run[1..], next);
    }
  }

  /**
   A fan-out no expansion of which fails, drained among any other jobs and batches: when
   its last cursor is done there are floor(n / 50) + 1 cursor jobs and exactly one apply job
   per linked holder, in id order.
   */
  lemma CleanFanOutIsExact(holders: Holders, batch: nat, states: seq<seq<Job>>, run: seq<Deed>, e: nat)
    requires AllAscending(holders) && WorkRun(holders, batch, states, run) && Seeded(states[0], batch, e)
    requires NoneFailed(batch, states, run)
    ensures var end := states[|run|];
            (forall i | 0 <= i < |end| && IsCursor(end[i], batch) :: end[i].status != Pending) ==>
              Members(end, batch) == holders(batch) && Cursors(end, batch) == |holders(batch)| / 50 + 1
  {
    SeedIsWalking(holders, batch, states[0], e);
    assert Beyond(holders(batch), None) == holders(batch);
    assert WalkedUpTo(holders, batch, states[0], e);
    var live := CleanRun(holders, batch, states, run, e);
  }

  // ── It can finish ───────────────────────────────────────────────────────────

  /** A request's cursor, appended to an outbox that knows nothing of the batch, seeds it. */
  lemma ARequestSeedsItsBatch(js: seq<Job>, batch: nat, now: int)
    requires forall i | 0 <= i < |js| ::
               js[i].kind.RoleRelinkExpand? || js[i].kind.RoleRelinkApply? ==> js[i].kind.batch != batch
    ensures Seeded(js + [Job(RoleRelinkExpand(batch, None), Pending, 0, 5, now)], batch, |js|)
  {
  }

  /** From a live cursor, dispatched page after page, a run without a failure ends with every cursor done. */
  lemma {:induction false} AFanOutCanFinish(holders: Holders, batch: nat, js: seq<Job>, e: nat, now: int)
    returns (states: seq<seq<Job>>, run: seq<Deed>)
    requires forall b :: Ascending(holders(b))
    requires e < |js| && IsCursor(js[e], batch) && js[e].status == Pending
    requires forall i | 0 <= i < |js| && i != e && IsCursor(js[i], batch) :: js[i].status == Succeeded
    ensures AllAscending(holders) && WorkRun(holders, batch, states, run) && states[0] == js && NoneFailed(batch, states, run)
    ensures var end := states[|run|];
            forall i | 0 <= i < |end| && IsCursor(end[i], batch) :: end[i].status == Succeeded
    decreases |Beyond(holders(batch), js[e].kind.cursor)|
  {
    var cursor := js[e].kind.cursor;
    var page := Page(holders(batch), cursor);
    var d := Deed(e, now, Delivered, true, ApplyRows(batch, page, now) + NextCursor(batch, page, now));
    var ks := js[e := js[e].(status := Succeeded)] + d.rows;
    assert Worked(holders, batch, js, d, ks);
    assert forall i | 0 <= i < |ks| && IsCursor(ks[i], batch) :: i < |js| || i == |js| + |page|;
    if |page| == RELINK_PAGE_SIZE {
      BeyondLast(holders(batch), cursor, RELINK_PAGE_SIZE);
      var rest, deeds := AFanOutCanFinish(holders, batch, ks, |js| + |page|, now);
      states, run := [js] + rest, [d] + deeds;
    } else {
      states, run := [js, ks], [d];
    }
  }

  // ── Where it leaves the guild ──────────────────────────────────────────────

  /** `wanted` has no entry for a member who is gone or banned. */
  datatype Relink = Relink(outgoing: set<Roster.RoleId>, incoming: set<Roster.RoleId>, wanted: map<int, set<Roster.RoleId>>)

  /** One apply job; a mapping with no incoming role also runs the additive pass. */
  function Applied(relink: Relink, id: int, worn: set<Roster.RoleId>): set<Roster.RoleId> {
    if id !in relink.wanted then worn
    else
      var scoped := ScopedTarget(worn, relink.outgoing + relink.incoming, relink.wanted[id]);
      if relink.incoming == {} then GrantTarget(scoped, relink.wanted[id]) else scoped
  }

  function Drained(relink: Relink, guild: map<int, set<Roster.RoleId>>, order: seq<int>): map<int, set<Roster.RoleId>> {
    if order == [] then guild
    else if order[0] in guild then Drained(relink, guild[order[0] := Applied(relink, order[0], guild[order[0]])], order[1..])
    else Drained(relink, guild, order[1..])
  }

  /** Any drain order, with any repeats, ends in the one guild: each queued member's share, once. */
  lemma {:induction false} DrainOrderDoesNotMatter(relink: Relink, guild: map<int, set<Roster.RoleId>>, order: seq<int>)
    ensures Drained(relink, guild, order) ==
            map id | id in guild :: if id in order then Applied(relink, id, guild[id]) else guild[id]
    decreases |order|
  {
    if order != [] {
      var first, rest := order[0], order[1..];
      assert order == [first] + rest;
      if first in guild {
        var next := guild[first := Applied(relink, first, guild[first])];
        DrainOrderDoesNotMatter(relink, next, rest);
        assert Applied(relink, first, next[first]) == next[first];
      } else {
        DrainOrderDoesNotMatter(relink, guild, rest);
      }
    }
  }

  /**
   After a re-link with an incoming role, every unbanned holder agrees with the roster on
   both ends of the mapping, and no other role of anybody has moved.
   */
  lemma RelinkConvergesItsTwoRoles(relink: Relink, guild: map<int, set<Roster.RoleId>>, order: seq<int>, holders: seq<int>,
                                   id: int, roleId: Roster.RoleId)
    requires relink.incoming != {} && id in guild && forall m :: m in order <==> m in holders
    ensures var end := Drained(relink, guild, order);
            id in end &&
            (id in holders && id in relink.wanted && roleId in relink.outgoing + relink.incoming ==>
               (roleId in end[id] <==> roleId in relink.wanted[id])) &&
            (id !in holders || id !in relink.wanted || roleId !in relink.outgoing + relink.incoming ==>
               (roleId in end[id] <==> roleId in guild[id]))
  {
    DrainOrderDoesNotMatter(relink, guild, order);
  }

  /**
   An UNLINK carries no incoming role either, and the worker reads that as a row from
   before the field existed: its additive pass runs too. So an unlink leaves a holder's
   other roles alone exactly when the holder already wears everything else the roster
   wants for them.
   */
  lemma UnlinkTouchesOtherRolesExactlyWhen(relink: Relink, id: int, worn: set<Roster.RoleId>)
    requires relink.incoming == {} && id in relink.wanted
    ensures Applied(relink, id, worn) - relink.outgoing == worn - relink.outgoing <==>
            relink.wanted[id] - relink.outgoing <= worn
    ensures forall roleId | roleId in relink.outgoing :: roleId in Applied(relink, id, worn) <==> roleId in relink.wanted[id]
  {
    var end := Applied(relink, id, worn);
    assert forall roleId :: roleId in end - relink.outgoing <==> roleId in (worn + relink.wanted[id]) - relink.outgoing;
    if end - relink.outgoing == worn - relink.outgoing {
      forall roleId | roleId in relink.wanted[id] - relink.outgoing ensures roleId in worn {
        assert roleId in end - relink.outgoing;
      }
    }
  }

  /** Concretely: unlinking one medal hands a holder the rank role they did not wear. */
  lemma UnlinkGrantsAnUnrelatedRole(relink: Relink)
    requires relink == Relink({"old medal"}, {}, map[1 := {"rank"}])
    ensures Applied(relink, 1, {"old medal"}) == {"rank"}
  {
  }
}
