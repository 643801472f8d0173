/**
 Rewriting a rank ladder under UNIQUE (regiment, precedence). Neither the one-statement
 shift nor the rewrite loop is atomic to the index: it is checked after every row.
 */
module RankLadder {
  type RankId = string
  type Ladder = map<RankId, int>

  const REORDER_OFFSET: int := 1000

  predicate Unique(ladder: Ladder) {
    forall a, b | a in ladder && b in ladder && a != b :: ladder[a] != ladder[b]
  }

  // ── The request ────────────────────────────────────────────────────────────

  predicate Accepted(ladder: Ladder, order: seq<RankId>) {
    |order| == |ladder| && |IdsOf(order)| == |order| && forall id | id in order :: id in ladder
  }

  function IdsOf(order: seq<RankId>): set<RankId> {
    set id | id in order
  }

  predicate Distinct(order: seq<RankId>) {
    forall i, j | 0 <= i < j < |order| :: order[i] != order[j]
  }

  lemma {:induction false} CountOfDistinct(order: seq<RankId>)
    ensures |IdsOf(order)| <= |order|
    ensures Distinct(order) ==> |IdsOf(order)| == |order|
  {
    if order != [] {
      var init, last := order[..|order| - 1], order[|order| - 1];
      CountOfDistinct(init);
      assert IdsOf(order) == IdsOf(init) + {last};
      if Distinct(order) {
        assert last !in IdsOf(init);
      }
    }
  }

  lemma RepeatsCountShort(order: seq<RankId>, i: nat, j: nat)
    requires i < j < |order| && order[i] == order[j]
    ensures |IdsOf(order)| < |order|
  {
    var rest := order[..j] + order[j + 1..];
    forall id | id in order ensures id in rest {
      var k :| 0 <= k < |order| && order[k] == id;
      assert rest[if k == j then i else if k < j then k else k - 1] == id;
    }
    assert IdsOf(rest) == IdsOf(order);
    CountOfDistinct(rest);
  }

  lemma DistinctByCount(order: seq<RankId>)
    ensures |IdsOf(order)| == |order| <==> Distinct(order)
  {
    CountOfDistinct(order);
    if !Distinct(order) {
      var i, j :| 0 <= i < j < |order| && order[i] == order[j];
      RepeatsCountShort(order, i, j);
    }
  }

  /** The three count-and-membership tests say: the order is a permutation of the rank ids. */
  lemma AcceptedIsPermutation(ladder: Ladder, order: seq<RankId>)
    ensures Accepted(ladder, order) <==>
            Distinct(order) && (forall id :: id in order <==> id in ladder)
  {
    DistinctByCount(order);
    var ids := IdsOf(order);
    if Accepted(ladder, order) {
      assert ids <= ladder.Keys && |ids| == |ladder.Keys|;
      SubsetOfSameSize(ids, ladder.Keys);
    }
    assert |ladder.Keys| == |ladder|;
    assert (forall id :: id in order <==> id in ladder) ==> ids == ladder.Keys;
  }

  lemma SubsetOfSameSize(a: set<RankId>, b: set<RankId>)
    requires a <= b && |a| == |b|
    ensures a == b
  {
    assert b == a + (b - a) && |b| == |a| + |b - a|;
  }

  // ── The two phases, row by row ─────────────────────────────────────────────

  function Shifted(ladder: Ladder, done: set<RankId>): Ladder {
    map id | id in ladder :: if id in done then ladder[id] + REORDER_OFFSET else ladder[id]
  }

  /** Every half-done state of the shift, whatever order the database visits the rows in. */
  ghost predicate ShiftIsSafe(ladder: Ladder) {
    forall done: set<RankId> | done <= ladder.Keys :: Unique(Shifted(ladder, done))
  }

  /** The shift is safe in every row order exactly when no two ranks lie exactly one offset apart. */
  lemma ShiftIsSafeExactlyWhen(ladder: Ladder)
    requires Unique(ladder)
    ensures ShiftIsSafe(ladder) <==>
            forall a, b | a in ladder && b in ladder :: ladder[a] + REORDER_OFFSET != ladder[b]
  {
    if ShiftIsSafe(ladder) {
      forall a, b | a in ladder && b in ladder ensures ladder[a] + REORDER_OFFSET != ladder[b] {
        var next := Shifted(ladder, {a});
        assert Unique(next) && next[a] == ladder[a] + REORDER_OFFSET;
        assert a != b ==> next[b] == ladder[b];
      }
    }
  }

  lemma ShiftedStep(ladder: Ladder, done: set<RankId>, id: RankId)
    requires done <= ladder.Keys && id in ladder && id !in done
    ensures var half := Shifted(ladder, done);
            id in half && half[id] == ladder[id] &&
            half[id := ladder[id] + REORDER_OFFSET] == Shifted(ladder, done + {id}) &&
            (ShiftIsSafe(ladder) ==> Unique(Shifted(ladder, done + {id})))
  {
  }

  /** After `n` of the final positions have been written over the shifted ladder. */
  function Rewritten(ladder: Ladder, order: seq<RankId>, n: nat): Ladder
    requires n <= |order|
  {
    if n == 0 then Shifted(ladder, ladder.Keys)
    else
      var before := Rewritten(ladder, order, n - 1);
      if order[n - 1] in before then before[order[n - 1] := n] else before
  }

  ghost predicate Permutation(ladder: Ladder, order: seq<RankId>) {
    Distinct(order) && (forall id :: id in order <==> id in ladder)
  }

  lemma {:induction false} RewrittenAt(ladder: Ladder, order: seq<RankId>, n: nat)
    requires n <= |order| && Permutation(ladder, order)
    ensures Rewritten(ladder, order, n).Keys == ladder.Keys
    ensures forall i | 0 <= i < |order| ::
              order[i] in ladder &&
              Rewritten(ladder, order, n)[order[i]] == if i < n then i + 1 else ladder[order[i]] + REORDER_OFFSET
  {
    assert forall i | 0 <= i < |order| :: order[i] in order;
    if n > 0 {
      RewrittenAt(ladder, order, n - 1);
    }
  }

  /** A shifted rank that its turn has not reached yet sits on a position already handed out. */
  predicate Buried(ladder: Ladder, order: seq<RankId>, j: nat)
    requires j < |order|
  {
    order[j] in ladder && 1 <= ladder[order[j]] + REORDER_OFFSET <= j
  }

  lemma BuriedCollides(ladder: Ladder, order: seq<RankId>, j: nat)
    requires Permutation(ladder, order) && j < |order| && Buried(ladder, order, j)
    ensures !Unique(Rewritten(ladder, order, j))
  {
    RewrittenAt(ladder, order, j);
    var i := ladder[order[j]] + REORDER_OFFSET - 1;
    var now := Rewritten(ladder, order, j);
    assert now[order[i]] == i + 1 == now[order[j]] && order[i] != order[j];
  }

  lemma UnburiedIsUnique(ladder: Ladder, order: seq<RankId>, n: nat)
    requires Unique(ladder) && Permutation(ladder, order) && n <= |order|
    requires forall j | 0 <= j < |order| :: !Buried(ladder, order, j)
    ensures Unique(Rewritten(ladder, order, n))
  {
    RewrittenAt(ladder, order, n);
    var now := Rewritten(ladder, order, n);
    forall a, b | a in now && b in now && a != b ensures now[a] != now[b] {
      var i :| 0 <= i < |order| && order[i] == a;
      var j :| 0 <= j < |order| && order[j] == b;
      assert !Buried(ladder, order, i) && !Buried(ladder, order, j);
    }
  }

  /** The rewrite keeps the index at every step exactly when no waiting row is buried. */
  lemma RewriteIsSafeExactlyWhen(ladder: Ladder, order: seq<RankId>)
    requires Unique(ladder) && Permutation(ladder, order)
    ensures (forall n | 0 <= n <= |order| :: Unique(Rewritten(ladder, order, n))) <==>
            (forall j | 0 <= j < |order| :: !Buried(ladder, order, j))
  {
    if j :| 0 <= j < |order| && Buried(ladder, order, j) {
      BuriedCollides(ladder, order, j);
    } else {
      forall n | 0 <= n <= |order| ensures Unique(Rewritten(ladder, order, n)) {
        UnburiedIsUnique(ladder, order, n);
      }
    }
  }

  /** A ladder numbered within 1..1000 never meets either hazard, and a request cannot be refused half-way. */
  lemma SmallLaddersAreSafe(ladder: Ladder, order: seq<RankId>)
    requires Unique(ladder) && Accepted(ladder, order) && |order| <= 1000
    requires forall id | id in ladder :: 1 <= ladder[id] <= 1000
    ensures ShiftIsSafe(ladder)
    ensures forall n | 0 <= n <= |order| :: Unique(Rewritten(ladder, order, n))
  {
    AcceptedIsPermutation(ladder, order);
    ShiftIsSafeExactlyWhen(ladder);
    assert forall i | 0 <= i < |order| :: order[i] in order;
    RewriteIsSafeExactlyWhen(ladder, order);
  }

  /** Nothing caps a rank's precedence, so a ladder the service accepts can collide in the shift. */
  lemma FarRankCanCollide(ladder: Ladder)
    requires ladder == map["Marshal" := 1, "Guest" := 1001]
    ensures Unique(ladder) && Accepted(ladder, ["Guest", "Marshal"]) && !ShiftIsSafe(ladder)
  {
    ShiftIsSafeExactlyWhen(ladder);
    assert "Marshal" in ladder && "Guest" in ladder && ladder["Marshal"] + REORDER_OFFSET == ladder["Guest"];
    assert ladder.Keys == {"Marshal", "Guest"};
    AcceptedIsPermutation(ladder, ["Guest", "Marshal"]);
  }

  lemma RewrittenStep(ladder: Ladder, order: seq<RankId>, i: nat)
    requires Unique(ladder) && Permutation(ladder, order) && i < |order|
    ensures order[i] in Rewritten(ladder, order, i)
    ensures Rewritten(ladder, order, i)[order[i] := i + 1] == Rewritten(ladder, order, i + 1)
    ensures (forall j | 0 <= j < |order| :: !Buried(ladder, order, j)) ==> Unique(Rewritten(ladder, order, i + 1))
  {
    RewrittenAt(ladder, order, i);
    if forall j | 0 <= j < |order| :: !Buried(ladder, order, j) {
      UnburiedIsUnique(ladder, order, i + 1);
    }
  }

  // ── The service ────────────────────────────────────────────────────────────

  datatype Outcome = Done | BadRequest | Refused

  class RanksService {
    var ladder: Ladder

    constructor (ladder: Ladder)
      ensures this.ladder == ladder
    {
      this.ladder := ladder;
    }

    /** One row's UPDATE, which the index refuses when another row holds the value. */
    method SetPrecedence(id: RankId, precedence: int) returns (ok: bool)
      requires Unique(ladder) && id in ladder
      modifies this`ladder
      ensures ok <==> Unique(old(ladder)[id := precedence])
      ensures ladder == if ok then old(ladder)[id := precedence] else old(ladder)
    {
      ok := forall other | other in ladder && other != id :: ladder[other] != precedence;
      ghost var next := ladder[id := precedence];
      assert !ok ==> exists other :: other in ladder && other != id && next[other] == next[id];
      if ok {
        ladder := ladder[id := precedence];
      }
    }

    /** One row of the shift, with the rows in `done` shifted before it. */
    method ShiftOne(id: RankId, ghost was: Ladder, ghost done: set<RankId>) returns (ok: bool)
      requires done <= was.Keys && id in was && id !in done && ladder == Shifted(was, done) && Unique(ladder)
      modifies this`ladder
      ensures ShiftIsSafe(was) ==> ok
      ensures ok ==> ladder == Shifted(was, done + {id}) && Unique(ladder)
    {
      ShiftedStep(was, done, id);
      ok := SetPrecedence(id, ladder[id] + REORDER_OFFSET);
    }

    method ShiftAll() returns (ok: bool)
      requires Unique(ladder)
      modifies this`ladder
      ensures ShiftIsSafe(old(ladder)) ==> ok
      ensures ok ==> ladder == Shifted(old(ladder), old(ladder).Keys) && Unique(ladder)
    {
      ghost var was := ladder;
      var todo := ladder.Keys;
      ghost var done := {};
      ok := true;
      while ok && todo != {}
        invariant done !! todo && done + todo == was.Keys
        invariant ok ==> ladder == Shifted(was, done) && Unique(ladder)
        invariant ShiftIsSafe(was) ==> ok
        decreases todo
      {
        var id :| id in todo;
        ok := ShiftOne(id, was, done);
        todo, done := todo - {id}, done + {id};
      }
      assert ok ==> done == was.Keys;
    }

    method Renumber(order: seq<RankId>, ghost was: Ladder) returns (ok: bool)
      requires Unique(was) && Permutation(was, order) && ladder == Rewritten(was, order, 0) && Unique(ladder)
      modifies this`ladder
      ensures ok ==> ladder == Rewritten(was, order, |order|) && Unique(ladder)
      ensures (forall j | 0 <= j < |order| :: !Buried(was, order, j)) ==> ok
    {
      for i := 0 to |order|
        invariant ladder == Rewritten(was, order, i) && Unique(ladder)
      {
        RewrittenStep(was, order, i);
        ok := SetPrecedence(order[i], i + 1);
        if !ok {
          return;
        }
      }
      ok := true;
    }

    /** Shift clear of the target range, then number the ids in the requested order; all or nothing. */
    method Reorder(order: seq<RankId>) returns (outcome: Outcome)
      requires Unique(ladder)
      modifies this`ladder
      ensures outcome == BadRequest <==>
                !((forall i, j | 0 <= i < j < |order| :: order[i] != order[j]) && forall id :: id in order <==> id in old(ladder))
      ensures outcome != Done ==> ladder == old(ladder)
      ensures outcome == Done ==>
                Unique(ladder) && ladder.Keys == old(ladder).Keys &&
                forall i | 0 <= i < |order| :: order[i] in ladder && ladder[order[i]] == i + 1
      ensures outcome == Refused ==>
                (exists a, b :: a in old(ladder) && b in old(ladder) && old(ladder)[a] + 1000 == old(ladder)[b]) ||
                exists j :: 0 <= j < |order| && order[j] in old(ladder) && 1 <= old(ladder)[order[j]] + 1000 <= j
    {
      AcceptedIsPermutation(ladder, order);
      var ids := IdsOf(order);
      var sameSize := |order| == |ladder| && |ids| == |order|;
      var sameMembers := forall id | id in order :: id in ladder;
      if !sameSize || !sameMembers {
        return BadRequest;
      }
      ghost var was := ladder;
      var begun := ladder;
      var ok := ShiftAll();
      if ok {
        ok := Renumber(order, was);
      }
      if !ok {
        ladder := begun;
        ShiftIsSafeExactlyWhen(was);
        assert ShiftIsSafe(was) ==> exists j :: 0 <= j < |order| && Buried(was, order, j);
        return Refused;
      }
      RewrittenAt(was, order, |order|);
      outcome := Done;
    }
  }
}
