/**
 Repairing events whose wall clock was stored in the wrong zone: move every instant of
 a series, one UPDATE at a time, across a unique index the database checks after each
 row and that still counts cancelled occurrences.
 */
module Reanchor {
  import opened EventTime
  import opened Wrappers

  type EventId = string

  datatype Row = Row(
    template: Option<EventId>,
    cadence: bool,
    startsAt: int,
    endsAt: Option<int>,
    timezone: string,
    deleted: bool)

  type Rows = map<EventId, Row>

  // ── The index ──────────────────────────────────────────────────────────────

  /** NULL template ids are distinct; `deleted` rows are not exempt. */
  predicate Share(a: Row, b: Row) {
    a.template.Some? && a.template == b.template
  }

  predicate Unique(rows: Rows) {
    forall a, b | a in rows && b in rows && a != b && Share(rows[a], rows[b]) :: rows[a].startsAt != rows[b].startsAt
  }

  /** What the index forbids: two occurrences of one template at one start, deleted ones included; and nothing else. */
  lemma UniqueInFull(rows: Rows)
    ensures !Unique(rows) <==>
            exists a, b :: a in rows && b in rows && a != b && rows[a].template.Some? &&
                           rows[a].template == rows[b].template && rows[a].startsAt == rows[b].startsAt
  {
  }

  /** A row about to be written at `to` would collide with a row stored now. */
  predicate Clash(rows: Rows, id: EventId, to: int)
    requires id in rows
  {
    exists other | other in rows :: other != id && Share(rows[other], rows[id]) && rows[other].startsAt == to
  }

  // ── The plan ───────────────────────────────────────────────────────────────

  datatype Step = Step(id: EventId, startsAt: int, endsAt: Option<int>)

  /** A plan names rows that exist, each once. */
  predicate PlanFor(rows: Rows, plan: seq<Step>) {
    (forall k | 0 <= k < |plan| :: plan[k].id in rows) &&
    (forall j, k | 0 <= j < k < |plan| :: plan[j].id != plan[k].id)
  }

  function Write(rows: Rows, step: Step): Rows
    requires step.id in rows
  {
    rows[step.id := rows[step.id].(startsAt := step.startsAt, endsAt := step.endsAt)]
  }

  /** Every UPDATE of the plan, in order, finds its slot free. */
  predicate Writable(rows: Rows, plan: seq<Step>)
    requires PlanFor(rows, plan)
  {
    plan == [] ||
    (!Clash(rows, plan[0].id, plan[0].startsAt) &&
     (assert PlanFor(Write(rows, plan[0]), plan[1..]); Writable(Write(rows, plan[0]), plan[1..])))
  }

  function Written(rows: Rows, plan: seq<Step>): (result: Rows)
    requires PlanFor(rows, plan)
    ensures result.Keys == rows.Keys
  {
    if plan == [] then rows else Written(Write(rows, plan[0]), plan[1..])
  }

  /** Some step of the plan moves this row. */
  predicate Moves(plan: seq<Step>, id: EventId) {
    exists k :: 0 <= k < |plan| && plan[k].id == id
  }

  /** What the pre-flight establishes: no slot taken by a row that stays, no slot claimed twice. */
  predicate Settled(rows: Rows, plan: seq<Step>)
    requires PlanFor(rows, plan)
  {
    (forall k, other | 0 <= k < |plan| && other in rows && !Moves(plan, other) && Share(rows[other], rows[plan[k].id]) ::
       rows[other].startsAt != plan[k].startsAt) &&
    (forall j, k | 0 <= j < k < |plan| && Share(rows[plan[j].id], rows[plan[k].id]) ::
       plan[j].startsAt != plan[k].startsAt)
  }

  /** No step lands on a slot that a later step has yet to vacate. */
  predicate Unblocked(rows: Rows, plan: seq<Step>)
    requires PlanFor(rows, plan)
  {
    forall k, j | 0 <= k < j < |plan| && Share(rows[plan[j].id], rows[plan[k].id]) ::
      rows[plan[j].id].startsAt != plan[k].startsAt
  }

  lemma TailIsPlan(rows: Rows, plan: seq<Step>)
    requires PlanFor(rows, plan) && plan != []
    ensures PlanFor(Write(rows, plan[0]), plan[1..])
    ensures forall id :: Moves(plan, id) <==> id == plan[0].id || Moves(plan[1..], id)
    ensures !Moves(plan[1..], plan[0].id)
  {
  }

  lemma SettledTail(rows: Rows, plan: seq<Step>)
    requires PlanFor(rows, plan) && plan != [] && Settled(rows, plan)
    ensures PlanFor(Write(rows, plan[0]), plan[1..]) && Settled(Write(rows, plan[0]), plan[1..])
  {
  }

  /** After a clean pre-flight the writes go through exactly when no step is blocked by a later one. */
  lemma {:induction false} WritableExactlyWhenUnblocked(rows: Rows, plan: seq<Step>)
    requires PlanFor(rows, plan) && Settled(rows, plan)
    ensures Writable(rows, plan) <==> Unblocked(rows, plan)
    decreases |plan|
  {
    if plan != [] {
      var head, rest := plan[0], plan[1..];
      TailIsPlan(rows, plan);
      SettledTail(rows, plan);
      WritableExactlyWhenUnblocked(Write(rows, head), rest);
      if Clash(rows, head.id, head.startsAt) {
        var other :| other in rows && other != head.id && Share(rows[other], rows[head.id]) && rows[other].startsAt == head.startsAt;
        assert Moves(plan, other);
        var j :| 0 <= j < |plan| && plan[j].id == other;
        assert !Unblocked(rows, plan);
      } else {
        UnblockedTail(rows, plan);
      }
    }
  }

  lemma UnblockedTail(rows: Rows, plan: seq<Step>)
    requires PlanFor(rows, plan) && plan != [] && !Clash(rows, plan[0].id, plan[0].startsAt)
    requires PlanFor(Write(rows, plan[0]), plan[1..])
    ensures Unblocked(Write(rows, plan[0]), plan[1..]) <==> Unblocked(rows, plan)
  {
  }

  /** Between any two UPDATEs the index holds. */
  lemma UniqueStep(rows: Rows, step: Step)
    requires step.id in rows && Unique(rows) && !Clash(rows, step.id, step.startsAt)
    ensures Unique(Write(rows, step))
  {
  }

  // ── Why the order works ────────────────────────────────────────────────────

  /** Moving earlier: earliest row first. Moving later: latest row first. */
  predicate Ordered(rows: Rows, plan: seq<Step>, earlier: bool)
    requires PlanFor(rows, plan)
  {
    forall j, k | 0 <= j < k < |plan| ::
      if earlier then rows[plan[j].id].startsAt <= rows[plan[k].id].startsAt
      else rows[plan[j].id].startsAt >= rows[plan[k].id].startsAt
  }

  // ── The pre-flight is exact ────────────────────────────────────────────────

  lemma {:induction false} WrittenAt(rows: Rows, plan: seq<Step>)
    requires PlanFor(rows, plan)
    ensures forall k | 0 <= k < |plan| ::
              Written(rows, plan)[plan[k].id] == rows[plan[k].id].(startsAt := plan[k].startsAt, endsAt := plan[k].endsAt)
    ensures forall id | id in rows && !Moves(plan, id) :: Written(rows, plan)[id] == rows[id]
    decreases |plan|
  {
    if plan != [] {
      TailIsPlan(rows, plan);
      WrittenAt(Write(rows, plan[0]), plan[1..]);
      forall k | 0 <= k < |plan|
        ensures Written(rows, plan)[plan[k].id] == rows[plan[k].id].(startsAt := plan[k].startsAt, endsAt := plan[k].endsAt)
      {
        if k > 0 {
          assert plan[1..][k - 1] == plan[k];
        }
      }
    }
  }

  /** The pre-flight refuses a plan exactly when the state it aims at would break the index. */
  lemma PreflightIsExact(rows: Rows, plan: seq<Step>)
    requires PlanFor(rows, plan) && Unique(rows)
    ensures Settled(rows, plan) <==> Unique(Written(rows, plan))
  {
    WrittenAt(rows, plan);
    var final := Written(rows, plan);
    if Settled(rows, plan) {
      forall a, b | a in final && b in final && a != b && Share(final[a], final[b])
        ensures final[a].startsAt != final[b].startsAt
      {
        SettledPair(rows, plan, final, a, b);
      }
    }
    if Unique(final) {
      forall k, other | 0 <= k < |plan| && other in rows && !Moves(plan, other) && Share(rows[other], rows[plan[k].id])
        ensures rows[other].startsAt != plan[k].startsAt
      {
        assert Moves(plan, plan[k].id);
        assert Share(final[other], final[plan[k].id]);
      }
      forall j, k | 0 <= j < k < |plan| && Share(rows[plan[j].id], rows[plan[k].id])
        ensures plan[j].startsAt != plan[k].startsAt
      {
        assert Share(final[plan[j].id], final[plan[k].id]);
      }
    }
  }

  /** Two rows of the final table share a slot only if the plan was never settled. */
  lemma SettledPair(rows: Rows, plan: seq<Step>, final: Rows, a: EventId, b: EventId)
    requires PlanFor(rows, plan) && Unique(rows) && Settled(rows, plan) && final.Keys == rows.Keys
    requires forall k | 0 <= k < |plan| ::
               final[plan[k].id] == rows[plan[k].id].(startsAt := plan[k].startsAt, endsAt := plan[k].endsAt)
    requires forall id | id in rows && !Moves(plan, id) :: final[id] == rows[id]
    requires a in rows && b in rows && a != b && Share(final[a], final[b])
    ensures final[a].startsAt != final[b].startsAt
  {
  }

  // ── What the action aims at ────────────────────────────────────────────────

  type Zones = string -> Zone

  /** One row's own repair: both ends re-read, each at its own date, in the row's own zone. */
  function StepFor(zones: Zones, table: Rows, id: EventId): Step
    requires id in table
  {
    var row := table[id];
    Step(id, ReanchorInstant(zones(row.timezone), row.startsAt),
         if row.endsAt.Some? then Some(ReanchorInstant(zones(row.timezone), row.endsAt.value)) else None)
  }

  /** The rows one request moves: the event, and with cascade every row that points at it. */
  function Targets(table: Rows, id: EventId, cascade: bool): set<EventId> {
    if cascade then {id} + (set other | other in table && table[other].template == Some(id)) else {id}
  }

  /** The table with every target re-anchored and everything else, deleted flags included, as it was. */
  function Repaired(zones: Zones, table: Rows, targets: set<EventId>): Rows {
    map id | id in table ::
      if id in targets
      then table[id].(startsAt := StepFor(zones, table, id).startsAt, endsAt := StepFor(zones, table, id).endsAt)
      else table[id]
  }

  predicate Found(table: Rows, id: EventId) {
    id in table && !table[id].deleted
  }

  predicate IsTemplate(row: Row) {
    row.template.None? && row.cadence
  }

  /** The request names the clock the row shows, in a zone that can shift, and cascades only from a template. */
  predicate Admitted(table: Rows, id: EventId, expected: Option<int>, cascade: bool)
    requires id in table
  {
    table[id].timezone != "UTC" && MatchesStoredWallClock(table[id].startsAt, expected) &&
    (cascade ==> IsTemplate(table[id]))
  }

  predicate MovesEarlier(zones: Zones, row: Row) {
    ReanchorInstant(zones(row.timezone), row.startsAt) < row.startsAt
  }

  /** No target lands on the slot of another that is written after it: earliest first when moving earlier, else latest first. */
  predicate Vacates(zones: Zones, table: Rows, targets: set<EventId>, earlier: bool) {
    forall a, b | a in targets && b in targets && a in table && b in table && Share(table[a], table[b]) &&
                  (if earlier then table[a].startsAt < table[b].startsAt else table[a].startsAt > table[b].startsAt) ::
      table[b].startsAt != StepFor(zones, table, a).startsAt
  }

  datatype Outcome = Done | NotFound | BadRequest | Conflict | Raced

  /** The answer the request gets, from the table it finds. */
  function Answer(zones: Zones, table: Rows, id: EventId, expected: Option<int>, cascade: bool): Outcome {
    var targets := Targets(table, id, cascade);
    if !Found(table, id) then NotFound
    else if !Admitted(table, id, expected, cascade) then BadRequest
    else if !Unique(Repaired(zones, table, targets)) then Conflict
    else if !Vacates(zones, table, targets, MovesEarlier(zones, table[id])) then Raced
    else Done
  }

  function Acted(zones: Zones, table: Rows, id: EventId, expected: Option<int>, cascade: bool): Rows {
    if Answer(zones, table, id, expected, cascade).Done? then Repaired(zones, table, Targets(table, id, cascade)) else table
  }

  /** The answers spelled out: who is not found, and what is a bad request. */
  lemma AnswerInFull(zones: Zones, table: Rows, id: EventId, expected: Option<int>, cascade: bool)
    ensures var outcome := Answer(zones, table, id, expected, cascade);
            (outcome == NotFound <==> id !in table || table[id].deleted) &&
            (outcome == BadRequest <==>
               id in table && !table[id].deleted &&
               (table[id].timezone == "UTC" || expected.None? || expected.value / 1000 != table[id].startsAt / 1000 ||
                (cascade && (table[id].template.Some? || !table[id].cadence))))
  {
  }

  /**
   And the table: without cascade nothing but the named row can change; once done exactly it,
   and with cascade every row pointing at it, deleted ones included, has moved, each to its
   own instants and in nothing else.
   */
  lemma ActedInFull(zones: Zones, table: Rows, id: EventId, expected: Option<int>, cascade: bool)
    ensures var outcome, now := Answer(zones, table, id, expected, cascade), Acted(zones, table, id, expected, cascade);
            now.Keys == table.Keys && (outcome != Done ==> now == table) &&
            (!cascade ==> forall other | other in table && other != id :: now[other] == table[other]) &&
            (outcome == Done ==>
               forall other | other in table ::
                 var was, zone := table[other], zones(table[other].timezone);
                 now[other] == if other == id || (cascade && was.template == Some(id))
                               then Row(was.template, was.cadence, ReanchorInstant(zone, was.startsAt),
                                        if was.endsAt.Some? then Some(ReanchorInstant(zone, was.endsAt.value)) else None,
                                        was.timezone, was.deleted)
                               else was)
  {
    forall other | other in table ensures RepairedAt(zones, table, id, cascade, other) {
      RowIsRepaired(zones, table, id, cascade, other);
    }
  }

  predicate RepairedAt(zones: Zones, table: Rows, id: EventId, cascade: bool, other: EventId)
    requires other in table
  {
    var was, zone := table[other], zones(table[other].timezone);
    Repaired(zones, table, Targets(table, id, cascade))[other] ==
    if other == id || (cascade && was.template == Some(id))
    then Row(was.template, was.cadence, ReanchorInstant(zone, was.startsAt),
             if was.endsAt.Some? then Some(ReanchorInstant(zone, was.endsAt.value)) else None, was.timezone, was.deleted)
    else was
  }

  lemma RowIsRepaired(zones: Zones, table: Rows, id: EventId, cascade: bool, other: EventId)
    requires other in table
    ensures RepairedAt(zones, table, id, cascade, other)
  {
    assert other in Targets(table, id, cascade) <==> other == id || (cascade && table[other].template == Some(id));
  }

  /** A plan of the targets' own steps, in the order the sort puts them. */
  predicate PlanOf(zones: Zones, table: Rows, targets: set<EventId>, plan: seq<Step>, earlier: bool) {
    PlanFor(table, plan) && Ordered(table, plan, earlier) &&
    (forall k | 0 <= k < |plan| :: plan[k].id in targets && plan[k] == StepFor(zones, table, plan[k].id)) &&
    (forall id | id in targets :: Moves(plan, id))
  }

  /** However the sort breaks ties, the plan is unblocked exactly when the targets vacate in time. */
  lemma SortedPlanIsUnblockedExactlyWhen(zones: Zones, table: Rows, targets: set<EventId>, plan: seq<Step>, earlier: bool)
    requires PlanOf(zones, table, targets, plan, earlier) && Unique(table)
    ensures Unblocked(table, plan) <==> Vacates(zones, table, targets, earlier)
  {
    if Unblocked(table, plan) {
      forall a, b | a in targets && b in targets && a in table && b in table && Share(table[a], table[b]) &&
                    (if earlier then table[a].startsAt < table[b].startsAt else table[a].startsAt > table[b].startsAt)
        ensures table[b].startsAt != StepFor(zones, table, a).startsAt
      {
        assert Moves(plan, a) && Moves(plan, b);
        var k :| 0 <= k < |plan| && plan[k].id == a;
        var j :| 0 <= j < |plan| && plan[j].id == b;
        assert k < j;
      }
    }
    if Vacates(zones, table, targets, earlier) {
      forall k, j | 0 <= k < j < |plan| && Share(table[plan[j].id], table[plan[k].id])
        ensures table[plan[j].id].startsAt != plan[k].startsAt
      {
        assert Share(table[plan[k].id], table[plan[j].id]);
      }
    }
  }

  /**
   A series whose occurrences all move the way the named row does, or lie farther apart than
   any of them moves, is never refused half-way.
   */
  lemma OrderUnblocks(zones: Zones, table: Rows, targets: set<EventId>, plan: seq<Step>, earlier: bool)
    requires PlanOf(zones, table, targets, plan, earlier) && Unique(table)
    requires (forall a | a in targets && a in table && table[a].template.Some? ::
                var now := ReanchorInstant(zones(table[a].timezone), table[a].startsAt);
                if earlier then now <= table[a].startsAt else now >= table[a].startsAt) ||
             (forall a, b | a in targets && b in targets && a in table && b in table && a != b && Share(table[a], table[b]) ::
                var shift := ReanchorInstant(zones(table[a].timezone), table[a].startsAt) - table[a].startsAt;
                var apart := table[b].startsAt - table[a].startsAt;
                -apart < shift < apart || apart < shift < -apart)
    ensures Vacates(zones, table, targets, earlier) && Unblocked(table, plan)
  {
    SortedPlanIsUnblockedExactlyWhen(zones, table, targets, plan, earlier);
  }

  /** In the request's own terms: with all its rows moving earlier, or none of them, it is never refused half-way. */
  lemma ASeriesMovingOneWayIsNotRaced(zones: Zones, table: Rows, id: EventId, expected: Option<int>, cascade: bool)
    requires Unique(table) && id in table
    requires (forall other | other in table && (other == id || table[other].template == Some(id)) ::
                ReanchorInstant(zones(table[other].timezone), table[other].startsAt) < table[other].startsAt) ||
             (forall other | other in table && (other == id || table[other].template == Some(id)) ::
                ReanchorInstant(zones(table[other].timezone), table[other].startsAt) >= table[other].startsAt)
    ensures Answer(zones, table, id, expected, cascade) != Raced
  {
    assert forall other | other in Targets(table, id, cascade) :: other == id || table[other].template == Some(id);
  }

  const HOUR: int := 3_600_000

  /**
   With mixed directions the order cannot help. A template an hour west of UTC has two
   occurrences in zones of their own; the later one moves down onto the earlier one's
   slot before that has moved up. The repaired table is fine, and the database refuses it.
   */
  lemma MixedSignsCanBlock() returns (zones: Zones, table: Rows, id: EventId, expected: Option<int>)
    ensures Unique(table) && Found(table, id) && Admitted(table, id, expected, true)
    ensures Unique(Repaired(zones, table, Targets(table, id, true)))
    ensures Answer(zones, table, id, expected, true) == Raced
    ensures forall plan | PlanOf(zones, table, Targets(table, id, true), plan, MovesEarlier(zones, table[id])) ::
              Settled(table, plan) && !Writable(table, plan)
  {
    var home, later, sooner := Zone(t => -HOUR), Zone(t => 5 * HOUR), Zone(t => -2 * HOUR);
    zones := name => if name == "E" then later else if name == "W" then sooner else home;
    id, expected := "t", Some(0);
    table := map["t" := Row(None, true, 0, None, "H", false),
                 "a" := Row(Some("t"), false, 10 * HOUR, None, "E", false),
                 "b" := Row(Some("t"), false, 5 * HOUR, None, "W", false)];
    ConstantZone(home, -HOUR, 0);
    ConstantZone(later, 5 * HOUR, 10 * HOUR);
    ConstantZone(sooner, -2 * HOUR, 5 * HOUR);
    assert zones("H") == home && zones("E") == later && zones("W") == sooner;
    MixedSeriesIsAdmitted(zones, table, "t", "a", "b");
    MixedSeriesAims(zones, table, "t", "a", "b");
    forall plan | PlanOf(zones, table, Targets(table, id, true), plan, MovesEarlier(zones, table[id]))
      ensures Settled(table, plan) && !Writable(table, plan)
    {
      SortedPlanIsUnblockedExactlyWhen(zones, table, Targets(table, id, true), plan, MovesEarlier(zones, table[id]));
      RepairIsThePlan(zones, table, plan, Targets(table, id, true), MovesEarlier(zones, table[id]));
      PreflightIsExact(table, plan);
      WritableExactlyWhenUnblocked(table, plan);
    }
  }

  lemma ConstantZone(zone: Zone, offset: int, instant: int)
    requires forall i :: zone.offset(i) == offset
    ensures ReanchorInstant(zone, instant) == instant - offset
  {
  }

  /** The series, with what each row's repair comes to. */
  ghost predicate IsMixedSeries(zones: Zones, table: Rows, t: EventId, a: EventId, b: EventId) {
    t != a && a != b && t != b && table.Keys == {t, a, b} &&
    table[t] == Row(None, true, 0, None, "H", false) &&
    table[a] == Row(Some(t), false, 10 * HOUR, None, "E", false) &&
    table[b] == Row(Some(t), false, 5 * HOUR, None, "W", false) &&
    StepFor(zones, table, t) == Step(t, HOUR, None) &&
    StepFor(zones, table, a) == Step(a, 5 * HOUR, None) &&
    StepFor(zones, table, b) == Step(b, 7 * HOUR, None)
  }

  lemma MixedSeriesIsAdmitted(zones: Zones, table: Rows, t: EventId, a: EventId, b: EventId)
    requires IsMixedSeries(zones, table, t, a, b)
    ensures Unique(table) && Found(table, t) && Admitted(table, t, Some(0), true)
    ensures !MovesEarlier(zones, table[t])
  {
    assert ReanchorInstant(zones(table[t].timezone), table[t].startsAt) == StepFor(zones, table, t).startsAt;
  }

  lemma MixedSeriesAims(zones: Zones, table: Rows, t: EventId, a: EventId, b: EventId)
    requires IsMixedSeries(zones, table, t, a, b)
    ensures var targets := Targets(table, t, true);
            Unique(Repaired(zones, table, targets)) && !Vacates(zones, table, targets, false)
  {
    var targets := Targets(table, t, true);
    assert a in targets && b in targets && Share(table[a], table[b]);
    var repaired := Repaired(zones, table, targets);
    assert repaired[a].startsAt == 5 * HOUR && repaired[b].startsAt == 7 * HOUR && repaired[t].template.None?;
    forall x, y | x in repaired && y in repaired && x != y && Share(repaired[x], repaired[y])
      ensures repaired[x].startsAt != repaired[y].startsAt
    {
      assert x in {t, a, b} && y in {t, a, b};
    }
  }

  // ── What it leaves behind ──────────────────────────────────────────────────

  /** A clock the row's zone has, with at most one offset change near it. */
  ghost predicate Readable(zones: Zones, row: Row, clock: int) {
    Quiet(zones(row.timezone), clock) && Exists(zones(row.timezone), clock)
  }

  function Shown(zones: Zones, row: Row, instant: int): int {
    Local(zones(row.timezone), instant)
  }

  /** Every moved row shows, in its own zone, the clocks it used to show in UTC; and so keeps its wall-clock duration. */
  ghost predicate ShowsOldClocks(zones: Zones, was: Row, now: Row) {
    (Readable(zones, was, was.startsAt) ==> Shown(zones, was, now.startsAt) == was.startsAt) &&
    (was.endsAt.Some? <==> now.endsAt.Some?) &&
    (was.endsAt.Some? && Readable(zones, was, was.endsAt.value) ==>
       Shown(zones, was, now.endsAt.value) == was.endsAt.value &&
       (Readable(zones, was, was.startsAt) ==>
          Shown(zones, was, now.endsAt.value) - Shown(zones, was, now.startsAt) == was.endsAt.value - was.startsAt))
  }

  lemma RepairShowsOldClocks(zones: Zones, table: Rows, targets: set<EventId>)
    ensures forall id | id in targets && id in table ::
              ShowsOldClocks(zones, table[id], Repaired(zones, table, targets)[id])
    ensures forall id | id in targets && id in table ::
              var was, now, zone := table[id], Repaired(zones, table, targets)[id], zones(table[id].timezone);
              (Quiet(zone, was.startsAt) && Exists(zone, was.startsAt) ==>
                 now.startsAt + zone.offset(now.startsAt) == was.startsAt) &&
              (was.endsAt.Some? && Quiet(zone, was.endsAt.value) && Exists(zone, was.endsAt.value) ==>
                 now.endsAt.Some? && now.endsAt.value + zone.offset(now.endsAt.value) == was.endsAt.value)
  {
    forall id | id in targets && id in table ensures ShowsOldClocks(zones, table[id], Repaired(zones, table, targets)[id]) {
      var row := table[id];
      if Readable(zones, row, row.startsAt) {
        ReanchorKeepsTheClock(zones(row.timezone), row.startsAt);
      }
      if row.endsAt.Some? && Readable(zones, row, row.endsAt.value) {
        ReanchorKeepsTheClock(zones(row.timezone), row.endsAt.value);
      }
    }
  }

  function ActedTimes(zones: Zones, table: Rows, id: EventId, expected: Option<int>, cascade: bool, times: nat): Rows {
    if times == 0 then table
    else Acted(zones, ActedTimes(zones, table, id, expected, cascade, times - 1), id, expected, cascade)
  }

  /** What one request does to the named row's start: nothing, or its repair, and that only past the guard. */
  lemma NamedRowActed(zones: Zones, table: Rows, id: EventId, expected: Option<int>, cascade: bool)
    requires id in table
    ensures var row, now := table[id], Acted(zones, table, id, expected, cascade)[id];
            now.timezone == row.timezone &&
            (now.startsAt == row.startsAt ||
             (MatchesStoredWallClock(row.startsAt, expected) &&
              now.startsAt == ReanchorInstant(zones(row.timezone), row.startsAt))) &&
            (Answer(zones, table, id, expected, cascade) == Done ==>
               now.startsAt == ReanchorInstant(zones(row.timezone), row.startsAt)) &&
            (Answer(zones, table, id, expected, cascade) != Done ==> Acted(zones, table, id, expected, cascade) == table)
  {
  }

  /** However often the request is repeated, the named row starts where the first answer put it. */
  lemma {:induction false} NamedRowStartsOnce(zones: Zones, table: Rows, id: EventId, expected: Option<int>, cascade: bool,
                                              times: nat)
    requires id in table && WholeSeconds(zones(table[id].timezone)) && times >= 1
    ensures var t := ActedTimes(zones, table, id, expected, cascade, times);
            t.Keys == table.Keys && t[id].timezone == table[id].timezone &&
            t[id].startsAt == Acted(zones, table, id, expected, cascade)[id].startsAt &&
            (Answer(zones, table, id, expected, cascade) != Done ==> t == table)
  {
    NamedRowActed(zones, table, id, expected, cascade);
    if times == 1 {
      assert ActedTimes(zones, table, id, expected, cascade, 0) == table;
    } else {
      NamedRowStartsOnce(zones, table, id, expected, cascade, times - 1);
      var t := ActedTimes(zones, table, id, expected, cascade, times - 1);
      assert ActedTimes(zones, table, id, expected, cascade, times) == Acted(zones, t, id, expected, cascade);
      NamedRowActed(zones, t, id, expected, cascade);
      if MatchesStoredWallClock(table[id].startsAt, expected) && MatchesStoredWallClock(t[id].startsAt, expected) {
        StaysPut(zones(table[id].timezone), table[id].startsAt, t[id].startsAt);
      }
    }
  }

  lemma StaysPut(zone: Zone, was: int, now: int)
    requires WholeSeconds(zone) && StoredWallClock(was) == StoredWallClock(now)
    requires now == was || now == ReanchorInstant(zone, was)
    ensures now == was
  {
    if now != was {
      SameSecondIsUnmoved(zone, was);
    }
  }

  /** The guard stops a second run exactly when the first one moved the named row's start. */
  lemma SecondRunIsRefusedExactlyWhen(zones: Zones, table: Rows, id: EventId, expected: Option<int>, cascade: bool)
    requires Answer(zones, table, id, expected, cascade) == Done && WholeSeconds(zones(table[id].timezone))
    ensures var once := Acted(zones, table, id, expected, cascade);
            (Answer(zones, once, id, expected, cascade) == BadRequest <==> once[id].startsAt != table[id].startsAt) &&
            (once[id].startsAt != table[id].startsAt ==> Acted(zones, once, id, expected, cascade) == once)
  {
    var once := Acted(zones, table, id, expected, cascade);
    if once[id].startsAt != table[id].startsAt && MatchesStoredWallClock(once[id].startsAt, expected) {
      SameSecondIsUnmoved(zones(table[id].timezone), table[id].startsAt);
    }
  }

  /**
   And it does not look at the end. An event that starts at offset zero and ends after the
   clocks went forward keeps its start, passes the guard again, and loses a second hour off
   its end to the second run.
   */
  lemma UnmovedStartLetsTheEndSlip() returns (zones: Zones, table: Rows, id: EventId, expected: Option<int>)
    ensures Unique(table) && id in table && table[id].endsAt.Some? && WholeSeconds(zones(table[id].timezone))
    ensures Answer(zones, table, id, expected, false) == Done
    ensures var once := Acted(zones, table, id, expected, false);
            Answer(zones, once, id, expected, false) == Done &&
            Acted(zones, once, id, expected, false)[id].endsAt == Some(table[id].endsAt.value - 2 * HOUR)
  {
    var spring := Zone(t => if t < 24 * HOUR then 0 else HOUR);
    zones := name => spring;
    id, expected := "e", Some(20 * HOUR);
    table := map["e" := Row(None, false, 20 * HOUR, Some(30 * HOUR), "London", false)];
    var once := Acted(zones, table, id, expected, false);
    assert StepFor(zones, table, id) == Step(id, 20 * HOUR, Some(29 * HOUR));
    assert once[id] == table[id].(endsAt := Some(29 * HOUR));
    assert StepFor(zones, once, id) == Step(id, 20 * HOUR, Some(28 * HOUR));
  }

  // ── The action ─────────────────────────────────────────────────────────────

  class EventsService {
    var rows: Rows
    const zones: Zones

    constructor (rows: Rows, zones: Zones)
      ensures this.rows == rows && this.zones == zones
    {
      this.rows, this.zones := rows, zones;
    }

    /** `targets.slice().sort(...)`: by start, ascending or descending. */
    method SortTargets(targets: set<EventId>, earlier: bool) returns (order: seq<EventId>)
      requires targets <= rows.Keys
      ensures forall id :: id in order <==> id in targets
      ensures forall j, k | 0 <= j < k < |order| ::
                order[j] != order[k] &&
                if earlier then rows[order[j]].startsAt <= rows[order[k]].startsAt
                else rows[order[j]].startsAt >= rows[order[k]].startsAt
    {
      order := [];
      var todo := targets;
      while todo != {}
        invariant todo <= targets
        invariant forall id :: id in order <==> id in targets && id !in todo
        invariant forall j, k | 0 <= j < k < |order| ::
                    order[j] != order[k] &&
                    if earlier then rows[order[j]].startsAt <= rows[order[k]].startsAt
                    else rows[order[j]].startsAt >= rows[order[k]].startsAt
        decreases todo
      {
        var id :| id in todo;
        var at := 0;
        while at < |order| && (if earlier then rows[order[at]].startsAt <= rows[id].startsAt
                               else rows[order[at]].startsAt >= rows[id].startsAt)
          invariant 0 <= at <= |order|
          invariant forall j | 0 <= j < at ::
                      if earlier then rows[order[j]].startsAt <= rows[id].startsAt
                      else rows[order[j]].startsAt >= rows[id].startsAt
        {
          at := at + 1;
        }
        assert id !in order;
        order := order[..at] + [id] + order[at..];
        todo := todo - {id};
      }
    }

    /** 409 before a single row is written: held slots of rows that stay, and slots claimed twice. */
    method AssertNoOccurrenceCollision(plan: seq<Step>, siblings: set<EventId>) returns (ok: bool)
      requires PlanFor(rows, plan) && siblings <= rows.Keys
      requires forall k, id | 0 <= k < |plan| && id in rows && Share(rows[id], rows[plan[k].id]) :: id in siblings
      requires forall a, b | a in siblings && b in siblings :: rows[a].template == rows[b].template
      requires forall k | 0 <= k < |plan| && rows[plan[k].id].template.Some? :: plan[k].id in siblings
      ensures ok <==> Settled(rows, plan)
    {
      var moving := set k | 0 <= k < |plan| :: plan[k].id;
      assert forall id :: id in moving <==> Moves(plan, id);
      var held := set id | id in siblings && id !in moving :: rows[id].startsAt;
      var claimed: set<int> := {};
      ok := true;
      for n := 0 to |plan|
        invariant claimed == set k | 0 <= k < n && rows[plan[k].id].template.Some? :: plan[k].startsAt
        invariant ok <==> forall k | 0 <= k < n && rows[plan[k].id].template.Some? ::
                            plan[k].startsAt !in held &&
                            forall j | 0 <= j < k && rows[plan[j].id].template.Some? :: plan[j].startsAt != plan[k].startsAt
      {
        if rows[plan[n].id].template.Some? {
          var ms := plan[n].startsAt;
          if ms in held || ms in claimed {
            ok := false;
          }
          claimed := claimed + {ms};
        }
      }
      SettledSpelledOut(rows, plan, siblings, held);
    }

    /** One transaction: a duplicate-key error on any row rolls every row back. */
    method WritePlan(plan: seq<Step>) returns (ok: bool)
      requires PlanFor(rows, plan) && Unique(rows)
      modifies this`rows
      ensures ok <==> Writable(old(rows), plan)
      ensures ok ==> rows == Written(old(rows), plan) && Unique(rows)
      ensures !ok ==> rows == old(rows)
    {
      ghost var was := rows;
      var begun := rows;
      var n := 0;
      while n < |plan|
        invariant n <= |plan| && Unique(rows) && PlanFor(rows, plan[n..])
        invariant Writable(was, plan) <==> Writable(rows, plan[n..])
        invariant Written(was, plan) == Written(rows, plan[n..])
      {
        assert plan[n..][0] == plan[n] && plan[n..][1..] == plan[n + 1..];
        if Clash(rows, plan[n].id, plan[n].startsAt) {
          rows := begun;
          return false;
        }
        UniqueStep(rows, plan[n]);
        TailIsPlan(rows, plan[n..]);
        rows := rows[plan[n].id := rows[plan[n].id].(startsAt := plan[n].startsAt, endsAt := plan[n].endsAt)];
        n := n + 1;
      }
      assert plan[n..] == [];
      ok := true;
    }

    /** Each target's own step, sorted so that a slot is vacated before it is needed. */
    method PlanRepair(targets: set<EventId>, earlier: bool) returns (plan: seq<Step>)
      requires targets <= rows.Keys
      ensures PlanOf(zones, rows, targets, plan, earlier)
      ensures forall k | 0 <= k < |plan| ::
                plan[k].id in targets && plan[k].startsAt == ReanchorInstant(zones(rows[plan[k].id].timezone), rows[plan[k].id].startsAt)
      ensures forall id | id in targets :: exists k :: 0 <= k < |plan| && plan[k].id == id
      ensures forall j, k | 0 <= j < k < |plan| ::
                plan[j].id != plan[k].id &&
                if earlier then rows[plan[j].id].startsAt <= rows[plan[k].id].startsAt
                else rows[plan[j].id].startsAt >= rows[plan[k].id].startsAt
    {
      var order := SortTargets(targets, earlier);
      var table := rows;
      var zones := zones;
      plan := seq(|order|, k requires 0 <= k < |order| && order[k] in table => StepFor(zones, table, order[k]));
      forall target | target in targets ensures Moves(plan, target) {
        var k :| 0 <= k < |order| && order[k] == target;
        assert plan[k].id == target;
      }
      assert forall k | 0 <= k < |plan| :: order[k] in order && plan[k] == StepFor(zones, table, order[k]);
    }

    /** Pre-flight, then write: refused before a row is written, refused by the index half-way, or done. */
    method CarryOut(plan: seq<Step>, siblings: set<EventId>) returns (outcome: Outcome)
      requires Unique(rows) && PlanFor(rows, plan) && siblings <= rows.Keys
      requires forall k, id | 0 <= k < |plan| && id in rows && Share(rows[id], rows[plan[k].id]) :: id in siblings
      requires forall a, b | a in siblings && b in siblings :: rows[a].template == rows[b].template
      requires forall k | 0 <= k < |plan| && rows[plan[k].id].template.Some? :: plan[k].id in siblings
      modifies this`rows
      ensures outcome == if !Unique(Written(old(rows), plan)) then Conflict
                         else if Unblocked(old(rows), plan) then Done else Raced
      ensures rows == if outcome == Done then Written(old(rows), plan) else old(rows)
    {
      PreflightIsExact(rows, plan);
      var clear := AssertNoOccurrenceCollision(plan, siblings);
      if !clear {
        return Conflict;
      }
      WritableExactlyWhenUnblocked(rows, plan);
      var written := WritePlan(plan);
      outcome := if written then Done else Raced;
    }

    /** Plan the targets' repair and carry it out. */
    method RepairTargets(targets: set<EventId>, siblings: set<EventId>, earlier: bool) returns (outcome: Outcome)
      requires Unique(rows) && targets <= rows.Keys && siblings <= rows.Keys
      requires forall a, id | a in targets && id in rows && Share(rows[id], rows[a]) :: id in siblings
      requires forall a, b | a in siblings && b in siblings :: rows[a].template == rows[b].template
      requires forall a | a in targets && rows[a].template.Some? :: a in siblings
      modifies this`rows
      ensures outcome == if !Unique(Repaired(zones, old(rows), targets)) then Conflict
                         else if Vacates(zones, old(rows), targets, earlier) then Done else Raced
      ensures rows == if outcome == Done then Repaired(zones, old(rows), targets) else old(rows)
    {
      var plan := PlanRepair(targets, earlier);
      RepairIsThePlan(zones, rows, plan, targets, earlier);
      SortedPlanIsUnblockedExactlyWhen(zones, rows, targets, plan, earlier);
      outcome := CarryOut(plan, siblings);
    }

    /**
     The whole request: which answer it gets, and the table it leaves. Once done, every
     moved row shows its old clocks in its own zone.
     */
    method ReanchorEvent(id: EventId, expected: Option<int>, cascade: bool) returns (outcome: Outcome)
      requires Unique(rows)
      modifies this`rows
      ensures outcome == Answer(zones, old(rows), id, expected, cascade)
      ensures rows == Acted(zones, old(rows), id, expected, cascade) && Unique(rows)
      ensures outcome == NotFound <==> id !in old(rows) || old(rows)[id].deleted
      ensures outcome == BadRequest <==>
                id in old(rows) && !old(rows)[id].deleted &&
                (old(rows)[id].timezone == "UTC" || expected.None? || expected.value / 1000 != old(rows)[id].startsAt / 1000 ||
                 (cascade && (old(rows)[id].template.Some? || !old(rows)[id].cadence)))
      ensures rows.Keys == old(rows).Keys && (outcome != Done ==> rows == old(rows))
      ensures !cascade ==> forall other | other in rows && other != id :: rows[other] == old(rows)[other]
      ensures outcome == Done ==>
                forall other | other in rows ::
                  var was, zone := old(rows)[other], zones(old(rows)[other].timezone);
                  rows[other] == if other == id || (cascade && was.template == Some(id))
                                 then Row(was.template, was.cadence, ReanchorInstant(zone, was.startsAt),
                                          if was.endsAt.Some? then Some(ReanchorInstant(zone, was.endsAt.value)) else None,
                                          was.timezone, was.deleted)
                                 else was
      ensures outcome == Done ==>
                forall moved | moved in Targets(old(rows), id, cascade) ::
                  moved in old(rows) && ShowsOldClocks(zones, old(rows)[moved], rows[moved])
    {
      AnswerInFull(zones, rows, id, expected, cascade);
      ActedInFull(zones, rows, id, expected, cascade);
      if id !in rows || rows[id].deleted {
        return NotFound;
      }
      var event := rows[id];
      if event.timezone == "UTC" || !MatchesStoredWallClock(event.startsAt, expected) {
        return BadRequest;
      }
      var isTemplate := event.template.None? && event.cadence;
      if cascade && !isTemplate {
        return BadRequest;
      }
      RepairShowsOldClocks(zones, rows, Targets(rows, id, cascade));
      outcome := RepairNamed(id, cascade);
    }

    /** Past the guards: the targets, the siblings that hold slots, and the direction the event moves in. */
    method RepairNamed(id: EventId, cascade: bool) returns (outcome: Outcome)
      requires Unique(rows) && id in rows && (cascade ==> IsTemplate(rows[id]))
      modifies this`rows
      ensures var targets := Targets(old(rows), id, cascade);
              (outcome == if !Unique(Repaired(zones, old(rows), targets)) then Conflict
                          else if Vacates(zones, old(rows), targets, MovesEarlier(zones, old(rows)[id])) then Done else Raced) &&
              rows == if outcome == Done then Repaired(zones, old(rows), targets) else old(rows)
    {
      var event := rows[id];
      var isOccurrence := event.template.Some?;
      var isTemplate := !isOccurrence && event.cadence;
      var templateId := if isOccurrence then event.template else if isTemplate then Some(id) else None;
      var siblings := set other | other in rows && templateId.Some? && rows[other].template == templateId;
      var targets := if cascade then {id} + siblings else {id};
      var earlier := ReanchorInstant(zones(event.timezone), event.startsAt) - event.startsAt < 0;
      assert targets == Targets(rows, id, cascade) && siblings <= rows.Keys;
      outcome := RepairTargets(targets, siblings, earlier);
    }
  }

  lemma SettledSpelledOut(rows: Rows, plan: seq<Step>, siblings: set<EventId>, held: set<int>)
    requires PlanFor(rows, plan) && siblings <= rows.Keys
    requires forall k, id | 0 <= k < |plan| && id in rows && Share(rows[id], rows[plan[k].id]) :: id in siblings
    requires forall a, b | a in siblings && b in siblings :: rows[a].template == rows[b].template
    requires forall k | 0 <= k < |plan| && rows[plan[k].id].template.Some? :: plan[k].id in siblings
    requires held == set id | id in siblings && !Moves(plan, id) :: rows[id].startsAt
    ensures Settled(rows, plan) <==>
            forall k | 0 <= k < |plan| && rows[plan[k].id].template.Some? ::
              plan[k].startsAt !in held &&
              forall j | 0 <= j < k && rows[plan[j].id].template.Some? :: plan[j].startsAt != plan[k].startsAt
  {
  }

  /** Writing each target's step is the repair. */
  lemma RepairIsThePlan(zones: Zones, rows: Rows, plan: seq<Step>, targets: set<EventId>, earlier: bool)
    requires PlanOf(zones, rows, targets, plan, earlier)
    ensures Written(rows, plan) == Repaired(zones, rows, targets)
  {
    WrittenAt(rows, plan);
    var repaired := Repaired(zones, rows, targets);
    forall id | id in rows ensures Written(rows, plan)[id] == repaired[id] {
      if id in targets {
        assert Moves(plan, id);
        var k :| 0 <= k < |plan| && plan[k].id == id;
      } else {
        assert !Moves(plan, id);
      }
    }
  }
}
