/**
 Wall clocks and instants, in milliseconds. A zone is the offset in force at each instant.
 Reading a wall clock back into an instant is the date library's rule: guess an offset,
 correct the guess once, and where the clock does not exist take the smaller offset.
 */
module EventTime {
  import opened Gregorian
  import opened Wrappers

  datatype Zone = Zone(offset: int -> int)

  /** The wall clock a zone shows at an instant. */
  function Local(zone: Zone, instant: int): int {
    instant + zone.offset(instant)
  }

  function Reread(zone: Zone, clock: int, guess: int): int {
    var once := zone.offset(clock - guess);
    if once == guess then clock - guess
    else
      var twice := zone.offset(clock - once);
      if twice == once then clock - once else clock - Min(once, twice)
  }

  /** No zone is a day or more from UTC. */
  ghost predicate Bounded(zone: Zone) {
    forall t :: -DAY < zone.offset(t) < DAY
  }

  /** Within a day of `clock` the zone changes its offset at most once, at `at`. */
  ghost predicate OneChange(zone: Zone, clock: int, at: int, before: int, after: int) {
    forall t | clock - DAY < t < clock + DAY :: zone.offset(t) == if t < at then before else after
  }

  ghost predicate Quiet(zone: Zone, clock: int) {
    Bounded(zone) && exists at, before, after :: OneChange(zone, clock, at, before, after)
  }

  /** The wall clock is shown at some instant: it is not skipped. */
  ghost predicate Exists(zone: Zone, clock: int) {
    exists t :: Local(zone, t) == clock
  }

  /** And at only one: it is not repeated either. */
  ghost predicate OccursOnce(zone: Zone, clock: int) {
    Exists(zone, clock) && forall s, t | Local(zone, s) == clock && Local(zone, t) == clock :: s == t
  }

  /**
   The one way a guess can spoil the single correction: it is farther from the old offset
   than the new one is, and the change lies between the instant it suggests and the right one.
   */
  predicate Misleads(clock: int, guess: int, at: int, before: int, after: int) {
    (before < after && clock - guess < at <= clock - after) || (after < before && clock - after < at <= clock - guess)
  }

  ghost predicate Misled(zone: Zone, clock: int, guess: int) {
    exists at, before, after :: OneChange(zone, clock, at, before, after) && Misleads(clock, guess, at, before, after)
  }

  /** Around one change, for any guess: the reading shows the clock, or shows it late by the change, or there is no such clock. */
  lemma RereadAroundAChange(zone: Zone, clock: int, guess: int, at: int, before: int, after: int)
    requires Bounded(zone) && -DAY < guess < DAY && OneChange(zone, clock, at, before, after)
    ensures Local(zone, Reread(zone, clock, guess)) == clock <==> Exists(zone, clock) && !Misleads(clock, guess, at, before, after)
    ensures Local(zone, Reread(zone, clock, guess)) != clock ==>
              Local(zone, Reread(zone, clock, guess)) == clock + (if before < after then after - before else before - after)
  {
    if t :| Local(zone, t) == clock {
      assert clock - DAY < t < clock + DAY;
    }
  }

  /** The library's reading shows the clock it was given exactly when some instant shows it and the guess did not mislead. */
  lemma RereadShowsTheClockExactlyWhenItExists(zone: Zone, clock: int, guess: int)
    requires Quiet(zone, clock) && -DAY < guess < DAY
    ensures Local(zone, Reread(zone, clock, guess)) == clock <==> Exists(zone, clock) && !Misled(zone, clock, guess)
  {
    var at, before, after :| OneChange(zone, clock, at, before, after);
    RereadAroundAChange(zone, clock, guess, at, before, after);
    if Misled(zone, clock, guess) {
      var at', before', after' :| OneChange(zone, clock, at', before', after') && Misleads(clock, guess, at', before', after');
      RereadAroundAChange(zone, clock, guess, at', before', after');
    }
  }

  /** So it takes a change within a day of the clock, and an offset that is in force on neither side of it. */
  lemma OnlyAForeignOffsetMisleads(zone: Zone, clock: int, guess: int)
    requires Bounded(zone) && -DAY < guess < DAY && Misled(zone, clock, guess)
    ensures forall t | clock - DAY < t < clock + DAY :: zone.offset(t) != guess
    ensures exists t, u :: clock - DAY < t < u < clock + DAY && zone.offset(t) != zone.offset(u)
  {
    var at, before, after :| OneChange(zone, clock, at, before, after) && Misleads(clock, guess, at, before, after);
    assert zone.offset(clock - DAY + 1) == before;
    assert clock - DAY < at - 1 < at < clock + DAY && zone.offset(at - 1) != zone.offset(at);
  }

  /** Such a zone: it went from zero to one hour at the epoch, and is at three hours when the clock is typed. */
  lemma AForeignOffsetCanMislead() returns (zone: Zone, clock: int, now: int)
    ensures Quiet(zone, clock) && OccursOnce(zone, clock) && Misled(zone, clock, zone.offset(now))
    ensures Local(zone, ResolveEventInstant(zone, Naive(clock), now)) == clock + DAY / 24
  {
    var hour := DAY / 24;
    zone := Zone(t => if t < 0 then 0 else if t < 10 * DAY then hour else 3 * hour);
    clock, now := 2 * hour, 10 * DAY;
    assert OneChange(zone, clock, 0, 0, hour);
    assert Local(zone, hour) == clock;
  }

  /** A skipped clock is read as the one the same distance past the gap, whatever the guess. */
  lemma SkippedClockLandsPastTheGap(zone: Zone, clock: int, guess: int, at: int, before: int, after: int)
    requires Bounded(zone) && OneChange(zone, clock, at, before, after) && -DAY < guess < DAY
    requires -DAY < before < DAY && -DAY < after < DAY && !Exists(zone, clock)
    ensures before < after && Local(zone, Reread(zone, clock, guess)) == clock + (after - before)
  {
    assert Local(zone, clock - before) != clock && Local(zone, clock - after) != clock;
    assert Local(zone, clock - guess) != clock;
  }

  datatype Input = Naive(clock: int) | Exact(instant: int) | Unparseable(fallback: int)

  /** An explicit designator wins over the zone; a naive clock is read in the event's own, guessing today's offset. */
  function ResolveEventInstant(zone: Zone, value: Input, now: int): int {
    match value
    case Naive(clock) => Reread(zone, clock, zone.offset(now))
    case Exact(instant) => instant
    case Unparseable(fallback) => fallback
  }

  /** The UTC field view at second precision, as milliseconds. */
  function StoredWallClock(instant: int): int {
    instant / 1000 * 1000
  }

  /** What the create path stores: a true instant wherever one was sent, and otherwise the reading of the clock. */
  lemma InputsInFull(zone: Zone, value: Input, now: int)
    ensures value.Exact? ==> ResolveEventInstant(zone, value, now) == value.instant
    ensures value.Unparseable? ==> ResolveEventInstant(zone, value, now) == value.fallback
    ensures value.Naive? && (forall t :: zone.offset(t) == zone.offset(now)) ==>
              ResolveEventInstant(zone, value, now) == value.clock - zone.offset(now)
  {
  }

  /** The same fields re-read in the zone, guessing the offset in force at the stored instant. */
  function ReanchorInstant(zone: Zone, instant: int): int {
    Reread(zone, instant, zone.offset(instant))
  }

  /** An unparseable expectation is a mismatch. */
  predicate MatchesStoredWallClock(instant: int, expected: Option<int>) {
    expected.Some? && StoredWallClock(expected.value) == StoredWallClock(instant)
  }

  /** The guard passes exactly when a parsed expectation and the row lie in one and the same second. */
  lemma MatchesWithinOneSecond(instant: int, expected: Option<int>)
    ensures MatchesStoredWallClock(instant, expected) <==>
            expected.Some? && exists second: int :: second * 1000 <= instant < second * 1000 + 1000 &&
                                                     second * 1000 <= expected.value < second * 1000 + 1000
  {
    var second := instant / 1000;
    assert second * 1000 <= instant < second * 1000 + 1000;
    if expected.Some? && StoredWallClock(expected.value) == StoredWallClock(instant) {
      assert second * 1000 <= expected.value < second * 1000 + 1000;
    }
  }

  /** The repaired instant shows, in the event's zone, the clock the row used to show in UTC, whenever the zone has it. */
  lemma ReanchorKeepsTheClock(zone: Zone, instant: int)
    requires Quiet(zone, instant)
    ensures Local(zone, ReanchorInstant(zone, instant)) == instant <==> Exists(zone, instant)
    ensures OccursOnce(zone, instant) ==>
              forall t :: Local(zone, t) == instant <==> t == ReanchorInstant(zone, instant)
  {
    RereadShowsTheClockExactlyWhenItExists(zone, instant, zone.offset(instant));
    if Misled(zone, instant, zone.offset(instant)) {
      OnlyAForeignOffsetMisleads(zone, instant, zone.offset(instant));
    }
  }

  /**
   Repairing a whole-second row lands where the fixed create path puts that clock today,
   whatever offset is in force today — unless that offset misleads the create path.
   */
  lemma ReanchorIsWhatCreateWouldStore(zone: Zone, instant: int, now: int)
    requires Quiet(zone, instant) && OccursOnce(zone, instant) && instant % 1000 == 0
    ensures ReanchorInstant(zone, instant) == ResolveEventInstant(zone, Naive(StoredWallClock(instant)), now) <==>
            !Misled(zone, instant, zone.offset(now))
  {
    ReanchorKeepsTheClock(zone, instant);
    RereadShowsTheClockExactlyWhenItExists(zone, instant, zone.offset(now));
    assert StoredWallClock(instant) == instant;
  }

  /** Start and end are re-read independently, so the wall-clock duration survives a DST change between them. */
  lemma DurationIsKept(zone: Zone, start: int, end: int)
    requires Quiet(zone, start) && Exists(zone, start) && Quiet(zone, end) && Exists(zone, end)
    ensures Local(zone, ReanchorInstant(zone, end)) - Local(zone, ReanchorInstant(zone, start)) == end - start
  {
    ReanchorKeepsTheClock(zone, start);
    ReanchorKeepsTheClock(zone, end);
  }

  /** Moving the end by the start's delta instead would be right exactly when both repaired ends see one offset. */
  lemma OneDeltaIsEnoughExactlyWhen(zone: Zone, start: int, end: int)
    requires Quiet(zone, start) && Exists(zone, start) && Quiet(zone, end) && Exists(zone, end)
    ensures end + (ReanchorInstant(zone, start) - start) == ReanchorInstant(zone, end) <==>
            zone.offset(ReanchorInstant(zone, start)) == zone.offset(ReanchorInstant(zone, end))
  {
    ReanchorKeepsTheClock(zone, start);
    ReanchorKeepsTheClock(zone, end);
  }

  ghost predicate WholeSeconds(zone: Zone) {
    forall t :: zone.offset(t) % 1000 == 0
  }

  /** A repair shifts by whole seconds, so a row that still shows the expected second has not moved at all. */
  lemma SameSecondIsUnmoved(zone: Zone, instant: int)
    requires WholeSeconds(zone) && StoredWallClock(ReanchorInstant(zone, instant)) == StoredWallClock(instant)
    ensures ReanchorInstant(zone, instant) == instant
  {
    var moved := ReanchorInstant(zone, instant);
    assert (moved - instant) % 1000 == 0;
    assert moved == moved / 1000 * 1000 + moved % 1000 && instant == instant / 1000 * 1000 + instant % 1000;
  }

  /** The action on one start: it runs only when the caller names the clock the row shows. */
  function Reanchored(zone: Zone, instant: int, expected: Option<int>): int {
    if MatchesStoredWallClock(instant, expected) then ReanchorInstant(zone, instant) else instant
  }

  function Repeated(zone: Zone, instant: int, expected: Option<int>, times: nat): int {
    if times == 0 then instant else Reanchored(zone, Repeated(zone, instant, expected, times - 1), expected)
  }

  /** Repeating the action with the same expectation never moves a start a second time, in any zone and for any clock. */
  lemma {:induction false} RepeatNeverMovesAgain(zone: Zone, instant: int, expected: Option<int>, times: nat)
    requires WholeSeconds(zone) && times >= 1
    ensures Repeated(zone, instant, expected, times) == Reanchored(zone, instant, expected)
  {
    var once := Reanchored(zone, instant, expected);
    if times == 1 {
      assert Repeated(zone, instant, expected, 0) == instant;
    } else {
      RepeatNeverMovesAgain(zone, instant, expected, times - 1);
      if MatchesStoredWallClock(once, expected) && MatchesStoredWallClock(instant, expected) {
        SameSecondIsUnmoved(zone, instant);
      }
    }
  }
}
