/**
 Which occurrences a sweep materialises: every occurrence is anchored to the template's
 own start, the search is fast-forwarded by an arithmetic estimate, and two short loops
 correct the estimate. Instants and clocks are milliseconds.
 */
module Recurrence {
  import opened EventTime
  import opened Gregorian

  const HORIZON := 60 * DAY
  const MAX_EMIT := 500

  datatype Cadence = Daily | Weekly | Monthly

  datatype Series = Series(zone: Zone, anchor: int, cadence: Cadence)

  /**
   All the algorithm needs of a zone: from two days before the anchor on, its offsets lie
   within one day of each other. Only a change of sides of the date line breaks that.
   */
  ghost predicate Steady(s: Series, low: int) {
    Bounded(s.zone) && forall t | t >= s.anchor - 2 * DAY :: low <= s.zone.offset(t) < low + DAY
  }

  /** A moved wall clock is read back guessing the anchor's own offset. */
  function Read(s: Series, clock: int): int {
    Reread(s.zone, clock, s.zone.offset(s.anchor))
  }

  /** The wall clock the n-th occurrence is meant to show. */
  function Wall(s: Series, n: int): int {
    var clock := Local(s.zone, s.anchor);
    match s.cadence
    case Daily => clock + n * DAY
    case Weekly => clock + n * (7 * DAY)
    case Monthly => MonthsLater(clock, n)
  }

  /** The series of start instants. */
  function Occurrences(s: Series): int -> int {
    n => Read(s, Wall(s, n))
  }

  function Estimate(s: Series, now: int): int {
    match s.cadence
    case Daily => (now - s.anchor) / DAY
    case Weekly => (now - s.anchor) / (7 * DAY)
    case Monthly => MonthOf(Local(s.zone, now)) - MonthOf(Local(s.zone, s.anchor))
  }

  // ── Occurrences in order ────────────────────────────────────────────────────

  lemma NextWall(s: Series, n: int)
    ensures Wall(s, n + 1) - Wall(s, n) >= DAY
  {
    if s.cadence.Monthly? {
      MonthsAreFourWeeksApart(FieldsOf(Local(s.zone, s.anchor)), n);
    }
  }

  lemma {:induction false} WallsApart(s: Series, a: int, b: int)
    requires a <= b
    ensures Wall(s, b) - Wall(s, a) >= (b - a) * DAY
    decreases b - a
  {
    if a < b {
      WallsApart(s, a, b - 1);
      NextWall(s, b - 1);
    }
  }

  /** From the first occurrence on, every reading uses an offset of the steady range. */
  lemma ReadIsClose(s: Series, low: int, n: int)
    requires Steady(s, low) && n >= 1
    ensures low <= Wall(s, n) - Occurrences(s)(n) < low + DAY
  {
    WallsApart(s, 1, n);
    FirstWall(s);
  }

  lemma FirstWall(s: Series)
    ensures Wall(s, 1) >= Local(s.zone, s.anchor) + DAY
  {
    if s.cadence.Monthly? {
      var f := FieldsOf(Local(s.zone, s.anchor));
      FieldsRoundTrip(Local(s.zone, s.anchor), f);
      MonthsAreFourWeeksApart(f, 0);
      assert PlusMonths(f, 0) == f;
    }
  }

  /** No offset change can bring two occurrences together or out of order. */
  lemma OccurrencesApart(s: Series, low: int, a: int, b: int)
    requires Steady(s, low) && 1 <= a < b
    ensures Occurrences(s)(b) - Occurrences(s)(a) > (b - a - 1) * DAY
  {
    WallsApart(s, a, b);
    ReadIsClose(s, low, a);
    ReadIsClose(s, low, b);
  }

  ghost predicate Rising(occurrenceAt: int -> int) {
    forall a, b | 1 <= a < b :: occurrenceAt(a) < occurrenceAt(b)
  }

  lemma OccurrencesRise(s: Series, low: int)
    requires Steady(s, low)
    ensures Rising(Occurrences(s))
  {
    forall a, b | 1 <= a < b ensures Occurrences(s)(a) < Occurrences(s)(b) {
      OccurrencesApart(s, low, a, b);
    }
  }

  /** Whole months on either side of now's own month are far enough away to absorb any offset. */
  lemma MonthsBracket(s: Series, now: int)
    requires s.cadence.Monthly?
    ensures Wall(s, Estimate(s, now) - 2) <= Local(s.zone, now) - 28 * DAY
    ensures Wall(s, Estimate(s, now) + 2) >= Local(s.zone, now) + 28 * DAY
  {
    var e := Estimate(s, now);
    TwoMonthsBefore(Local(s.zone, s.anchor), e - 2, Local(s.zone, now));
    TwoMonthsAfter(Local(s.zone, s.anchor), e + 2, Local(s.zone, now));
  }

  /** Every occurrence is later than the anchor. */
  lemma OccurrencesFollowTheAnchor(s: Series, low: int, n: int)
    requires Steady(s, low) && n >= 1
    ensures Occurrences(s)(n) > s.anchor
  {
    ReadIsClose(s, low, n);
    WallsApart(s, 1, n);
    FirstWall(s);
  }

  /** The month arithmetic goes wrong by at most one month when now and the anchor are almost together. */
  lemma MonthlyEstimateBounds(s: Series, now: int)
    requires Bounded(s.zone) && s.cadence.Monthly?
    ensures now >= s.anchor ==> Estimate(s, now) >= -1
    ensures now < s.anchor ==> Estimate(s, now) <= 1
  {
    var here, there := Local(s.zone, now), Local(s.zone, s.anchor);
    assert -DAY < s.zone.offset(now) < DAY && -DAY < s.zone.offset(s.anchor) < DAY;
    if here <= there {
      MonthsFollowClocks(here, there);
    } else {
      MonthsFollowClocks(there, here);
    }
  }

  lemma FixedBracket(s: Series, now: int)
    requires !s.cadence.Monthly? && now >= s.anchor
    ensures var e, step := Estimate(s, now), if s.cadence.Daily? then DAY else 7 * DAY;
            e >= 0 && Wall(s, e) <= Local(s.zone, s.anchor) + (now - s.anchor) < Wall(s, e) + step &&
            Wall(s, e - 2) == Wall(s, e) - 2 * step && Wall(s, e + 2) == Wall(s, e) + 2 * step
  {
  }

  /** Two steps of the estimate's wall clock are more than a day clear of now's, either way. */
  lemma WallBrackets(s: Series, low: int, now: int)
    requires Steady(s, low) && now >= s.anchor
    ensures var e := Estimate(s, now);
            e >= -1 && Wall(s, e + 2) - (low + DAY) >= now && Wall(s, e - 2) - low <= now
  {
    assert low <= s.zone.offset(s.anchor) < low + DAY && low <= s.zone.offset(now) < low + DAY;
    if s.cadence.Monthly? {
      MonthlyEstimateBounds(s, now);
      MonthsBracket(s, now);
    } else {
      FixedBracket(s, now);
    }
  }

  /** The estimate is never more than two away, in any steady zone, once the anchor has passed. */
  lemma EstimateBrackets(s: Series, low: int, now: int)
    requires Steady(s, low) && now >= s.anchor
    ensures var e := Estimate(s, now);
            e >= -1 && now < Occurrences(s)(e + 2) && (e > 2 ==> Occurrences(s)(e - 2) <= now)
  {
    var e := Estimate(s, now);
    WallBrackets(s, low, now);
    ReadIsClose(s, low, e + 2);
    if e > 2 {
      ReadIsClose(s, low, e - 2);
    }
  }

  /** From the anchor on the local month only moves forward, and each occurrence is shown in the month meant for it. */
  ghost predicate MonthsAreOrderly(s: Series) {
    (forall a, b | s.anchor <= a <= b :: MonthOf(Local(s.zone, a)) <= MonthOf(Local(s.zone, b))) &&
    (forall n | n >= 1 :: MonthOf(Local(s.zone, Occurrences(s)(n))) == MonthOf(Wall(s, n)))
  }

  /** A zone that never changes its offset is as steady and orderly as can be. */
  lemma AFixedZoneIsSteady(s: Series, offset: int)
    requires -DAY < offset < DAY && forall t :: s.zone.offset(t) == offset
    ensures Steady(s, offset) && MonthsAreOrderly(s)
  {
    forall a, b | s.anchor <= a <= b ensures MonthOf(Local(s.zone, a)) <= MonthOf(Local(s.zone, b)) {
      MonthsFollowClocks(Local(s.zone, a), Local(s.zone, b));
    }
    assert forall n :: Local(s.zone, Occurrences(s)(n)) == Wall(s, n);
  }

  /** Where no offset change straddles a month's end, the month arithmetic is off by at most one. */
  lemma MonthlyEstimateIsWithinOne(s: Series, low: int, now: int)
    requires Steady(s, low) && MonthsAreOrderly(s) && s.cadence.Monthly? && now >= s.anchor
    ensures var e := Estimate(s, now);
            e >= 0 && now < Occurrences(s)(e + 1) && (e > 1 ==> Occurrences(s)(e - 1) < now)
  {
    var clock, e := Local(s.zone, s.anchor), Estimate(s, now);
    assert e >= 0;
    MonthsLaterFields(clock, e + 1);
    OccurrencesFollowTheAnchor(s, low, e + 1);
    assert MonthOf(Local(s.zone, Occurrences(s)(e + 1))) == MonthOf(Local(s.zone, now)) + 1;
    if e > 1 {
      MonthsLaterFields(clock, e - 1);
      OccurrencesFollowTheAnchor(s, low, e - 1);
      assert MonthOf(Local(s.zone, Occurrences(s)(e - 1))) == MonthOf(Local(s.zone, now)) - 1;
    }
  }

  /** The first occurrence strictly after now; the anchor itself (index 0) is the template, not an occurrence. */
  ghost predicate IsFirst(occurrenceAt: int -> int, now: int, n: int) {
    n >= 1 && occurrenceAt(n) > now && forall k | 1 <= k < n :: occurrenceAt(k) <= now
  }

  /** The two guarded corrections: with an estimate this close, neither guard ever cuts one short. */
  method FastForward(occurrenceAt: int -> int, estimate: int, now: int) returns (n: int)
    requires Rising(occurrenceAt)
    requires now < occurrenceAt(if estimate + 32 >= 1 then estimate + 32 else 1)
    requires estimate > 64 ==> occurrenceAt(estimate - 64) <= now
    ensures IsFirst(occurrenceAt, now, n)
    ensures n >= 1 && occurrenceAt(n) > now && forall k | 1 <= k < n :: occurrenceAt(k) <= now
  {
    n := if estimate > 1 then estimate else 1;
    ghost var start := n;
    var guard := 0;
    while occurrenceAt(n) <= now && guard < 32
      invariant start <= n && (n == start || n <= estimate + 32) && guard == n - start
      invariant n > start ==> occurrenceAt(n - 1) <= now
    {
      guard := guard + 1;
      n := n + 1;
    }
    ghost var reached := n;
    while n > 1 && occurrenceAt(n - 1) > now && guard < 64
      invariant 1 <= n <= reached && occurrenceAt(n) > now
      invariant n < reached ==> reached == start && n > estimate - 64
      invariant guard == (reached - start) + (reached - n)
    {
      guard := guard + 1;
      n := n - 1;
    }
  }

  predicate Ascending(starts: seq<int>) {
    forall i, j | 0 <= i < j < |starts| :: starts[i] < starts[j]
  }

  ghost predicate IsOccurrence(occurrenceAt: int -> int, start: int) {
    exists n :: n >= 1 && occurrenceAt(n) == start
  }

  /** What a sweep owes: the occurrences after now, within the horizon, that no row has yet. */
  ghost predicate Due(occurrenceAt: int -> int, now: int, horizonEnd: int, existing: set<int>, start: int) {
    now < start <= horizonEnd && start !in existing && IsOccurrence(occurrenceAt, start)
  }

  lemma NextDue(occurrenceAt: int -> int, now: int, horizonEnd: int, existing: set<int>, first: int, n: int)
    requires Rising(occurrenceAt) && IsFirst(occurrenceAt, now, first)
    requires first <= n && occurrenceAt(n) <= horizonEnd
    ensures forall start :: Due(occurrenceAt, now, horizonEnd, existing, start) && start < occurrenceAt(n + 1) <==>
              (Due(occurrenceAt, now, horizonEnd, existing, start) && start < occurrenceAt(n)) ||
              (start == occurrenceAt(n) && start !in existing)
  {
  }

  lemma NothingDueBefore(occurrenceAt: int -> int, now: int, horizonEnd: int, existing: set<int>, first: int)
    requires Rising(occurrenceAt) && IsFirst(occurrenceAt, now, first)
    ensures forall start | Due(occurrenceAt, now, horizonEnd, existing, start) :: start >= occurrenceAt(first)
  {
  }

  /** The emission loop: at most `MAX_EMIT` occurrences are looked at, present ones skipped. */
  method Emit(occurrenceAt: int -> int, now: int, horizonEnd: int, existing: set<int>, first: int) returns (out: seq<int>)
    requires Rising(occurrenceAt) && IsFirst(occurrenceAt, now, first)
    ensures Ascending(out)
    ensures forall start :: start in out <==>
              Due(occurrenceAt, now, horizonEnd, existing, start) && start < occurrenceAt(first + MAX_EMIT)
  {
    var n := first;
    NothingDueBefore(occurrenceAt, now, horizonEnd, existing, first);
    out := [];
    var emitted := 0;
    while emitted < MAX_EMIT
      invariant 0 <= emitted <= MAX_EMIT && n == first + emitted
      invariant Ascending(out) && forall i | 0 <= i < |out| :: out[i] < occurrenceAt(n)
      invariant forall start :: start in out <==>
                  Due(occurrenceAt, now, horizonEnd, existing, start) && start < occurrenceAt(n)
    {
      var ms := occurrenceAt(n);
      if ms > horizonEnd {
        assert ms < occurrenceAt(first + MAX_EMIT);
        break;
      }
      NextDue(occurrenceAt, now, horizonEnd, existing, first, n);
      assert ms < occurrenceAt(n + 1);
      if ms !in existing {
        out := out + [ms];
      }
      n, emitted := n + 1, emitted + 1;
    }
  }

  lemma WiderBracket(occurrenceAt: int -> int, e: int, now: int)
    requires Rising(occurrenceAt) && e >= -1 && now < occurrenceAt(e + 2) && (e > 2 ==> occurrenceAt(e - 2) <= now)
    ensures now < occurrenceAt(e + 32) && (e > 64 ==> occurrenceAt(e - 64) <= now)
  {
    assert occurrenceAt(e + 2) < occurrenceAt(e + 32);
  }

  lemma SearchIsBracketed(s: Series, low: int, now: int)
    requires Steady(s, low)
    ensures Rising(Occurrences(s))
    ensures var e := Estimate(s, now);
            now < Occurrences(s)(if e + 32 >= 1 then e + 32 else 1) && (e > 64 ==> Occurrences(s)(e - 64) <= now)
  {
    var occurrenceAt, e := Occurrences(s), Estimate(s, now);
    OccurrencesRise(s, low);
    if now >= s.anchor {
      EstimateBrackets(s, low, now);
      WiderBracket(occurrenceAt, e, now);
    } else {
      OccurrencesFollowTheAnchor(s, low, if e + 32 >= 1 then e + 32 else 1);
      if s.cadence.Monthly? {
        MonthlyEstimateBounds(s, now);
      }
    }
  }

  /** `MAX_EMIT` occurrences reach past the sweep's horizon, at every cadence. */
  lemma CapIsNeverReached(s: Series, low: int, now: int, first: int, start: int)
    requires Steady(s, low) && IsFirst(Occurrences(s), now, first) && start <= now + HORIZON
    ensures start < Occurrences(s)(first + MAX_EMIT)
  {
    OccurrencesApart(s, low, first, first + MAX_EMIT);
  }

  /**
   The fast form against the naive one: up to the emission cap the output is exactly what
   filtering every occurrence would give, in order, and at the sweep's own horizon the cap
   is never reached.
   */
  method ComputeOccurrenceStarts(s: Series, now: int, horizonEnd: int, existing: set<int>, ghost low: int)
    returns (out: seq<int>, ghost first: int)
    requires Steady(s, low)
    ensures IsFirst(Occurrences(s), now, first) && Ascending(out)
    ensures forall start :: start in out <==>
              Due(Occurrences(s), now, horizonEnd, existing, start) && start < Occurrences(s)(first + MAX_EMIT)
    ensures horizonEnd <= now + HORIZON ==>
              forall start :: start in out <==> Due(Occurrences(s), now, horizonEnd, existing, start)
    ensures horizonEnd <= now + 5_184_000_000 ==>
              forall start :: start in out <==>
                now < start <= horizonEnd && start !in existing && exists n :: n >= 1 && Occurrences(s)(n) == start
  {
    SearchIsBracketed(s, low, now);
    var n := FastForward(Occurrences(s), Estimate(s, now), now);
    first := n;
    out := Emit(Occurrences(s), now, horizonEnd, existing, n);
    if horizonEnd <= now + HORIZON {
      forall start | Due(Occurrences(s), now, horizonEnd, existing, start) ensures start in out {
        CapIsNeverReached(s, low, now, n, start);
      }
    }
  }

  /**
   Every occurrence whose clock the zone has shows that clock, whatever offset changes lie
   between it and the anchor — unless one lies within a day and the anchor's offset misleads.
   */
  lemma OccurrenceShowsItsClockExactlyWhen(s: Series, n: int)
    requires Quiet(s.zone, Wall(s, n))
    ensures Local(s.zone, Occurrences(s)(n)) == Wall(s, n) <==>
            Exists(s.zone, Wall(s, n)) && !Misled(s.zone, Wall(s, n), s.zone.offset(s.anchor))
  {
    RereadShowsTheClockExactlyWhenItExists(s.zone, Wall(s, n), s.zone.offset(s.anchor));
  }

  /** The clocks meant: a day or a week of them apart, or the anchor's day of the n-th month on, clamped to its length. */
  lemma WallsFollowTheCadence(s: Series, n: int)
    ensures var clock := Local(s.zone, s.anchor);
            match s.cadence
            case Daily => Wall(s, n) == clock + n * 86_400_000
            case Weekly => Wall(s, n) == clock + n * 604_800_000
            case Monthly =>
              var from, to := FieldsOf(clock), FieldsOf(Wall(s, n));
              to.month == from.month + n && to.time == from.time &&
              to.day == if from.day < MonthLength(to.month) then from.day else MonthLength(to.month) - 1
  {
    if s.cadence.Monthly? {
      MonthsLaterFields(Local(s.zone, s.anchor), n);
    }
  }

  /** And that clock is the anchor's local time of day, weekday or day of the month. */
  lemma LocalTimeIsKept(s: Series, n: int)
    requires Quiet(s.zone, Wall(s, n)) && Exists(s.zone, Wall(s, n))
    requires !Misled(s.zone, Wall(s, n), s.zone.offset(s.anchor))
    ensures Local(s.zone, Occurrences(s)(n)) % DAY == Local(s.zone, s.anchor) % DAY
    ensures s.cadence.Weekly? ==>
              Local(s.zone, Occurrences(s)(n)) / DAY % 7 == Local(s.zone, s.anchor) / DAY % 7
    ensures s.cadence.Monthly? ==>
              FieldsOf(Local(s.zone, Occurrences(s)(n))) == PlusMonths(FieldsOf(Local(s.zone, s.anchor)), n)
  {
    var clock := Local(s.zone, s.anchor);
    OccurrenceShowsItsClockExactlyWhen(s, n);
    match s.cadence
    case Daily => assert Wall(s, n) % DAY == clock % DAY;
    case Weekly => assert Wall(s, n) / DAY == clock / DAY + 7 * n;
    case Monthly => MonthsLaterFields(clock, n);
  }

  /** Where no change lies within a day of the occurrence nothing is asked of the anchor's offset at all. */
  lemma LocalTimeIsKeptAcrossChanges(s: Series, n: int, offset: int)
    requires Bounded(s.zone) && forall t | Wall(s, n) - DAY < t < Wall(s, n) + DAY :: s.zone.offset(t) == offset
    ensures Local(s.zone, Occurrences(s)(n)) == Wall(s, n)
    ensures Local(s.zone, Occurrences(s)(n)) % DAY == Local(s.zone, s.anchor) % DAY
  {
    var wall := Wall(s, n);
    assert OneChange(s.zone, wall, wall, offset, offset);
    assert s.zone.offset(wall) == offset;
    assert Local(s.zone, wall - offset) == wall;
    if Misled(s.zone, wall, s.zone.offset(s.anchor)) {
      OnlyAForeignOffsetMisleads(s.zone, wall, s.zone.offset(s.anchor));
    }
    OccurrenceShowsItsClockExactlyWhen(s, n);
    LocalTimeIsKept(s, n);
  }

  /** Why a steady zone is asked for: a zone that skips a whole calendar day has two occurrences at one instant. */
  lemma AWholeDayShiftCanRepeatAStart() returns (s: Series, low: int)
    ensures Bounded(s.zone) && s.cadence.Daily? && forall t :: low <= s.zone.offset(t) <= low + DAY
    ensures Occurrences(s)(1) == Occurrences(s)(2)
  {
    var half := DAY / 2;
    var zone := Zone(t => if t < 0 then -half else half);
    s, low := Series(zone, -DAY, Daily), -half;
    assert Local(s.zone, s.anchor) == -DAY - half;
    assert Wall(s, 1) == -half && Wall(s, 2) == half;
  }
}
