/**
 Materialising one template over time: sweeps at any times, racing each other between
 reading the existing rows and inserting the missing ones, some of them dying half-way,
 while officers cancel occurrences. UNIQUE (recurrenceTemplateId, startsAt) arbitrates.
 */
module RecurrenceRuns {
  import opened Recurrence

  /** An occurrence row; a cancelled one is soft-deleted and still holds its start. */
  datatype Row = Row(startsAt: int, deleted: bool)

  function Starts(rows: seq<Row>): set<int> {
    set r | r in rows :: r.startsAt
  }

  predicate Unique(rows: seq<Row>) {
    forall i, j | 0 <= i < j < |rows| :: rows[i].startsAt != rows[j].startsAt
  }

  function Fresh(starts: seq<int>): seq<Row> {
    seq(|starts|, i requires 0 <= i < |starts| => Row(starts[i], false))
  }

  lemma StartsGrow(rows: seq<Row>, start: int)
    ensures Starts(rows + [Row(start, false)]) == Starts(rows) + {start}
    ensures Unique(rows) && start !in Starts(rows) ==> Unique(rows + [Row(start, false)])
  {
  }

  lemma NextStart(starts: seq<int>, i: nat)
    requires Ascending(starts) && i < |starts|
    ensures starts[i] in starts && starts[i] !in starts[..i] && starts[..i + 1] == starts[..i] + [starts[i]]
    ensures Fresh(starts[..i + 1]) == Fresh(starts[..i]) + [Row(starts[i], false)]
  {
  }

  class EventRecurrenceScheduler {
    const series: Series
    var rows: seq<Row>
    var announced: seq<int>

    constructor (series: Series)
      ensures this.series == series && rows == [] && announced == []
    {
      this.series, rows, announced := series, [], [];
    }

    /** One occurrence in its own transaction: a taken start is skipped, a new one is announced once. */
    method TryCreateOccurrence(start: int) returns (made: bool)
      modifies this
      ensures made == (start !in Starts(old(rows)))
      ensures rows == if made then old(rows) + [Row(start, false)] else old(rows)
      ensures announced == if made then old(announced) + [start] else old(announced)
    {
      made := start !in Starts(rows);
      if made {
        rows := rows + [Row(start, false)];
        announced := announced + [start];
      }
    }

    /** One undisturbed sweep: afterwards the window is complete, and each missing start became one announced row. */
    method GenerateForTemplate(now: int, ghost low: int) returns (created: nat, ghost made: seq<int>)
      requires Steady(series, low) && Unique(rows)
      modifies this
      ensures rows == old(rows) + Fresh(made) && announced == old(announced) + made && created == |made|
      ensures Unique(rows) && Ascending(made)
      ensures forall start :: start in made <==>
                now < start <= now + 5_184_000_000 && (forall r | r in old(rows) :: r.startsAt != start) &&
                exists n :: n >= 1 && Occurrences(series)(n) == start
    {
      var starts, _ := ComputeOccurrenceStarts(series, now, now + HORIZON, Starts(rows), low);
      made := starts;
      created := 0;
      ghost var before := Starts(rows);
      assert Fresh(starts[..0]) == [];
      for i := 0 to |starts|
        invariant created == i
        invariant rows == old(rows) + Fresh(starts[..i]) && announced == old(announced) + starts[..i]
        invariant Unique(rows) && forall x :: x in Starts(rows) <==> x in before || x in starts[..i]
      {
        NextStart(starts, i);
        StartsGrow(rows, starts[i]);
        var one := TryCreateOccurrence(starts[i]);
        if one {
          created := created + 1;
        }
      }
      assert starts[..|starts|] == starts;
    }
  }

  // ── Racing sweeps ───────────────────────────────────────────────────────────

  datatype Sweep =
    | Started(now: int)
    | Inserting(now: int, todo: seq<int>)
    /** The row at `start` is committed and its announcement not queued yet. */
    | Announcing(now: int, todo: seq<int>, start: int)

  /**
   `begun` and `done` remember the times of the sweeps that started and that ran to their end;
   `silent` the rows whose announcement a swallowed error or a process death threw away.
   */
  datatype World = World(now: int, rows: seq<Row>, sweeps: map<nat, Sweep>, begun: set<int>, done: set<int>,
                         announced: seq<int>, silent: set<int>)

  datatype Event =
    | Wait(until: int)
    | Begin(sweep: nat)
    | Read(sweep: nat, todo: seq<int>)
    | Insert(sweep: nat)
    | Announce(sweep: nat, queued: bool)
    | Finish(sweep: nat)
    | Abandon(sweep: nat)
    | Cancel(row: nat)

  ghost predicate Enabled(s: Series, w: World, e: Event) {
    match e
    case Wait(until) => until >= w.now
    case Begin(sweep) => sweep !in w.sweeps
    // The rows are read after the sweep fixed its own `now`; what it will insert is ComputeOccurrenceStarts' answer.
    case Read(sweep, todo) =>
      sweep in w.sweeps && w.sweeps[sweep].Started? &&
      forall start :: start in todo <==>
        Due(Occurrences(s), w.sweeps[sweep].now, w.sweeps[sweep].now + HORIZON, Starts(w.rows), start)
    case Insert(sweep) => sweep in w.sweeps && w.sweeps[sweep].Inserting? && w.sweeps[sweep].todo != []
    case Announce(sweep, _) => sweep in w.sweeps && w.sweeps[sweep].Announcing?
    case Finish(sweep) => sweep in w.sweeps && w.sweeps[sweep].Inserting? && w.sweeps[sweep].todo == []
    case Abandon(sweep) => sweep in w.sweeps
    case Cancel(row) => row < |w.rows|
  }

  function Inserted(rows: seq<Row>, start: int): seq<Row> {
    if start in Starts(rows) then rows else rows + [Row(start, false)]
  }

  ghost function Next(s: Series, w: World, e: Event): World
    requires Enabled(s, w, e)
  {
    match e
    case Wait(until) => w.(now := until)
    case Begin(sweep) => w.(sweeps := w.sweeps[sweep := Started(w.now)], begun := w.begun + {w.now})
    case Read(sweep, todo) => w.(sweeps := w.sweeps[sweep := Inserting(w.sweeps[sweep].now, todo)])
    case Insert(sweep) =>
      var now, start, rest := w.sweeps[sweep].now, w.sweeps[sweep].todo[0], w.sweeps[sweep].todo[1..];
      var after := if start in Starts(w.rows) then Inserting(now, rest) else Announcing(now, rest, start);
      w.(sweeps := w.sweeps[sweep := after], rows := Inserted(w.rows, start))
    case Announce(sweep, queued) =>
      var start := w.sweeps[sweep].start;
      w.(sweeps := w.sweeps[sweep := Inserting(w.sweeps[sweep].now, w.sweeps[sweep].todo)],
         announced := if queued then w.announced + [start] else w.announced,
         silent := if queued then w.silent else w.silent + {start})
    case Finish(sweep) => w.(sweeps := w.sweeps - {sweep}, done := w.done + {w.sweeps[sweep].now})
    case Abandon(sweep) =>
      w.(sweeps := w.sweeps - {sweep},
         silent := if w.sweeps[sweep].Announcing? then w.silent + {w.sweeps[sweep].start} else w.silent)
    case Cancel(row) => w.(rows := w.rows[row := w.rows[row].(deleted := true)])
  }

  ghost predicate Runs(s: Series, w: World, es: seq<Event>)
    decreases |es|
  {
    es == [] || (Enabled(s, w, es[0]) && Runs(s, Next(s, w, es[0]), es[1..]))
  }

  ghost function After(s: Series, w: World, es: seq<Event>): World
    requires Runs(s, w, es)
    decreases |es|
  {
    if es == [] then w else After(s, Next(s, w, es[0]), es[1..])
  }

  ghost predicate InWindow(s: Series, now: int, start: int) {
    now < start <= now + HORIZON && IsOccurrence(Occurrences(s), start)
  }

  ghost predicate Seen(s: Series, begun: set<int>, start: int) {
    exists now :: now in begun && InWindow(s, now, start)
  }

  /** Every row is an occurrence some sweep looked at, and no two share a start. */
  ghost predicate RowsSound(s: Series, w: World) {
    Unique(w.rows) && forall i | 0 <= i < |w.rows| :: Seen(s, w.begun, w.rows[i].startsAt)
  }

  /** A sweep's window is split between what it still means to insert and what is already there. */
  ghost predicate Splits(s: Series, w: World, sweep: Sweep) {
    sweep.now in w.begun &&
    (!sweep.Started? ==>
      (forall start | start in sweep.todo :: InWindow(s, sweep.now, start)) &&
      (forall start | InWindow(s, sweep.now, start) :: start in sweep.todo || start in Starts(w.rows)))
  }

  ghost predicate Complete(s: Series, w: World, now: int) {
    now in w.begun && forall start | InWindow(s, now, start) :: start in Starts(w.rows)
  }

  ghost predicate Sound(s: Series, w: World) {
    RowsSound(s, w) &&
    (forall id | id in w.sweeps :: Splits(s, w, w.sweeps[id])) &&
    (forall now | now in w.done :: Complete(s, w, now))
  }

  lemma CancelKeepsStarts(rows: seq<Row>, row: nat)
    requires row < |rows|
    ensures Starts(rows[row := rows[row].(deleted := true)]) == Starts(rows)
  {
    var cancelled := rows[row := rows[row].(deleted := true)];
    forall x ensures x in Starts(cancelled) <==> x in Starts(rows) {
      if x in Starts(rows) {
        var i :| 0 <= i < |rows| && rows[i].startsAt == x;
        assert cancelled[i] in cancelled && cancelled[i].startsAt == x;
      }
      if x in Starts(cancelled) {
        var i :| 0 <= i < |cancelled| && cancelled[i].startsAt == x;
        assert rows[i] in rows && rows[i].startsAt == x;
      }
    }
  }

  lemma StartsAreKept(s: Series, w: World, e: Event)
    requires Enabled(s, w, e)
    ensures Starts(w.rows) <= Starts(Next(s, w, e).rows)
    ensures e.Insert? ==> Starts(Next(s, w, e).rows) == Starts(w.rows) + {w.sweeps[e.sweep].todo[0]}
    ensures !e.Insert? ==> Starts(Next(s, w, e).rows) == Starts(w.rows)
  {
    if e.Insert? {
      StartsGrow(w.rows, w.sweeps[e.sweep].todo[0]);
    } else if e.Cancel? {
      CancelKeepsStarts(w.rows, e.row);
    }
  }

  lemma RowsStep(s: Series, w: World, e: Event)
    requires Enabled(s, w, e) && Sound(s, w)
    ensures RowsSound(s, Next(s, w, e))
  {
  }

  lemma SplitsStep(s: Series, w: World, e: Event, id: nat)
    requires Enabled(s, w, e) && Sound(s, w) && id in Next(s, w, e).sweeps
    ensures Splits(s, Next(s, w, e), Next(s, w, e).sweeps[id])
  {
    StartsAreKept(s, w, e);
    var t := Next(s, w, e);
    if e.Begin? && id == e.sweep {
    } else {
      assert Splits(s, w, w.sweeps[id]);
      if e.Insert? && id == e.sweep {
        var todo := w.sweeps[id].todo;
        assert forall start :: start in todo <==> start == todo[0] || start in todo[1..];
      }
    }
  }

  lemma SoundStep(s: Series, w: World, e: Event)
    requires Enabled(s, w, e) && Sound(s, w)
    ensures Sound(s, Next(s, w, e))
  {
    var t := Next(s, w, e);
    RowsStep(s, w, e);
    forall id | id in t.sweeps ensures Splits(s, t, t.sweeps[id]) {
      SplitsStep(s, w, e, id);
    }
    StartsAreKept(s, w, e);
    forall now | now in t.done ensures Complete(s, t, now) {
      if now in w.done {
        assert Complete(s, w, now);
      } else {
        assert Splits(s, w, w.sweeps[e.sweep]);
      }
    }
  }

  lemma {:induction false} StaysSound(s: Series, w: World, es: seq<Event>)
    requires Runs(s, w, es) && Sound(s, w)
    ensures Sound(s, After(s, w, es))
    decreases |es|
  {
    if es != [] {
      SoundStep(s, w, es[0]);
      StaysSound(s, Next(s, w, es[0]), es[1..]);
    }
  }

  lemma Prepend(s: Series, w: World, e: Event, next: World, es: seq<Event>)
    requires Enabled(s, w, e) && Next(s, w, e) == next && Runs(s, next, es)
    ensures Runs(s, w, [e] + es) && After(s, w, [e] + es) == After(s, next, es)
  {
    assert ([e] + es)[1..] == es;
  }

  /**
   A sweep that is left alone runs to its end: every start it means to insert has a row then,
   whoever made it, and it has thrown no announcement away.
   */
  lemma {:induction false} ASweepCanFinish(s: Series, w: World, sweep: nat) returns (es: seq<Event>)
    requires sweep in w.sweeps && w.sweeps[sweep].Inserting?
    ensures Runs(s, w, es)
    ensures var t, now := After(s, w, es), w.sweeps[sweep].now;
            t.sweeps == w.sweeps - {sweep} && t.done == w.done + {now} && t.silent == w.silent && t.begun == w.begun &&
            Starts(t.rows) == Starts(w.rows) + (set start | start in w.sweeps[sweep].todo)
    decreases |w.sweeps[sweep].todo|
  {
    var now, todo := w.sweeps[sweep].now, w.sweeps[sweep].todo;
    if todo == [] {
      es := [Finish(sweep)] + [];
      Prepend(s, w, Finish(sweep), Next(s, w, Finish(sweep)), []);
    } else {
      var u := Next(s, w, Insert(sweep));
      StartsGrow(w.rows, todo[0]);
      if todo[0] in Starts(w.rows) {
        var rest := ASweepCanFinish(s, u, sweep);
        es := [Insert(sweep)] + rest;
        Prepend(s, w, Insert(sweep), u, rest);
      } else {
        var v := Next(s, u, Announce(sweep, true));
        var rest := ASweepCanFinish(s, v, sweep);
        es := [Insert(sweep)] + ([Announce(sweep, true)] + rest);
        Prepend(s, u, Announce(sweep, true), v, rest);
        Prepend(s, w, Insert(sweep), u, [Announce(sweep, true)] + rest);
      }
      assert todo == [todo[0]] + todo[1..];
    }
  }

  /** The completed sweeps reach from the first one to the last with no gap wider than the horizon. */
  ghost predicate Linked(done: set<int>, first: int, last: int) {
    first in done && last in done &&
    forall a | a in done && a < last :: exists b :: b in done && a < b <= a + HORIZON
  }

  lemma {:induction false} SomeSweepSaw(done: set<int>, first: int, last: int, from: int, start: int) returns (now: int)
    requires Linked(done, first, last) && from in done && from < start <= last + HORIZON
    ensures now in done && now < start <= now + HORIZON
    decreases start - from
  {
    if start <= from + HORIZON {
      now := from;
    } else {
      var next :| next in done && from < next <= from + HORIZON;
      now := SomeSweepSaw(done, first, last, next, start);
    }
  }

  function Blank(now: int): World {
    World(now, [], map[], {}, {}, [], {})
  }

  /**
   Whole-run completeness: if the first and last sweeps ran to their end and completed ones
   are never more than the horizon apart — whatever raced or died in between — the rows
   ever created are exactly the occurrences after the first sweep and up to the last one's
   horizon, each exactly once.
   */
  lemma WholeRun(s: Series, now: int, es: seq<Event>, first: int, last: int)
    requires Runs(s, Blank(now), es)
    requires var t := After(s, Blank(now), es);
             first in t.done && last in t.done &&
             (forall a | a in t.done && a < last :: exists b :: b in t.done && a < b <= a + 5_184_000_000) && forall b | b in t.begun :: first <= b <= last
    ensures var t := After(s, Blank(now), es);
            (forall i, j | 0 <= i < j < |t.rows| :: t.rows[i].startsAt != t.rows[j].startsAt) &&
            forall start :: start in Starts(t.rows) <==>
              first < start <= last + 5_184_000_000 && exists n :: n >= 1 && Occurrences(s)(n) == start
  {
    StaysSound(s, Blank(now), es);
    var t := After(s, Blank(now), es);
    forall start ensures start in Starts(t.rows) <==>
                           first < start <= last + 5_184_000_000 && exists n :: n >= 1 && Occurrences(s)(n) == start
    {
      if start in Starts(t.rows) {
        var i :| 0 <= i < |t.rows| && t.rows[i].startsAt == start;
        assert Seen(s, t.begun, t.rows[i].startsAt);
      } else if first < start <= last + HORIZON && IsOccurrence(Occurrences(s), start) {
        var seen := SomeSweepSaw(t.done, first, last, first, start);
        assert Complete(s, t, seen) && InWindow(s, seen, start);
      }
    }
  }

  /** A cancelled occurrence stays cancelled: its row keeps its place and no other row ever takes its start. */
  lemma {:induction false} CancelledStaysCancelled(s: Series, w: World, es: seq<Event>, row: nat)
    requires Runs(s, w, es) && Sound(s, w) && row < |w.rows| && w.rows[row].deleted
    ensures var t := After(s, w, es);
            row < |t.rows| && t.rows[row] == w.rows[row] &&
            forall other | 0 <= other < |t.rows| && t.rows[other].startsAt == w.rows[row].startsAt :: other == row
    decreases |es|
  {
    if es != [] {
      SoundStep(s, w, es[0]);
      CancelledStaysCancelled(s, Next(s, w, es[0]), es[1..], row);
    }
  }

  // ── Who hears of an occurrence ──────────────────────────────────────────────

  /** Every row is announced once, about to be announced by one sweep, or silent; and only one of these. */
  ghost predicate Accounted(w: World) {
    (forall i, j | 0 <= i < j < |w.announced| :: w.announced[i] != w.announced[j]) &&
    (forall start | start in w.announced :: start in Starts(w.rows) && start !in w.silent) &&
    w.silent <= Starts(w.rows) &&
    (forall id | id in w.sweeps && w.sweeps[id].Announcing? ::
       w.sweeps[id].start in Starts(w.rows) && w.sweeps[id].start !in w.announced && w.sweeps[id].start !in w.silent) &&
    (forall a, b | a in w.sweeps && b in w.sweeps && w.sweeps[a].Announcing? && w.sweeps[b].Announcing? &&
                   w.sweeps[a].start == w.sweeps[b].start :: a == b) &&
    (forall start | start in Starts(w.rows) :: start in w.announced || start in w.silent || BeingAnnounced(w, start))
  }

  ghost predicate BeingAnnounced(w: World, start: int) {
    exists id :: id in w.sweeps && w.sweeps[id].Announcing? && w.sweeps[id].start == start
  }

  lemma InsertAccounts(s: Series, w: World, sweep: nat)
    requires Enabled(s, w, Insert(sweep)) && Accounted(w)
    ensures Accounted(Next(s, w, Insert(sweep)))
  {
    var t, start := Next(s, w, Insert(sweep)), w.sweeps[sweep].todo[0];
    StartsGrow(w.rows, start);
    forall x | x in Starts(t.rows) ensures x in t.announced || x in t.silent || BeingAnnounced(t, x) {
      if x in Starts(w.rows) && BeingAnnounced(w, x) {
        var id :| id in w.sweeps && w.sweeps[id].Announcing? && w.sweeps[id].start == x;
        assert t.sweeps[id] == w.sweeps[id];
      } else if x == start && start !in Starts(w.rows) {
        assert t.sweeps[sweep].Announcing? && t.sweeps[sweep].start == x;
      }
    }
  }

  /** An announcement queued or thrown away, or its sweep dead. */
  lemma TellingAccounts(s: Series, w: World, e: Event)
    requires Enabled(s, w, e) && Accounted(w) && (e.Announce? || e.Abandon?)
    ensures Accounted(Next(s, w, e))
  {
    var t := Next(s, w, e);
    forall x | x in Starts(t.rows) ensures x in t.announced || x in t.silent || BeingAnnounced(t, x) {
      if BeingAnnounced(w, x) {
        var id :| id in w.sweeps && w.sweeps[id].Announcing? && w.sweeps[id].start == x;
        assert id != e.sweep ==> t.sweeps[id] == w.sweeps[id];
      }
    }
  }

  lemma OtherStepAccounts(s: Series, w: World, e: Event)
    requires Enabled(s, w, e) && Accounted(w) && !e.Insert? && !e.Announce? && !e.Abandon?
    ensures Accounted(Next(s, w, e))
  {
    var t := Next(s, w, e);
    StartsAreKept(s, w, e);
    forall x | x in Starts(t.rows) ensures x in t.announced || x in t.silent || BeingAnnounced(t, x) {
      if BeingAnnounced(w, x) {
        var id :| id in w.sweeps && w.sweeps[id].Announcing? && w.sweeps[id].start == x;
        assert t.sweeps[id] == w.sweeps[id];
      }
    }
  }

  lemma StepAccounts(s: Series, w: World, e: Event)
    requires Enabled(s, w, e) && Accounted(w)
    ensures Accounted(Next(s, w, e))
  {
    match e
    case Insert(sweep) => InsertAccounts(s, w, sweep);
    case Announce(_, _) => TellingAccounts(s, w, e);
    case Abandon(_) => TellingAccounts(s, w, e);
    case _ => OtherStepAccounts(s, w, e);
  }

  /** The announcement of a committed row is thrown away. */
  predicate Silences(w: World, e: Event) {
    (e.Announce? && !e.queued) || (e.Abandon? && e.sweep in w.sweeps && w.sweeps[e.sweep].Announcing?)
  }

  ghost predicate Loud(s: Series, w: World, es: seq<Event>)
    requires Runs(s, w, es)
    decreases |es|
  {
    es == [] || (!Silences(w, es[0]) && Loud(s, Next(s, w, es[0]), es[1..]))
  }

  /** In every run of racing and dying sweeps each row is announced at most once, and a silent one never again. */
  lemma {:induction false} StaysAccounted(s: Series, w: World, es: seq<Event>)
    requires Runs(s, w, es) && Accounted(w)
    ensures Accounted(After(s, w, es)) && w.silent <= After(s, w, es).silent
    ensures After(s, w, es).silent == w.silent <==> Loud(s, w, es)
    decreases |es|
  {
    if es != [] {
      StepAccounts(s, w, es[0]);
      StaysAccounted(s, Next(s, w, es[0]), es[1..]);
    }
  }

  /** With every sweep over, all rows have been announced exactly when nothing came between a commit and its enqueue. */
  lemma EveryRowIsAnnouncedExactlyWhen(s: Series, now: int, es: seq<Event>)
    requires Runs(s, Blank(now), es) && After(s, Blank(now), es).sweeps == map[]
    ensures var t := After(s, Blank(now), es);
            (forall i, j | 0 <= i < j < |t.announced| :: t.announced[i] != t.announced[j]) &&
            (forall start :: start in t.announced <==> start in Starts(t.rows) - t.silent) &&
            ((forall start | start in Starts(t.rows) :: start in t.announced) <==> Loud(s, Blank(now), es))
  {
    StaysAccounted(s, Blank(now), es);
    var t := After(s, Blank(now), es);
    if !Loud(s, Blank(now), es) {
      assert t.silent != {};
      var start :| start in t.silent;
      assert start in Starts(t.rows) && start !in t.announced;
    }
  }

  /** A process that dies between the two leaves an occurrence no later sweep announces, whatever follows. */
  lemma ADeathInBetweenIsSilentForGood(s: Series, w: World, sweep: nat, es: seq<Event>)
    requires Accounted(w) && sweep in w.sweeps && w.sweeps[sweep].Inserting? && w.sweeps[sweep].todo != []
    requires w.sweeps[sweep].todo[0] !in Starts(w.rows)
    requires Runs(s, w, [Insert(sweep)] + ([Abandon(sweep)] + es))
    ensures var t, start := After(s, w, [Insert(sweep)] + ([Abandon(sweep)] + es)), w.sweeps[sweep].todo[0];
            start in Starts(t.rows) && start !in t.announced
  {
    var u := Next(s, w, Insert(sweep));
    var tail := [Abandon(sweep)] + es;
    assert ([Insert(sweep)] + tail)[0] == Insert(sweep) && ([Insert(sweep)] + tail)[1..] == tail;
    assert tail[0] == Abandon(sweep) && tail[1..] == es;
    StepAccounts(s, w, Insert(sweep));
    StepAccounts(s, u, Abandon(sweep));
    StaysAccounted(s, Next(s, u, Abandon(sweep)), es);
  }
}
