/**
 Reminder sweeps racing each other, edits reading the rows and rewriting them later, events
 being moved, processes dying mid-sweep: what the one conditional update guarantees, and
 the two interleavings it does not cover.
 */
module ReminderRuns {
  import opened Reminders
  import opened Wrappers

  /** One row a sweep means to resolve; `fire` when it is the nearest of an event still to come. */
  datatype Task = Task(key: Key, fire: bool, startsAt: int)

  /** `owed` is a reminder whose row is claimed and which is not enqueued yet. */
  datatype Sweeping = Sweeping(now: int, todo: seq<Task>, owed: Option<Sent>)

  /** An edit between reading an event's rows and writing them back. */
  datatype Editing = Editing(event: EventId, minutes: set<nat>, read: map<Key, Offset>)

  datatype World = World(
    now: int,
    /** Live events only: published, not archived, not deleted. */
    starts: map<EventId, int>,
    offsets: map<Key, Offset>,
    sweeps: map<nat, Sweeping>,
    edits: map<nat, Editing>,
    /** The reminders whose row a sweep claimed to send them. */
    claimed: seq<Sent>,
    enqueued: seq<Sent>,
    /** Those that a swallowed error or a process death threw away in between. */
    dropped: set<Sent>,
    nextToken: nat)

  datatype Event =
    | Wait(until: int)
    /** An event is published, moved, or — without a start — taken off the live ones. */
    | Move(event: EventId, startsAt: Option<int>)
    | Begin(sweep: nat, due: seq<Key>, todo: seq<Task>)
    | Resolve(sweep: nat)
    | Send(sweep: nat, queued: bool)
    | Abandon(sweep: nat)
    | ReadRows(edit: nat, event: EventId, minutes: set<nat>)
    | WriteRows(edit: nat)
    | RollBack(edit: nat)

  /** What a task sends, if its claim is won. */
  function Fired(task: Task, offsets: map<Key, Offset>, now: int): seq<Sent> {
    if task.fire && task.key in offsets then [Sent(task.key, offsets[task.key].token, now, task.startsAt)] else []
  }

  function Firing(todo: seq<Task>, offsets: map<Key, Offset>, now: int): seq<Sent> {
    if todo == [] then [] else Fired(todo[0], offsets, now) + Firing(todo[1..], offsets, now)
  }

  function TaskKeys(todo: seq<Task>): set<Key> {
    set i | 0 <= i < |todo| :: todo[i].key
  }

  /** One task per due row, in some order, of which those fire that the sweep owes. */
  ghost predicate Plans(starts: map<EventId, int>, offsets: map<Key, Offset>, due: seq<Key>, now: int, todo: seq<Task>) {
    TaskKeys(todo) == RowsOf(due) &&
    (forall i, j | 0 <= i < j < |todo| :: todo[i].key != todo[j].key) &&
    Owes(starts, offsets, due, now, Firing(todo, offsets, now))
  }

  ghost predicate Enabled(w: World, e: Event) {
    match e
    case Wait(until) => until >= w.now
    case Move(_, _) => true
    case Begin(sweep, due, todo) =>
      sweep !in w.sweeps && SortedDue(w.starts, due) && |due| <= BATCH_SIZE && AreDue(w.starts, w.offsets, due, w.now) &&
      Plans(w.starts, w.offsets, due, w.now, todo)
    case Resolve(sweep) => sweep in w.sweeps && w.sweeps[sweep].todo != [] && w.sweeps[sweep].owed.None?
    case Send(sweep, _) => sweep in w.sweeps && w.sweeps[sweep].owed.Some?
    case Abandon(sweep) => sweep in w.sweeps
    case ReadRows(edit, _, _) => edit !in w.edits
    case WriteRows(edit) => edit in w.edits
    case RollBack(edit) => edit in w.edits
  }

  function Claimed(w: World, key: Key): bool {
    key in w.offsets && w.offsets[key].sentAt.None?
  }

  function RowsOfEvent(offsets: map<Key, Offset>, event: EventId): map<Key, Offset> {
    map key | key in offsets && key.event == event :: offsets[key]
  }

  /**
   Wipe and rewrite: a lead time the edit had read keeps the row, with the history it was
   read with; a new one starts blank. A row is known by its key and the token it was born with.
   */
  function Rewritten(offsets: map<Key, Offset>, e: Editing, born: nat): map<Key, Offset> {
    (map key | key in offsets && key.event != e.event :: offsets[key]) +
    (map m | m in e.minutes :: Key(e.event, m) :=
       if Key(e.event, m) in e.read then e.read[Key(e.event, m)] else Offset(None, born))
  }

  function Next(w: World, e: Event): World
    requires Enabled(w, e)
  {
    match e
    case Wait(until) => w.(now := until)
    case Move(event, startsAt) =>
      w.(starts := if startsAt.Some? then w.starts[event := startsAt.value] else w.starts - {event})
    case Begin(sweep, _, todo) => w.(sweeps := w.sweeps[sweep := Sweeping(w.now, todo, None)])
    case Resolve(sweep) =>
      var s := w.sweeps[sweep];
      var task := s.todo[0];
      if !Claimed(w, task.key) then w.(sweeps := w.sweeps[sweep := s.(todo := s.todo[1..])])
      else
        var fired := Fired(task, w.offsets, s.now);
        w.(sweeps := w.sweeps[sweep := s.(todo := s.todo[1..], owed := if fired == [] then None else Some(fired[0]))],
           offsets := w.offsets[task.key := w.offsets[task.key].(sentAt := Some(s.now))], claimed := w.claimed + fired)
    case Send(sweep, queued) =>
      var s := w.sweeps[sweep];
      w.(sweeps := w.sweeps[sweep := s.(owed := None)],
         enqueued := if queued then w.enqueued + [s.owed.value] else w.enqueued,
         dropped := if queued then w.dropped else w.dropped + {s.owed.value})
    case Abandon(sweep) =>
      var owed := w.sweeps[sweep].owed;
      w.(sweeps := w.sweeps - {sweep}, dropped := if owed.Some? then w.dropped + {owed.value} else w.dropped)
    case ReadRows(edit, event, minutes) =>
      w.(edits := w.edits[edit := Editing(event, minutes, RowsOfEvent(w.offsets, event))])
    case WriteRows(edit) =>
      w.(offsets := Rewritten(w.offsets, w.edits[edit], w.nextToken), nextToken := w.nextToken + 1,
         edits := w.edits - {edit})
    case RollBack(edit) => w.(edits := w.edits - {edit})
  }

  ghost predicate Runs(w: World, es: seq<Event>)
    decreases |es|
  {
    es == [] || (Enabled(w, es[0]) && Runs(Next(w, es[0]), es[1..]))
  }

  ghost function After(w: World, es: seq<Event>): World
    requires Runs(w, es)
    decreases |es|
  {
    if es == [] then w else After(Next(w, es[0]), es[1..])
  }

  // ── Once per row ───────────────────────────────────────────────────────────

  predicate Names(sents: seq<Sent>, key: Key, token: nat) {
    exists i :: 0 <= i < |sents| && sents[i].key == key && sents[i].token == token
  }

  /** A row that was ever claimed says so. */
  predicate Marked(offsets: map<Key, Offset>, sents: seq<Sent>) {
    forall key | key in offsets && offsets[key].sentAt.None? :: !Names(sents, key, offsets[key].token)
  }

  predicate Minted(offsets: map<Key, Offset>, nextToken: nat) {
    forall key | key in offsets :: offsets[key].token < nextToken
  }

  /** No row is named twice. */
  predicate Once(sents: seq<Sent>) {
    forall i, j | 0 <= i < j < |sents| && sents[i].key == sents[j].key :: sents[i].token != sents[j].token
  }

  /** From the lead time on, and before the start. */
  predicate Timely(key: Key, startsAt: int, sweepAt: int) {
    DueAt(startsAt, key.minutes, sweepAt) && sweepAt < startsAt
  }

  /** Every reminder was sent, or is about to be, in time for the start its sweep read. */
  predicate InTime(w: World) {
    (forall sweep, i | sweep in w.sweeps && 0 <= i < |w.sweeps[sweep].todo| && w.sweeps[sweep].todo[i].fire ::
       Timely(w.sweeps[sweep].todo[i].key, w.sweeps[sweep].todo[i].startsAt, w.sweeps[sweep].now)) &&
    (forall sweep | sweep in w.sweeps && w.sweeps[sweep].owed.Some? ::
       var sent := w.sweeps[sweep].owed.value;
       Timely(sent.key, sent.startsAt, sent.sweepAt)) &&
    (forall i | 0 <= i < |w.enqueued| :: Timely(w.enqueued[i].key, w.enqueued[i].startsAt, w.enqueued[i].sweepAt))
  }

  predicate Sound(w: World) {
    Marked(w.offsets, w.claimed) && Once(w.claimed) && Minted(w.offsets, w.nextToken) &&
    (forall edit | edit in w.edits :: Minted(w.edits[edit].read, w.nextToken)) &&
    (forall i | 0 <= i < |w.claimed| :: w.claimed[i].token < w.nextToken)
  }

  /** The edit read this row as unsent and keeps it, and meanwhile a sweep claimed it to send it. */
  predicate Overtook(w: World, edit: nat, key: Key)
    requires edit in w.edits
  {
    var e := w.edits[edit];
    key.event == e.event && key.minutes in e.minutes && key in e.read && e.read[key].sentAt.None? &&
    Names(w.claimed, key, e.read[key].token)
  }

  ghost predicate Undisturbed(w: World, e: Event)
    requires Enabled(w, e)
  {
    e.WriteRows? ==> forall key :: !Overtook(w, e.edit, key)
  }

  ghost predicate CalmRun(w: World, es: seq<Event>)
    requires Runs(w, es)
    decreases |es|
  {
    es == [] || (Undisturbed(w, es[0]) && CalmRun(Next(w, es[0]), es[1..]))
  }

  /** Without a rewrite, or before anybody claims anything, no run is disturbed. */
  lemma {:induction false} RunsWithoutRewritesAreCalm(w: World, es: seq<Event>)
    requires Runs(w, es) && forall e | e in es :: e.WriteRows? ==> w.claimed == [] && forall f | f in es :: !f.Resolve?
    ensures CalmRun(w, es)
    decreases |es|
  {
    if es != [] {
      assert es[0] in es && forall e | e in es[1..] :: e in es;
      RunsWithoutRewritesAreCalm(Next(w, es[0]), es[1..]);
    }
  }

  lemma RewrittenRow(offsets: map<Key, Offset>, e: Editing, born: nat, key: Key)
    requires key in Rewritten(offsets, e, born)
    ensures var row := Rewritten(offsets, e, born)[key];
            if key.event != e.event then key in offsets && row == offsets[key]
            else key.minutes in e.minutes && row == if key in e.read then e.read[key] else Offset(None, born)
  {
  }

  lemma FreshWasNotSent(w: World, key: Key)
    requires Sound(w)
    ensures !Names(w.claimed, key, w.nextToken)
  {
  }

  lemma UndisturbedWriteIsSafe(w: World, edit: nat)
    requires Sound(w) && edit in w.edits && forall key :: !Overtook(w, edit, key)
    ensures Sound(Next(w, WriteRows(edit)))
  {
    var e := w.edits[edit];
    var rows := Rewritten(w.offsets, e, w.nextToken);
    assert Marked(rows, w.claimed) by {
      forall key | key in rows && rows[key].sentAt.None? ensures !Names(w.claimed, key, rows[key].token) {
        RewrittenRow(w.offsets, e, w.nextToken, key);
        FreshWasNotSent(w, key);
        assert !Overtook(w, edit, key);
      }
    }
    forall key | key in rows ensures rows[key].token < w.nextToken + 1 {
      RewrittenRow(w.offsets, e, w.nextToken, key);
    }
  }

  lemma OvertakenRowIsUnsent(w: World, edit: nat, key: Key)
    requires edit in w.edits && Overtook(w, edit, key)
    ensures key in Next(w, WriteRows(edit)).offsets
    ensures Next(w, WriteRows(edit)).offsets[key] == w.edits[edit].read[key]
  {
    var e := w.edits[edit];
    assert key == Key(e.event, key.minutes) && key in Rewritten(w.offsets, e, w.nextToken);
    RewrittenRow(w.offsets, e, w.nextToken, key);
  }

  /** The rewrite keeps the rows honest exactly when no sweep overtook it on a row it keeps. */
  lemma WriteIsSafeExactlyWhen(w: World, edit: nat)
    requires Sound(w) && edit in w.edits
    ensures Sound(Next(w, WriteRows(edit))) <==> forall key :: !Overtook(w, edit, key)
  {
    if key :| Overtook(w, edit, key) {
      OvertakenRowIsUnsent(w, edit, key);
    } else {
      UndisturbedWriteIsSafe(w, edit);
    }
  }

  /** The claim marks the row and, if it sends, appends a row no earlier entry names. */
  lemma ClaimMarksBeforeSending(w: World, sweep: nat)
    requires Enabled(w, Resolve(sweep)) && Sound(w)
    ensures Sound(Next(w, Resolve(sweep)))
  {
    var t := Next(w, Resolve(sweep));
    var task := w.sweeps[sweep].todo[0];
    if Claimed(w, task.key) {
      var token := w.offsets[task.key].token;
      assert !Names(w.claimed, task.key, token);
      forall key | key in t.offsets && t.offsets[key].sentAt.None? ensures !Names(t.claimed, key, t.offsets[key].token) {
        assert key != task.key && !Names(w.claimed, key, w.offsets[key].token);
        SentGrows(w.claimed, t.claimed[|w.claimed|..], task.key, key, w.offsets[key].token);
      }
      forall i | 0 <= i < |w.claimed| && w.claimed[i].key == task.key ensures w.claimed[i].token != token {
        assert w.claimed[i].token == token ==> Names(w.claimed, task.key, token);
      }
    }
  }

  lemma SentGrows(sents: seq<Sent>, more: seq<Sent>, sent: Key, key: Key, token: nat)
    requires !Names(sents, key, token) && key != sent && forall i | 0 <= i < |more| :: more[i].key == sent
    ensures !Names(sents + more, key, token)
  {
  }

  lemma SoundStep(w: World, e: Event)
    requires Enabled(w, e) && Sound(w) && Undisturbed(w, e)
    ensures Sound(Next(w, e))
  {
    match e
    case Wait(_) =>
    case Move(_, _) =>
    case Begin(_, _, _) =>
    case Abandon(_) =>
    case ReadRows(_, _, _) =>
    case RollBack(_) =>
    case Send(_, _) =>
    case Resolve(sweep) => ClaimMarksBeforeSending(w, sweep);
    case WriteRows(edit) => WriteIsSafeExactlyWhen(w, edit);
  }

  lemma {:induction false} FiringHas(todo: seq<Task>, offsets: map<Key, Offset>, now: int, i: nat)
    requires i < |todo| && todo[i].fire && todo[i].key in offsets
    ensures Sent(todo[i].key, offsets[todo[i].key].token, now, todo[i].startsAt) in Firing(todo, offsets, now)
  {
    if i > 0 {
      FiringHas(todo[1..], offsets, now, i - 1);
    }
  }

  /** What a sweep owes is due, and its event still to come. */
  lemma PlansAreTimely(starts: map<EventId, int>, offsets: map<Key, Offset>, due: seq<Key>, now: int, todo: seq<Task>, i: nat)
    requires AreDue(starts, offsets, due, now) && Plans(starts, offsets, due, now, todo)
    requires i < |todo| && todo[i].fire
    ensures Timely(todo[i].key, todo[i].startsAt, now)
  {
    assert todo[i].key in RowsOf(due);
    var k :| 0 <= k < |due| && due[k] == todo[i].key;
    FiringHas(todo, offsets, now, i);
  }

  lemma InTimeStep(w: World, e: Event)
    requires Enabled(w, e) && InTime(w)
    ensures InTime(Next(w, e))
  {
    if e.Begin? {
      forall i | 0 <= i < |e.todo| && e.todo[i].fire ensures Timely(e.todo[i].key, e.todo[i].startsAt, w.now) {
        PlansAreTimely(w.starts, w.offsets, e.due, w.now, e.todo, i);
      }
    }
  }

  /**
   Never early and never late, in every run whatever: a sweep sends a reminder from its
   lead time on and before the start, for the start it read.
   */
  lemma {:induction false} NeverLate(w: World, es: seq<Event>)
    requires Runs(w, es) && InTime(w)
    ensures InTime(After(w, es))
    ensures var t := After(w, es);
            forall sent | sent in t.enqueued :: sent.startsAt - sent.key.minutes * 60_000 <= sent.sweepAt < sent.startsAt
    decreases |es|
  {
    if es != [] {
      InTimeStep(w, es[0]);
      NeverLate(Next(w, es[0]), es[1..]);
    }
  }

  /** In particular from the first sweep on, whatever the rows and events are then. */
  lemma NeverLateFromTheStart(w: World, es: seq<Event>)
    requires Runs(w, es) && w.sweeps == map[] && w.enqueued == []
    ensures var t := After(w, es);
            forall sent | sent in t.enqueued :: sent.startsAt - sent.key.minutes * 60_000 <= sent.sweepAt < sent.startsAt
  {
    NeverLate(w, es);
  }

  // ── A sweep on its own ─────────────────────────────────────────────────────

  /** Each task claimed, and its reminder enqueued before the next. */
  function Work(sweep: nat, todo: seq<Task>): seq<Event> {
    if todo == [] then []
    else [Resolve(sweep)] + ((if todo[0].fire then [Send(sweep, true)] else []) + Work(sweep, todo[1..]))
  }

  lemma Prepend(w: World, e: Event, u: World, es: seq<Event>)
    requires Enabled(w, e) && u == Next(w, e) && Runs(u, es)
    ensures Runs(w, [e] + es) && After(w, [e] + es) == After(u, es)
  {
    assert ([e] + es)[0] == e && ([e] + es)[1..] == es;
  }

  /** Unresolved rows of which none is named twice. */
  predicate Open(offsets: map<Key, Offset>, todo: seq<Task>) {
    (forall i | 0 <= i < |todo| :: todo[i].key in offsets && offsets[todo[i].key].sentAt.None?) &&
    (forall i, j | 0 <= i < j < |todo| :: todo[i].key != todo[j].key)
  }

  lemma {:induction false} FiringSees(todo: seq<Task>, offsets: map<Key, Offset>, others: map<Key, Offset>, now: int)
    requires forall i | 0 <= i < |todo| :: todo[i].key in offsets && todo[i].key in others &&
                                           offsets[todo[i].key] == others[todo[i].key]
    ensures Firing(todo, offsets, now) == Firing(todo, others, now)
  {
    if todo != [] {
      FiringSees(todo[1..], offsets, others, now);
    }
  }

  function StampOne(offsets: map<Key, Offset>, key: Key, now: int): map<Key, Offset>
    requires key in offsets
  {
    offsets[key := offsets[key].(sentAt := Some(now))]
  }

  /** What the first task of an open list leaves, claimed and its reminder enqueued. */
  function FirstDone(w: World, sweep: nat): World
    requires sweep in w.sweeps && w.sweeps[sweep].todo != [] && Open(w.offsets, w.sweeps[sweep].todo)
  {
    var s := w.sweeps[sweep];
    var fired := Fired(s.todo[0], w.offsets, s.now);
    w.(sweeps := w.sweeps[sweep := s.(todo := s.todo[1..])], offsets := StampOne(w.offsets, s.todo[0].key, s.now),
       claimed := w.claimed + fired, enqueued := w.enqueued + fired)
  }

  lemma FirstIsWon(w: World, sweep: nat, es: seq<Event>)
    requires sweep in w.sweeps && w.sweeps[sweep].todo != [] && Open(w.offsets, w.sweeps[sweep].todo)
    requires w.sweeps[sweep].owed.None? && Runs(FirstDone(w, sweep), es)
    ensures var run := [Resolve(sweep)] + ((if w.sweeps[sweep].todo[0].fire then [Send(sweep, true)] else []) + es);
            Runs(w, run) && After(w, run) == After(FirstDone(w, sweep), es)
  {
    var s, u, v := w.sweeps[sweep], Next(w, Resolve(sweep)), FirstDone(w, sweep);
    if s.todo[0].fire {
      assert u.sweeps[sweep := v.sweeps[sweep]] == v.sweeps;
      Prepend(u, Send(sweep, true), v, es);
      Prepend(w, Resolve(sweep), u, [Send(sweep, true)] + es);
    } else {
      assert w.claimed + [] == w.claimed && w.enqueued + [] == w.enqueued;
      assert [] + es == es;
      Prepend(w, Resolve(sweep), v, es);
    }
  }

  /** Which leaves the rest as it was, and open. */
  lemma RestIsOpen(offsets: map<Key, Offset>, todo: seq<Task>, now: int)
    requires todo != [] && Open(offsets, todo)
    ensures var after := StampOne(offsets, todo[0].key, now);
            Open(after, todo[1..]) && Firing(todo[1..], after, now) == Firing(todo[1..], offsets, now) &&
            Stamped(after, TaskKeys(todo[1..]), now) == Stamped(offsets, TaskKeys(todo), now)
  {
    assert TaskKeys(todo) == {todo[0].key} + TaskKeys(todo[1..]);
    FiringSees(todo[1..], offsets, StampOne(offsets, todo[0].key, now), now);
  }

  lemma RestIsDue(w: World, sweep: nat)
    requires sweep in w.sweeps && w.sweeps[sweep].todo != [] && Open(w.offsets, w.sweeps[sweep].todo)
    ensures var v, s, rest := FirstDone(w, sweep), w.sweeps[sweep], w.sweeps[sweep].todo[1..];
            v.sweeps[sweep] == s.(todo := rest) && Open(v.offsets, rest) &&
            Stamped(v.offsets, TaskKeys(rest), s.now) == Stamped(w.offsets, TaskKeys(s.todo), s.now) &&
            v.enqueued + Firing(rest, v.offsets, s.now) == w.enqueued + Firing(s.todo, w.offsets, s.now)
  {
    var s := w.sweeps[sweep];
    var fired, rest := Fired(s.todo[0], w.offsets, s.now), Firing(s.todo[1..], w.offsets, s.now);
    RestIsOpen(w.offsets, s.todo, s.now);
    assert (w.enqueued + fired) + rest == w.enqueued + (fired + rest);
  }

  /** Claimed one after another with nothing in between, the rows of a plan are stamped and what fires is sent. */
  lemma {:induction false} TasksAreDone(w: World, sweep: nat)
    requires sweep in w.sweeps && Open(w.offsets, w.sweeps[sweep].todo) && w.sweeps[sweep].owed.None?
    ensures var s := w.sweeps[sweep];
            Runs(w, Work(sweep, s.todo)) &&
            var t := After(w, Work(sweep, s.todo));
            t.offsets == Stamped(w.offsets, TaskKeys(s.todo), s.now) &&
            t.enqueued == w.enqueued + Firing(s.todo, w.offsets, s.now)
    decreases |w.sweeps[sweep].todo|
  {
    var s := w.sweeps[sweep];
    if s.todo == [] {
      assert Stamped(w.offsets, {}, s.now) == w.offsets && w.enqueued + [] == w.enqueued;
    } else {
      RestIsDue(w, sweep);
      TasksAreDone(FirstDone(w, sweep), sweep);
      FirstIsWon(w, sweep, Work(sweep, s.todo[1..]));
    }
  }

  /** A sweep nothing interferes with does here what the scheduler's own `Sweep` is proved to do. */
  lemma SweepAlone(w: World, sweep: nat, due: seq<Key>, todo: seq<Task>)
    requires Enabled(w, Begin(sweep, due, todo))
    ensures var run := [Begin(sweep, due, todo)] + Work(sweep, todo);
            Runs(w, run) && w.enqueued <= After(w, run).enqueued &&
            SweepDid(w.starts, w.offsets, due, w.now, After(w, run).offsets, After(w, run).enqueued[|w.enqueued|..])
  {
    var u := Next(w, Begin(sweep, due, todo));
    forall i | 0 <= i < |todo| ensures todo[i].key in w.offsets && w.offsets[todo[i].key].sentAt.None? {
      assert todo[i].key in RowsOf(due);
      var k :| 0 <= k < |due| && due[k] == todo[i].key;
    }
    TasksAreDone(u, sweep);
    Prepend(w, Begin(sweep, due, todo), u, Work(sweep, todo));
    assert (w.enqueued + Firing(todo, w.offsets, w.now))[|w.enqueued|..] == Firing(todo, w.offsets, w.now);
  }

  // ── From the claim to the queue ────────────────────────────────────────────

  ghost predicate Owed(w: World, sent: Sent) {
    exists sweep :: sweep in w.sweeps && w.sweeps[sweep].owed == Some(sent)
  }

  /** A reminder claimed is in at most one of these places, once: enqueued, owed by a sweep, dropped. */
  ghost predicate Apart(w: World) {
    (forall i, j | 0 <= i < j < |w.enqueued| :: w.enqueued[i] != w.enqueued[j]) &&
    (forall sent | sent in w.enqueued :: sent in w.claimed && sent !in w.dropped) &&
    (forall sent | sent in w.dropped :: sent in w.claimed) &&
    (forall sweep | sweep in w.sweeps && w.sweeps[sweep].owed.Some? ::
       var sent := w.sweeps[sweep].owed.value;
       sent in w.claimed && sent !in w.enqueued && sent !in w.dropped) &&
    (forall a, b | a in w.sweeps && b in w.sweeps && w.sweeps[a].owed.Some? && w.sweeps[a].owed == w.sweeps[b].owed ::
       a == b)
  }

  /** And in at least one. */
  ghost predicate Placed(w: World) {
    forall sent | sent in w.claimed :: sent in w.enqueued || sent in w.dropped || Owed(w, sent)
  }

  ghost predicate Accounted(w: World) {
    Apart(w) && Placed(w)
  }

  lemma ClaimIsNew(w: World, key: Key)
    requires Sound(w) && Claimed(w, key)
    ensures forall sent | sent in w.claimed && sent.key == key :: sent.token != w.offsets[key].token
  {
    assert !Names(w.claimed, key, w.offsets[key].token);
    forall sent | sent in w.claimed && sent.key == key ensures sent.token != w.offsets[key].token {
      var i :| 0 <= i < |w.claimed| && w.claimed[i] == sent;
    }
  }

  lemma ClaimKeepsApart(w: World, sweep: nat)
    requires Enabled(w, Resolve(sweep)) && Sound(w) && Apart(w)
    ensures Apart(Next(w, Resolve(sweep)))
  {
    if Claimed(w, w.sweeps[sweep].todo[0].key) {
      ClaimIsNew(w, w.sweeps[sweep].todo[0].key);
    }
  }

  lemma ClaimIsPlaced(w: World, sweep: nat)
    requires Enabled(w, Resolve(sweep)) && Placed(w)
    ensures Placed(Next(w, Resolve(sweep)))
  {
    var t := Next(w, Resolve(sweep));
    forall sent | sent in t.claimed ensures sent in t.enqueued || sent in t.dropped || Owed(t, sent) {
      if sent in w.claimed {
        if Owed(w, sent) {
          var other :| other in w.sweeps && w.sweeps[other].owed == Some(sent);
          assert t.sweeps[other] == w.sweeps[other];
        }
      } else {
        assert t.sweeps[sweep].owed == Some(sent);
      }
    }
  }

  lemma SendAccounts(w: World, e: Event)
    requires Enabled(w, e) && Accounted(w) && (e.Send? || e.Abandon?)
    ensures Accounted(Next(w, e))
  {
    var t := Next(w, e);
    forall sent | sent in t.claimed ensures sent in t.enqueued || sent in t.dropped || Owed(t, sent) {
      if Owed(w, sent) {
        var other :| other in w.sweeps && w.sweeps[other].owed == Some(sent);
        assert other != e.sweep ==> t.sweeps[other] == w.sweeps[other];
      }
    }
  }

  lemma OtherStepAccounts(w: World, e: Event)
    requires Enabled(w, e) && Accounted(w) && !e.Resolve? && !e.Send? && !e.Abandon?
    ensures Accounted(Next(w, e))
  {
    var t := Next(w, e);
    forall sent | sent in t.claimed ensures sent in t.enqueued || sent in t.dropped || Owed(t, sent) {
      if Owed(w, sent) {
        var other :| other in w.sweeps && w.sweeps[other].owed == Some(sent);
        assert t.sweeps[other] == w.sweeps[other];
      }
    }
  }

  lemma StepAccounts(w: World, e: Event)
    requires Enabled(w, e) && Sound(w) && Accounted(w)
    ensures Accounted(Next(w, e))
  {
    match e
    case Resolve(sweep) =>
      ClaimKeepsApart(w, sweep);
      ClaimIsPlaced(w, sweep);
    case Send(_, _) => SendAccounts(w, e);
    case Abandon(_) => SendAccounts(w, e);
    case _ => OtherStepAccounts(w, e);
  }

  lemma QueueIsOnce(w: World)
    requires Accounted(w) && Once(w.claimed)
    ensures Once(w.enqueued)
  {
    forall i, j | 0 <= i < j < |w.enqueued| && w.enqueued[i].key == w.enqueued[j].key
      ensures w.enqueued[i].token != w.enqueued[j].token
    {
      assert w.enqueued[i] in w.enqueued && w.enqueued[j] in w.enqueued;
      var a :| 0 <= a < |w.claimed| && w.claimed[a] == w.enqueued[i];
      var b :| 0 <= b < |w.claimed| && w.claimed[b] == w.enqueued[j];
    }
  }

  /** The step throws away a reminder whose row is already claimed. */
  predicate Drops(w: World, e: Event) {
    (e.Send? && !e.queued) || (e.Abandon? && e.sweep in w.sweeps && w.sweeps[e.sweep].owed.Some?)
  }

  ghost predicate Keeps(w: World, es: seq<Event>)
    requires Runs(w, es)
    decreases |es|
  {
    es == [] || (!Drops(w, es[0]) && Keeps(Next(w, es[0]), es[1..]))
  }

  lemma {:induction false} StaysAccounted(w: World, es: seq<Event>)
    requires Runs(w, es) && CalmRun(w, es) && Sound(w) && Accounted(w)
    ensures Sound(After(w, es)) && Accounted(After(w, es))
    ensures w.dropped <= After(w, es).dropped && (w.dropped == After(w, es).dropped <==> Keeps(w, es))
    decreases |es|
  {
    if es != [] {
      SoundStep(w, es[0]);
      StepAccounts(w, es[0]);
      DropsAreKept(w, es[0]);
      StaysAccounted(Next(w, es[0]), es[1..]);
    }
  }

  lemma DropsAreKept(w: World, e: Event)
    requires Enabled(w, e) && Accounted(w)
    ensures w.dropped <= Next(w, e).dropped && (w.dropped == Next(w, e).dropped <==> !Drops(w, e))
  {
  }

  /**
   Once per row: over any run of racing and dying sweeps and of edits no sweep overtakes
   between their two halves, a row — carried through however many edits that keep its lead
   time — is claimed and enqueued at most once.
   */
  lemma OncePerRow(w: World, es: seq<Event>)
    requires Runs(w, es) && CalmRun(w, es) && Sound(w) && Accounted(w)
    ensures Once(After(w, es).claimed) && Once(After(w, es).enqueued)
  {
    StaysAccounted(w, es);
    QueueIsOnce(After(w, es));
  }

  /** With every sweep over, all reminders claimed have been sent exactly when nothing came between a claim and its enqueue. */
  lemma EveryClaimIsSentExactlyWhen(w: World, es: seq<Event>)
    requires Runs(w, es) && CalmRun(w, es) && Sound(w) && Accounted(w) && w.dropped == {}
    requires After(w, es).sweeps == map[]
    ensures (forall sent | sent in After(w, es).claimed :: sent in After(w, es).enqueued) <==> Keeps(w, es)
  {
    StaysAccounted(w, es);
    var t := After(w, es);
    if !Keeps(w, es) {
      assert t.dropped != {};
      var sent :| sent in t.dropped;
      assert sent in t.claimed && sent !in t.enqueued;
    }
  }

  /** A process that dies between the two leaves a row stamped as sent whose reminder no later sweep sends. */
  lemma ADeathInBetweenIsNeverSent(w: World, sweep: nat, es: seq<Event>)
    requires Sound(w) && Accounted(w) && Enabled(w, Abandon(sweep)) && w.sweeps[sweep].owed.Some?
    requires Runs(w, [Abandon(sweep)] + es) && CalmRun(w, [Abandon(sweep)] + es)
    ensures var t, sent := After(w, [Abandon(sweep)] + es), w.sweeps[sweep].owed.value;
            sent in t.claimed && !Names(t.enqueued, sent.key, sent.token)
  {
    var run, sent := [Abandon(sweep)] + es, w.sweeps[sweep].owed.value;
    assert run[0] == Abandon(sweep) && run[1..] == es;
    var u := Next(w, Abandon(sweep));
    SoundStep(w, Abandon(sweep));
    StepAccounts(w, Abandon(sweep));
    StaysAccounted(u, es);
    DroppedIsUnnamed(After(w, run), sent);
  }

  lemma DroppedIsUnnamed(w: World, sent: Sent)
    requires Sound(w) && Accounted(w) && sent in w.dropped
    ensures sent in w.claimed && !Names(w.enqueued, sent.key, sent.token)
  {
    forall i | 0 <= i < |w.enqueued| ensures w.enqueued[i].key != sent.key || w.enqueued[i].token != sent.token {
      assert w.enqueued[i] in w.enqueued && w.enqueued[i] != sent;
      var a :| 0 <= a < |w.claimed| && w.claimed[a] == w.enqueued[i];
      var b :| 0 <= b < |w.claimed| && w.claimed[b] == sent;
    }
  }

  // ── The race it does not cover ─────────────────────────────────────────────

  /** The row is unsent and a sweep beginning now would send it. */
  predicate Sendable(w: World, key: Key) {
    Claimed(w, key) && key.event in w.starts && Timely(key, w.starts[key.event], w.now)
  }

  /** What a sweep of that row alone leaves. */
  function Swept(w: World, sweep: nat, key: Key): World
    requires Sendable(w, key)
  {
    var sent := Sent(key, w.offsets[key].token, w.now, w.starts[key.event]);
    w.(sweeps := w.sweeps[sweep := Sweeping(w.now, [], None)], offsets := StampOne(w.offsets, key, w.now),
       claimed := w.claimed + [sent], enqueued := w.enqueued + [sent])
  }

  /** Such a sweep, step by step, and whatever comes after it. */
  function Sweeps(sweep: nat, key: Key, startsAt: int, es: seq<Event>): seq<Event> {
    [Begin(sweep, [key], [Task(key, true, startsAt)])] + ([Resolve(sweep)] + ([Send(sweep, true)] + es))
  }

  lemma OneRowPlan(starts: map<EventId, int>, offsets: map<Key, Offset>, key: Key, now: int)
    requires key in offsets && key.event in starts && starts[key.event] > now
    ensures Plans(starts, offsets, [key], now, [Task(key, true, starts[key.event])])
  {
    var todo, sent := [Task(key, true, starts[key.event])], Sent(key, offsets[key].token, now, starts[key.event]);
    assert todo[1..] == [] && Firing(todo, offsets, now) == [sent];
    assert todo[0].key in TaskKeys(todo) && sent in [sent];
  }

  lemma SweepSends(w: World, sweep: nat, key: Key, es: seq<Event>)
    requires sweep !in w.sweeps && Sendable(w, key) && Runs(Swept(w, sweep, key), es)
    ensures var run := Sweeps(sweep, key, w.starts[key.event], es);
            Runs(w, run) && After(w, run) == After(Swept(w, sweep, key), es)
  {
    var task := Task(key, true, w.starts[key.event]);
    OneRowPlan(w.starts, w.offsets, key, w.now);
    var u := Next(w, Begin(sweep, [key], [task]));
    assert [task][1..] == [];
    assert u.sweeps[sweep := Sweeping(w.now, [], None)] == w.sweeps[sweep := Sweeping(w.now, [], None)];
    assert FirstDone(u, sweep) == Swept(w, sweep, key);
    FirstIsWon(u, sweep, es);
    Prepend(w, Begin(sweep, [key], [task]), u, [Resolve(sweep)] + ([Send(sweep, true)] + es));
  }

  lemma SentAgain(enqueued: seq<Sent>, sent: Sent)
    requires Names(enqueued, sent.key, sent.token)
    ensures !Once(enqueued + [sent])
  {
    var i :| 0 <= i < |enqueued| && enqueued[i].key == sent.key && enqueued[i].token == sent.token;
    assert (enqueued + [sent])[i] == enqueued[i] && (enqueued + [sent])[|enqueued|] == sent;
  }

  /**
   A rewrite that was overtaken, its row due and its event still to come, is one sweep away
   from a second claim — and from a second reminder, if the first one was enqueued.
   */
  lemma OvertakenMeansTwice(w: World, edit: nat, key: Key, sweep: nat)
    requires edit in w.edits && Overtook(w, edit, key) && sweep !in w.sweeps
    requires key.event in w.starts && Timely(key, w.starts[key.event], w.now)
    ensures var es := [WriteRows(edit)] + Sweeps(sweep, key, w.starts[key.event], []);
            Runs(w, es) && !Once(After(w, es).claimed) &&
            (Names(w.enqueued, key, w.edits[edit].read[key].token) ==> !Once(After(w, es).enqueued))
  {
    var u := Next(w, WriteRows(edit));
    OvertakenRowIsUnsent(w, edit, key);
    SweepSends(u, sweep, key, []);
    Prepend(w, WriteRows(edit), u, Sweeps(sweep, key, w.starts[key.event], []));
    var sent := Sent(key, w.edits[edit].read[key].token, w.now, w.starts[key.event]);
    SentAgain(w.claimed, sent);
    if Names(w.enqueued, sent.key, sent.token) {
      SentAgain(w.enqueued, sent);
    }
  }

  /** One blank row, nothing running, nothing sent yet, and its reminder can go out now. */
  predicate OneRowOwed(w: World, key: Key) {
    w.offsets == map[key := Offset(None, 0)] && w.sweeps == map[] && w.edits == map[] &&
    w.claimed == w.enqueued == [] && w.dropped == {} && w.nextToken == 1 &&
    key.event in w.starts && Timely(key, w.starts[key.event], w.now)
  }

  /** As it is ten minutes before an event with one reminder half an hour ahead of it. */
  lemma OneRowCanBeOwed(event: EventId, startsAt: int)
    ensures var key := Key(event, 30);
            OneRowOwed(World(startsAt - 600_000, map[event := startsAt], map[key := Offset(None, 0)], map[], map[], [], [], {}, 1), key)
  {
  }

  lemma OneRowIsSound(w: World, key: Key)
    requires OneRowOwed(w, key)
    ensures Sound(w) && Accounted(w)
  {
  }

  /** An edit that keeps the lead time reads the row, and a sweep sends it. */
  lemma EditIsOvertaken(w: World, key: Key)
    requires OneRowOwed(w, key)
    ensures var u := Next(w, ReadRows(0, key.event, {key.minutes}));
            u.starts == w.starts && u.now == w.now && u.sweeps == map[] && Sendable(u, key) &&
            0 in Swept(u, 0, key).edits && Overtook(Swept(u, 0, key), 0, key) &&
            Names(Swept(u, 0, key).enqueued, key, 0) && Swept(u, 0, key).edits[0].read[key].token == 0
  {
    var u := Next(w, ReadRows(0, key.event, {key.minutes}));
    assert u.edits[0] == Editing(key.event, {key.minutes}, map[key := Offset(None, 0)]);
    assert Swept(u, 0, key).claimed[0] == Sent(key, 0, w.now, w.starts[key.event]);
    assert Swept(u, 0, key).enqueued[0] == Sent(key, 0, w.now, w.starts[key.event]);
  }

  /** The edit writes back what it read, and the next sweep sends the same row again. */
  lemma AnOvertakenEditSendsTwice(w: World, key: Key)
    requires OneRowOwed(w, key)
    ensures Sound(w) && Accounted(w)
    ensures var startsAt := w.starts[key.event];
            var es := [ReadRows(0, key.event, {key.minutes})] +
                      Sweeps(0, key, startsAt, [WriteRows(0)] + Sweeps(1, key, startsAt, []));
            Runs(w, es) && !Once(After(w, es).enqueued)
  {
    var u := Next(w, ReadRows(0, key.event, {key.minutes}));
    OneRowIsSound(w, key);
    EditIsOvertaken(w, key);
    OvertakenMeansTwice(Swept(u, 0, key), 0, key, 1);
    var again := [WriteRows(0)] + Sweeps(1, key, w.starts[key.event], []);
    SweepSends(u, 0, key, again);
    Prepend(w, ReadRows(0, key.event, {key.minutes}), u, Sweeps(0, key, w.starts[key.event], again));
  }

  // ── What an edit keeps ─────────────────────────────────────────────────────

  /** What an edit leaves: of its own event exactly the lead times it asked for, and of other events everything as it is. */
  lemma EditInFull(w: World, edit: nat, key: Key)
    requires edit in w.edits
    ensures var e, t := w.edits[edit], Next(w, WriteRows(edit));
            edit !in t.edits && t.claimed == w.claimed && t.enqueued == w.enqueued &&
            (key in t.offsets <==> if key.event == e.event then key.minutes in e.minutes else key in w.offsets) &&
            (key.event != e.event && key in w.offsets ==> t.offsets[key] == w.offsets[key]) &&
            (key.event == e.event && key.minutes in e.minutes ==>
               t.offsets[key] == if key in e.read then e.read[key] else Offset(None, w.nextToken))
  {
    var e, t := w.edits[edit], Next(w, WriteRows(edit));
    assert key == Key(key.event, key.minutes);
    if key in t.offsets {
      RewrittenRow(w.offsets, e, w.nextToken, key);
    }
  }

  /** An undisturbed edit that re-submits a lead time keeps its row: what fired stays fired. */
  lemma EditKeepsHistory(w: World, edit: nat, event: EventId, minutes: set<nat>, m: nat)
    requires edit !in w.edits && m in minutes && Key(event, m) in w.offsets
    ensures var t := Next(Next(w, ReadRows(edit, event, minutes)), WriteRows(edit));
            Key(event, m) in t.offsets && t.offsets[Key(event, m)] == w.offsets[Key(event, m)]
  {
    var u := Next(w, ReadRows(edit, event, minutes));
    var t := Next(u, WriteRows(edit));
    assert Key(event, m) in t.offsets;
    RewrittenRow(u.offsets, u.edits[edit], u.nextToken, Key(event, m));
  }

  /** Dropping a lead time and adding it back in a second edit forgets: the row may fire again. */
  lemma DroppingForgets(w: World, edit: nat, event: EventId, m: nat)
    requires Sound(w) && edit !in w.edits && Key(event, m) in w.offsets && w.offsets[Key(event, m)].sentAt.Some?
    ensures var dropped := Next(Next(w, ReadRows(edit, event, {})), WriteRows(edit));
            var back := Next(Next(dropped, ReadRows(edit, event, {m})), WriteRows(edit));
            Key(event, m) in back.offsets && back.offsets[Key(event, m)].sentAt.None? &&
            back.offsets[Key(event, m)].token != w.offsets[Key(event, m)].token
  {
    var u := Next(w, ReadRows(edit, event, {}));
    var dropped := Next(u, WriteRows(edit));
    if Key(event, m) in dropped.offsets {
      RewrittenRow(u.offsets, u.edits[edit], u.nextToken, Key(event, m));
    }
    var v := Next(dropped, ReadRows(edit, event, {m}));
    var back := Next(v, WriteRows(edit));
    assert Key(event, m) in back.offsets;
    RewrittenRow(v.offsets, v.edits[edit], v.nextToken, Key(event, m));
  }
}
