/**
 The live event announcement: RSVPs commit and then try to queue a refresh, refreshes
 are coalesced by a count-then-insert that is not atomic, and one worker claims a job,
 reads the roster and edits the message. The question is whether dropping a redundant
 enqueue can ever drop an update.
 */
module Announcement {
  import opened Wrappers

  type MemberId = string

  datatype RsvpStatus = Interested | Tentative | Declined | Neutral

  /** A member as the roster query orders and labels them: by name, mention before name. */
  datatype Person = Person(id: MemberId, inGameName: string, discordUserId: Option<string>)

  datatype Roster = Roster(attending: seq<string>, tentative: seq<string>, declined: seq<string>)

  function Label(person: Person): string {
    if person.discordUserId.Some? && person.discordUserId.value != "" then "<@" + person.discordUserId.value + ">"
    else person.inGameName
  }

  function Pick(people: seq<Person>, rsvps: map<MemberId, RsvpStatus>, status: RsvpStatus): seq<string> {
    if people == [] then []
    else
      var last := people[|people| - 1];
      Pick(people[..|people| - 1], rsvps, status) +
      (if last.id in rsvps && rsvps[last.id] == status then [Label(last)] else [])
  }

  /** What an embed composed now would say; a neutral answer reads as no answer. */
  function Render(people: seq<Person>, rsvps: map<MemberId, RsvpStatus>): Roster {
    Roster(Pick(people, rsvps, Interested), Pick(people, rsvps, Tentative), Pick(people, rsvps, Declined))
  }

  lemma PickOne(person: Person, rsvps: map<MemberId, RsvpStatus>, status: RsvpStatus)
    ensures Pick([person], rsvps, status) ==
            if person.id in rsvps && rsvps[person.id] == status then [Label(person)] else []
  {
  }

  lemma {:induction false} PickJoins(first: seq<Person>, rest: seq<Person>, rsvps: map<MemberId, RsvpStatus>, status: RsvpStatus)
    ensures Pick(first + rest, rsvps, status) == Pick(first, rsvps, status) + Pick(rest, rsvps, status)
    decreases |rest|
  {
    if rest == [] {
      assert first + rest == first;
    } else {
      var init := rest[..|rest| - 1];
      assert (first + rest)[..|first + rest| - 1] == first + init;
      PickJoins(first, init, rsvps, status);
    }
  }

  /**
   What an embed says of one person, answer by answer: under their mention if their identity
   is linked, else under their name, and on the list of their answer or on none.
   */
  lemma RenderOne(person: Person, rsvps: map<MemberId, RsvpStatus>)
    ensures var shownAs := if person.discordUserId == None || person.discordUserId == Some("") then person.inGameName
                           else "<@" + person.discordUserId.value + ">";
            Render([person], rsvps) ==
            if person.id !in rsvps then Roster([], [], [])
            else match rsvps[person.id]
                 case Interested => Roster([shownAs], [], [])
                 case Tentative => Roster([], [shownAs], [])
                 case Declined => Roster([], [], [shownAs])
                 case Neutral => Roster([], [], [])
  {
    assert person.discordUserId.Some? ==> (person.discordUserId.value == "" <==> person.discordUserId == Some(""));
    PickOne(person, rsvps, Interested);
    PickOne(person, rsvps, Tentative);
    PickOne(person, rsvps, Declined);
  }

  /** And of many: the lists of the parts, one after the other. With `RenderOne` that is the whole embed. */
  lemma RenderJoins(first: seq<Person>, rest: seq<Person>, rsvps: map<MemberId, RsvpStatus>)
    ensures var a, b := Render(first, rsvps), Render(rest, rsvps);
            Render(first + rest, rsvps) ==
            Roster(a.attending + b.attending, a.tentative + b.tentative, a.declined + b.declined)
    ensures Render([], rsvps) == Roster([], [], [])
  {
    PickJoins(first, rest, rsvps, Interested);
    PickJoins(first, rest, rsvps, Tentative);
    PickJoins(first, rest, rsvps, Declined);
  }

  method RosterFor(people: seq<Person>, rsvps: map<MemberId, RsvpStatus>) returns (roster: Roster)
    ensures roster == Render(people, rsvps)
  {
    var attending, tentative, declined := [], [], [];
    for n := 0 to |people|
      invariant Roster(attending, tentative, declined) == Render(people[..n], rsvps)
    {
      assert people[..n + 1][..n] == people[..n];
      var person := people[n];
      if person.id in rsvps {
        match rsvps[person.id]
        case Interested => attending := attending + [Label(person)];
        case Tentative => tentative := tentative + [Label(person)];
        case Declined => declined := declined + [Label(person)];
        case Neutral =>
      }
    }
    assert people[..|people|] == people;
    roster := Roster(attending, tentative, declined);
  }

  // ── The protocol ───────────────────────────────────────────────────────────

  datatype Worker =
    | Free
    | ClaimedRefresh
    | HoldsRefresh(seen: Roster)
    | ClaimedClose
    | HoldsClose(seen: Roster)
    /** The close edit has landed, `closedAt` has not been stamped. */
    | EditedClose

  datatype State = State(
    people: seq<Person>,
    rsvps: map<MemberId, RsvpStatus>,
    /** The embed of the announce job, composed when that job was queued. */
    frozen: Roster,
    delivered: bool,
    shown: Roster,
    buttonsLive: bool,
    closed: bool,
    /** Producers that committed an RSVP and have not counted the pending refreshes yet. */
    checking: nat,
    /** Producers that counted none and have not inserted yet. */
    inserting: nat,
    pending: nat,
    /** Refreshes whose edit landed but whose row still says `processing`. */
    stuck: nat,
    /** Refreshes and closes that failed, and the save of that failure failed too: `processing`, and not done. */
    undone: nat,
    undoneCloses: nat,
    failed: nat,
    lost: nat,
    closes: nat,
    worker: Worker)

  datatype Event =
    | Commit(member: MemberId, answer: Option<RsvpStatus>)
    | Count
    | Insert
    | LoseProducer
    | Deliver
    | QueueClose
    | ClaimNextRefresh
    | ClaimNextClose
    | Read
    | Edit(saved: bool)
    | FailEdit(terminal: bool, saved: bool)
    | StampClosed
    /** A restart; the boot-time reaper may itself throw, and then leaves these rows as they are. */
    | Crash(landed: bool, left: nat, leftStuck: nat, leftClose: nat)

  function Current(s: State): Roster {
    Render(s.people, s.rsvps)
  }

  predicate Enabled(s: State, e: Event) {
    match e
    case Commit(_, _) => true
    case Count => s.checking > 0
    case Insert => s.inserting > 0
    case LoseProducer => s.checking + s.inserting > 0
    case Deliver => !s.delivered && s.worker.Free?
    case QueueClose => s.delivered && !s.closed
    case ClaimNextRefresh => s.worker.Free? && s.pending > 0
    case ClaimNextClose => s.worker.Free? && s.closes > 0
    case Read => s.worker.ClaimedRefresh? || s.worker.ClaimedClose?
    case Edit(_) => s.worker.HoldsRefresh? || s.worker.HoldsClose?
    case FailEdit(_, _) => !s.worker.Free?
    case StampClosed => s.worker.EditedClose?
    case Crash(landed, left, leftStuck, leftClose) =>
      (landed ==> HoldsRoster(s.worker)) &&
      left <= Orphaned(s, landed) && leftStuck <= OrphanedStuck(s, landed) && leftClose <= OrphanedCloses(s)
  }

  /** Refresh rows a dead process leaves undone, and done but unrecorded; and its close rows. */
  function Orphaned(s: State, landed: bool): nat {
    s.undone + (if IsRefresh(s.worker) && !landed then 1 else 0)
  }

  function OrphanedStuck(s: State, landed: bool): nat {
    s.stuck + (if IsRefresh(s.worker) && landed then 1 else 0)
  }

  function OrphanedCloses(s: State): nat {
    s.undoneCloses + (if s.worker.Free? || IsRefresh(s.worker) then 0 else 1)
  }

  predicate IsRefresh(worker: Worker) {
    worker.ClaimedRefresh? || worker.HoldsRefresh?
  }

  /** The visible effect of an edit: the roster it read, and the buttons its kind sends. */
  function Edited(s: State): State
    requires s.worker.HoldsRefresh? || s.worker.HoldsClose?
  {
    s.(shown := s.worker.seen, buttonsLive := s.worker.HoldsRefresh?)
  }

  function Next(s: State, e: Event): State
    requires Enabled(s, e)
  {
    match e
    case Commit(member, answer) =>
      s.(rsvps := if answer.Some? then s.rsvps[member := answer.value] else s.rsvps - {member},
         checking := s.checking + 1)
    case Count =>
      // No delivery, or a closed one: nothing to re-render. A pending refresh: it will do.
      if !s.delivered || s.closed || s.pending > 0 then s.(checking := s.checking - 1)
      else s.(checking := s.checking - 1, inserting := s.inserting + 1)
    case Insert => s.(inserting := s.inserting - 1, pending := s.pending + 1)
    case LoseProducer =>
      if s.checking > 0 then s.(checking := s.checking - 1, lost := s.lost + 1)
      else s.(inserting := s.inserting - 1, lost := s.lost + 1)
    case Deliver => s.(delivered := true, shown := s.frozen, buttonsLive := true, closed := false)
    case QueueClose => s.(closes := s.closes + 1)
    case ClaimNextRefresh => s.(pending := s.pending - 1, worker := ClaimedRefresh)
    case ClaimNextClose => s.(closes := s.closes - 1, worker := ClaimedClose)
    case Read =>
      if !s.delivered || s.closed then s.(worker := Free)
      else if s.worker.ClaimedRefresh? then s.(worker := HoldsRefresh(Current(s)))
      else s.(worker := HoldsClose(Current(s)))
    case Edit(saved) =>
      if s.worker.HoldsClose? then Edited(s).(worker := EditedClose)
      else Edited(s).(worker := Free, stuck := if saved then s.stuck else s.stuck + 1)
    case FailEdit(terminal, saved) =>
      var t := s.(worker := Free);
      if IsRefresh(s.worker) then
        if !saved then t.(undone := s.undone + 1)
        else if terminal then t.(failed := s.failed + 1)
        else t.(pending := s.pending + 1)
      else if !saved then t.(undoneCloses := s.undoneCloses + 1)
      else if terminal then t
      else t.(closes := s.closes + 1)
    case StampClosed => s.(closed := true, worker := Free)
    case Crash(landed, left, leftStuck, leftClose) =>
      // Rows in `processing` are re-queued as far as the reaper gets; producers die with the process.
      var t := if landed then Edited(s) else s;
      t.(checking := 0, inserting := 0, lost := s.lost + s.checking + s.inserting,
         pending := s.pending + (Orphaned(s, landed) - left) + (OrphanedStuck(s, landed) - leftStuck),
         undone := left, stuck := leftStuck,
         closes := s.closes + (OrphanedCloses(s) - leftClose), undoneCloses := leftClose, worker := Free)
  }

  ghost predicate Runs(s: State, es: seq<Event>)
    decreases |es|
  {
    es == [] || (Enabled(s, es[0]) && Runs(Next(s, es[0]), es[1..]))
  }

  ghost function After(s: State, es: seq<Event>): State
    requires Runs(s, es)
    decreases |es|
  {
    if es == [] then s else After(Next(s, es[0]), es[1..])
  }

  // ── No update is lost ──────────────────────────────────────────────────────

  /** Failures stay on record for good; these are the ones there were at some earlier moment. */
  datatype Record = Record(failed: nat, lost: nat, undone: nat)

  const CLEAN: Record := Record(0, 0, 0)

  function RecordOf(s: State): Record {
    Record(s.failed, s.lost, s.undone)
  }

  /** Something that will re-render, or is on record, since then, as unable to. */
  predicate Backlog(s: State, past: Record) {
    s.checking > 0 || s.inserting > 0 || s.pending > 0 ||
    s.undone > past.undone || s.failed > past.failed || s.lost > past.lost
  }

  predicate HoldsRoster(worker: Worker) {
    worker.HoldsRefresh? || worker.HoldsClose?
  }

  /**
   While the announcement is open, a stale message, or a stale reading of it, is owed a
   refresh — by something newer than the old record.
   */
  predicate InOrder(s: State, past: Record) {
    s.delivered && past.failed <= s.failed && past.lost <= s.lost && past.undone <= s.undone &&
    (!s.closed ==>
       (s.shown == Current(s) || Backlog(s, past) || s.worker.ClaimedRefresh? ||
        (s.worker.HoldsRefresh? && s.worker.seen == Current(s))) &&
       (HoldsRoster(s.worker) && s.worker.seen != Current(s) ==> Backlog(s, past)))
  }

  /** What a step leaves of the old record: rows a reaper re-queues are taken from the old ones first. */
  function Left(s: State, e: Event, past: Record): Record
    requires Enabled(s, e)
  {
    if e.Crash? then
      var redone := Orphaned(s, e.landed) - e.left;
      past.(undone := if past.undone > redone then past.undone - redone else 0)
    else past
  }

  ghost function Carried(s: State, es: seq<Event>, past: Record): Record
    requires Runs(s, es)
    decreases |es|
  {
    if es == [] then past else Carried(Next(s, es[0]), es[1..], Left(s, es[0], past))
  }

  /** Steps the worker has no part in. */
  predicate Outside(e: Event) {
    e.Commit? || e.Count? || e.Insert? || e.LoseProducer? || e.Deliver? || e.QueueClose?
  }

  lemma OutsideStep(s: State, e: Event, past: Record)
    requires Enabled(s, e) && InOrder(s, past) && Outside(e)
    ensures InOrder(Next(s, e), past)
  {
  }

  lemma ClaimStep(s: State, e: Event, past: Record)
    requires Enabled(s, e) && InOrder(s, past) && (e.ClaimNextRefresh? || e.ClaimNextClose? || e.StampClosed?)
    ensures InOrder(Next(s, e), past)
  {
  }

  lemma ReadStep(s: State, past: Record)
    requires Enabled(s, Read) && InOrder(s, past)
    ensures InOrder(Next(s, Read), past)
  {
    assert Current(Next(s, Read)) == Current(s);
  }

  lemma EditStep(s: State, saved: bool, past: Record)
    requires Enabled(s, Edit(saved)) && InOrder(s, past)
    ensures InOrder(Next(s, Edit(saved)), past)
  {
    assert Current(Next(s, Edit(saved))) == Current(s);
  }

  lemma FailStep(s: State, terminal: bool, saved: bool, past: Record)
    requires Enabled(s, FailEdit(terminal, saved)) && InOrder(s, past)
    ensures InOrder(Next(s, FailEdit(terminal, saved)), past)
  {
    assert Current(Next(s, FailEdit(terminal, saved))) == Current(s);
  }

  lemma RestartStep(s: State, e: Event, past: Record)
    requires Enabled(s, e) && InOrder(s, past) && e.Crash?
    ensures InOrder(Next(s, e), Left(s, e, past))
  {
    assert Current(Next(s, e)) == Current(s);
  }

  lemma OrderStep(s: State, e: Event, past: Record)
    requires Enabled(s, e) && InOrder(s, past)
    ensures InOrder(Next(s, e), Left(s, e, past))
  {
    match e
    case Read => ReadStep(s, past);
    case Edit(saved) => EditStep(s, saved, past);
    case FailEdit(terminal, saved) => FailStep(s, terminal, saved, past);
    case Crash(_, _, _, _) => RestartStep(s, e, past);
    case ClaimNextRefresh | ClaimNextClose | StampClosed => ClaimStep(s, e, past);
    case _ => OutsideStep(s, e, past);
  }

  /**
   Under every interleaving, retry and crash, coalescing never leaves a stale message
   unowed — and not on the strength of old failures either, which answer for nothing new.
   */
  lemma {:induction false} NoUpdateIsLost(s: State, es: seq<Event>, past: Record)
    requires Runs(s, es) && InOrder(s, past)
    ensures var t, left := After(s, es), Carried(s, es, past);
            InOrder(t, left) &&
            (t.worker.Free? && !Backlog(t, left) && !t.closed ==> t.shown == Current(t))
    decreases |es|
  {
    if es != [] {
      OrderStep(s, es[0], past);
      NoUpdateIsLost(Next(s, es[0]), es[1..], Left(s, es[0], past));
    }
  }

  /** Nothing is in hand or waiting, and nothing failed, was lost or was abandoned during the run. */
  ghost predicate AtRestSince(s: State, es: seq<Event>)
    requires Runs(s, es)
  {
    After(s, es).worker.Free? && !Backlog(After(s, es), Carried(s, es, RecordOf(s)))
  }

  /**
   Whatever the message shows and whatever failed before, after the next answer it shows the
   stored roster at the first rest without a new failure.
   */
  lemma NextAnswerHeals(s: State, member: MemberId, answer: Option<RsvpStatus>, es: seq<Event>)
    requires s.delivered && Runs(s, [Commit(member, answer)] + es)
    ensures var run := [Commit(member, answer)] + es;
            AtRestSince(s, run) && !After(s, run).closed ==> After(s, run).shown == Current(After(s, run))
  {
    var commit := Commit(member, answer);
    assert ([commit] + es)[0] == commit && ([commit] + es)[1..] == es;
    NoUpdateIsLost(Next(s, commit), es, RecordOf(s));
  }

  lemma Prepend(s: State, e: Event, u: State, es: seq<Event>, past: Record)
    requires Enabled(s, e) && u == Next(s, e) && Runs(u, es) 
    ensures Runs(s, [e] + es) && After(s, [e] + es) == After(u, es)
    ensures Carried(s, [e] + es, past) == Carried(u, es, Left(s, e, past))
  {
    assert ([e] + es)[0] == e && ([e] + es)[1..] == es;
  }

  /** A committed answer's refresh, queued, claimed, failed, and lost in `processing`. */
  lemma RefreshIsAbandoned(s: State)
    requires s.delivered && !s.closed && s.checking > 0 && s.pending == 0 && s.worker.Free?
    ensures var run := [Count] + ([Insert] + ([ClaimNextRefresh] + ([FailEdit(false, false)] + [])));
            Runs(s, run) && After(s, run) == s.(checking := s.checking - 1, undone := s.undone + 1)
  {
    var t := s.(checking := s.checking - 1, undone := s.undone + 1);
    var claimed := s.(checking := s.checking - 1, worker := ClaimedRefresh);
    var queued := s.(checking := s.checking - 1, pending := 1);
    var counted := s.(checking := s.checking - 1, inserting := s.inserting + 1);
    Prepend(claimed, FailEdit(false, false), t, [], CLEAN);
    Prepend(queued, ClaimNextRefresh, claimed, [FailEdit(false, false)] + [], CLEAN);
    Prepend(counted, Insert, queued, [ClaimNextRefresh] + ([FailEdit(false, false)] + []), CLEAN);
    Prepend(s, Count, counted, [Insert] + ([ClaimNextRefresh] + ([FailEdit(false, false)] + [])), CLEAN);
  }

  /**
   What an abandoned refresh costs, concretely: one member answers, the refresh is claimed,
   the edit fails and so does putting the row back. The queue is empty and nothing is on
   record as failed, but the message does not show the answer.
   */
  lemma AbandonedRefreshIsNotShown(s: State, person: Person)
    requires s.people == [person] && s.rsvps == map[] && s.shown == Current(s) && s.delivered && !s.closed
    requires !Backlog(s, CLEAN) && s.worker.Free?
    ensures var es := [Commit(person.id, Some(Interested))] +
                      ([Count] + ([Insert] + ([ClaimNextRefresh] + ([FailEdit(false, false)] + []))));
            Runs(s, es) &&
            var t := After(s, es);
            t.worker.Free? && t.checking + t.inserting + t.pending + t.failed + t.lost == 0 &&
            t.undone == 1 && t.shown != Current(t)
  {
    var commit := Commit(person.id, Some(Interested));
    var u := Next(s, commit);
    RenderOne(person, s.rsvps);
    RenderOne(person, u.rsvps);
    RefreshIsAbandoned(u);
    Prepend(s, commit, u, [Count] + ([Insert] + ([ClaimNextRefresh] + ([FailEdit(false, false)] + []))), CLEAN);
  }

  /** A committed answer's refresh, carried out without a hitch. */
  lemma RefreshIsShown(u: State, past: Record)
    requires u.delivered && !u.closed && u.worker.Free? && u.checking == 1 && u.inserting + u.pending == 0
    ensures var run := [Count] + ([Insert] + ([ClaimNextRefresh] + ([Read] + ([Edit(true)] + []))));
            Runs(u, run) && Carried(u, run, past) == past &&
            After(u, run) == u.(checking := 0, shown := Current(u), buttonsLive := true)
  {
    var idle := u.(checking := 0);
    var holding := idle.(worker := HoldsRefresh(Current(u)));
    var edit := [Edit(true)] + [];
    Prepend(holding, Edit(true), idle.(shown := Current(u), buttonsLive := true), [], past);
    Prepend(idle.(worker := ClaimedRefresh), Read, holding, edit, past);
    Prepend(idle.(pending := 1), ClaimNextRefresh, idle.(worker := ClaimedRefresh), [Read] + edit, past);
    Prepend(idle.(inserting := 1), Insert, idle.(pending := 1), [ClaimNextRefresh] + ([Read] + edit), past);
    Prepend(u, Count, idle.(inserting := 1), [Insert] + ([ClaimNextRefresh] + ([Read] + edit)), past);
  }

  /** And there is such a run from every idle open message, an abandoned refresh's included: one answer, one refresh. */
  lemma TheNextAnswerIsShown(s: State, member: MemberId, answer: Option<RsvpStatus>)
    requires s.delivered && !s.closed && s.worker.Free? && s.checking + s.inserting + s.pending == 0
    ensures var run := [Commit(member, answer)] +
                       ([Count] + ([Insert] + ([ClaimNextRefresh] + ([Read] + ([Edit(true)] + [])))));
            Runs(s, run) && AtRestSince(s, run) &&
            After(s, run).shown == Current(After(s, run)) == Current(Next(s, Commit(member, answer)))
  {
    var u := Next(s, Commit(member, answer));
    RefreshIsShown(u, RecordOf(s));
    Prepend(s, Commit(member, answer), u, [Count] + ([Insert] + ([ClaimNextRefresh] + ([Read] + ([Edit(true)] + [])))),
           RecordOf(s));
    assert Current(u.(checking := 0, shown := Current(u), buttonsLive := true)) == Current(u);
  }

  // ── Closing is final ───────────────────────────────────────────────────────

  predicate Retired(s: State) {
    (s.closed ==> s.delivered && !s.buttonsLive && !HoldsRoster(s.worker)) &&
    (s.worker.EditedClose? ==> s.delivered && !s.buttonsLive) &&
    (HoldsRoster(s.worker) ==> s.delivered)
  }

  lemma RetiredStep(s: State, e: Event)
    requires Enabled(s, e) && Retired(s)
    ensures Retired(Next(s, e)) && (s.closed ==> Next(s, e).closed && Next(s, e).shown == s.shown)
  {
  }

  /** However many refreshes are still queued, a closed announcement never gets its buttons back. */
  lemma {:induction false} ClosedStaysClosed(s: State, es: seq<Event>)
    requires Runs(s, es) && Retired(s)
    ensures var t := After(s, es);
            Retired(t) && (s.closed ==> t.closed && t.shown == s.shown && !t.buttonsLive)
    decreases |es|
  {
    if es != [] {
      RetiredStep(s, es[0]);
      ClosedStaysClosed(Next(s, es[0]), es[1..]);
    }
  }

  /** A claimed close reads, edits and stamps. */
  lemma CloseIsCarriedOut(s: State)
    requires s.delivered && !s.closed && s.worker == ClaimedClose
    ensures var run := [Read] + ([Edit(true)] + ([StampClosed] + []));
            Runs(s, run) &&
            After(s, run) == s.(closed := true, buttonsLive := false, shown := Current(s), worker := Free)
  {
    var edited := s.(worker := EditedClose, buttonsLive := false, shown := Current(s));
    var stamp := [StampClosed] + [];
    Prepend(edited, StampClosed, edited.(closed := true, worker := Free), [], CLEAN);
    Prepend(s.(worker := HoldsClose(Current(s))), Edit(true), edited, stamp, CLEAN);
    Prepend(s, Read, s.(worker := HoldsClose(Current(s))), [Edit(true)] + stamp, CLEAN);
  }

  /** And it does close: one queued close, carried out, shows the stored roster, takes the buttons away and is stamped. */
  lemma TheCloseIsShown(s: State)
    requires s.delivered && !s.closed && s.worker.Free? && s.closes == 0
    ensures var run := [QueueClose] + ([ClaimNextClose] + ([Read] + ([Edit(true)] + ([StampClosed] + []))));
            Runs(s, run) && After(s, run) == s.(closed := true, buttonsLive := false, shown := Current(s))
  {
    var claimed, work := s.(worker := ClaimedClose), [Read] + ([Edit(true)] + ([StampClosed] + []));
    assert Current(claimed) == Current(s);
    CloseIsCarriedOut(claimed);
    Prepend(s.(closes := 1), ClaimNextClose, claimed, work, CLEAN);
    Prepend(s, QueueClose, s.(closes := 1), [ClaimNextClose] + work, CLEAN);
  }

  /** A second answer while a refresh is pending queues no second one, and the one pending will show both. */
  lemma SecondAnswerIsCoalesced(s: State, first: MemberId, second: MemberId, answer: Option<RsvpStatus>)
    requires s.delivered && !s.closed && s.worker.Free? && s.checking + s.inserting + s.pending == 0
    ensures var run := [Commit(first, answer)] + ([Count] + ([Insert] + ([Commit(second, answer)] + ([Count] + []))));
            Runs(s, run) &&
            var t := After(s, run);
            t.pending == 1 && t.checking + t.inserting == 0 &&
            Current(t) == Current(Next(Next(s, Commit(first, answer)), Commit(second, answer)))
  {
    var u := Next(s, Commit(first, answer));
    var counted := u.(checking := 0, inserting := 1);
    var queued := u.(checking := 0, pending := 1);
    var again := Next(queued, Commit(second, answer));
    Prepend(again, Count, again.(checking := 0), [], CLEAN);
    Prepend(queued, Commit(second, answer), again, [Count] + [], CLEAN);
    Prepend(counted, Insert, queued, [Commit(second, answer)] + ([Count] + []), CLEAN);
    Prepend(u, Count, counted, [Insert] + ([Commit(second, answer)] + ([Count] + [])), CLEAN);
    Prepend(s, Commit(first, answer), u, [Count] + ([Insert] + ([Commit(second, answer)] + ([Count] + []))), CLEAN);
    assert Current(again.(checking := 0)) == Current(again);
    assert again.rsvps == Next(Next(s, Commit(first, answer)), Commit(second, answer)).rsvps;
  }

  /**
   What a restart whose reaper gets through puts back: every refresh that was claimed or
   undone, every one whose edit landed unrecorded, every close that had not been stamped —
   and producers in flight are gone for good.
   */
  lemma AFullRestartRequeuesAll(s: State, landed: bool)
    requires Enabled(s, Crash(landed, 0, 0, 0))
    ensures var t := Next(s, Crash(landed, 0, 0, 0));
            t.pending == s.pending + s.undone + s.stuck + (if s.worker == ClaimedRefresh || s.worker.HoldsRefresh? then 1 else 0) &&
            t.closes == s.closes + s.undoneCloses +
                        (if s.worker == ClaimedClose || s.worker.HoldsClose? || s.worker == EditedClose then 1 else 0) &&
            t.undone + t.stuck + t.undoneCloses == 0 && t.worker == Free &&
            t.checking + t.inserting == 0 && t.lost == s.lost + s.checking + s.inserting && t.failed == s.failed &&
            t.people == s.people && t.rsvps == s.rsvps && t.closed == s.closed && t.delivered == s.delivered &&
            (!landed ==> t.shown == s.shown && t.buttonsLive == s.buttonsLive) &&
            (landed ==> t.shown == s.worker.seen && (t.buttonsLive <==> s.worker.HoldsRefresh?))
  {
  }

  // ── From the start ──────────────────────────────────────────────────────────

  /** An event whose announce job has just been queued, its embed composed from what is stored. */
  function Queued(people: seq<Person>, rsvps: map<MemberId, RsvpStatus>): State {
    State(people, rsvps, Render(people, rsvps), false, Roster([], [], []), false, false, 0, 0, 0, 0, 0, 0, 0, 0, 0, Free)
  }

  /** So over the whole life of any announcement, whatever precedes the close, nothing follows it. */
  lemma ClosedForLife(people: seq<Person>, rsvps: map<MemberId, RsvpStatus>, es: seq<Event>, later: seq<Event>)
    requires Runs(Queued(people, rsvps), es) && Runs(After(Queued(people, rsvps), es), later)
    ensures var s := After(Queued(people, rsvps), es);
            s.closed ==> After(s, later).closed && After(s, later).shown == s.shown && !After(s, later).buttonsLive
  {
    ClosedStaysClosed(Queued(people, rsvps), es);
    ClosedStaysClosed(After(Queued(people, rsvps), es), later);
  }

  /** And posted before anybody answers, it starts in order: with what was stored, and its buttons. */
  lemma APromptPostIsInOrder(people: seq<Person>, rsvps: map<MemberId, RsvpStatus>)
    ensures AwaitingDelivery(Queued(people, rsvps)) && Enabled(Queued(people, rsvps), Deliver)
    ensures var t := Next(Queued(people, rsvps), Deliver);
            InOrder(t, CLEAN) && t.shown == Render(people, rsvps) && t.buttonsLive && !t.closed
  {
    DeliveryStartsInOrderExactlyWhen(Queued(people, rsvps));
  }

  // ── The gap before delivery ────────────────────────────────────────────────

  /** Queued but not yet posted: nothing can be pending for a message that does not exist. */
  predicate AwaitingDelivery(s: State) {
    !s.delivered && !s.closed && s.inserting == 0 && s.pending == 0 && s.stuck == 0 && s.undone == 0 &&
    s.undoneCloses == 0 && s.failed == 0 && s.closes == 0 &&
    s.worker.Free?
  }

  lemma AwaitingStep(s: State, e: Event)
    requires Enabled(s, e) && AwaitingDelivery(s) && !e.Deliver?
    ensures AwaitingDelivery(Next(s, e)) && Next(s, e).frozen == s.frozen
  {
  }

  /** Until the post nothing gets queued for it, and its embed stays the one the job was queued with. */
  lemma {:induction false} AwaitingUntilDelivery(s: State, es: seq<Event>)
    requires Runs(s, es) && AwaitingDelivery(s) && forall e | e in es :: !e.Deliver?
    ensures AwaitingDelivery(After(s, es)) && After(s, es).frozen == s.frozen
    decreases |es|
  {
    if es != [] {
      assert es[0] in es && forall e | e in es[1..] :: e in es;
      AwaitingStep(s, es[0]);
      AwaitingUntilDelivery(Next(s, es[0]), es[1..]);
    }
  }

  /**
   The announce job freezes its embed when it is queued, and an enqueue made before the
   message exists is dropped. So the posted message starts in order exactly when the
   roster it froze is still the stored one, or some producer has yet to be counted.
   */
  lemma DeliveryStartsInOrderExactlyWhen(s: State)
    requires AwaitingDelivery(s)
    ensures InOrder(Next(s, Deliver), CLEAN) <==> s.frozen == Current(s) || s.checking > 0 || s.lost > 0
    ensures Next(s, Deliver) == s.(delivered := true, shown := s.frozen, buttonsLive := true)
  {
  }

  /** A message posted stale stays stale until somebody answers again or the event is closed. */
  lemma {:induction false} StaleDeliveryStaysStale(s: State, es: seq<Event>)
    requires Runs(s, es) && s.delivered && !Backlog(s, CLEAN) && s.worker.Free?
    requires s.stuck == 0 && s.closes == 0 && s.undoneCloses == 0
    requires forall e | e in es :: !e.Commit? && !e.QueueClose?
    ensures var t := After(s, es);
            t.shown == s.shown && Current(t) == Current(s) && !Backlog(t, CLEAN)
    decreases |es|
  {
    if es != [] {
      assert es[0] in es && forall e | e in es[1..] :: e in es;
      StaleDeliveryStaysStale(Next(s, es[0]), es[1..]);
    }
  }

  /** Concretely: one member answers between the announce job and its post. */
  lemma AnswerBeforePostIsNotShown(s: State, person: Person)
    requires AwaitingDelivery(s) && s.people == [person] && s.rsvps == map[] && s.frozen == Current(s)
    requires s.checking == 0 && s.lost == 0
    ensures var es := [Commit(person.id, Some(Interested)), Count, Deliver];
            Runs(s, es) &&
            var t := After(s, es);
            t.shown == Roster([], [], []) && Current(t) == Roster([Label(person)], [], []) &&
            !Backlog(t, CLEAN) && t.worker.Free? && !t.closed
  {
    var a := Next(s, Commit(person.id, Some(Interested)));
    var b := Next(a, Count);
    var c := Next(b, Deliver);
    RenderOne(person, s.rsvps);
    RenderOne(person, c.rsvps);
    assert Runs(c, []) && [Deliver][1..] == [];
    assert Runs(b, [Deliver]) && After(b, [Deliver]) == c;
    assert [Count, Deliver][1..] == [Deliver];
    assert Runs(a, [Count, Deliver]) && After(a, [Count, Deliver]) == c;
    assert [Commit(person.id, Some(Interested)), Count, Deliver][1..] == [Count, Deliver];
  }

  // ── The two RSVP writers ───────────────────────────────────────────────────

  /** One `event_rsvps` row: the answer and the lead time the member asked to be reminded at. */
  datatype Rsvp = Rsvp(status: RsvpStatus, reminderOffset: Option<int>)

  /** One announced event as the API process sees it, each call running to its end. */
  class EventDesk {
    var rows: map<MemberId, Rsvp>
    /** `closedAt` of the delivery record; `None` when the event was never announced. */
    var delivery: Option<bool>
    var pending: nat

    constructor ()
      ensures rows == map[] && delivery == None && pending == 0
    {
      rows, delivery, pending := map[], None, 0;
    }

    predicate Refreshable()
      reads this
    {
      delivery == Some(false)
    }

    /** The announcement landed, for the first time or again: its message is open from here on. */
    method RecordDelivery()
      modifies this`delivery
      ensures Refreshable() && delivery == Some(false)
    {
      delivery := Some(false);
    }

    /** A stamp on a record that exists; nothing is refreshed after it. */
    method MarkClosed()
      modifies this`delivery
      ensures delivery == if old(delivery).Some? then Some(true) else None
      ensures !Refreshable()
    {
      if delivery.Some? {
        delivery := Some(true);
      }
    }

    /** Coalesced: afterwards an open announcement has a refresh pending, never a needless second. */
    method EnqueueRefresh()
      modifies this`pending
      ensures pending == if delivery == Some(false) && old(pending) == 0 then 1 else old(pending)
    {
      if delivery.None? || delivery.value {
        return;
      }
      if pending > 0 {
        return;
      }
      pending := pending + 1;
    }

    /** The website form: the reminder lead time is part of the answer. */
    method AnswerOnWebsite(member: MemberId, status: RsvpStatus, reminderOffset: Option<int>)
      modifies this
      ensures rows == old(rows)[member := Rsvp(status, reminderOffset)] && delivery == old(delivery)
      ensures delivery == Some(false) ==> pending > 0
      ensures pending <= old(pending) + 1 && (old(pending) > 0 ==> pending == old(pending))
    {
      rows := rows[member := Rsvp(status, reminderOffset)];
      EnqueueRefresh();
    }

    method Withdraw(member: MemberId)
      modifies this
      ensures rows == old(rows) - {member} && delivery == old(delivery)
      ensures delivery == Some(false) ==> pending > 0
      ensures pending <= old(pending) + 1 && (old(pending) > 0 ==> pending == old(pending))
    {
      rows := rows - {member};
      EnqueueRefresh();
    }

    /** The Discord button: a press says "I am coming", not "forget what I asked for". */
    method PressButton(member: MemberId, status: RsvpStatus)
      modifies this
      ensures rows == old(rows)[member := Rsvp(status, if member in old(rows) then old(rows)[member].reminderOffset else None)]
      ensures delivery == old(delivery)
      ensures delivery == Some(false) ==> pending > 0
      ensures pending <= old(pending) + 1 && (old(pending) > 0 ==> pending == old(pending))
    {
      if member in rows {
        rows := rows[member := rows[member].(status := status)];
      } else {
        rows := rows[member := Rsvp(status, None)];
      }
      EnqueueRefresh();
    }
  }

  // ── The thread ping ────────────────────────────────────────────────────────

  const PING_CHUNK_SIZE: nat := 80

  function Flatten(chunks: seq<seq<string>>): seq<string> {
    if chunks == [] then [] else Flatten(chunks[..|chunks| - 1]) + chunks[|chunks| - 1]
  }

  /** Every attendee is pinged once, in order, in messages Discord will accept. */
  method ChunkMentions(ids: seq<string>) returns (chunks: seq<seq<string>>)
    ensures Flatten(chunks) == ids
    ensures forall i | 0 <= i < |chunks| :: 0 < |chunks[i]| <= 80
    ensures forall i | 0 <= i < |chunks| - 1 :: |chunks[i]| == 80
  {
    chunks := [];
    var i := 0;
    while i < |ids|
      invariant 0 <= i && Flatten(chunks) == ids[..if i < |ids| then i else |ids|]
      invariant forall k | 0 <= k < |chunks| :: 0 < |chunks[k]| <= PING_CHUNK_SIZE
      invariant forall k | 0 <= k < |chunks| - 1 :: |chunks[k]| == PING_CHUNK_SIZE
      invariant i <= |ids| && chunks != [] ==> |chunks[|chunks| - 1]| == PING_CHUNK_SIZE
    {
      var end := if i + PING_CHUNK_SIZE < |ids| then i + PING_CHUNK_SIZE else |ids|;
      ghost var grown := chunks + [ids[i..end]];
      assert grown[..|grown| - 1] == chunks && Flatten(grown) == Flatten(chunks) + ids[i..end];
      assert ids[..end] == ids[..i] + ids[i..end];
      chunks := chunks + [ids[i..end]];
      i := i + PING_CHUNK_SIZE;
    }
  }
}
