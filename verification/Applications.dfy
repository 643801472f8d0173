/**
 The enlistment queue. An officer's decision reads the application, decides, and only
 later saves it — an approval talks to Discord in between — and a submission likewise
 checks first and saves second. Nothing in the table itself (no unique key on open
 applications, no status in the UPDATE's condition) arbitrates between two of them.
 */
module Applications {
  import opened Wrappers

  type IdentityId = string

  datatype Status = Pending | Held | Approved | Declined

  predicate Undecided(status: Status) {
    status.Pending? || status.Held?
  }

  datatype Track = Membership | Mercenary

  datatype Application = Application(identity: Option<IdentityId>, track: Track, status: Status, isReapplication: bool)

  /** The regiment's switches; a missing settings row is permissive, as two open ones. */
  datatype Settings = Settings(openRecruitment: bool, allowMercenaries: bool)

  predicate TrackOpen(settings: Settings, track: Track) {
    track.Mercenary? ==> settings.allowMercenaries
  }

  /** The tables: applications in order of creation, blocked identities, and the identity of each member row. */
  datatype Queue = Queue(apps: seq<Application>, blocked: set<IdentityId>, members: seq<Option<IdentityId>>)

  predicate HasOpen(apps: seq<Application>, id: IdentityId) {
    exists i :: 0 <= i < |apps| && apps[i].identity == Some(id) && Undecided(apps[i].status)
  }

  predicate Known(apps: seq<Application>, id: IdentityId) {
    exists i :: 0 <= i < |apps| && apps[i].identity == Some(id)
  }

  /** Open is pending or held, and nothing else. */
  lemma OpenInFull(apps: seq<Application>, id: IdentityId)
    ensures HasOpen(apps, id) <==> exists app :: app in apps && app.identity == Some(id) && app.status in {Pending, Held}
    ensures Known(apps, id) <==> exists app :: app in apps && app.identity == Some(id)
  {
    if i :| 0 <= i < |apps| && apps[i].identity == Some(id) && Undecided(apps[i].status) {
      assert apps[i] in apps;
    }
  }

  predicate MaySubmit(q: Queue, id: IdentityId) {
    id !in q.blocked && !HasOpen(q.apps, id)
  }

  predicate MayDecide(q: Queue, app: nat) {
    app < |q.apps| && Undecided(q.apps[app].status)
  }

  // ── What each save writes ───────────────────────────────────────────────────

  function Submitted(q: Queue, id: IdentityId, track: Track): Queue {
    q.(apps := q.apps + [Application(Some(id), track, Pending, Known(q.apps, id))])
  }

  /** A member row's identity is unique, so a second enlistment of one identity rolls back. */
  predicate Enlistable(q: Queue, app: nat)
    requires app < |q.apps|
  {
    q.apps[app].identity.Some? ==> q.apps[app].identity !in q.members
  }

  function Decided(q: Queue, app: nat, outcome: Status): Queue
    requires app < |q.apps|
  {
    var written := q.(apps := q.apps[app := q.apps[app].(status := outcome)]);
    if !outcome.Approved? then written
    else if Enlistable(q, app) then written.(members := q.members + [q.apps[app].identity])
    else q
  }

  function Closed(apps: seq<Application>, id: IdentityId): seq<Application> {
    seq(|apps|, i requires 0 <= i < |apps| =>
      if apps[i].identity == Some(id) && Undecided(apps[i].status) then apps[i].(status := Declined) else apps[i])
  }

  function Blocked(q: Queue, id: IdentityId): Queue {
    q.(apps := Closed(q.apps, id), blocked := q.blocked + {id})
  }

  // ── The service, one request at a time ──────────────────────────────────────

  datatype Outcome = Done | Forbidden | NotFound | Conflict | BadRequest

  class ApplicationsService {
    var queue: Queue

    constructor (queue: Queue)
      ensures this.queue == queue
    {
      this.queue := queue;
    }

    method Submit(id: IdentityId, track: Track, settings: Settings) returns (outcome: Outcome)
      modifies this
      ensures outcome == Done <==> settings.openRecruitment && TrackOpen(settings, track) && MaySubmit(old(queue), id)
      ensures outcome == Conflict ==> HasOpen(old(queue).apps, id)
      ensures queue == if outcome == Done then Submitted(old(queue), id, track) else old(queue)
      ensures outcome == Done <==>
                settings.openRecruitment && (track == Mercenary ==> settings.allowMercenaries) && id !in old(queue).blocked &&
                forall app | app in old(queue).apps && app.identity == Some(id) :: app.status in {Approved, Declined}
      ensures outcome == Done ==>
                queue.blocked == old(queue).blocked && queue.members == old(queue).members &&
                queue.apps == old(queue).apps + [Application(Some(id), track, Pending,
                                                             exists app :: app in old(queue).apps && app.identity == Some(id))]
      ensures outcome == Conflict ==>
                exists app :: app in old(queue).apps && app.identity == Some(id) && app.status in {Pending, Held}
    {
      OpenInFull(queue.apps, id);
      if id in queue.blocked || !settings.openRecruitment {
        return Forbidden;
      }
      if track.Mercenary? && !settings.allowMercenaries {
        return Forbidden;
      }
      var apps := queue.apps;
      var hasOpen, hasPrior := false, false;
      for n := 0 to |apps|
        invariant queue == old(queue)
        invariant hasOpen <==> HasOpen(apps[..n], id)
        invariant hasPrior <==> Known(apps[..n], id)
      {
        PriorsStep(apps, id, n);
        if apps[n].identity == Some(id) {
          hasPrior := true;
          hasOpen := hasOpen || Undecided(apps[n].status);
        }
      }
      assert hasOpen <==> HasOpen(apps, id) by {
        assert apps[..|apps|] == apps;
      }
      if hasOpen {
        return Conflict;
      }
      assert hasPrior <==> Known(apps, id) by {
        assert apps[..|apps|] == apps;
      }
      queue := queue.(apps := apps + [Application(Some(id), track, Pending, hasPrior)]);
      return Done;
    }

    /** Approve, decline or hold, in one piece. An approval also needs its track open and the entry rank on the ladder. */
    method Decide(app: nat, outcome: Status, settings: Settings, entryRankExists: bool) returns (answer: Outcome)
      requires outcome != Pending
      modifies this
      ensures app >= |old(queue).apps| ==> answer == NotFound
      ensures answer == Forbidden <==>
                MayDecide(old(queue), app) && outcome == Approved && !TrackOpen(settings, old(queue).apps[app].track)
      ensures answer == Done <==>
                MayDecide(old(queue), app) &&
                (outcome == Approved ==>
                   TrackOpen(settings, old(queue).apps[app].track) && entryRankExists && Enlistable(old(queue), app))
      ensures queue == if answer == Done then Decided(old(queue), app, outcome) else old(queue)
      ensures answer == Done <==>
                app < |old(queue).apps| && old(queue).apps[app].status in {Pending, Held} &&
                (outcome == Approved ==>
                   (old(queue).apps[app].track == Mercenary ==> settings.allowMercenaries) && entryRankExists &&
                   (old(queue).apps[app].identity.Some? ==> old(queue).apps[app].identity !in old(queue).members))
      ensures answer == Done ==>
                queue.apps == old(queue).apps[app := old(queue).apps[app].(status := outcome)] &&
                queue.blocked == old(queue).blocked &&
                queue.members == if outcome == Approved then old(queue).members + [old(queue).apps[app].identity]
                                 else old(queue).members
    {
      if app >= |queue.apps| {
        return NotFound;
      }
      if !Undecided(queue.apps[app].status) {
        return Conflict;
      }
      if outcome == Approved {
        if queue.apps[app].track.Mercenary? && !settings.allowMercenaries {
          return Forbidden;
        }
        if !entryRankExists {
          return Conflict;
        }
        var id := queue.apps[app].identity;
        if id.Some? && id in queue.members {
          return Conflict;
        }
        queue := queue.(members := queue.members + [id]);
      }
      queue := queue.(apps := queue.apps[app := queue.apps[app].(status := outcome)]);
      answer := Done;
    }

    /** The block and the bulk decline of whatever the identity still has open. */
    method BlockApplicant(app: nat) returns (answer: Outcome)
      modifies this
      ensures answer == Done <==> app < |old(queue).apps| && old(queue).apps[app].identity.Some?
      ensures queue == if answer == Done then Blocked(old(queue), old(queue).apps[app].identity.value) else old(queue)
      ensures answer == Done ==>
                queue.blocked == old(queue).blocked + {old(queue).apps[app].identity.value} &&
                queue.members == old(queue).members && |queue.apps| == |old(queue).apps| &&
                forall i | 0 <= i < |queue.apps| ::
                  queue.apps[i] == if old(queue).apps[i].identity == old(queue).apps[app].identity &&
                                      old(queue).apps[i].status in {Pending, Held}
                                   then old(queue).apps[i].(status := Declined) else old(queue).apps[i]
    {
      if app >= |queue.apps| {
        return NotFound;
      }
      if queue.apps[app].identity.None? {
        return BadRequest;
      }
      var id := queue.apps[app].identity.value;
      var apps := queue.apps;
      for n := 0 to |apps|
        invariant |apps| == |queue.apps|
        invariant forall i | 0 <= i < |apps| ::
                    apps[i] == if i < n then Closed(queue.apps, id)[i] else queue.apps[i]
      {
        if apps[n].identity == Some(id) && Undecided(apps[n].status) {
          apps := apps[n := apps[n].(status := Declined)];
        }
      }
      assert apps == Closed(queue.apps, id);
      queue := queue.(apps := apps, blocked := queue.blocked + {id});
      answer := Done;
    }
  }

  lemma PriorsStep(apps: seq<Application>, id: IdentityId, n: nat)
    requires n < |apps|
    ensures HasOpen(apps[..n + 1], id) <==>
            HasOpen(apps[..n], id) || (apps[n].identity == Some(id) && Undecided(apps[n].status))
    ensures Known(apps[..n + 1], id) <==> Known(apps[..n], id) || apps[n].identity == Some(id)
  {
  }

  // ── Overlapping requests ────────────────────────────────────────────────────

  /** A request between its check and its save. */
  datatype Ticket = Submitting(id: IdentityId, track: Track) | Deciding(app: nat, outcome: Status)

  datatype World = World(queue: Queue, tickets: map<nat, Ticket>)

  datatype Event =
    | Check(ticket: nat, what: Ticket)
    | Save(ticket: nat)
    | Drop(ticket: nat)
    | Block(id: IdentityId)
    | Unblock(id: IdentityId)

  predicate Passes(q: Queue, what: Ticket) {
    match what
    case Submitting(id, _) => MaySubmit(q, id)
    case Deciding(app, outcome) => MayDecide(q, app) && outcome != Pending
  }

  predicate Enabled(w: World, e: Event) {
    match e
    case Check(ticket, what) => ticket !in w.tickets && Passes(w.queue, what)
    case Save(ticket) =>
      ticket in w.tickets && (w.tickets[ticket].Deciding? ==> w.tickets[ticket].app < |w.queue.apps|)
    case Drop(ticket) => ticket in w.tickets
    case Block(id) => Known(w.queue.apps, id)
    case Unblock(_) => true
  }

  function Saved(q: Queue, what: Ticket): Queue
    requires what.Deciding? ==> what.app < |q.apps|
  {
    match what
    case Submitting(id, track) => Submitted(q, id, track)
    case Deciding(app, outcome) => Decided(q, app, outcome)
  }

  function Next(w: World, e: Event): World
    requires Enabled(w, e)
  {
    match e
    case Check(ticket, what) => w.(tickets := w.tickets[ticket := what])
    case Save(ticket) => World(Saved(w.queue, w.tickets[ticket]), w.tickets - {ticket})
    case Drop(ticket) => w.(tickets := w.tickets - {ticket})
    case Block(id) => w.(queue := Blocked(w.queue, id))
    case Unblock(id) => w.(queue := w.queue.(blocked := w.queue.blocked - {id}))
  }

  ghost predicate Runs(w: World, es: seq<Event>)
    decreases |es|
  {
    es == [] || (Enabled(w, es[0]) && Runs(Next(w, es[0]), es[1..]))
  }

  ghost function After(w: World, es: seq<Event>): World
    requires Runs(w, es)
    decreases |es|
  {
    if es == [] then w else After(Next(w, es[0]), es[1..])
  }

  /** What was checked still holds when it is saved. */
  predicate StillPasses(w: World, e: Event)
    requires Enabled(w, e)
  {
    e.Save? ==> Passes(w.queue, w.tickets[e.ticket])
  }

  ghost predicate Undisturbed(w: World, es: seq<Event>)
    requires Runs(w, es)
    decreases |es|
  {
    es == [] || (StillPasses(w, es[0]) && Undisturbed(Next(w, es[0]), es[1..]))
  }

  /** A blocked identity has nothing open, and no identity has two applications open. */
  predicate Tidy(q: Queue) {
    (forall i | 0 <= i < |q.apps| && Undecided(q.apps[i].status) && q.apps[i].identity.Some? ::
       q.apps[i].identity.value !in q.blocked) &&
    (forall i, j | 0 <= i < j < |q.apps| && q.apps[i].identity.Some? && q.apps[i].identity == q.apps[j].identity ::
       !Undecided(q.apps[i].status) || !Undecided(q.apps[j].status))
  }

  /** Applications are only ever added, keep their applicant, and a decided one never changes again. */
  predicate Kept(was: seq<Application>, now: seq<Application>) {
    |was| <= |now| &&
    forall i | 0 <= i < |was| ::
      now[i].identity == was[i].identity && (!Undecided(was[i].status) ==> now[i].status == was[i].status)
  }

  /** Each approval made one member row: the two grow together. */
  function Approvals(apps: seq<Application>): nat {
    if apps == [] then 0 else (if apps[0].status.Approved? then 1 else 0) + Approvals(apps[1..])
  }

  lemma {:induction false} ApprovalsAt(apps: seq<Application>, i: nat, app: Application)
    requires i < |apps|
    ensures Approvals(apps[i := app]) ==
            Approvals(apps) - (if apps[i].status.Approved? then 1 else 0) + (if app.status.Approved? then 1 else 0)
  {
    if i > 0 {
      assert apps[i := app][1..] == apps[1..][i - 1 := app];
      ApprovalsAt(apps[1..], i - 1, app);
    } else {
      assert apps[i := app][1..] == apps[1..];
    }
  }

  lemma {:induction false} ApprovalsSame(was: seq<Application>, now: seq<Application>)
    requires |was| <= |now|
    requires forall i | 0 <= i < |now| :: now[i].status.Approved? <==> i < |was| && was[i].status.Approved?
    ensures Approvals(now) == Approvals(was)
    decreases |now|
  {
    if now != [] {
      if was == [] {
        ApprovalsSame(was, now[1..]);
      } else {
        ApprovalsSame(was[1..], now[1..]);
      }
    }
  }

  /** A save that still passes its own check keeps everything; so does every other step. */
  lemma StepIsTidy(w: World, e: Event)
    requires Enabled(w, e) && StillPasses(w, e) && Tidy(w.queue)
    ensures Tidy(Next(w, e).queue)
  {
    var t := Next(w, e).queue;
    if e.Save? && w.tickets[e.ticket].Submitting? {
      var id := w.tickets[e.ticket].id;
      assert forall i | 0 <= i < |w.queue.apps| && w.queue.apps[i].identity == Some(id) ::
          !Undecided(w.queue.apps[i].status);
    }
  }

  lemma StepKeeps(w: World, e: Event)
    requires Enabled(w, e) && StillPasses(w, e)
    ensures Kept(w.queue.apps, Next(w, e).queue.apps)
    ensures Approvals(Next(w, e).queue.apps) - |Next(w, e).queue.members| == Approvals(w.queue.apps) - |w.queue.members|
  {
    var was, now := w.queue.apps, Next(w, e).queue.apps;
    if e.Save? && w.tickets[e.ticket].Deciding? && now != was {
      var app := w.tickets[e.ticket].app;
      ApprovalsAt(was, app, now[app]);
    } else {
      ApprovalsSame(was, now);
    }
  }

  /**
   Over every run in which no save outlives its check: a blocked applicant has nothing
   open, nobody has two applications open, decisions are final, and there is exactly one
   member row per approval.
   */
  lemma {:induction false} OrderlyQueue(w: World, es: seq<Event>)
    requires Runs(w, es) && Undisturbed(w, es) && Tidy(w.queue)
    ensures var t := After(w, es);
            Tidy(t.queue) && Kept(w.queue.apps, t.queue.apps) &&
            Approvals(t.queue.apps) - |t.queue.members| == Approvals(w.queue.apps) - |w.queue.members|
    decreases |es|
  {
    if es != [] {
      StepIsTidy(w, es[0]);
      StepKeeps(w, es[0]);
      OrderlyQueue(Next(w, es[0]), es[1..]);
    }
  }

  /** The hypothesis is exact for submissions: one that outlived its check always leaves the queue untidy. */
  lemma SubmissionIsTidyExactlyWhen(q: Queue, id: IdentityId, track: Track)
    requires Tidy(q)
    ensures Tidy(Submitted(q, id, track)) <==> MaySubmit(q, id)
  {
    var t := Submitted(q, id, track);
    if Tidy(t) {
      assert t.apps[|q.apps|].identity == Some(id) && Undecided(t.apps[|q.apps|].status);
      forall i | 0 <= i < |q.apps| && q.apps[i].identity == Some(id) ensures !Undecided(q.apps[i].status) {
        assert t.apps[i] == q.apps[i];
      }
    }
  }

  /** And for decisions: a late one is final too exactly when it says the same again, or its enlistment rolls back. */
  lemma DecisionIsFinalExactlyWhen(q: Queue, app: nat, outcome: Status)
    requires app < |q.apps|
    ensures Kept(q.apps, Decided(q, app, outcome).apps) <==>
            MayDecide(q, app) || q.apps[app].status == outcome || (outcome == Approved && !Enlistable(q, app))
  {
  }

  /** A block lands on an identity that has applied, declines what it has open and bars it; lifting it changes nothing else. */
  lemma BlocksInFull(w: World, id: IdentityId)
    ensures Enabled(w, Block(id)) <==> exists app :: app in w.queue.apps && app.identity == Some(id)
    ensures Enabled(w, Block(id)) ==>
              var t := Next(w, Block(id));
              t.tickets == w.tickets && t.queue.blocked == w.queue.blocked + {id} && t.queue.members == w.queue.members &&
              |t.queue.apps| == |w.queue.apps| &&
              forall i | 0 <= i < |w.queue.apps| ::
                var app := w.queue.apps[i];
                t.queue.apps[i] ==
                if app.identity == Some(id) && app.status in {Pending, Held} then app.(status := Declined) else app
    ensures Next(w, Unblock(id)) == World(Queue(w.queue.apps, w.queue.blocked - {id}, w.queue.members), w.tickets)
  {
    OpenInFull(w.queue.apps, id);
  }

  lemma ThreeSteps(w: World, a: Event, b: Event, c: Event)
    requires Enabled(w, a) && Enabled(Next(w, a), b) && Enabled(Next(Next(w, a), b), c)
    ensures Runs(w, [a, b, c]) && After(w, [a, b, c]) == Next(Next(Next(w, a), b), c)
  {
    var x := Next(w, a);
    var y := Next(x, b);
    var z := Next(y, c);
    assert [c][1..] == [] && Runs(z, []) && Runs(y, [c]) && After(y, [c]) == z;
    assert [b, c][1..] == [c] && Runs(x, [b, c]) && After(x, [b, c]) == z;
    assert [a, b, c][1..] == [b, c];
  }

  /** An undisturbed round: on an empty table an application is submitted and approved, and the applicant is a member. */
  lemma AnApprovalEnlists(id: IdentityId, track: Track)
    ensures var es := [Check(0, Submitting(id, track)), Save(0), Check(1, Deciding(0, Approved)), Save(1)];
            var w := World(Queue([], {}, []), map[]);
            Runs(w, es) && Undisturbed(w, es) &&
            After(w, es) == World(Queue([Application(Some(id), track, Approved, false)], {}, [Some(id)]), map[])
  {
    var es := [Check(0, Submitting(id, track)), Save(0), Check(1, Deciding(0, Approved)), Save(1)];
    var w := World(Queue([], {}, []), map[]);
    var a := Next(w, es[0]);
    var b := Next(a, es[1]);
    assert b.queue == Queue([Application(Some(id), track, Pending, false)], {}, []) && b.tickets == map[];
    var c := Next(b, es[2]);
    var d := Next(c, es[3]);
    assert d.queue == Queue([Application(Some(id), track, Approved, false)], {}, [Some(id)]) && d.tickets == map[];
    assert Runs(d, es[4..]) && After(d, es[4..]) == d && Undisturbed(d, es[4..]);
    assert Runs(c, es[3..]) && After(c, es[3..]) == d && Undisturbed(c, es[3..]);
    assert Runs(b, es[2..]) && After(b, es[2..]) == d && Undisturbed(b, es[2..]);
    assert Runs(a, es[1..]) && After(a, es[1..]) == d && Undisturbed(a, es[1..]);
  }

  /** The overlap does happen: a block that lands between a submission's check and its save leaves a blocked applicant queued. */
  lemma ABlockCanBeOutrun() returns (w: World, es: seq<Event>)
    ensures Tidy(w.queue) && w.tickets == map[] && Runs(w, es) && !Tidy(After(w, es).queue)
  {
    w := World(Queue([Application(Some("a"), Membership, Declined, false)], {}, []), map[]);
    var check, block, save := Check(0, Submitting("a", Membership)), Block("a"), Save(0);
    es := [check, block, save];
    assert w.queue.apps[0].identity == Some("a");
    ThreeSteps(w, check, block, save);
    var t := After(w, es).queue;
    assert t.apps[|t.apps| - 1].identity == Some("a") && "a" in t.blocked;
  }
}
