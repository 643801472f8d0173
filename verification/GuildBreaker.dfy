/**
 The circuit breaker in front of the guild lookup, in real time: attempts overlap, each
 settles within its timeout, and the fields are shared by all of them.
 */
module GuildBreaker {
  const FAILURE_THRESHOLD: nat := 3
  const COOLDOWN_MS: int := 60_000
  const LOOKUP_TIMEOUT_MS: int := 4_000

  datatype Breaker = Breaker(failures: nat, openUntil: int, halfOpen: bool)

  predicate Allows(b: Breaker, now: int) {
    b.openUntil == 0 || (now >= b.openUntil && !b.halfOpen)
  }

  /** Letting an attempt through an open breaker marks the probe. */
  function Admitted(b: Breaker): Breaker {
    if b.openUntil == 0 then b else b.(halfOpen := true)
  }

  function Succeeded(b: Breaker): Breaker {
    Breaker(0, 0, false)
  }

  function Failed(b: Breaker, now: int): Breaker {
    Breaker(b.failures + 1, if b.failures + 1 >= FAILURE_THRESHOLD then now + COOLDOWN_MS else b.openUntil, false)
  }

  /** The service's three fields, written one statement at a time. */
  class BreakerFields {
    var consecutiveFailures: nat
    var breakerOpenUntil: int
    var halfOpenProbeInFlight: bool

    constructor ()
      ensures State() == Breaker(0, 0, false)
    {
      consecutiveFailures, breakerOpenUntil, halfOpenProbeInFlight := 0, 0, false;
    }

    function State(): Breaker
      reads this
    {
      Breaker(consecutiveFailures, breakerOpenUntil, halfOpenProbeInFlight)
    }

    method BreakerAllows(now: int) returns (allowed: bool)
      modifies this
      ensures allowed == Allows(old(State()), now)
      ensures State() == if allowed then Admitted(old(State())) else old(State())
      ensures allowed <==> old(breakerOpenUntil) == 0 || (now >= old(breakerOpenUntil) && !old(halfOpenProbeInFlight))
      ensures halfOpenProbeInFlight == (old(halfOpenProbeInFlight) || (allowed && old(breakerOpenUntil) != 0))
    {
      if breakerOpenUntil == 0 {
        return true;
      }
      if now < breakerOpenUntil {
        return false;
      }
      if halfOpenProbeInFlight {
        return false;
      }
      halfOpenProbeInFlight := true;
      allowed := true;
    }

    method OnLookupSuccess()
      modifies this
      ensures State() == Succeeded(old(State())) == Breaker(0, 0, false)
    {
      consecutiveFailures := 0;
      breakerOpenUntil := 0;
      halfOpenProbeInFlight := false;
    }

    method OnLookupFailure(now: int)
      modifies this
      ensures State() == Failed(old(State()), now)
      ensures consecutiveFailures == old(consecutiveFailures) + 1 && !halfOpenProbeInFlight
      ensures breakerOpenUntil == if old(consecutiveFailures) >= 2 then now + 60_000 else old(breakerOpenUntil)
    {
      halfOpenProbeInFlight := false;
      consecutiveFailures := consecutiveFailures + 1;
      if consecutiveFailures >= FAILURE_THRESHOLD {
        breakerOpenUntil := now + COOLDOWN_MS;
      }
    }
  }

  // ── Overlapping attempts in real time ──────────────────────────────────────

  /**
   Attempts in flight, by id, with their start times; the last start through an open breaker
   since it last opened from closed; and when an attempt last failed.
   */
  datatype World = World(now: int, breaker: Breaker, inFlight: map<nat, int>, lastProbe: int, probed: bool, lastFailure: int)

  datatype Event =
    | Wait(until: int)
    | Start(id: nat)
    | Refuse
    | Settle(id: nat, ok: bool)

  predicate Enabled(w: World, e: Event) {
    match e
    // Time cannot pass an attempt's deadline while the attempt is still out.
    case Wait(until) => w.now <= until && forall id | id in w.inFlight :: until <= w.inFlight[id] + LOOKUP_TIMEOUT_MS
    case Start(id) => id !in w.inFlight && Allows(w.breaker, w.now)
    case Refuse => !Allows(w.breaker, w.now)
    case Settle(id, _) => id in w.inFlight
  }

  function Next(w: World, e: Event): World
    requires Enabled(w, e)
  {
    match e
    case Wait(until) => w.(now := until)
    case Start(id) =>
      var probe := w.breaker.openUntil != 0;
      w.(breaker := Admitted(w.breaker), inFlight := w.inFlight[id := w.now],
         lastProbe := if probe then w.now else w.lastProbe, probed := probe || w.probed)
    case Refuse => w
    case Settle(id, ok) =>
      w.(breaker := if ok then Succeeded(w.breaker) else Failed(w.breaker, w.now),
         inFlight := w.inFlight - {id}, probed := w.probed && !ok, lastFailure := if ok then w.lastFailure else w.now)
  }

  ghost predicate Runs(w: World, es: seq<Event>)
    decreases |es|
  {
    es == [] || (Enabled(w, es[0]) && Runs(Next(w, es[0]), es[1..]))
  }

  ghost function After(w: World, es: seq<Event>): World
    requires Runs(w, es)
    decreases |es|
  {
    if es == [] then w else After(Next(w, es[0]), es[1..])
  }

  function Boot(now: int): World {
    World(now, Breaker(0, 0, false), map[], 0, false, 0)
  }

  /** With the breaker open, an attempt in flight either predates the opening or is the one probe. */
  predicate Sound(w: World) {
    w.now > 0 && (w.probed ==> w.lastProbe <= w.now) &&
    (forall id | id in w.inFlight :: w.inFlight[id] <= w.now <= w.inFlight[id] + LOOKUP_TIMEOUT_MS) &&
    (w.breaker.openUntil == 0 ==> !w.breaker.halfOpen) &&
    (w.breaker.failures >= 3 <==> w.breaker.openUntil != 0) &&
    (w.breaker.openUntil != 0 ==>
       w.breaker.openUntil == w.lastFailure + 60_000 && 0 < w.lastFailure <= w.now &&
       (forall id | id in w.inFlight && w.inFlight[id] > w.breaker.openUntil - COOLDOWN_MS ::
          w.breaker.halfOpen && w.inFlight[id] >= w.breaker.openUntil) &&
       (forall a, b | a in w.inFlight && b in w.inFlight && w.inFlight[a] >= w.breaker.openUntil &&
                      w.inFlight[b] >= w.breaker.openUntil :: a == b) &&
       (w.breaker.halfOpen ==> exists id :: id in w.inFlight && w.inFlight[id] >= w.breaker.openUntil) &&
       (w.probed && !w.breaker.halfOpen ==> w.lastProbe + COOLDOWN_MS <= w.breaker.openUntil)) &&
    (w.breaker.openUntil == 0 ==> !w.probed)
  }

  /** The timeout is shorter than the cooldown: past it, everything from before the opening has settled. */
  lemma OnlyTheProbeIsLeft(w: World)
    requires Sound(w) && w.breaker.openUntil != 0 && w.now >= w.breaker.openUntil
    ensures forall id | id in w.inFlight :: w.breaker.halfOpen && w.inFlight[id] >= w.breaker.openUntil
    ensures !w.breaker.halfOpen ==> w.inFlight == map[]
  {
  }

  lemma WaitIsSound(w: World, until: int)
    requires Sound(w) && Enabled(w, Wait(until))
    ensures Sound(Next(w, Wait(until)))
  {
  }

  lemma StartIsSound(w: World, id: nat)
    requires Sound(w) && Enabled(w, Start(id))
    ensures Sound(Next(w, Start(id)))
  {
  }

  lemma SettleIsSound(w: World, id: nat, ok: bool)
    requires Sound(w) && Enabled(w, Settle(id, ok))
    ensures Sound(Next(w, Settle(id, ok)))
  {
  }

  lemma StepIsSound(w: World, e: Event)
    requires Sound(w) && Enabled(w, e)
    ensures Sound(Next(w, e))
  {
    match e
    case Wait(until) => WaitIsSound(w, until);
    case Start(id) => StartIsSound(w, id);
    case Refuse =>
    case Settle(id, ok) => SettleIsSound(w, id, ok);
  }

  lemma {:induction false} StaysSound(w: World, es: seq<Event>)
    requires Sound(w) && Runs(w, es)
    ensures Sound(After(w, es))
    decreases |es|
  {
    if es != [] {
      StepIsSound(w, es[0]);
      StaysSound(Next(w, es[0]), es[1..]);
    }
  }

  /** Once an open breaker's cooldown has elapsed, at most one lookup is in flight — and exactly one iff the probe is marked. */
  lemma OneProbeAtATime(boot: int, es: seq<Event>)
    requires boot > 0 && Runs(Boot(boot), es)
    ensures var w := After(Boot(boot), es);
            w.breaker.openUntil != 0 && w.now >= w.breaker.openUntil ==>
              |w.inFlight| <= 1 && (w.breaker.halfOpen <==> |w.inFlight| == 1)
  {
    StaysSound(Boot(boot), es);
    var w := After(Boot(boot), es);
    if w.breaker.openUntil != 0 && w.now >= w.breaker.openUntil {
      OnlyTheProbeIsLeft(w);
      if id :| id in w.inFlight {
        assert w.inFlight.Keys == {id};
        assert |w.inFlight| == |w.inFlight.Keys|;
      } else {
        assert w.inFlight == map[];
      }
    }
  }

  /** No attempt is out for longer than four seconds. */
  lemma AttemptsSettleInTime(boot: int, es: seq<Event>)
    requires boot > 0 && Runs(Boot(boot), es)
    ensures var w := After(Boot(boot), es);
            forall id | id in w.inFlight :: w.inFlight[id] <= w.now <= w.inFlight[id] + 4_000
  {
    StaysSound(Boot(boot), es);
  }

  /** How many attempts have failed since the last one that succeeded. */
  function Streak(es: seq<Event>): nat {
    if es == [] then 0
    else
      var last, before := es[|es| - 1], es[..|es| - 1];
      if !last.Settle? then Streak(before) else if last.ok then 0 else Streak(before) + 1
  }

  lemma {:induction false} FailuresAreCounted(w: World, es: seq<Event>)
    requires Runs(w, es)
    ensures After(w, es).breaker.failures == Streak(es) + if AllFail(es) then w.breaker.failures else 0
    decreases |es|
  {
    if es != [] {
      FailuresAreCounted(Next(w, es[0]), es[1..]);
      StreakFromTheFront(es);
    }
  }

  predicate AllFail(es: seq<Event>) {
    forall e | e in es :: !(e.Settle? && e.ok)
  }

  lemma {:induction false} StreakFromTheFront(es: seq<Event>)
    requires es != []
    ensures Streak(es) == Streak(es[1..]) + if es[0].Settle? && !es[0].ok && AllFail(es[1..]) then 1 else 0
    ensures AllFail(es) <==> AllFail(es[1..]) && !(es[0].Settle? && es[0].ok)
    decreases |es|
  {
    assert es == [es[0]] + es[1..];
    if |es| > 1 {
      var before, last := es[..|es| - 1], es[|es| - 1];
      StreakFromTheFront(before);
      assert before[1..] == es[1..][..|es| - 2] && es[1..] == before[1..] + [last];
      assert es == before + [last];
    } else {
      assert es[..0] == [] && es[1..] == [];
    }
  }

  /**
   Who is let through, over every run from boot and every overlap: anybody while fewer than
   three attempts in a row have failed; after that one attempt, once a minute has passed
   since the last failure and nothing is in flight any more.
   */
  lemma LetThroughExactlyWhen(boot: int, es: seq<Event>, id: nat)
    requires boot > 0 && Runs(Boot(boot), es) && id !in After(Boot(boot), es).inFlight
    ensures var w := After(Boot(boot), es);
            Enabled(w, Start(id)) <==> Streak(es) < 3 || (w.now >= w.lastFailure + 60_000 && w.inFlight == map[])
  {
    StaysSound(Boot(boot), es);
    FailuresAreCounted(Boot(boot), es);
    var w := After(Boot(boot), es);
    if w.breaker.openUntil != 0 && w.now >= w.breaker.openUntil {
      OnlyTheProbeIsLeft(w);
    }
  }

  /** From the failure that is the third or later in a row on, nobody is let through for a minute, short of a success. */
  lemma {:induction false} ClosedForAMinute(w: World, id: nat, es: seq<Event>)
    requires Sound(w) && w.breaker.failures >= 2 && Runs(w, [Settle(id, false)] + es) && AllFail(es)
    ensures var t := After(w, [Settle(id, false)] + es);
            t.now < w.now + 60_000 ==> forall other :: !Enabled(t, Start(other))
  {
    var e := Settle(id, false);
    assert ([e] + es)[0] == e && ([e] + es)[1..] == es;
    StepIsSound(w, e);
    StaysOpen(Next(w, e), es);
  }

  /** Without a success an open breaker stays open, and its next opening only moves later. */
  lemma {:induction false} StaysOpen(w: World, es: seq<Event>)
    requires Sound(w) && Runs(w, es) && AllFail(es) && w.breaker.openUntil != 0
    ensures var t := After(w, es);
            t.breaker.openUntil != 0 && t.breaker.openUntil >= w.breaker.openUntil
    decreases |es|
  {
    if es != [] {
      assert es[0] in es && forall e | e in es[1..] :: e in es;
      StepIsSound(w, es[0]);
      StaysOpen(Next(w, es[0]), es[1..]);
    }
  }

  lemma Prepend(w: World, e: Event, next: World, es: seq<Event>)
    requires Enabled(w, e) && Next(w, e) == next && Runs(next, es)
    ensures Runs(w, [e] + es) && After(w, [e] + es) == After(next, es)
  {
    assert ([e] + es)[1..] == es;
  }

  /** From boot, three lookups out at once all fail, and the breaker is open for a minute. */
  lemma ThirdFailureOpens(boot: int)
    requires boot > 0
    ensures var es := [Start(0)] + ([Start(1)] + ([Start(2)] +
                      ([Settle(0, false)] + ([Settle(1, false)] + ([Settle(2, false)] + [])))));
            Runs(Boot(boot), es) &&
            After(Boot(boot), es) == World(boot, Breaker(3, boot + 60_000, false), map[], 0, false, boot)
  {
    var none, shut := Breaker(0, 0, false), Breaker(3, boot + 60_000, false);
    var end := [Settle(2, false)] + [];
    Prepend(World(boot, Breaker(2, 0, false), map[2 := boot], 0, false, boot), Settle(2, false),
            World(boot, shut, map[], 0, false, boot), []);
    Prepend(World(boot, Breaker(1, 0, false), map[1 := boot, 2 := boot], 0, false, boot), Settle(1, false),
            World(boot, Breaker(2, 0, false), map[2 := boot], 0, false, boot), end);
    Prepend(World(boot, none, map[0 := boot, 1 := boot, 2 := boot], 0, false, 0), Settle(0, false),
            World(boot, Breaker(1, 0, false), map[1 := boot, 2 := boot], 0, false, boot), [Settle(1, false)] + end);
    var fails := [Settle(0, false)] + ([Settle(1, false)] + end);
    Prepend(World(boot, none, map[0 := boot, 1 := boot], 0, false, 0), Start(2),
            World(boot, none, map[0 := boot, 1 := boot, 2 := boot], 0, false, 0), fails);
    Prepend(World(boot, none, map[0 := boot], 0, false, 0), Start(1),
            World(boot, none, map[0 := boot, 1 := boot], 0, false, 0), [Start(2)] + fails);
    Prepend(Boot(boot), Start(0), World(boot, none, map[0 := boot], 0, false, 0), [Start(1)] + ([Start(2)] + fails));
  }

  /** And from there: for a minute nobody is let through, then one probe is, and its success closes the breaker. */
  lemma OneSuccessCloses(boot: int)
    requires boot > 0
    ensures var open := World(boot, Breaker(3, boot + 60_000, false), map[], 0, false, boot);
            Enabled(open, Wait(boot + 59_999)) && !Enabled(Next(open, Wait(boot + 59_999)), Start(3)) &&
            Runs(open, [Wait(boot + 60_000)] + ([Start(3)] + [])) &&
            var probing := After(open, [Wait(boot + 60_000)] + ([Start(3)] + []));
            probing.inFlight == map[3 := boot + 60_000] && !Enabled(probing, Start(4)) &&
            Enabled(probing, Settle(3, true)) &&
            var closed := Next(probing, Settle(3, true));
            closed.inFlight == map[] && closed.breaker == Breaker(0, 0, false) && Enabled(closed, Start(4))
  {
    var open := World(boot, Breaker(3, boot + 60_000, false), map[], 0, false, boot);
    var cooled := open.(now := boot + 60_000);
    var probing := World(boot + 60_000, Breaker(3, boot + 60_000, true), map[3 := boot + 60_000], boot + 60_000, true, boot);
    Prepend(cooled, Start(3), probing, []);
    Prepend(open, Wait(boot + 60_000), cooled, [Start(3)] + []);
    assert Next(probing, Settle(3, true)).inFlight == map[];
  }

  /** `starts` lists, in order, when the run let attempts through an open breaker. */
  predicate ProbesBy(w: World, es: seq<Event>, starts: seq<int>)
    decreases |es|
  {
    if es == [] then starts == []
    else if !Enabled(w, es[0]) then false
    else if es[0].Start? && w.breaker.openUntil != 0 then
      starts != [] && starts[0] == w.now && ProbesBy(Next(w, es[0]), es[1..], starts[1..])
    else ProbesBy(Next(w, es[0]), es[1..], starts)
  }

  /**
   While no lookup succeeds, the attempts let through the open breaker begin at least a
   cooldown apart — the first of them counted from the one before the stretch.
   */
  lemma {:induction false} FailingStreakIsSpaced(w: World, es: seq<Event>, starts: seq<int>)
    requires Sound(w) && ProbesBy(w, es, starts) && forall e | e in es :: !(e.Settle? && e.ok)
    ensures forall i | 0 <= i < |starts| - 1 :: starts[i] + COOLDOWN_MS <= starts[i + 1]
    ensures starts != [] && w.probed ==> w.lastProbe + COOLDOWN_MS <= starts[0]
    decreases |es|
  {
    if es != [] {
      assert es[0] in es && forall e | e in es[1..] :: e in es;
      StepIsSound(w, es[0]);
      if es[0].Start? && w.breaker.openUntil != 0 {
        FailingStreakIsSpaced(Next(w, es[0]), es[1..], starts[1..]);
        assert forall i | 0 < i < |starts| - 1 :: starts[i] == starts[1..][i - 1] && starts[i + 1] == starts[1..][i];
      } else {
        FailingStreakIsSpaced(Next(w, es[0]), es[1..], starts);
      }
    }
  }
}
