/**
 Who is in the guild, as stored, cached and gated on. Lookups, live join/leave events and
 sign-ins write the same pair from three directions; a lookup that did not complete may
 answer a caller but must never become a fact.
 */
module GuildVerdict {
  import opened Wrappers

  type IdentityId = nat

  const VERDICT_TTL_MS: int := 15 * 60_000
  const DEGRADED_TTL_MS: int := 60_000

  datatype Stored = Stored(guildMember: bool, guildCheckedAt: Option<int>)

  datatype Verdict = Verdict(guildMember: bool, checkedAt: Option<int>, degraded: bool)

  datatype CacheEntry = CacheEntry(verdict: Verdict, expiresAt: int)

  /** A pair that was never confirmed reads as a degraded member. */
  function VerdictOf(stored: Option<Stored>): Verdict {
    if stored.None? || stored.value.guildCheckedAt.None? then Verdict(true, None, true)
    else Verdict(stored.value.guildMember, stored.value.guildCheckedAt, false)
  }

  /** A running lookup: whose it is, and the row it read before asking the bot. */
  datatype Flight = Flight(identity: IdentityId, row: Option<Stored>)

  datatype State = State(
    identities: map<IdentityId, Stored>,
    cache: map<IdentityId, CacheEntry>,
    inFlight: map<IdentityId, nat>,
    flights: map<nat, Flight>)

  function Confirmed(member: bool, now: int): CacheEntry {
    CacheEntry(Verdict(member, Some(now), false), now + VERDICT_TTL_MS)
  }

  function Lookup(identities: map<IdentityId, Stored>, id: IdentityId): Option<Stored> {
    if id in identities then Some(identities[id]) else None
  }

  /** An UPDATE by id: a row deleted meanwhile is not resurrected. */
  function Recorded(identities: map<IdentityId, Stored>, id: IdentityId, member: bool, now: int): map<IdentityId, Stored> {
    if id in identities then identities[id := Stored(member, Some(now))] else identities
  }

  function CachedAnswer(s: State, id: IdentityId, now: int): Option<Verdict> {
    if id in s.cache && s.cache[id].expiresAt > now then Some(s.cache[id].verdict) else None
  }

  // ── The service ────────────────────────────────────────────────────────────

  datatype Answer = FromCache(verdict: Verdict) | Joined(flight: nat) | Started(flight: nat)

  class GuildMembershipService {
    var identities: map<IdentityId, Stored>
    var cache: map<IdentityId, CacheEntry>
    var inFlight: map<IdentityId, nat>
    var flights: map<nat, Flight>
    var nextFlight: nat

    constructor (identities: map<IdentityId, Stored>)
      ensures Now() == State(identities, map[], map[], map[]) && nextFlight == 0
    {
      this.identities := identities;
      cache, inFlight, flights, nextFlight := map[], map[], map[], 0;
    }

    function Now(): State
      reads this
    {
      State(identities, cache, inFlight, flights)
    }

    /** `resolve` up to its first await: the cache, the running lookup, or a new one. */
    method Resolve(id: IdentityId, now: int) returns (answer: Answer)
      requires nextFlight !in flights
      modifies this
      ensures answer.FromCache? <==> id in old(cache) && old(cache)[id].expiresAt > now
      ensures answer.FromCache? ==> answer.verdict == old(cache)[id].verdict && Now() == old(Now())
      ensures answer.Joined? ==> id in old(inFlight) && answer.flight == old(inFlight)[id] && Now() == old(Now())
      ensures answer.Started? ==>
                id !in old(inFlight) && inFlight == old(inFlight)[id := answer.flight] &&
                flights == old(flights)[answer.flight := Flight(id, if id in identities then Some(identities[id]) else None)] &&
                identities == old(identities) && cache == old(cache)
      ensures old(CachedAnswer(Now(), id, now)).Some? ==>
                answer == FromCache(old(CachedAnswer(Now(), id, now)).value) && Now() == old(Now())
      ensures old(CachedAnswer(Now(), id, now)).None? && id in old(inFlight) ==>
                answer == Joined(old(inFlight)[id]) && Now() == old(Now())
      ensures old(CachedAnswer(Now(), id, now)).None? && id !in old(inFlight) ==>
                answer == Started(old(nextFlight)) && nextFlight == old(nextFlight) + 1 &&
                Now() == Begin(old(Now()), id, old(nextFlight))
    {
      if id in cache && cache[id].expiresAt > now {
        return FromCache(cache[id].verdict);
      }
      if id in inFlight {
        return Joined(inFlight[id]);
      }
      var flight := nextFlight;
      nextFlight := nextFlight + 1;
      flights := flights[flight := Flight(id, Lookup(identities, id))];
      inFlight := inFlight[id := flight];
      answer := Started(flight);
    }

    /** The rest of `lookup`, once the probe has answered: `None` is "could not check". */
    method FinishLookup(flight: nat, probed: Option<bool>, now: int) returns (verdict: Verdict)
      requires flight in flights
      modifies this
      ensures Now() == Land(old(Now()), flight, probed, now) && nextFlight == old(nextFlight)
      ensures verdict.degraded <==> old(flights)[flight].row.None? || probed.None?
      ensures var id := old(flights)[flight].identity;
              inFlight == old(inFlight) - {id} && flights == old(flights) - {flight} &&
              cache == old(cache)[id := CacheEntry(verdict, now + (if verdict.degraded then 60_000 else 900_000))] &&
              identities == if !verdict.degraded && id in old(identities)
                            then old(identities)[id := Stored(probed.value, Some(now))] else old(identities)
      ensures verdict.degraded ==>
                var row := old(flights)[flight].row;
                if row.Some? && row.value.guildCheckedAt.Some?
                then verdict.guildMember == row.value.guildMember && verdict.checkedAt == row.value.guildCheckedAt
                else verdict.guildMember && verdict.checkedAt == None
      ensures verdict.degraded ==> verdict == VerdictOf(old(flights)[flight].row).(degraded := true)
      ensures !verdict.degraded ==> verdict == Verdict(probed.value, Some(now), false)
    {
      var id := flights[flight].identity;
      var stored := VerdictOf(flights[flight].row);
      var confirmed := if flights[flight].row.Some? then probed else None;
      if confirmed.None? {
        verdict := stored.(degraded := true);
        cache := cache[id := CacheEntry(verdict, now + DEGRADED_TTL_MS)];
      } else {
        if id in identities {
          identities := identities[id := Stored(confirmed.value, Some(now))];
        }
        verdict := Verdict(confirmed.value, Some(now), false);
        cache := cache[id := CacheEntry(verdict, now + VERDICT_TTL_MS)];
      }
      inFlight := inFlight - {id};
      flights := flights - {flight};
    }

    /** A lookup that throws — its read or its write failed — only stops running: nothing is cached and the next caller asks again. */
    method DropLookup(flight: nat)
      requires flight in flights
      modifies this
      ensures Now() == Drop(old(Now()), flight) && nextFlight == old(nextFlight)
      ensures cache == old(cache) && identities == old(identities)
    {
      inFlight := inFlight - {flights[flight].identity};
      flights := flights - {flight};
    }

    /** A live join or leave; an event for a user without an identity row is ignored. */
    method RecordEventVerdict(id: IdentityId, member: bool, now: int)
      modifies this
      ensures Now() == Observe(old(Now()), id, member, now) && nextFlight == old(nextFlight)
      ensures if id in old(identities)
              then identities == old(identities)[id := Stored(member, Some(now))] &&
                   cache == old(cache)[id := CacheEntry(Verdict(member, Some(now), false), now + 900_000)]
              else identities == old(identities) && cache == old(cache)
    {
      if id !in identities {
        return;
      }
      identities := identities[id := Stored(member, Some(now))];
      cache := cache[id := Confirmed(member, now)];
    }

    /** The sign-in upsert and the cache alignment that follows it. */
    method SignIn(id: IdentityId, probed: Option<bool>, now: int)
      modifies this
      ensures Now() == Upsert(old(Now()), id, probed, now) && nextFlight == old(nextFlight)
      ensures identities == old(identities)[id :=
                if probed.Some? then Stored(probed.value, Some(now))
                else if id in old(identities) then old(identities)[id] else Stored(false, None)]
    {
      var identity := if id in identities then identities[id] else Stored(false, None);
      if probed.Some? {
        identity := Stored(probed.value, Some(now));
      }
      identities := identities[id := identity];
      SyncCache(id, identity);
    }

    method SyncCache(id: IdentityId, identity: Stored)
      modifies this`cache
      ensures cache == Synced(old(cache), id, identity)
      ensures identity.guildCheckedAt.None? ==> cache == old(cache) - {id}
      ensures identity.guildCheckedAt.Some? ==>
                cache == old(cache)[id := CacheEntry(Verdict(identity.guildMember, identity.guildCheckedAt, false),
                                                     identity.guildCheckedAt.value + 900_000)]
    {
      if identity.guildCheckedAt.None? {
        cache := cache - {id};
        return;
      }
      cache := cache[id := CacheEntry(Verdict(identity.guildMember, identity.guildCheckedAt, false),
                                      identity.guildCheckedAt.value + VERDICT_TTL_MS)];
    }

    /** The request-path gate: the stored pair only, never a probe. */
    method IsGatedOut(id: IdentityId, gateEnabled: bool, exempt: bool) returns (gated: bool)
      ensures gated <==> GatedOut(Now(), id, gateEnabled, exempt)
      ensures gated <==>
                gateEnabled && !exempt && id in identities && identities[id].guildCheckedAt.Some? && !identities[id].guildMember
    {
      if !gateEnabled || exempt {
        return false;
      }
      var verdict := VerdictOf(if id in identities then Some(identities[id]) else None);
      gated := !verdict.guildMember && !verdict.degraded;
    }
  }

  predicate GatedOut(s: State, id: IdentityId, gateEnabled: bool, exempt: bool) {
    gateEnabled && !exempt && !VerdictOf(Lookup(s.identities, id)).guildMember && !VerdictOf(Lookup(s.identities, id)).degraded
  }

  // ── The steps as functions ─────────────────────────────────────────────────

  function Begin(s: State, id: IdentityId, flight: nat): State {
    s.(inFlight := s.inFlight[id := flight], flights := s.flights[flight := Flight(id, Lookup(s.identities, id))])
  }

  function Land(s: State, flight: nat, probed: Option<bool>, now: int): State
    requires flight in s.flights
  {
    var id, row := s.flights[flight].identity, s.flights[flight].row;
    var t := s.(inFlight := s.inFlight - {id}, flights := s.flights - {flight});
    if row.None? || probed.None? then
      t.(cache := s.cache[id := CacheEntry(VerdictOf(row).(degraded := true), now + DEGRADED_TTL_MS)])
    else
      t.(identities := Recorded(s.identities, id, probed.value, now), cache := s.cache[id := Confirmed(probed.value, now)])
  }

  function Drop(s: State, flight: nat): State
    requires flight in s.flights
  {
    s.(inFlight := s.inFlight - {s.flights[flight].identity}, flights := s.flights - {flight})
  }

  function Observe(s: State, id: IdentityId, member: bool, now: int): State {
    if id !in s.identities then s
    else s.(identities := Recorded(s.identities, id, member, now), cache := s.cache[id := Confirmed(member, now)])
  }

  function Synced(cache: map<IdentityId, CacheEntry>, id: IdentityId, row: Stored): map<IdentityId, CacheEntry> {
    if row.guildCheckedAt.None? then cache - {id}
    else cache[id := CacheEntry(Verdict(row.guildMember, row.guildCheckedAt, false), row.guildCheckedAt.value + VERDICT_TTL_MS)]
  }

  function Upsert(s: State, id: IdentityId, probed: Option<bool>, now: int): State {
    var row := if probed.Some? then Stored(probed.value, Some(now))
               else if id in s.identities then s.identities[id] else Stored(false, None);
    s.(identities := s.identities[id := row], cache := Synced(s.cache, id, row))
  }

  // ── Whole runs ─────────────────────────────────────────────────────────────

  datatype Event =
    | StartLookup(id: IdentityId, flight: nat)
    | EndLookup(flight: nat, probed: Option<bool>)
    | LoseLookup(flight: nat)
    /** The process dies: the rows stay, the cache and the running lookups go. */
    | Restart
    | GuildEvent(id: IdentityId, member: bool)
    | SignsIn(id: IdentityId, probed: Option<bool>)
    | Invalidate(id: IdentityId)
    | Erase(id: IdentityId)
    | Wait(until: int)

  /** A state with its clock, and the last confirmed observation recorded for each identity. */
  datatype World = World(s: State, now: int, observed: map<IdentityId, bool>)

  predicate Enabled(w: World, e: Event) {
    match e
    case StartLookup(id, flight) => CachedAnswer(w.s, id, w.now).None? && id !in w.s.inFlight && flight !in w.s.flights
    case EndLookup(flight, _) => flight in w.s.flights
    case LoseLookup(flight) => flight in w.s.flights
    case Wait(until) => until >= w.now
    case _ => true
  }

  function Next(w: World, e: Event): World
    requires Enabled(w, e)
  {
    match e
    case StartLookup(id, flight) => w.(s := Begin(w.s, id, flight))
    case EndLookup(flight, probed) =>
      var id := w.s.flights[flight].identity;
      w.(s := Land(w.s, flight, probed, w.now),
         observed := if w.s.flights[flight].row.Some? && probed.Some? && id in w.s.identities
                     then w.observed[id := probed.value] else w.observed)
    case LoseLookup(flight) => w.(s := Drop(w.s, flight))
    case Restart => w.(s := State(w.s.identities, map[], map[], map[]))
    case GuildEvent(id, member) =>
      w.(s := Observe(w.s, id, member, w.now), observed := if id in w.s.identities then w.observed[id := member] else w.observed)
    case SignsIn(id, probed) =>
      w.(s := Upsert(w.s, id, probed, w.now), observed := if probed.Some? then w.observed[id := probed.value] else w.observed)
    case Invalidate(id) => w.(s := w.s.(cache := w.s.cache - {id}))
    case Erase(id) => w.(s := w.s.(identities := w.s.identities - {id}), observed := w.observed - {id})
    case Wait(until) => w.(now := until)
  }

  ghost predicate Runs(w: World, es: seq<Event>)
    decreases |es|
  {
    es == [] || (Enabled(w, es[0]) && Runs(Next(w, es[0]), es[1..]))
  }

  ghost function After(w: World, es: seq<Event>): World
    requires Runs(w, es)
    decreases |es|
  {
    if es == [] then w else After(Next(w, es[0]), es[1..])
  }

  function Boot(now: int): World {
    World(State(map[], map[], map[], map[]), now, map[])
  }

  /** The stored pair is the last recorded observation, and none is no observation. */
  predicate PairsSound(w: World) {
    w.observed.Keys <= w.s.identities.Keys &&
    forall id | id in w.s.identities ::
      (w.s.identities[id].guildCheckedAt.Some? <==> id in w.observed) &&
      (id in w.observed ==>
         w.s.identities[id].guildMember == w.observed[id] && w.s.identities[id].guildCheckedAt.value <= w.now)
  }

  /** A cached confirmation is as old as it says, and an unconfirmed entry short-lived. */
  predicate CacheSound(w: World) {
    forall id | id in w.s.cache ::
      var entry := w.s.cache[id];
      if entry.verdict.degraded then entry.expiresAt <= w.now + DEGRADED_TTL_MS
      else entry.verdict.checkedAt.Some? && entry.verdict.checkedAt.value <= w.now &&
           entry.expiresAt == entry.verdict.checkedAt.value + VERDICT_TTL_MS
  }

  /** What the cache holds as confirmed of a known identity is what the row holds. */
  predicate CacheIsStored(w: World) {
    forall id | id in w.s.cache && id in w.s.identities && !w.s.cache[id].verdict.degraded ::
      w.s.identities[id] == Stored(w.s.cache[id].verdict.guildMember, w.s.cache[id].verdict.checkedAt)
  }

  lemma CacheIsStoredStep(w: World, e: Event)
    requires CacheIsStored(w) && Enabled(w, e)
    ensures CacheIsStored(Next(w, e))
  {
  }

  /** Every running lookup is the one registered for its identity, and every registered one is running. */
  predicate FlightsSound(w: World) {
    (forall flight | flight in w.s.flights ::
       w.s.flights[flight].identity in w.s.inFlight && w.s.inFlight[w.s.flights[flight].identity] == flight) &&
    (forall id | id in w.s.inFlight :: w.s.inFlight[id] in w.s.flights && w.s.flights[w.s.inFlight[id]].identity == id)
  }

  predicate Sound(w: World) {
    PairsSound(w) && CacheSound(w) && CacheIsStored(w) && FlightsSound(w)
  }

  lemma PairsStep(w: World, e: Event)
    requires PairsSound(w) && Enabled(w, e)
    ensures PairsSound(Next(w, e))
  {
  }

  lemma CacheStep(w: World, e: Event)
    requires PairsSound(w) && CacheSound(w) && Enabled(w, e)
    ensures CacheSound(Next(w, e))
  {
  }

  lemma FlightsStep(w: World, e: Event)
    requires FlightsSound(w) && Enabled(w, e)
    ensures FlightsSound(Next(w, e))
  {
  }

  lemma StepIsSound(w: World, e: Event)
    requires Sound(w) && Enabled(w, e)
    ensures Sound(Next(w, e))
  {
    PairsStep(w, e);
    CacheStep(w, e);
    CacheIsStoredStep(w, e);
    FlightsStep(w, e);
  }

  lemma {:induction false} StaysSound(w: World, es: seq<Event>)
    requires Sound(w) && Runs(w, es)
    ensures Sound(After(w, es))
    decreases |es|
  {
    if es != [] {
      StepIsSound(w, es[0]);
      StaysSound(Next(w, es[0]), es[1..]);
    }
  }

  /** A lookup that is lost takes its registration with it and nothing else; a restart takes all of them, and the cache. */
  lemma LostLookupsAreForgotten(w: World, flight: nat)
    requires FlightsSound(w)
    ensures flight in w.s.flights ==>
              var t, id := Next(w, LoseLookup(flight)), w.s.flights[flight].identity;
              t == World(State(w.s.identities, w.s.cache, w.s.inFlight - {id}, w.s.flights - {flight}), w.now, w.observed)
    ensures Next(w, Restart) == World(State(w.s.identities, map[], map[], map[]), w.now, w.observed)
  {
  }

  lemma Prepend(w: World, e: Event, next: World, es: seq<Event>)
    requires Enabled(w, e) && Next(w, e) == next && Runs(next, es)
    ensures Runs(w, [e] + es) && After(w, [e] + es) == After(next, es)
  {
    assert ([e] + es)[1..] == es;
  }

  /** Someone signs in while Discord is out of reach, and is then seen to leave: gated, and from now on answered from the cache. */
  lemma ADepartureGates(boot: int, id: IdentityId)
    ensures var run := [SignsIn(id, None)] + ([GuildEvent(id, false)] + []);
            Runs(Boot(boot), run) &&
            var t := After(Boot(boot), run);
            t.s.identities == map[id := Stored(false, Some(boot))] && t.observed == map[id := false] && t.now == boot &&
            GatedOut(t.s, id, true, false) && CachedAnswer(t.s, id, boot) == Some(Verdict(false, Some(boot), false)) &&
            t.s.flights == map[] && t.s.inFlight == map[]
  {
    var s := Next(Boot(boot), SignsIn(id, None));
    Prepend(s, GuildEvent(id, false), Next(s, GuildEvent(id, false)), []);
    Prepend(Boot(boot), SignsIn(id, None), s, [GuildEvent(id, false)] + []);
  }

  /** For a quarter of an hour nothing is looked up for them; then one lookup is, and if it finds them they are let in again. */
  lemma ALookupReadmits(w: World, id: IdentityId)
    requires w.s.identities == map[id := Stored(false, Some(w.now))] && w.observed == map[id := false]
    requires w.s.flights == map[] && w.s.inFlight == map[]
    requires id in w.s.cache && w.s.cache[id] == CacheEntry(Verdict(false, Some(w.now), false), w.now + 900_000)
    ensures Enabled(w, Wait(w.now + 899_999)) && !Enabled(Next(w, Wait(w.now + 899_999)), StartLookup(id, 0))
    ensures var run := [Wait(w.now + 900_000)] + ([StartLookup(id, 0)] + ([EndLookup(0, Some(true))] + []));
            Runs(w, run) &&
            var t := After(w, run);
            t.s.identities == map[id := Stored(true, Some(w.now + 900_000))] && t.observed == map[id := true] &&
            t.s.flights == map[] && t.s.inFlight == map[] && !GatedOut(t.s, id, true, false)
  {
    var a := Next(w, Wait(w.now + 900_000));
    var b := Next(a, StartLookup(id, 0));
    var c := Next(b, EndLookup(0, Some(true)));
    Prepend(b, EndLookup(0, Some(true)), c, []);
    Prepend(a, StartLookup(id, 0), b, [EndLookup(0, Some(true))] + []);
    Prepend(w, Wait(w.now + 900_000), a, [StartLookup(id, 0)] + ([EndLookup(0, Some(true))] + []));
  }

  /** A caller is gated out exactly when the last confirmed observation of them said "not in the guild". */
  lemma GatedOnlyByAnObservation(boot: int, es: seq<Event>, id: IdentityId, gateEnabled: bool, exempt: bool)
    requires Runs(Boot(boot), es)
    ensures var w := After(Boot(boot), es);
            GatedOut(w.s, id, gateEnabled, exempt) <==> gateEnabled && !exempt && id in w.observed && !w.observed[id]
  {
    StaysSound(Boot(boot), es);
  }

  /** An outage, however long and however many people sign in during it, changes no confirmed pair. */
  lemma {:induction false} OutageChangesNothing(w: World, es: seq<Event>, id: IdentityId)
    requires Sound(w) && Runs(w, es) && id in w.s.identities
    requires forall e | e in es :: !e.GuildEvent? && !e.Erase? && (e.EndLookup? || e.SignsIn? ==> e.probed.None?)
    ensures var t := After(w, es);
            id in t.s.identities && t.s.identities[id] == w.s.identities[id] && t.observed == w.observed
    decreases |es|
  {
    if es != [] {
      assert es[0] in es && forall e | e in es[1..] :: e in es;
      StepIsSound(w, es[0]);
      OutageChangesNothing(Next(w, es[0]), es[1..], id);
    }
  }

  /** A cached answer that claims to be confirmed was confirmed less than fifteen minutes ago; an unconfirmed one is retried within the minute. */
  lemma CachedAnswersAreFresh(boot: int, es: seq<Event>, id: IdentityId)
    requires Runs(Boot(boot), es)
    ensures var w := After(Boot(boot), es);
            CachedAnswer(w.s, id, w.now).Some? ==>
              var verdict := CachedAnswer(w.s, id, w.now).value;
              (!verdict.degraded ==> verdict.checkedAt.Some? && 0 <= w.now - verdict.checkedAt.value < 900_000) &&
              (verdict.degraded ==> w.s.cache[id].expiresAt - w.now <= 60_000)
  {
    StaysSound(Boot(boot), es);
  }

  /** And of a known identity it says what the row says, which is the last confirmed observation of them. */
  lemma CachedAnswersAreTheStoredOnes(boot: int, es: seq<Event>, id: IdentityId)
    requires Runs(Boot(boot), es)
    ensures var w := After(Boot(boot), es);
            id in w.s.identities && CachedAnswer(w.s, id, w.now).Some? && !CachedAnswer(w.s, id, w.now).value.degraded ==>
              var verdict := CachedAnswer(w.s, id, w.now).value;
              w.s.identities[id] == Stored(verdict.guildMember, verdict.checkedAt) &&
              id in w.observed && w.observed[id] == verdict.guildMember
  {
    StaysSound(Boot(boot), es);
  }

  /** However many callers ask at once, an identity has at most one lookup running. */
  lemma SingleFlight(boot: int, es: seq<Event>, a: nat, b: nat)
    requires Runs(Boot(boot), es)
    requires a in After(Boot(boot), es).s.flights && b in After(Boot(boot), es).s.flights
    requires After(Boot(boot), es).s.flights[a].identity == After(Boot(boot), es).s.flights[b].identity
    ensures a == b
  {
    StaysSound(Boot(boot), es);
  }

  /** And nobody joins a lookup that has ended, thrown or died with the process. */
  lemma JoinedLookupsAreRunning(boot: int, es: seq<Event>, id: IdentityId)
    requires Runs(Boot(boot), es) && id in After(Boot(boot), es).s.inFlight
    ensures var s := After(Boot(boot), es).s;
            s.inFlight[id] in s.flights && s.flights[s.inFlight[id]].identity == id
  {
    StaysSound(Boot(boot), es);
  }
}
