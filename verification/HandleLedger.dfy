/**
 Vanity handles: who may claim one, what a rename releases, what a deletion buries. Four
 refusals keep the ledger honest, two of them by the clock.
 */
module HandleLedger {
  import opened Wrappers

  type MemberId = nat
  type Handle = string

  const DAY_MS: int := 24 * 60 * 60 * 1000
  const COOLDOWN_MS: int := 30 * DAY_MS

  /** The code-owned rules about a string alone. */
  datatype Policy = Policy(normalize: string -> Handle, shaped: Handle -> bool, reserved: Handle -> bool)

  datatype Member = Member(username: Option<Handle>, changedAt: Option<int>)

  /** Keyed by handle: a later hold on the same handle replaces the earlier row. `None` holds for ever. */
  type Reservations = map<Handle, Option<int>>

  datatype Ledger = Ledger(members: map<MemberId, Member>, reservations: Reservations, now: int)

  datatype Verdict = Available | Invalid | Reserved | Taken | CooldownTarget | CooldownActor(retryAfter: int)

  function RenameCooldownFor(member: Member, now: int): Option<int> {
    if member.changedAt.Some? && member.changedAt.value + COOLDOWN_MS > now then Some(member.changedAt.value + COOLDOWN_MS)
    else None
  }

  predicate HeldBack(reservations: Reservations, handle: Handle, now: int) {
    handle in reservations && (reservations[handle].None? || reservations[handle].value > now)
  }

  predicate TakenByOther(l: Ledger, handle: Handle, id: MemberId) {
    exists other | other in l.members :: other != id && l.members[other].username == Some(handle)
  }

  /** The refusals in the order they are reported. */
  function Check(policy: Policy, l: Ledger, handle: Handle, id: MemberId): Verdict
    requires id in l.members
  {
    if !policy.shaped(handle) then Invalid
    else if policy.reserved(handle) then Reserved
    else if l.members[id].username == Some(handle) then Available
    else if RenameCooldownFor(l.members[id], l.now).Some? then CooldownActor(RenameCooldownFor(l.members[id], l.now).value)
    else if HeldBack(l.reservations, handle, l.now) then
      if l.reservations[handle].None? then Reserved else CooldownTarget
    else if TakenByOther(l, handle, id) then Taken
    else Available
  }

  function Held(reservations: Reservations, released: Option<Handle>, until: Option<int>): Reservations {
    if released.Some? && released.value != "" then reservations[released.value := until] else reservations
  }

  /** Whether a rename request changes anything: `None` clears, and re-claiming your own is a no-op. */
  predicate Renames(policy: Policy, l: Ledger, id: MemberId, candidate: Option<string>) {
    id in l.members &&
    if candidate.None? then l.members[id].username.Some?
    else
      var handle := policy.normalize(candidate.value);
      l.members[id].username != Some(handle) && Check(policy, l, handle, id) == Available
  }

  function Renamed(policy: Policy, l: Ledger, id: MemberId, candidate: Option<string>): Ledger
    requires id in l.members
  {
    var next := if candidate.None? then None else Some(policy.normalize(candidate.value));
    l.(members := l.members[id := Member(next, Some(l.now))],
       reservations := Held(l.reservations, l.members[id].username, Some(l.now + COOLDOWN_MS)))
  }

  function Erased(l: Ledger, id: MemberId): Ledger
    requires id in l.members
  {
    l.(members := l.members[id := l.members[id].(username := None)],
       reservations := Held(l.reservations, l.members[id].username, None))
  }

  // ── The services ───────────────────────────────────────────────────────────

  datatype Outcome = Saved | Unchanged | Conflict(verdict: Verdict)

  class Handles {
    const policy: Policy
    var members: map<MemberId, Member>
    var reservations: Reservations

    constructor (policy: Policy)
      ensures this.policy == policy && members == map[] && reservations == map[]
    {
      this.policy := policy;
      members, reservations := map[], map[];
    }

    function State(now: int): Ledger
      reads this
    {
      Ledger(members, reservations, now)
    }

    /** Change the member in memory and report the handle it releases; nothing is reserved yet. */
    method ClaimFor(id: MemberId, candidate: Option<string>, now: int)
      returns (member: Member, released: Option<Handle>, refused: Verdict)
      requires id in members
      ensures refused == Available ==>
                if Renames(policy, State(now), id, candidate)
                then member == Renamed(policy, State(now), id, candidate).members[id] && released == members[id].username
                else member == members[id] && released == None
      ensures refused == Available <==>
                candidate.None? || members[id].username == Some(policy.normalize(candidate.value)) ||
                (var handle := policy.normalize(candidate.value);
                 policy.shaped(handle) && !policy.reserved(handle) &&
                 (members[id].changedAt.Some? ==> now >= members[id].changedAt.value + 2_592_000_000) &&
                 (handle in reservations ==> reservations[handle].Some? && reservations[handle].value <= now) &&
                 forall other | other in members && other != id :: members[other].username != Some(handle))
      ensures refused == Available && candidate.Some? && members[id].username != Some(policy.normalize(candidate.value)) ==>
                member == Member(Some(policy.normalize(candidate.value)), Some(now)) && released == members[id].username
      ensures candidate.None? && members[id].username.Some? ==> member == Member(None, Some(now)) && released == members[id].username
      ensures candidate.Some? && refused != Available ==>
                var handle := policy.normalize(candidate.value);
                (refused == Invalid <==> !policy.shaped(handle)) &&
                (refused.CooldownActor? ==>
                   members[id].changedAt.Some? && refused.retryAfter == members[id].changedAt.value + 2_592_000_000 > now) &&
                (refused == Taken ==> exists other :: other in members && other != id && members[other].username == Some(handle)) &&
                (refused == CooldownTarget ==> handle in reservations && reservations[handle].Some? && reservations[handle].value > now) &&
                (refused == Reserved ==> policy.reserved(handle) || (handle in reservations && reservations[handle].None?))
      ensures refused != Available ==>
                candidate.Some? && !Renames(policy, State(now), id, candidate) &&
                refused == Check(policy, State(now), policy.normalize(candidate.value), id)
    {
      member, released, refused := members[id], None, Available;
      if candidate.None? {
        if member.username.Some? {
          released := member.username;
          member := Member(None, Some(now));
        }
        return;
      }
      var handle := policy.normalize(candidate.value);
      if member.username == Some(handle) {
        return;
      }
      refused := Check(policy, State(now), handle, id);
      if refused == Available {
        released := member.username;
        member := Member(Some(handle), Some(now));
      }
    }

    /** Save the row, and only then put the old handle beyond reach. */
    method UpdateSelf(id: MemberId, candidate: Option<string>, now: int) returns (outcome: Outcome)
      requires id in members
      modifies this
      ensures outcome.Saved? <==> Renames(policy, old(State(now)), id, candidate)
      ensures State(now) == if outcome.Saved? then Renamed(policy, old(State(now)), id, candidate) else old(State(now))
      ensures outcome.Saved? ==>
                var was := old(members)[id].username;
                members == old(members)[id := Member(if candidate.Some? then Some(policy.normalize(candidate.value)) else None,
                                                     Some(now))] &&
                reservations == if was.Some? && was.value != "" then old(reservations)[was.value := Some(now + 2_592_000_000)]
                                else old(reservations)
    {
      var member, released, refused := ClaimFor(id, candidate, now);
      if refused != Available {
        return Conflict(refused);
      }
      if member == members[id] && released.None? && !Renames(policy, State(now), id, candidate) {
        return Unchanged;
      }
      members := members[id := member];
      HoldAfterRelease(released, now);
      outcome := Saved;
    }

    method HoldAfterRelease(released: Option<Handle>, now: int)
      modifies this`reservations
      ensures reservations == if released.Some? && released.value != ""
                              then old(reservations)[released.value := Some(now + 2_592_000_000)] else old(reservations)
      ensures reservations == Held(old(reservations), released, Some(now + COOLDOWN_MS))
    {
      if released.None? || released.value == "" {
        return;
      }
      reservations := reservations[released.value := Some(now + COOLDOWN_MS)];
    }

    method BlockPermanently(released: Option<Handle>)
      modifies this`reservations
      ensures reservations == if released.Some? && released.value != "" then old(reservations)[released.value := None]
                              else old(reservations)
      ensures reservations == Held(old(reservations), released, None)
    {
      if released.None? || released.value == "" {
        return;
      }
      reservations := reservations[released.value := None];
    }

    /** Anonymise the row, then block the handle it held for ever. */
    method ExecuteSelfDeletion(id: MemberId, now: int)
      requires id in members
      modifies this
      ensures State(now) == Erased(old(State(now)), id)
      ensures members == old(members)[id := Member(None, old(members)[id].changedAt)]
      ensures old(members)[id].username.Some? && old(members)[id].username.value != "" ==>
                reservations == old(reservations)[old(members)[id].username.value := None]
    {
      var released := members[id].username;
      members := members[id := members[id].(username := None)];
      BlockPermanently(released);
    }
  }

  // ── Whole runs ─────────────────────────────────────────────────────────────

  /** One stretch of one member holding one handle; `until` is open while it lasts. */
  datatype Period = Period(handle: Handle, member: MemberId, from: int, until: Option<int>)

  datatype World = World(ledger: Ledger, periods: seq<Period>, buried: set<Handle>)

  datatype Event =
    | Wait(until: int)
    | Enrol(id: MemberId)
    | Rename(id: MemberId, candidate: Option<string>)
    | Delete(id: MemberId)

  predicate Enabled(policy: Policy, w: World, e: Event) {
    match e
    case Wait(until) => until >= w.ledger.now
    case Enrol(id) => id !in w.ledger.members
    case Rename(id, candidate) => Renames(policy, w.ledger, id, candidate)
    case Delete(id) => id in w.ledger.members
  }

  function Ended(periods: seq<Period>, member: MemberId, now: int): (ended: seq<Period>)
    ensures |ended| == |periods|
    ensures forall i | 0 <= i < |periods| ::
              ended[i] == if periods[i].member == member && periods[i].until.None?
                          then periods[i].(until := Some(now)) else periods[i]
  {
    seq(|periods|, i requires 0 <= i < |periods| =>
      if periods[i].member == member && periods[i].until.None? then periods[i].(until := Some(now)) else periods[i])
  }

  function Next(policy: Policy, w: World, e: Event): World
    requires Enabled(policy, w, e)
  {
    var now := w.ledger.now;
    match e
    case Wait(until) => w.(ledger := w.ledger.(now := until))
    case Enrol(id) => w.(ledger := w.ledger.(members := w.ledger.members[id := Member(None, None)]))
    case Rename(id, candidate) =>
      World(Renamed(policy, w.ledger, id, candidate),
            Ended(w.periods, id, now) +
            (if candidate.None? then [] else [Period(policy.normalize(candidate.value), id, now, None)]),
            w.buried)
    case Delete(id) =>
      var held := w.ledger.members[id].username;
      World(Erased(w.ledger, id), Ended(w.periods, id, now), if held.Some? then w.buried + {held.value} else w.buried)
  }

  ghost predicate Runs(policy: Policy, w: World, es: seq<Event>)
    decreases |es|
  {
    es == [] || (Enabled(policy, w, es[0]) && Runs(policy, Next(policy, w, es[0]), es[1..]))
  }

  ghost function After(policy: Policy, w: World, es: seq<Event>): World
    requires Runs(policy, w, es)
    decreases |es|
  {
    if es == [] then w else After(policy, Next(policy, w, es[0]), es[1..])
  }

  function Boot(now: int): World {
    World(Ledger(map[], map[], now), [], {})
  }

  /** An open period is a member holding the handle now, and the other way round. */
  predicate OpenIsHeld(w: World) {
    (forall i | 0 <= i < |w.periods| && w.periods[i].until.None? ::
       w.periods[i].member in w.ledger.members &&
       w.ledger.members[w.periods[i].member].username == Some(w.periods[i].handle)) &&
    (forall id | id in w.ledger.members && w.ledger.members[id].username.Some? ::
       exists i :: 0 <= i < |w.periods| && w.periods[i].until.None? && w.periods[i].member == id &&
                   w.periods[i].handle == w.ledger.members[id].username.value)
  }

  /** Only handles the policy allows, and never one that a deletion buried. */
  predicate HeldIsAllowed(policy: Policy, w: World) {
    (forall i | 0 <= i < |w.periods| :: policy.shaped(w.periods[i].handle) && !policy.reserved(w.periods[i].handle)) &&
    (forall handle | handle in w.buried :: handle in w.ledger.reservations && w.ledger.reservations[handle].None?) &&
    (forall i | 0 <= i < |w.periods| && w.periods[i].until.None? :: w.periods[i].handle !in w.buried)
  }

  /** What a finished period left behind still stands. */
  predicate Stands(period: Period, ledger: Ledger) {
    period.from <= ledger.now &&
    (period.until.Some? ==>
       period.until.value <= ledger.now && period.handle in ledger.reservations &&
       var hold := ledger.reservations[period.handle];
       hold.Some? ==> hold.value >= period.until.value + COOLDOWN_MS)
  }

  predicate HoldsStand(w: World) {
    forall i | 0 <= i < |w.periods| :: Stands(w.periods[i], w.ledger)
  }

  /** Which is why the next one had to wait. */
  predicate Waited(periods: seq<Period>) {
    forall i, j | 0 <= i < j < |periods| && periods[i].handle == periods[j].handle ::
      periods[i].until.Some? && periods[j].from >= periods[i].until.value + COOLDOWN_MS
  }

  predicate Spaced(w: World) {
    HoldsStand(w) && Waited(w.periods)
  }

  /** Every claim is on record as a change of its member's, and none lies in the future. */
  predicate ClaimsDated(w: World) {
    (forall i | 0 <= i < |w.periods| ::
       w.periods[i].member in w.ledger.members &&
       w.ledger.members[w.periods[i].member].changedAt.Some? &&
       w.periods[i].from <= w.ledger.members[w.periods[i].member].changedAt.value) &&
    (forall id | id in w.ledger.members && w.ledger.members[id].changedAt.Some? ::
       w.ledger.members[id].changedAt.value <= w.ledger.now)
  }

  /** A member's claims wait for each other. */
  predicate ClaimsApart(periods: seq<Period>) {
    forall i, j | 0 <= i < j < |periods| && periods[i].member == periods[j].member ::
      periods[j].from >= periods[i].from + COOLDOWN_MS
  }

  predicate ClaimsSpaced(w: World) {
    ClaimsDated(w) && ClaimsApart(w.periods)
  }

  predicate Sound(policy: Policy, w: World) {
    OpenIsHeld(w) && HeldIsAllowed(policy, w) && Spaced(w) && ClaimsSpaced(w)
  }

  lemma OpenStep(policy: Policy, w: World, e: Event)
    requires Enabled(policy, w, e) && OpenIsHeld(w)
    ensures OpenIsHeld(Next(policy, w, e))
  {
    var t := Next(policy, w, e);
    forall id | id in t.ledger.members && t.ledger.members[id].username.Some?
      ensures exists i :: 0 <= i < |t.periods| && t.periods[i].until.None? && t.periods[i].member == id &&
                          t.periods[i].handle == t.ledger.members[id].username.value
    {
      if e.Rename? && id == e.id {
        assert t.periods[|w.periods|] == Period(policy.normalize(e.candidate.value), id, w.ledger.now, None);
      } else {
        var i :| 0 <= i < |w.periods| && w.periods[i].until.None? && w.periods[i].member == id &&
                 w.periods[i].handle == w.ledger.members[id].username.value;
        assert t.periods[i] == w.periods[i];
      }
    }
  }

  /** Two holders of one handle would be two open periods of it. */
  lemma HolderIsUnique(w: World, a: MemberId, b: MemberId)
    requires OpenIsHeld(w) && Spaced(w)
    requires a in w.ledger.members && b in w.ledger.members
    requires w.ledger.members[a].username.Some? && w.ledger.members[a].username == w.ledger.members[b].username
    ensures a == b
  {
  }

  /** What a member gives up is shaped, so it is really recorded, and was never buried before. */
  lemma ReleasedHandle(policy: Policy, w: World, id: MemberId)
    requires OpenIsHeld(w) && HeldIsAllowed(policy, w) && id in w.ledger.members && w.ledger.members[id].username.Some?
    ensures var held := w.ledger.members[id].username.value;
            policy.shaped(held) && held !in w.buried
  {
  }

  lemma AllowedRename(policy: Policy, w: World, e: Event)
    requires e.Rename? && Enabled(policy, w, e) && !policy.shaped("") && OpenIsHeld(w) && HeldIsAllowed(policy, w) && Spaced(w)
    ensures HeldIsAllowed(policy, Next(policy, w, e))
  {
    var t := Next(policy, w, e);
    if w.ledger.members[e.id].username.Some? {
      ReleasedHandle(policy, w, e.id);
    }
    forall handle | handle in t.buried ensures handle in t.ledger.reservations && t.ledger.reservations[handle].None? {
    }
    assert e.candidate.Some? ==> policy.normalize(e.candidate.value) !in w.buried;
  }

  lemma AllowedDelete(policy: Policy, w: World, e: Event)
    requires e.Delete? && Enabled(policy, w, e) && !policy.shaped("") && OpenIsHeld(w) && HeldIsAllowed(policy, w) && Spaced(w)
    ensures HeldIsAllowed(policy, Next(policy, w, e))
  {
    var t := Next(policy, w, e);
    if w.ledger.members[e.id].username.Some? {
      ReleasedHandle(policy, w, e.id);
    }
    forall i | 0 <= i < |t.periods| && t.periods[i].until.None? ensures t.periods[i].handle !in t.buried {
      if w.ledger.members[e.id].username == Some(t.periods[i].handle) {
        HolderIsUnique(w, e.id, t.periods[i].member);
      }
    }
  }

  lemma AllowedStep(policy: Policy, w: World, e: Event)
    requires Enabled(policy, w, e) && !policy.shaped("") && OpenIsHeld(w) && HeldIsAllowed(policy, w) && Spaced(w)
    ensures HeldIsAllowed(policy, Next(policy, w, e))
  {
    match e
    case Rename(_, _) => AllowedRename(policy, w, e);
    case Delete(_) => AllowedDelete(policy, w, e);
    case Wait(_) =>
    case Enrol(_) =>
  }

  /** A successful claim finds every earlier stretch of the handle over, and its hold lapsed. */
  lemma ClaimWaited(policy: Policy, w: World, id: MemberId, candidate: string, i: nat)
    requires Renames(policy, w.ledger, id, Some(candidate)) && OpenIsHeld(w) && Spaced(w)
    requires i < |w.periods| && w.periods[i].handle == policy.normalize(candidate)
    ensures w.periods[i].until.Some? && w.ledger.now >= w.periods[i].until.value + COOLDOWN_MS
  {
  }

  /** Ending a member's open stretch, with the handle held back, leaves every hold standing. */
  lemma EndedStands(policy: Policy, w: World, e: Event, i: nat)
    requires e.Rename? || e.Delete?
    requires Enabled(policy, w, e) && !policy.shaped("") && OpenIsHeld(w) && HeldIsAllowed(policy, w) && HoldsStand(w)
    requires i < |w.periods|
    ensures Stands(Ended(w.periods, e.id, w.ledger.now)[i], Next(policy, w, e).ledger)
  {
    if w.ledger.members[e.id].username.Some? {
      ReleasedHandle(policy, w, e.id);
    }
    assert Stands(w.periods[i], w.ledger);
  }

  lemma HoldsStep(policy: Policy, w: World, e: Event)
    requires Enabled(policy, w, e) && !policy.shaped("") && OpenIsHeld(w) && HeldIsAllowed(policy, w) && HoldsStand(w)
    ensures HoldsStand(Next(policy, w, e))
  {
    var t := Next(policy, w, e);
    forall i | 0 <= i < |t.periods| ensures Stands(t.periods[i], t.ledger) {
      if i < |w.periods| {
        assert Stands(w.periods[i], w.ledger);
        if e.Rename? || e.Delete? {
          EndedStands(policy, w, e, i);
        }
      }
    }
  }

  lemma WaitedStep(policy: Policy, w: World, e: Event)
    requires Enabled(policy, w, e) && OpenIsHeld(w) && Spaced(w)
    ensures Waited(Next(policy, w, e).periods)
  {
    var t := Next(policy, w, e);
    forall i, j | 0 <= i < j < |t.periods| && t.periods[i].handle == t.periods[j].handle
      ensures t.periods[i].until.Some? && t.periods[j].from >= t.periods[i].until.value + COOLDOWN_MS
    {
      if j == |w.periods| {
        ClaimWaited(policy, w, e.id, e.candidate.value, i);
      }
    }
  }

  lemma ClaimsDatedStep(policy: Policy, w: World, e: Event)
    requires Enabled(policy, w, e) && ClaimsDated(w)
    ensures ClaimsDated(Next(policy, w, e))
  {
  }

  lemma ClaimsApartStep(policy: Policy, w: World, e: Event)
    requires Enabled(policy, w, e) && ClaimsSpaced(w)
    ensures ClaimsApart(Next(policy, w, e).periods)
  {
    var t := Next(policy, w, e);
    forall i, j | 0 <= i < j < |t.periods| && t.periods[i].member == t.periods[j].member
      ensures t.periods[j].from >= t.periods[i].from + COOLDOWN_MS
    {
      if j == |w.periods| {
        assert RenameCooldownFor(w.ledger.members[e.id], w.ledger.now).None?;
      }
    }
  }

  lemma StepIsSound(policy: Policy, w: World, e: Event)
    requires !policy.shaped("") && Sound(policy, w) && Enabled(policy, w, e)
    ensures Sound(policy, Next(policy, w, e))
  {
    OpenStep(policy, w, e);
    AllowedStep(policy, w, e);
    HoldsStep(policy, w, e);
    WaitedStep(policy, w, e);
    ClaimsDatedStep(policy, w, e);
    ClaimsApartStep(policy, w, e);
  }

  lemma {:induction false} StaysSound(policy: Policy, w: World, es: seq<Event>)
    requires !policy.shaped("") && Sound(policy, w) && Runs(policy, w, es)
    ensures Sound(policy, After(policy, w, es))
    decreases |es|
  {
    if es != [] {
      StepIsSound(policy, w, es[0]);
      StaysSound(policy, Next(policy, w, es[0]), es[1..]);
    }
  }

  /**
   The ledger, over every run: one holder a handle; two stretches of one handle a cooldown
   apart, whoever held it; a member's claims a cooldown apart; nothing reserved ever held.
   */
  lemma LedgerIsHonest(policy: Policy, boot: int, es: seq<Event>)
    requires !policy.shaped("") && Runs(policy, Boot(boot), es)
    ensures var w := After(policy, Boot(boot), es);
            (forall a, b | a in w.ledger.members && b in w.ledger.members && w.ledger.members[a].username.Some? &&
                           w.ledger.members[a].username == w.ledger.members[b].username :: a == b) &&
            (forall i, j | 0 <= i < j < |w.periods| && w.periods[i].handle == w.periods[j].handle ::
               w.periods[i].until.Some? && w.periods[j].from >= w.periods[i].until.value + 2_592_000_000) &&
            (forall i, j | 0 <= i < j < |w.periods| && w.periods[i].member == w.periods[j].member ::
               w.periods[j].from >= w.periods[i].from + 2_592_000_000) &&
            (forall i | 0 <= i < |w.periods| :: !policy.reserved(w.periods[i].handle))
  {
    StaysSound(policy, Boot(boot), es);
    var w := After(policy, Boot(boot), es);
    forall a, b | a in w.ledger.members && b in w.ledger.members && w.ledger.members[a].username.Some? &&
                  w.ledger.members[a].username == w.ledger.members[b].username
      ensures a == b
    {
      HolderIsUnique(w, a, b);
    }
  }

  /** A handle buried with its holder's account is buried in every continuation: nobody holds it again. */
  lemma {:induction false} BuriedForever(policy: Policy, w: World, es: seq<Event>, handle: Handle)
    requires !policy.shaped("") && Sound(policy, w) && Runs(policy, w, es) && handle in w.buried
    ensures var t := After(policy, w, es);
            handle in t.buried && forall id | id in t.ledger.members :: t.ledger.members[id].username != Some(handle)
    decreases |es|
  {
    if es == [] {
      forall id | id in w.ledger.members && w.ledger.members[id].username == Some(handle) ensures false {
        ReleasedHandle(policy, w, id);
      }
    } else {
      StepIsSound(policy, w, es[0]);
      BuriedForever(policy, Next(policy, w, es[0]), es[1..], handle);
    }
  }

  // ── Two lives of a handle ──────────────────────────────────────────────────

  lemma Prepend(policy: Policy, w: World, e: Event, next: World, es: seq<Event>)
    requires Enabled(policy, w, e) && Next(policy, w, e) == next && Runs(policy, next, es)
    ensures Runs(policy, w, [e] + es) && After(policy, w, [e] + es) == After(policy, next, es)
  {
    assert ([e] + es)[1..] == es;
  }

  /** Claimed by a new member, and buried with them. */
  lemma AClaimedHandleIsBuried(policy: Policy, boot: int, id: MemberId, name: string)
    requires var handle := policy.normalize(name); handle != "" && policy.shaped(handle) && !policy.reserved(handle)
    ensures var handle, run := policy.normalize(name), [Enrol(id)] + ([Rename(id, Some(name))] + ([Delete(id)] + []));
            Runs(policy, Boot(boot), run) &&
            After(policy, Boot(boot), run) ==
            World(Ledger(map[id := Member(None, Some(boot))], map[handle := None], boot),
                  [Period(handle, id, boot, Some(boot))], {handle})
  {
    var handle := policy.normalize(name);
    var enrolled := World(Ledger(map[id := Member(None, None)], map[], boot), [], {});
    var named := World(Ledger(map[id := Member(Some(handle), Some(boot))], map[], boot), [Period(handle, id, boot, None)], {});
    var gone := World(Ledger(map[id := Member(None, Some(boot))], map[handle := None], boot),
                      [Period(handle, id, boot, Some(boot))], {handle});
    Prepend(policy, named, Delete(id), gone, []);
    Prepend(policy, enrolled, Rename(id, Some(name)), named, [Delete(id)] + []);
    Prepend(policy, Boot(boot), Enrol(id), enrolled, [Rename(id, Some(name))] + ([Delete(id)] + []));
  }

  /** Exchanged for another, thirty days after it was claimed and not a millisecond sooner, and then held back for as long. */
  lemma ARenameWaitsThirtyDays(policy: Policy, boot: int, id: MemberId, name: string, other: string)
    requires var handle := policy.normalize(name); handle != "" && policy.shaped(handle) && !policy.reserved(handle)
    requires var handle := policy.normalize(other); policy.shaped(handle) && !policy.reserved(handle) && handle != policy.normalize(name)
    ensures var a, b, later := policy.normalize(name), policy.normalize(other), boot + 2_592_000_000;
            var claim := [Enrol(id)] + ([Rename(id, Some(name))] + []);
            Runs(policy, Boot(boot), claim) &&
            var named := After(policy, Boot(boot), claim);
            Enabled(policy, named, Wait(later - 1)) && Enabled(policy, named, Wait(later)) &&
            !Enabled(policy, Next(policy, named, Wait(later - 1)), Rename(id, Some(other))) &&
            Enabled(policy, Next(policy, named, Wait(later)), Rename(id, Some(other))) &&
            Next(policy, Next(policy, named, Wait(later)), Rename(id, Some(other))) ==
            World(Ledger(map[id := Member(Some(b), Some(later))], map[a := Some(later + 2_592_000_000)], later),
                  [Period(a, id, boot, Some(later)), Period(b, id, later, None)], {})
  {
    var a, b, later := policy.normalize(name), policy.normalize(other), boot + 2_592_000_000;
    var enrolled := World(Ledger(map[id := Member(None, None)], map[], boot), [], {});
    var named := World(Ledger(map[id := Member(Some(a), Some(boot))], map[], boot), [Period(a, id, boot, None)], {});
    Prepend(policy, enrolled, Rename(id, Some(name)), named, []);
    Prepend(policy, Boot(boot), Enrol(id), enrolled, [Rename(id, Some(name))] + []);
  }
}
