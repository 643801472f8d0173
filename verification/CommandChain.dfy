/**
 What a whole sequence of appointments and sanctions can do to the chain of command.
 */
module CommandChain {
  import opened Hierarchy
  import opened Wrappers

  /** A member's authority: the role, and whether a suspension or ban is in force. */
  datatype Seat = Seat(role: AppRole, sanctioned: bool)

  datatype Command = Command(seats: map<MemberId, Seat>, ownerId: Option<MemberId>)

  datatype Request = Appoint(role: AppRole) | Sanction | Lift

  datatype Attempt = Attempt(actor: MemberId, target: MemberId, request: Request)

  function ActionOf(request: Request): Action {
    match request
    case Appoint(_) => ActChangeRole
    case Sanction => ActBan
    case Lift => ActUnban
  }

  predicate Allowed(c: Command, a: Attempt) {
    a.actor in c.seats && a.target in c.seats &&
    var actor, target := c.seats[a.actor].role, c.seats[a.target].role;
    CanActOn(Check(actor, Some(a.actor), a.target, target, c.ownerId), ActionOf(a.request)) &&
    (a.request.Appoint? ==>
       a.request.role != Owner && MayAppoint(actor, Some(a.actor), a.target, target, c.ownerId, a.request.role))
  }

  /** A refused attempt writes nothing. */
  function Next(c: Command, a: Attempt): Command {
    if !Allowed(c, a) then c
    else
      var seat := c.seats[a.target];
      c.(seats := c.seats[a.target := match a.request
                                      case Appoint(role) => seat.(role := role)
                                      case Sanction => seat.(sanctioned := true)
                                      case Lift => seat.(sanctioned := false)])
  }

  /** What one attempt does, in full: exactly who may, exactly what it changes, and that it changes nobody else. */
  lemma AttemptTakesEffectExactlyWhen(c: Command, a: Attempt)
    requires a.actor in c.seats && a.target in c.seats
    ensures var t, actor, target := Next(c, a), c.seats[a.actor].role, c.seats[a.target];
            var moderates := a.actor != a.target && c.ownerId != Some(a.target) && Outranks(actor, target.role);
            t.ownerId == c.ownerId &&
            match a.request
            case Appoint(role) =>
              t.seats == if moderates && role != Owner && (role == actor || Outranks(actor, role))
                         then c.seats[a.target := Seat(role, target.sanctioned)] else c.seats
            case Sanction => t.seats == if moderates then c.seats[a.target := Seat(target.role, true)] else c.seats
            case Lift => t.seats == if moderates then c.seats[a.target := Seat(target.role, false)] else c.seats
  {
    if a.request.Appoint? {
      TheLadder(c.seats[a.actor].role, a.request.role);
    }
  }

  function After(c: Command, attempts: seq<Attempt>): Command
    decreases |attempts|
  {
    if attempts == [] then c else After(Next(c, attempts[0]), attempts[1..])
  }

  /**
   A command can be widened but not hollowed out, and never climbed: whatever a group of
   members at or below a tier attempts, in any order and through any chain of
   appointments, every seat at or above that tier is untouched and nobody passes it.
   */
  lemma {:induction false} NoChainClimbs(c: Command, attempts: seq<Attempt>, actors: set<MemberId>, tier: int)
    requires forall id | id in actors && id in c.seats :: Precedence(c.seats[id].role) <= tier
    requires forall a | a in attempts :: a.actor in actors
    ensures var t := After(c, attempts);
            t.seats.Keys == c.seats.Keys && t.ownerId == c.ownerId &&
            (forall id | id in c.seats && Precedence(c.seats[id].role) >= tier :: t.seats[id] == c.seats[id]) &&
            (forall id | id in c.seats && Precedence(c.seats[id].role) <= tier :: Precedence(t.seats[id].role) <= tier)
    decreases |attempts|
  {
    if attempts != [] {
      assert attempts[0] in attempts;
      NoChainClimbs(Next(c, attempts[0]), attempts[1..], actors, tier);
    }
  }

  /** Without the owner acting, the set of admins only grows and no owner appears or disappears. */
  lemma AdminsAreKept(c: Command, attempts: seq<Attempt>, actors: set<MemberId>)
    requires forall id | id in actors && id in c.seats :: c.seats[id].role != Owner
    requires forall a | a in attempts :: a.actor in actors
    ensures var t := After(c, attempts);
            t.seats.Keys == c.seats.Keys &&
            (forall id | id in c.seats && c.seats[id].role == Admin :: t.seats[id] == c.seats[id]) &&
            (forall id | id in c.seats :: t.seats[id].role == Owner <==> c.seats[id].role == Owner)
  {
    NoChainClimbs(c, attempts, actors, Precedence(Admin));
  }

  /** The owner pointer holds even if the owner's own role has drifted, and against a second owner-tier seat. */
  lemma {:induction false} TheOwnerIsUntouchable(c: Command, attempts: seq<Attempt>)
    ensures After(c, attempts).ownerId == c.ownerId
    ensures c.ownerId.Some? && c.ownerId.value in c.seats ==>
              c.ownerId.value in After(c, attempts).seats &&
              After(c, attempts).seats[c.ownerId.value] == c.seats[c.ownerId.value]
    decreases |attempts|
  {
    if attempts != [] {
      TheOwnerIsUntouchable(Next(c, attempts[0]), attempts[1..]);
    }
  }
}
