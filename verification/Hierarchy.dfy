/**
 Who may act on whom: one rule per action, asked by the endpoints and by the flags shown
 beside a member alike.
 */
module Hierarchy {
  import opened Wrappers

  type MemberId = string

  datatype AppRole = Owner | Admin | Moderator | Member | Mercenary | Applicant

  /** Only the order matters; a mercenary sits below a member. */
  function Precedence(role: AppRole): int {
    match role
    case Owner => 50
    case Admin => 40
    case Moderator => 30
    case Member => 20
    case Mercenary => 10
    case Applicant => 0
  }

  predicate Outranks(actor: AppRole, target: AppRole) {
    Precedence(actor) > Precedence(target)
  }

  predicate CanGrantRole(actor: AppRole, granted: AppRole) {
    Precedence(granted) <= Precedence(actor)
  }

  /** Seat by seat: who is strictly below whom, and that one may grant one's own seat and those. */
  lemma TheLadder(actor: AppRole, other: AppRole)
    ensures Outranks(actor, other) <==>
            match actor
            case Owner => other in {Admin, Moderator, Member, Mercenary, Applicant}
            case Admin => other in {Moderator, Member, Mercenary, Applicant}
            case Moderator => other in {Member, Mercenary, Applicant}
            case Member => other in {Mercenary, Applicant}
            case Mercenary => other in {Applicant}
            case Applicant => false
    ensures CanGrantRole(actor, other) <==> other == actor || Outranks(actor, other)
  {
  }

  datatype Action =
    | ActChangeRole | ActChangeRank | ActAwardMedal | ActRemoveMedal
    | ActSuspend | ActUnsuspend | ActBan | ActUnban | ActDerive

  const MEMBER_ADMIN_ACTIONS: seq<Action> :=
    [ActChangeRole, ActChangeRank, ActAwardMedal, ActRemoveMedal, ActSuspend, ActUnsuspend, ActBan, ActUnban, ActDerive]

  datatype Capability = ManageRoles | EditRanksMedals

  predicate IsDecoration(action: Action) {
    action in {ActChangeRank, ActAwardMedal, ActRemoveMedal, ActDerive}
  }

  function ActionCapability(action: Action): Capability {
    if IsDecoration(action) then EditRanksMedals else ManageRoles
  }

  datatype Check = Check(actorRole: AppRole, actorId: Option<MemberId>, targetId: MemberId, targetRole: AppRole,
                         ownerId: Option<MemberId>)

  datatype Refusal = Oneself | TheOwner | Standing

  function DenyReason(check: Check, action: Action): Option<Refusal> {
    if IsDecoration(action) then None
    else if check.actorId == Some(check.targetId) then Some(Oneself)
    else if check.ownerId == Some(check.targetId) then Some(TheOwner)
    else if !Outranks(check.actorRole, check.targetRole) then Some(Standing)
    else None
  }

  predicate CanActOn(check: Check, action: Action) {
    DenyReason(check, action).None?
  }

  /** Both halves of an appointment: the target's present seat, and the one handed out. */
  predicate MayAppoint(actorRole: AppRole, actorId: Option<MemberId>, targetId: MemberId, targetRole: AppRole,
                       ownerId: Option<MemberId>, granted: AppRole) {
    CanActOn(Check(actorRole, actorId, targetId, targetRole, ownerId), ActChangeRole) && CanGrantRole(actorRole, granted)
  }

  lemma EveryActionIsListed(action: Action)
    ensures action in MEMBER_ADMIN_ACTIONS
  {
  }

  /**
   The flags block is complete, and each flag is the endpoint's own verdict: decorating takes
   its capability and nothing else; moderating takes the other one, somebody else, not the
   owner the regiment points at, and a seat below one's own.
   */
  method PermittedActions(check: Check, held: set<Capability>) returns (flags: map<Action, bool>)
    ensures forall action :: action in flags
    ensures forall action | action in {ActChangeRank, ActAwardMedal, ActRemoveMedal, ActDerive} ::
              flags[action] <==> EditRanksMedals in held
    ensures forall action | action in {ActChangeRole, ActSuspend, ActUnsuspend, ActBan, ActUnban} ::
              flags[action] <==>
              ManageRoles in held && check.actorId != Some(check.targetId) && check.ownerId != Some(check.targetId) &&
              match check.actorRole
              case Owner => check.targetRole != Owner
              case Admin => check.targetRole in {Moderator, Member, Mercenary, Applicant}
              case Moderator => check.targetRole in {Member, Mercenary, Applicant}
              case Member => check.targetRole in {Mercenary, Applicant}
              case Mercenary => check.targetRole == Applicant
              case Applicant => false
  {
    flags := map[];
    for n := 0 to |MEMBER_ADMIN_ACTIONS|
      invariant forall action :: action in flags <==> action in MEMBER_ADMIN_ACTIONS[..n]
      invariant forall action | action in flags ::
                  flags[action] <==> CanActOn(check, action) && ActionCapability(action) in held
    {
      var action := MEMBER_ADMIN_ACTIONS[n];
      flags := flags[action := CanActOn(check, action) && ActionCapability(action) in held];
    }
    forall action ensures action in flags {
      EveryActionIsListed(action);
    }
  }
}
