/**
 The roster, the rank and medal catalogue, and the question every role job asks:
 which Discord roles should this member be wearing right now?

 `MembersService` is the mutating side. Each of its actions changes one member row
 and then enqueues a role job; what matters about the pair is that the roles whose
 answer the action can move are exactly the roles the job names.
 */
module Roster {
  import opened Hierarchy
  import opened Wrappers

  type RoleId = string
  type RankId = string
  type MedalId = string

  /** One `members` row joined with its `member_medals` rows, oldest award first. */
  datatype MemberRow = MemberRow(
    rankId: Option<RankId>,
    role: AppRole,
    banned: bool,
    awards: seq<MedalId>)

  datatype Catalogue = Catalogue(
    rankRoles: map<RankId, Option<RoleId>>,
    medalRoles: map<MedalId, Option<RoleId>>,
    membershipRoleId: Option<RoleId>)

  /** The roles a nullable link column names; the empty string is falsy in the source. */
  function Linked(link: Option<RoleId>): set<RoleId> {
    if link.Some? && link.value != "" then {link.value} else {}
  }

  function RankRole(cat: Catalogue, rankId: Option<RankId>): set<RoleId> {
    if rankId.Some? && rankId.value in cat.rankRoles then Linked(cat.rankRoles[rankId.value]) else {}
  }

  function MedalRole(cat: Catalogue, medal: MedalId): set<RoleId> {
    if medal in cat.medalRoles then Linked(cat.medalRoles[medal]) else {}
  }

  function AwardRoles(cat: Catalogue, awards: seq<MedalId>): set<RoleId> {
    set medal, roleId | medal in awards && roleId in MedalRole(cat, medal) :: roleId
  }

  /** An allow-list: a role added later defaults to not holding the membership marker. */
  predicate HoldsMembershipRole(row: MemberRow) {
    !row.banned && row.role in {Owner, Admin, Moderator, Member}
  }

  function MembershipRole(cat: Catalogue, row: MemberRow): set<RoleId> {
    if HoldsMembershipRole(row) then Linked(cat.membershipRoleId) else {}
  }

  /** The half of the answer read from the member row itself: rank and app role. */
  function RowRoles(cat: Catalogue, row: MemberRow): set<RoleId> {
    RankRole(cat, row.rankId) + MembershipRole(cat, row)
  }

  predicate Wants(cat: Catalogue, row: MemberRow, roleId: RoleId) {
    roleId in RowRoles(cat, row) || roleId in AwardRoles(cat, row.awards)
  }

  /** `None` is "touch nothing": the member is gone or banned. */
  function Desired(cat: Catalogue, row: Option<MemberRow>): Option<set<RoleId>> {
    if row.None? || row.value.banned then None
    else Some(RowRoles(cat, row.value) + AwardRoles(cat, row.value.awards))
  }

  /**
   The answer role by role: what the member's rank or an award of theirs is linked to, and
   the membership role for the four enrolled seats, which leave out mercenaries and applicants.
   */
  lemma DesiredInFull(cat: Catalogue, row: Option<MemberRow>)
    ensures row.None? || row.value.banned ==> Desired(cat, row) == None
    ensures row.Some? && !row.value.banned ==>
              Desired(cat, row).Some? &&
              forall roleId :: roleId in Desired(cat, row).value <==>
                roleId != "" &&
                ((exists rank :: rank in cat.rankRoles && row.value.rankId == Some(rank) && cat.rankRoles[rank] == Some(roleId)) ||
                 (exists medal :: medal in cat.medalRoles && medal in row.value.awards && cat.medalRoles[medal] == Some(roleId)) ||
                 (cat.membershipRoleId == Some(roleId) &&
                  match row.value.role
                  case Owner => true
                  case Admin => true
                  case Moderator => true
                  case Member => true
                  case Mercenary => false
                  case Applicant => false))
  {
    if row.Some? && !row.value.banned {
      forall roleId
        ensures roleId in AwardRoles(cat, row.value.awards) <==>
                roleId != "" &&
                exists medal :: medal in cat.medalRoles && medal in row.value.awards && cat.medalRoles[medal] == Some(roleId)
      {
        if roleId in AwardRoles(cat, row.value.awards) {
          var medal :| medal in row.value.awards && roleId in MedalRole(cat, medal);
          assert medal in cat.medalRoles && cat.medalRoles[medal] == Some(roleId);
        }
        if roleId != "" && exists medal :: medal in cat.medalRoles && medal in row.value.awards && cat.medalRoles[medal] == Some(roleId) {
          var medal :| medal in cat.medalRoles && medal in row.value.awards && cat.medalRoles[medal] == Some(roleId);
          assert roleId in MedalRole(cat, medal);
        }
      }
    }
  }

  function Managed(cat: Catalogue): set<RoleId> {
    (set rank, roleId | rank in cat.rankRoles && roleId in Linked(cat.rankRoles[rank]) :: roleId) +
    (set medal, roleId | medal in cat.medalRoles && roleId in Linked(cat.medalRoles[medal]) :: roleId) +
    Linked(cat.membershipRoleId)
  }

  /** A role is managed exactly when some rank, some medal or the membership setting is linked to it. */
  lemma ManagedInFull(cat: Catalogue)
    ensures forall roleId :: roleId in Managed(cat) <==>
              roleId != "" &&
              ((exists rank :: rank in cat.rankRoles && cat.rankRoles[rank] == Some(roleId)) ||
               (exists medal :: medal in cat.medalRoles && cat.medalRoles[medal] == Some(roleId)) ||
               cat.membershipRoleId == Some(roleId))
  {
    forall roleId | roleId != ""
      ensures roleId in Managed(cat) <==>
              ((exists rank :: rank in cat.rankRoles && cat.rankRoles[rank] == Some(roleId)) ||
               (exists medal :: medal in cat.medalRoles && cat.medalRoles[medal] == Some(roleId)) ||
               cat.membershipRoleId == Some(roleId))
    {
      if rank :| rank in cat.rankRoles && cat.rankRoles[rank] == Some(roleId) {
        assert roleId in Linked(cat.rankRoles[rank]);
      }
      if medal :| medal in cat.medalRoles && cat.medalRoles[medal] == Some(roleId) {
        assert roleId in Linked(cat.medalRoles[medal]);
      }
    }
  }

  /** Everything the roster can ever ask for is a role the bot manages. */
  lemma DesiredIsManaged(cat: Catalogue, row: MemberRow)
    requires !row.banned
    ensures Desired(cat, Some(row)).value <= Managed(cat)
  {
  }

  // ── Roster mutations ───────────────────────────────────────────────────────

  datatype Change =
    | ChangeRank(rank: RankId)
    | ChangeRole(role: AppRole)
    | AwardMedal(medal: MedalId)
    | RemoveMedal(medal: MedalId)
    | Derive(adopted: Option<RankId>, medals: seq<MedalId>)

  /** When the action writes at all: 404s, the Owner refusal and no-op changes do not. */
  predicate Accepted(cat: Catalogue, row: MemberRow, change: Change) {
    match change
    case ChangeRank(rank) => rank in cat.rankRoles
    case ChangeRole(role) => role != Owner && role != row.role
    case AwardMedal(medal) => medal in cat.medalRoles
    case RemoveMedal(medal) => medal in row.awards
    case Derive(adopted, medals) =>
      (adopted.Some? || medals != []) &&
      (adopted.Some? ==> adopted.value in cat.rankRoles) &&
      forall medal | medal in medals :: medal in cat.medalRoles && medal !in row.awards
  }

  /** Drop the most recent award of `medal`; an earlier award of it survives. */
  function WithoutLatest(awards: seq<MedalId>, medal: MedalId): seq<MedalId> {
    if awards == [] then []
    else if awards[|awards| - 1] == medal then awards[..|awards| - 1]
    else WithoutLatest(awards[..|awards| - 1], medal) + [awards[|awards| - 1]]
  }

  function Apply(row: MemberRow, change: Change): MemberRow {
    match change
    case ChangeRank(rank) => row.(rankId := Some(rank))
    case ChangeRole(role) => row.(role := role)
    case AwardMedal(medal) => row.(awards := row.awards + [medal])
    case RemoveMedal(medal) => row.(awards := WithoutLatest(row.awards, medal))
    case Derive(adopted, medals) =>
      row.(rankId := if adopted.Some? then adopted else row.rankId, awards := row.awards + medals)
  }

  /** The role ids the action puts in its scoped job. */
  function Scope(cat: Catalogue, row: MemberRow, change: Change): set<RoleId> {
    match change
    case ChangeRank(rank) => RankRole(cat, row.rankId) + RankRole(cat, Some(rank))
    case ChangeRole(_) => Linked(cat.membershipRoleId)
    case AwardMedal(medal) => MedalRole(cat, medal)
    case RemoveMedal(medal) => MedalRole(cat, medal)
    case Derive(adopted, _) => RankRole(cat, row.rankId) + RankRole(cat, adopted)
  }

  lemma {:induction false} WithoutLatestKeepsOthers(awards: seq<MedalId>, medal: MedalId, other: MedalId)
    requires other != medal
    ensures other in WithoutLatest(awards, medal) <==> other in awards
  {
    if awards != [] {
      var init := awards[..|awards| - 1];
      assert awards == init + [awards[|awards| - 1]];
      WithoutLatestKeepsOthers(init, medal, other);
    }
  }

  lemma {:induction false} WithoutLatestRemovesOne(awards: seq<MedalId>, medal: MedalId)
    requires medal in awards
    ensures multiset(WithoutLatest(awards, medal)) == multiset(awards) - multiset{medal}
  {
    var init := awards[..|awards| - 1];
    assert awards == init + [awards[|awards| - 1]];
    if awards[|awards| - 1] != medal {
      WithoutLatestRemovesOne(init, medal);
    }
  }

  /**
   Whatever the action does to the roster, it cannot move the answer for a role it
   did not name — neither the row half nor, derive apart, the medal half. A derive
   may add medal roles, never lose one; the additive job it also enqueues owns those.
   */
  lemma ScopeBoundsChange(cat: Catalogue, row: MemberRow, change: Change, roleId: RoleId)
    requires Accepted(cat, row, change) && roleId !in Scope(cat, row, change)
    ensures roleId in RowRoles(cat, Apply(row, change)) <==> roleId in RowRoles(cat, row)
    ensures roleId in AwardRoles(cat, row.awards) ==> roleId in AwardRoles(cat, Apply(row, change).awards)
    ensures !change.Derive? ==>
              (roleId in AwardRoles(cat, Apply(row, change).awards) <==> roleId in AwardRoles(cat, row.awards))
    ensures Apply(row, change).banned == row.banned
  {
    var after := Apply(row, change);
    if roleId in AwardRoles(cat, row.awards) {
      var medal :| medal in row.awards && roleId in MedalRole(cat, medal);
      if change.RemoveMedal? {
        WithoutLatestKeepsOthers(row.awards, change.medal, medal);
      }
      assert medal in after.awards;
    }
    if !change.Derive? && roleId in AwardRoles(cat, after.awards) {
      var medal :| medal in after.awards && roleId in MedalRole(cat, medal);
      if change.RemoveMedal? {
        WithoutLatestKeepsOthers(row.awards, change.medal, medal);
      }
      assert medal in row.awards;
    }
  }

  // ── Saving over a row loaded earlier ───────────────────────────────────────

  /** The row the request loaded; the awards and a ban are looked up when they are needed. */
  predicate LoadedEarlier(current: MemberRow, seen: MemberRow) {
    seen.awards == current.awards && seen.banned == current.banned
  }

  /** A rank or role change saves the loaded row, all of it; the others write what they change and no more. */
  function SavedOver(current: MemberRow, seen: MemberRow, change: Change): MemberRow {
    match change
    case ChangeRank(_) | ChangeRole(_) => Apply(seen, change)
    case _ => Apply(current, change)
  }

  /** The save moves the row's answer for this role only if the loaded row put the role in the scope. */
  predicate Covers(cat: Catalogue, current: MemberRow, seen: MemberRow, change: Change, roleId: RoleId) {
    roleId in Scope(cat, seen, change) ||
    (roleId in RowRoles(cat, SavedOver(current, seen, change)) <==> roleId in RowRoles(cat, current))
  }

  /** A row saved as it was loaded is always covered. */
  lemma FreshSaveIsCovered(cat: Catalogue, row: MemberRow, change: Change, roleId: RoleId)
    requires Accepted(cat, row, change)
    ensures SavedOver(row, row, change) == Apply(row, change)
    ensures Covers(cat, row, row, change, roleId)
  {
    if roleId !in Scope(cat, row, change) {
      ScopeBoundsChange(cat, row, change, roleId);
    }
  }

  /** The save cannot take or give a medal's role outside the scope either, a derive's new awards apart. */
  lemma AwardsAreCovered(cat: Catalogue, current: MemberRow, seen: MemberRow, change: Change, roleId: RoleId)
    requires LoadedEarlier(current, seen) && Accepted(cat, seen, change) && roleId !in Scope(cat, seen, change)
    ensures var after := SavedOver(current, seen, change);
            after.banned == current.banned &&
            (roleId in AwardRoles(cat, current.awards) ==> roleId in AwardRoles(cat, after.awards)) &&
            (!change.Derive? ==> (roleId in AwardRoles(cat, after.awards) <==> roleId in AwardRoles(cat, current.awards)))
  {
    ScopeBoundsChange(cat, seen, change, roleId);
  }

  /** What the save overwrites must be in its scope: the rank another request gave, and its app role's standing. */
  predicate OverwritesNamed(cat: Catalogue, current: MemberRow, seen: MemberRow, change: Change) {
    match change
    case ChangeRank(_) =>
      RankRole(cat, current.rankId) <= Scope(cat, seen, change) + MembershipRole(cat, seen) &&
      (HoldsMembershipRole(seen) == HoldsMembershipRole(current) ||
       Linked(cat.membershipRoleId) <=
       Scope(cat, seen, change) + (if HoldsMembershipRole(seen) then RankRole(cat, current.rankId) else {}))
    case ChangeRole(_) =>
      RankRole(cat, current.rankId) - Linked(cat.membershipRoleId) ==
      RankRole(cat, seen.rankId) - Linked(cat.membershipRoleId)
    case Derive(adopted, _) =>
      adopted.None? || RankRole(cat, current.rankId) <= Scope(cat, seen, change) + MembershipRole(cat, current)
    case _ => true
  }

  lemma NamedIsCovered(cat: Catalogue, current: MemberRow, seen: MemberRow, change: Change, roleId: RoleId)
    requires LoadedEarlier(current, seen) && Accepted(cat, seen, change) && OverwritesNamed(cat, current, seen, change)
    ensures Covers(cat, current, seen, change, roleId)
  {
    if change.ChangeRole? {
      assert roleId in RankRole(cat, current.rankId) - Linked(cat.membershipRoleId) <==>
             roleId in RankRole(cat, seen.rankId) - Linked(cat.membershipRoleId);
    }
  }

  lemma CoveredIsNamed(cat: Catalogue, current: MemberRow, seen: MemberRow, change: Change)
    requires LoadedEarlier(current, seen) && Accepted(cat, seen, change)
    requires forall roleId :: Covers(cat, current, seen, change, roleId)
    ensures OverwritesNamed(cat, current, seen, change)
  {
    forall roleId | roleId in RowRoles(cat, current) + RowRoles(cat, SavedOver(current, seen, change))
      ensures roleId in Scope(cat, seen, change) ||
              (roleId in RowRoles(cat, SavedOver(current, seen, change)) <==> roleId in RowRoles(cat, current))
    {
      assert Covers(cat, current, seen, change, roleId);
    }
    if change.ChangeRole? {
      var link := Linked(cat.membershipRoleId);
      forall roleId ensures roleId in RankRole(cat, current.rankId) - link <==> roleId in RankRole(cat, seen.rankId) - link {
        assert Covers(cat, current, seen, change, roleId);
      }
    }
  }

  /** For no role can a stale save move the answer unnamed, exactly when it overwrites nothing it does not name. */
  lemma StaleSaveIsCoveredExactlyWhen(cat: Catalogue, current: MemberRow, seen: MemberRow, change: Change)
    requires LoadedEarlier(current, seen) && Accepted(cat, seen, change)
    ensures (forall roleId :: Covers(cat, current, seen, change, roleId)) <==> OverwritesNamed(cat, current, seen, change)
  {
    if OverwritesNamed(cat, current, seen, change) {
      forall roleId ensures Covers(cat, current, seen, change, roleId) {
        NamedIsCovered(cat, current, seen, change, roleId);
      }
    } else if forall roleId :: Covers(cat, current, seen, change, roleId) {
      CoveredIsNamed(cat, current, seen, change);
    }
  }

  // ── The service that performs them ─────────────────────────────────────────

  /** The non-empty ids among some nullable link columns. */
  ghost predicate AreTheLinks(scope: set<RoleId>, links: seq<Option<RoleId>>) {
    forall roleId :: roleId in scope <==> roleId != "" && Some(roleId) in links
  }

  datatype RoleJob =
    | ScopedJob(member: MemberId, scope: set<RoleId>)
    | GrantJob(member: MemberId)
    | ResyncJob(member: MemberId)

  /** An empty scope has nothing to converge and queues nothing. */
  function ScopedJobs(id: MemberId, scope: set<RoleId>): seq<RoleJob> {
    if scope == {} then [] else [ScopedJob(id, scope)]
  }

  /** The role ids named by a list of nullable link columns. */
  function Named(roleIds: seq<Option<RoleId>>): set<RoleId> {
    if roleIds == [] then {}
    else Named(roleIds[..|roleIds| - 1]) + Linked(roleIds[|roleIds| - 1])
  }

  lemma NamedPair(first: Option<RoleId>, second: Option<RoleId>)
    ensures Named([first]) == Linked(first)
    ensures Named([first, second]) == Linked(first) + Linked(second)
  {
  }

  lemma {:induction false} NamedAre(roleIds: seq<Option<RoleId>>)
    ensures AreTheLinks(Named(roleIds), roleIds)
    ensures Named(roleIds) == {} <==> forall link | link in roleIds :: link in {None, Some("")}
  {
    if roleIds != [] {
      var init := roleIds[..|roleIds| - 1];
      NamedAre(init);
      assert roleIds == init + [roleIds[|roleIds| - 1]];
    }
  }

  /** What one accepted action leaves in the outbox, in enqueue order. */
  function JobsFor(cat: Catalogue, id: MemberId, row: MemberRow, change: Change): seq<RoleJob> {
    ScopedJobs(id, Scope(cat, row, change)) +
    (if change.Derive? then [GrantJob(id)] else [])
  }

  datatype Outcome = Done | NotFound | Forbidden | NoChange

  class MembersService {
    const catalogue: Catalogue
    /** Members with a linked Discord identity; the others never get a job. */
    const identities: set<MemberId>
    var syncingOn: bool
    var members: map<MemberId, MemberRow>
    var outbox: seq<RoleJob>

    constructor (catalogue: Catalogue, identities: set<MemberId>, members: map<MemberId, MemberRow>)
      ensures this.catalogue == catalogue && this.identities == identities
      ensures this.members == members && outbox == [] && syncingOn
    {
      this.catalogue, this.identities, this.members := catalogue, identities, members;
      outbox, syncingOn := [], true;
    }

    /** The jobs an action actually queues: none for an unlinked member or with syncing off. */
    function Queued(id: MemberId, jobs: seq<RoleJob>): seq<RoleJob>
      reads this
    {
      if syncingOn && id in identities then jobs else []
    }

    /** Filter the nullable ids, drop duplicates, and skip the job when nothing is left. */
    method EnqueueScopedRoleSync(id: MemberId, roleIds: seq<Option<RoleId>>)
      modifies this`outbox
      ensures outbox == old(outbox) + Queued(id, ScopedJobs(id, Named(roleIds)))
      ensures id !in identities || !syncingOn || (forall link | link in roleIds :: link in {None, Some("")}) ==>
                outbox == old(outbox)
      ensures id in identities && syncingOn && !(forall link | link in roleIds :: link in {None, Some("")}) ==>
                outbox == old(outbox) + [ScopedJob(id, Named(roleIds))] && AreTheLinks(Named(roleIds), roleIds)
    {
      NamedAre(roleIds);
      if id !in identities || !syncingOn {
        return;
      }
      var scope: set<RoleId> := {};
      for n := 0 to |roleIds|
        invariant scope == Named(roleIds[..n])
        invariant outbox == old(outbox)
      {
        assert roleIds[..n + 1][..n] == roleIds[..n];
        scope := scope + Linked(roleIds[n]);
      }
      assert roleIds[..|roleIds|] == roleIds;
      if scope != {} {
        outbox := outbox + [ScopedJob(id, scope)];
      }
    }

    method EnqueueRoleGrant(id: MemberId)
      modifies this`outbox
      ensures outbox == old(outbox) + Queued(id, [GrantJob(id)])
      ensures outbox == if id in identities && syncingOn then old(outbox) + [GrantJob(id)] else old(outbox)
    {
      if id in identities && syncingOn {
        outbox := outbox + [GrantJob(id)];
      }
    }

    /** The member's linked role of a rank row, as the nullable column it is. */
    function RankLink(rankId: Option<RankId>): (link: Option<RoleId>)
      ensures Linked(link) == RankRole(catalogue, rankId)
    {
      if rankId.Some? && rankId.value in catalogue.rankRoles then catalogue.rankRoles[rankId.value] else None
    }

    method ChangeMemberRank(id: MemberId, rank: RankId) returns (outcome: Outcome)
      modifies this`members, this`outbox
      ensures Performed(id, ChangeRank(rank), outcome, old(members), old(outbox))
      ensures outcome == Done <==> id in old(members) && rank in catalogue.rankRoles
      ensures outcome == Done ==>
                members == old(members)[id := old(members)[id].(rankId := Some(rank))] &&
                Scoped(id, [RankLink(old(members)[id].rankId), catalogue.rankRoles[rank]], old(outbox), [])
      ensures outcome != Done ==> members == old(members) && outbox == old(outbox)
    {
      if id !in members || rank !in catalogue.rankRoles {
        return NotFound;
      }
      var previous := RankLink(members[id].rankId);
      members := members[id := members[id].(rankId := Some(rank))];
      EnqueueScopedRoleSync(id, [previous, catalogue.rankRoles[rank]]);
      NamedPair(previous, catalogue.rankRoles[rank]);
      return Done;
    }

    /** Two ceilings: the caller must outrank the target's role, and may not grant one above their own. */
    method ChangeMemberRole(id: MemberId, role: AppRole, actorRole: AppRole, actorId: Option<MemberId>,
                            ownerId: Option<MemberId>)
      returns (outcome: Outcome)
      modifies this`members, this`outbox
      ensures outcome == Forbidden <==>
                role == Owner || (id in old(members) && !MayAppoint(actorRole, actorId, id, old(members)[id].role, ownerId, role))
      ensures outcome == Done <==>
                id in old(members) && Accepted(catalogue, old(members)[id], ChangeRole(role)) &&
                MayAppoint(actorRole, actorId, id, old(members)[id].role, ownerId, role)
      ensures Effected(id, ChangeRole(role), outcome, old(members), old(outbox))
      ensures outcome == Done ==>
                role !in {Owner, old(members)[id].role} &&
                members == old(members)[id := old(members)[id].(role := role)] &&
                Scoped(id, [catalogue.membershipRoleId], old(outbox), [])
      ensures outcome == NoChange ==> id in old(members) && role == old(members)[id].role
      ensures outcome != Done ==> members == old(members) && outbox == old(outbox)
    {
      if role == Owner {
        return Forbidden;
      }
      if id !in members {
        return NotFound;
      }
      var row := members[id];
      if !CanActOn(Check(actorRole, actorId, id, row.role, ownerId), ActChangeRole) || !CanGrantRole(actorRole, role) {
        return Forbidden;
      }
      if role == row.role {
        return NoChange;
      }
      assert Accepted(catalogue, row, ChangeRole(role)) && MayAppoint(actorRole, actorId, id, row.role, ownerId, role);
      members := members[id := row.(role := role)];
      EnqueueScopedRoleSync(id, [catalogue.membershipRoleId]);
      NamedPair(catalogue.membershipRoleId, None);
      return Done;
    }

    method AwardMemberMedal(id: MemberId, medal: MedalId) returns (outcome: Outcome)
      modifies this`members, this`outbox
      ensures Performed(id, AwardMedal(medal), outcome, old(members), old(outbox))
      ensures outcome == Done <==> id in old(members) && medal in catalogue.medalRoles
      ensures outcome == Done ==>
                members == old(members)[id := old(members)[id].(awards := old(members)[id].awards + [medal])] &&
                Scoped(id, [catalogue.medalRoles[medal]], old(outbox), [])
      ensures outcome != Done ==> members == old(members) && outbox == old(outbox)
    {
      if id !in members || medal !in catalogue.medalRoles {
        return NotFound;
      }
      members := members[id := members[id].(awards := members[id].awards + [medal])];
      EnqueueScopedRoleSync(id, [catalogue.medalRoles[medal]]);
      NamedPair(catalogue.medalRoles[medal], None);
      return Done;
    }

    /** The most recent award of the medal, counted from one; zero when there is none. */
    method LatestAward(awards: seq<MedalId>, medal: MedalId) returns (at: nat)
      ensures at <= |awards| && medal !in awards[at..]
      ensures at > 0 ==> awards[at - 1] == medal
    {
      at := |awards|;
      while at > 0 && awards[at - 1] != medal
        invariant 0 <= at <= |awards|
        invariant medal !in awards[at..]
      {
        at := at - 1;
      }
    }

    method RemoveMemberMedal(id: MemberId, medal: MedalId) returns (outcome: Outcome)
      modifies this`members, this`outbox
      ensures Performed(id, RemoveMedal(medal), outcome, old(members), old(outbox))
      ensures outcome == Done <==> id in old(members) && medal in old(members)[id].awards
      ensures outcome == Done ==>
                (exists at, awards :: 0 <= at < |old(members)[id].awards| && awards == old(members)[id].awards &&
                   awards[at] == medal && medal !in awards[at + 1..] &&
                   members == old(members)[id := old(members)[id].(awards := awards[..at] + awards[at + 1..])]) &&
                Scoped(id, [if medal in catalogue.medalRoles then catalogue.medalRoles[medal] else None], old(outbox), [])
      ensures outcome != Done ==> members == old(members) && outbox == old(outbox)
    {
      if id !in members {
        return NotFound;
      }
      var awards := members[id].awards;
      var at := LatestAward(awards, medal);
      if at == 0 {
        return NotFound;
      }
      SplitAtLatest(awards, medal, at - 1);
      members := members[id := members[id].(awards := awards[..at - 1] + awards[at..])];
      var link := if medal in catalogue.medalRoles then catalogue.medalRoles[medal] else None;
      EnqueueScopedRoleSync(id, [link]);
      NamedPair(link, None);
      return Done;
    }

    /** `filter` over what the guild shows. */
    method UncreditedMedals(awards: seq<MedalId>, held: seq<MedalId>) returns (medals: seq<MedalId>)
      ensures medals == Missing(awards, held)
      ensures forall medal :: medal in medals <==> medal in held && medal !in awards
      ensures medals != [] <==> exists medal :: medal in held && medal !in awards
    {
      medals := [];
      for n := 0 to |held|
        invariant medals == Missing(awards, held[..n])
      {
        assert held[..n + 1][..n] == held[..n];
        if held[n] !in awards {
          medals := medals + [held[n]];
        }
      }
      assert held[..|held|] == held;
      MissingIsNew(awards, held);
      assert medals != [] ==> medals[0] in medals;
    }

    /** The transaction, and the two jobs that follow it. */
    method CreditDerived(id: MemberId, adopted: Option<RankId>, medals: seq<MedalId>)
      requires id in members
      modifies this`members, this`outbox
      ensures members == old(members)[id := Apply(old(members)[id], Derive(adopted, medals))]
      ensures members[id] == old(members)[id].(rankId := if adopted.Some? then adopted else old(members)[id].rankId,
                                               awards := old(members)[id].awards + medals)
      ensures outbox == old(outbox) + Queued(id, JobsFor(catalogue, id, old(members)[id], Derive(adopted, medals)))
      ensures Scoped(id, [RankLink(old(members)[id].rankId), RankLink(adopted)], old(outbox), [GrantJob(id)])
    {
      var row := members[id];
      members := members[id := row.(rankId := if adopted.Some? then adopted else row.rankId,
                                    awards := row.awards + medals)];
      EnqueueScopedRoleSync(id, [RankLink(row.rankId), RankLink(adopted)]);
      NamedPair(RankLink(row.rankId), RankLink(adopted));
      EnqueueRoleGrant(id);
    }

    /** Adopt a rank and credit the medals the roster lacks, then push both jobs. */
    method DeriveFromDiscord(id: MemberId, adopted: Option<RankId>, held: seq<MedalId>) returns (outcome: Outcome)
      requires adopted.Some? ==> adopted.value in catalogue.rankRoles
      requires forall medal | medal in held :: medal in catalogue.medalRoles
      requires forall i, j | 0 <= i < j < |held| :: held[i] != held[j]
      modifies this`members, this`outbox
      ensures id !in old(members) ==> outcome == NotFound && members == old(members) && outbox == old(outbox)
      ensures id in old(members) ==>
                Performed(id, Derive(adopted, Missing(old(members)[id].awards, held)), outcome, old(members), old(outbox))
      ensures outcome == Done <==>
                id in old(members) && (adopted.Some? || exists medal :: medal in held && medal !in old(members)[id].awards)
      ensures outcome == Done ==>
                members.Keys == old(members).Keys && members == old(members)[id := members[id]] &&
                var was, now := old(members)[id], members[id];
                now.rankId == (if adopted.Some? then adopted else was.rankId) && now.role == was.role && now.banned == was.banned &&
                was.awards <= now.awards &&
                (forall medal :: medal in now.awards[|was.awards|..] <==> medal in held && medal !in was.awards) &&
                Scoped(id, [RankLink(was.rankId), RankLink(adopted)], old(outbox), [GrantJob(id)])
      ensures outcome != Done ==> members == old(members) && outbox == old(outbox)
    {
      if id !in members {
        return NotFound;
      }
      var row := members[id];
      var medals := UncreditedMedals(row.awards, held);
      if adopted.None? && medals == [] {
        return NoChange;
      }
      assert (row.awards + medals)[|row.awards|..] == medals;
      CreditDerived(id, adopted, medals);
      assert members[id].awards[|row.awards|..] == medals;
      return Done;
    }

    /**
     What an action adds to the outbox: for a linked member, with syncing on, a scoped job
     with exactly the links named, unless they are all empty, and then `more`.
     */
    ghost predicate Scoped(id: MemberId, links: seq<Option<RoleId>>, queue: seq<RoleJob>, more: seq<RoleJob>)
      reads this
    {
      if id !in identities || !syncingOn then outbox == queue
      else if forall link | link in links :: link in {None, Some("")} then outbox == queue + more
      else exists scope :: AreTheLinks(scope, links) && outbox == queue + [ScopedJob(id, scope)] + more
    }

    /** The row moves exactly by `Apply`, and the outbox grows exactly by `JobsFor`. */
    ghost predicate Performed(id: MemberId, change: Change, outcome: Outcome,
                              was: map<MemberId, MemberRow>, queue: seq<RoleJob>)
      reads this
    {
      (outcome == Done <==> id in was && Accepted(catalogue, was[id], change)) &&
      Effected(id, change, outcome, was, queue)
    }

    ghost predicate Effected(id: MemberId, change: Change, outcome: Outcome,
                             was: map<MemberId, MemberRow>, queue: seq<RoleJob>)
      reads this
    {
      (outcome == Done ==>
         id in was && members == was[id := Apply(was[id], change)] &&
         outbox == queue + Queued(id, JobsFor(catalogue, id, was[id], change))) &&
      (outcome != Done ==> members == was && outbox == queue)
    }
  }

  /** The held medals the roster does not credit yet, in order. */
  function Missing(awards: seq<MedalId>, held: seq<MedalId>): seq<MedalId> {
    if held == [] then []
    else
      var rest := Missing(awards, held[..|held| - 1]);
      if held[|held| - 1] !in awards then rest + [held[|held| - 1]] else rest
  }

  lemma {:induction false} MissingIsNew(awards: seq<MedalId>, held: seq<MedalId>)
    ensures forall medal :: medal in Missing(awards, held) <==> medal in held && medal !in awards
  {
    if held != [] {
      MissingIsNew(awards, held[..|held| - 1]);
      assert held == held[..|held| - 1] + [held[|held| - 1]];
    }
  }

  lemma {:induction false} SplitAtLatest(awards: seq<MedalId>, medal: MedalId, at: nat)
    requires at < |awards| && awards[at] == medal && medal !in awards[at + 1..]
    ensures WithoutLatest(awards, medal) == awards[..at] + awards[at + 1..]
  {
    if at < |awards| - 1 {
      var init := awards[..|awards| - 1];
      assert awards[|awards| - 1] == awards[at + 1..][|awards| - 2 - at];
      assert init[at + 1..] == awards[at + 1..|awards| - 1];
      SplitAtLatest(init, medal, at);
    }
  }

  /** Derive-twice equals derive-once: a second press has no medal left to credit. */
  lemma {:induction false} DeriveIsIdempotent(awards: seq<MedalId>, held: seq<MedalId>, credited: seq<MedalId>)
    requires credited <= held
    ensures Missing(awards + Missing(awards, held), credited) == []
  {
    if credited != [] {
      DeriveIsIdempotent(awards, held, credited[..|credited| - 1]);
      MissingIsNew(awards, held);
    }
  }
}
