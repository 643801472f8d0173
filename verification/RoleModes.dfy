/**
 How a role job writes to the guild. Each mode re-derives the member's desired set
 and issues assign/remove calls one at a time; any call may fail, which abandons the
 job half-way. The modes differ only in which roles they are allowed to touch.
 */
module RoleModes {
  import opened Hierarchy
  import opened Roster
  import opened Wrappers

  type UserId = string

  // ── Where each mode aims ───────────────────────────────────────────────────

  function ScopedTarget(current: set<RoleId>, scope: set<RoleId>, desired: set<RoleId>): set<RoleId> {
    (current - scope) + (scope * desired)
  }

  function GrantTarget(current: set<RoleId>, desired: set<RoleId>): set<RoleId> {
    current + desired
  }

  function ResyncTarget(current: set<RoleId>, managed: set<RoleId>, desired: set<RoleId>, readable: bool): set<RoleId> {
    if readable then (current - (managed - desired)) + desired else current + desired
  }

  function BanTarget(current: set<RoleId>, managed: set<RoleId>, banRole: RoleId, readable: bool): set<RoleId> {
    if readable then (current - managed) + {banRole} + (current * {banRole}) else current + {banRole}
  }

  /** A payload's role ids, the empty ones dropped. */
  function NonEmpty(roleIds: seq<RoleId>): set<RoleId> {
    set roleId | roleId in roleIds && roleId != ""
  }

  /** An abandoned job leaves every role either as it was or where the mode aims it. */
  predicate Between(was: set<RoleId>, now: set<RoleId>, target: set<RoleId>) {
    was * target <= now <= was + target
  }

  // ── The guild as the bot sees it ───────────────────────────────────────────

  /** Role assignments of the users in the guild, behind a gateway any call to which may fail. */
  class Guild {
    var roles: map<UserId, set<RoleId>>

    constructor (roles: map<UserId, set<RoleId>>)
      ensures this.roles == roles
    {
      this.roles := roles;
    }

    /** A call may throw; a `None` covers both "left the guild" and "Discord did not answer". */
    method FetchMember(user: UserId) returns (ok: bool, ref: Option<set<RoleId>>)
      ensures ref.Some? ==> user in roles && ref.value == roles[user]
    {
      ok := *;
      var answered: bool := *;
      ref := if ok && user in roles && answered then Some(roles[user]) else None;
    }

    method AssignRole(user: UserId, roleId: RoleId) returns (ok: bool)
      modifies this
      ensures ok ==> user in old(roles) && roles == old(roles)[user := old(roles)[user] + {roleId}]
      ensures !ok ==> roles == old(roles)
    {
      ok := *;
      ok := ok && user in roles;
      if ok {
        roles := roles[user := roles[user] + {roleId}];
      }
    }

    method RemoveRole(user: UserId, roleId: RoleId) returns (ok: bool)
      modifies this
      ensures ok ==> user in old(roles) && roles == old(roles)[user := old(roles)[user] - {roleId}]
      ensures !ok ==> roles == old(roles)
    {
      ok := *;
      ok := ok && user in roles;
      if ok {
        roles := roles[user := roles[user] - {roleId}];
      }
    }
  }

  /** Only `user` moved, and only towards `target`; a job that finished got there. */
  ghost predicate Moved(was: map<UserId, set<RoleId>>, now: map<UserId, set<RoleId>>, user: UserId,
                        ok: bool, target: set<RoleId> -> set<RoleId>)
  {
    (user !in was ==> now == was) &&
    (user in was ==>
       user in now && now == was[user := now[user]] &&
       Between(was[user], now[user], target(was[user])) &&
       (ok ==> now[user] == target(was[user])))
  }

  /** Nobody else's roles change; a role is lost or gained only as the mode aims, and a finished job has done all of it. */
  lemma MovedRoleByRole(was: map<UserId, set<RoleId>>, now: map<UserId, set<RoleId>>, user: UserId,
                        ok: bool, target: set<RoleId> -> set<RoleId>)
    requires Moved(was, now, user, ok, target)
    ensures now.Keys == was.Keys && forall other | other in was && other != user :: now[other] == was[other]
    ensures user in was ==>
              (forall roleId | roleId in was[user] && roleId !in now[user] :: roleId !in target(was[user])) &&
              (forall roleId | roleId !in was[user] && roleId in now[user] :: roleId in target(was[user])) &&
              (ok ==> forall roleId :: roleId in now[user] <==> roleId in target(was[user]))
  {
  }

  // ── The worker ─────────────────────────────────────────────────────────────

  class RoleWorker {
    const guild: Guild
    const catalogue: Catalogue

    constructor (guild: Guild, catalogue: Catalogue)
      ensures this.guild == guild && this.catalogue == catalogue
    {
      this.guild, this.catalogue := guild, catalogue;
    }

    method DesiredRoleIds(row: Option<MemberRow>) returns (desired: Option<set<RoleId>>)
      ensures desired == Desired(catalogue, row)
      ensures desired.None? <==> row.None? || row.value.banned
      ensures desired.Some? ==>
                forall roleId :: roleId in desired.value <==>
                  roleId != "" &&
                  ((exists rank :: rank in catalogue.rankRoles && row.value.rankId == Some(rank) &&
                                   catalogue.rankRoles[rank] == Some(roleId)) ||
                   (exists medal :: medal in catalogue.medalRoles && medal in row.value.awards &&
                                    catalogue.medalRoles[medal] == Some(roleId)) ||
                   (catalogue.membershipRoleId == Some(roleId) &&
                    match row.value.role
                    case Owner => true
                    case Admin => true
                    case Moderator => true
                    case Member => true
                    case Mercenary => false
                    case Applicant => false))
    {
      DesiredInFull(catalogue, row);
      if row.None? || row.value.banned {
        return None;
      }
      var ids := RankRole(catalogue, row.value.rankId);
      var held := row.value.awards;
      for n := 0 to |held|
        invariant ids == RankRole(catalogue, row.value.rankId) + AwardRoles(catalogue, held[..n])
      {
        AwardRolesStep(catalogue, held, n);
        ids := ids + MedalRole(catalogue, held[n]);
      }
      assert held[..|held|] == held;
      if HoldsMembershipRole(row.value) {
        ids := ids + Linked(catalogue.membershipRoleId);
      }
      desired := Some(ids);
      assert ids == RowRoles(catalogue, row.value) + AwardRoles(catalogue, held);
    }

    method ManagedRoleIds() returns (ids: set<RoleId>)
      ensures ids == Managed(catalogue)
      ensures forall roleId :: roleId in ids <==>
                roleId != "" &&
                ((exists rank :: rank in catalogue.rankRoles && catalogue.rankRoles[rank] == Some(roleId)) ||
                 (exists medal :: medal in catalogue.medalRoles && catalogue.medalRoles[medal] == Some(roleId)) ||
                 catalogue.membershipRoleId == Some(roleId))
    {
      ids := {};
      var ranks := catalogue.rankRoles.Keys;
      while ranks != {}
        invariant ranks <= catalogue.rankRoles.Keys
        invariant ids == set rank, roleId |
                    rank in catalogue.rankRoles && rank !in ranks && roleId in Linked(catalogue.rankRoles[rank]) :: roleId
        decreases ranks
      {
        var rank :| rank in ranks;
        ids := ids + Linked(catalogue.rankRoles[rank]);
        ranks := ranks - {rank};
      }
      ghost var rankIds := ids;
      var medals := catalogue.medalRoles.Keys;
      while medals != {}
        invariant medals <= catalogue.medalRoles.Keys
        invariant ids == rankIds + set medal, roleId |
                    medal in catalogue.medalRoles && medal !in medals && roleId in Linked(catalogue.medalRoles[medal]) :: roleId
        decreases medals
      {
        var medal :| medal in medals;
        ids := ids + Linked(catalogue.medalRoles[medal]);
        medals := medals - {medal};
      }
      ids := ids + Linked(catalogue.membershipRoleId);
      ManagedInFull(catalogue);
    }

    /** The scoped loop: each role in scope is assigned or removed, skipping what the reading shows is already so. */
    method ConvergeEach(user: UserId, scope: set<RoleId>, desired: set<RoleId>, ref: Option<set<RoleId>>)
      returns (ok: bool)
      requires ref.Some? ==> user in guild.roles && ref.value == guild.roles[user]
      modifies guild
      ensures Moved(old(guild.roles), guild.roles, user, ok, current => ScopedTarget(current, scope, desired))
    {
      ghost var was := guild.roles;
      var todo := scope;
      while todo != {}
        invariant todo <= scope
        invariant user !in was ==> guild.roles == was
        invariant user in was ==>
                    user in guild.roles && guild.roles == was[user := guild.roles[user]] &&
                    guild.roles[user] == ScopedTarget(was[user], scope - todo, desired)
        decreases todo
      {
        var roleId :| roleId in todo;
        if roleId in desired {
          if ref.None? || roleId !in ref.value {
            var sent := guild.AssignRole(user, roleId);
            if !sent { return false; }
          }
        } else if ref.None? || roleId in ref.value {
          var sent := guild.RemoveRole(user, roleId);
          if !sent { return false; }
        }
        todo := todo - {roleId};
      }
      ok := true;
    }

    /** Converge exactly the roles in `roleIds` and nothing else, readable member or not. */
    method ReconcileScoped(row: Option<MemberRow>, user: UserId, roleIds: seq<RoleId>) returns (ok: bool)
      modifies guild
      ensures row.None? || row.value.banned ==> ok && guild.roles == old(guild.roles)
      ensures row.Some? && !row.value.banned ==>
                Moved(old(guild.roles), guild.roles, user, ok,
                      current => ScopedTarget(current, NonEmpty(roleIds), Desired(catalogue, row).value))
      ensures ok && row.Some? && !row.value.banned && user in old(guild.roles) ==>
                user in guild.roles &&
                forall roleId :: roleId in guild.roles[user] <==>
                  if roleId in roleIds && roleId != "" then roleId in Desired(catalogue, row).value
                  else roleId in old(guild.roles)[user]
    {
      var scope := NonEmpty(roleIds);
      if scope == {} {
        return true;
      }
      var wanted := DesiredRoleIds(row);
      if wanted.None? {
        return true;
      }
      var ref;
      ok, ref := guild.FetchMember(user);
      if ok {
        ok := ConvergeEach(user, scope, wanted.value, ref);
      }
    }

    /** Add every desired role; there is no call here that removes. */
    method GrantRoles(row: Option<MemberRow>, user: UserId) returns (ok: bool)
      modifies guild
      ensures row.None? || row.value.banned ==> ok && guild.roles == old(guild.roles)
      ensures row.Some? && !row.value.banned ==>
                Moved(old(guild.roles), guild.roles, user, ok,
                      current => GrantTarget(current, Desired(catalogue, row).value))
      ensures row.Some? && !row.value.banned && user in old(guild.roles) ==>
                user in guild.roles && old(guild.roles)[user] <= guild.roles[user] &&
                (ok ==> forall roleId :: roleId in guild.roles[user] <==>
                          roleId in old(guild.roles)[user] || roleId in Desired(catalogue, row).value)
    {
      var wanted := DesiredRoleIds(row);
      if wanted.None? {
        return true;
      }
      var ref;
      ok, ref := guild.FetchMember(user);
      if ok {
        ok := AssignMissing(user, wanted.value, ref);
      }
    }

    /** The assigning loop `GrantRoles` and `ReconcileRoles` share. */
    method AssignMissing(user: UserId, desired: set<RoleId>, ref: Option<set<RoleId>>) returns (ok: bool)
      requires ref.Some? ==> user in guild.roles && ref.value == guild.roles[user]
      modifies guild
      ensures Moved(old(guild.roles), guild.roles, user, ok, current => GrantTarget(current, desired))
    {
      ghost var was := guild.roles;
      var todo := desired;
      while todo != {}
        invariant todo <= desired
        invariant user !in was ==> guild.roles == was
        invariant user in was ==>
                    user in guild.roles && guild.roles == was[user := guild.roles[user]] &&
                    guild.roles[user] == GrantTarget(was[user], desired - todo)
        decreases todo
      {
        var roleId :| roleId in todo;
        if ref.None? || roleId !in ref.value {
          var sent := guild.AssignRole(user, roleId);
          if !sent { return false; }
        }
        todo := todo - {roleId};
      }
      ok := true;
    }

    /** The stripping loop of the resync and the ban: every held role in `strip` goes. */
    method RemoveHeld(user: UserId, held: set<RoleId>, strip: set<RoleId>) returns (ok: bool)
      modifies guild
      ensures Moved(old(guild.roles), guild.roles, user, ok, current => current - (held * strip))
    {
      ghost var was := guild.roles;
      var todo := held;
      while todo != {}
        invariant todo <= held
        invariant user !in was ==> guild.roles == was
        invariant user in was ==>
                    user in guild.roles && guild.roles == was[user := guild.roles[user]] &&
                    guild.roles[user] == was[user] - ((held - todo) * strip)
        decreases todo
      {
        var roleId :| roleId in todo;
        if roleId in strip {
          var sent := guild.RemoveRole(user, roleId);
          if !sent { return false; }
        }
        todo := todo - {roleId};
      }
      ok := true;
    }

    /** The operator's full reconcile: it strips only against a confirmed reading. */
    method ReconcileRoles(row: Option<MemberRow>, user: UserId) returns (ok: bool, readable: bool)
      modifies guild
      ensures readable ==> user in old(guild.roles)
      ensures row.None? || row.value.banned ==> ok && guild.roles == old(guild.roles)
      ensures row.Some? && !row.value.banned ==>
                Moved(old(guild.roles), guild.roles, user, ok,
                      current => ResyncTarget(current, Managed(catalogue), Desired(catalogue, row).value, readable))
      ensures ok && row.Some? && !row.value.banned && user in old(guild.roles) ==>
                user in guild.roles &&
                forall roleId :: roleId in guild.roles[user] <==>
                  roleId in Desired(catalogue, row).value ||
                  (roleId in old(guild.roles)[user] && (readable ==> roleId !in Managed(catalogue)))
    {
      var wanted := DesiredRoleIds(row);
      if wanted.None? {
        return true, false;
      }
      var desired := wanted.value;
      var strippable := ManagedRoleIds();
      var ref;
      ok, ref := guild.FetchMember(user);
      readable := ref.Some?;
      if !ok {
        return;
      }
      ok := AssignMissing(user, desired, ref);
      if !ok || ref.None? {
        return;
      }
      ok := RemoveHeld(user, ref.value, strippable - desired);
    }

    /** Strip what the member holds of the managed roles, then apply the Ban role. */
    method ApplyBanRole(user: UserId, banRole: RoleId) returns (ok: bool, readable: bool)
      modifies guild
      ensures readable ==> user in old(guild.roles)
      ensures Moved(old(guild.roles), guild.roles, user, ok,
                    current => BanTarget(current, Managed(catalogue), banRole, readable))
      ensures ok && user in old(guild.roles) ==>
                user in guild.roles &&
                forall roleId :: roleId in guild.roles[user] <==>
                  roleId == banRole || (roleId in old(guild.roles)[user] && (readable ==> roleId !in Managed(catalogue)))
    {
      var managed := ManagedRoleIds();
      var ref;
      ok, ref := guild.FetchMember(user);
      readable := ref.Some?;
      if !ok {
        return;
      }
      if ref.Some? {
        ok := RemoveHeld(user, ref.value, managed - {banRole});
        if !ok {
          return;
        }
      }
      ok := guild.AssignRole(user, banRole);
    }

    /** One member's share of a re-link; a row without an incoming role also gets the additive pass. */
    method ApplyRelink(row: Option<MemberRow>, user: UserId, outgoing: Option<RoleId>, incoming: Option<RoleId>)
      returns (ok: bool)
      modifies guild
      ensures row.None? || row.value.banned ==> ok && guild.roles == old(guild.roles)
      ensures row.Some? && !row.value.banned && Linked(incoming) != {} ==>
                Moved(old(guild.roles), guild.roles, user, ok,
                      current => ScopedTarget(current, Linked(outgoing) + Linked(incoming), Desired(catalogue, row).value))
      ensures row.Some? && !row.value.banned && Linked(incoming) == {} ==>
                Moved(old(guild.roles), guild.roles, user, ok,
                      current => (current - Linked(outgoing)) + Desired(catalogue, row).value)
    {
      var ends := (if outgoing.Some? then [outgoing.value] else []) + (if incoming.Some? then [incoming.value] else []);
      assert NonEmpty(ends) == Linked(outgoing) + Linked(incoming);
      ghost var was := guild.roles;
      ok := ReconcileScoped(row, user, ends);
      if ok && Linked(incoming) == {} {
        ghost var mid := guild.roles;
        ok := GrantRoles(row, user);
        if row.Some? && !row.value.banned {
          StripThenGrant(was, mid, guild.roles, user, ok, Linked(outgoing), Desired(catalogue, row).value);
        }
      }
    }
  }

  /** The scoped job done, and the additive one after it. */
  lemma StripThenGrant(was: map<UserId, set<RoleId>>, mid: map<UserId, set<RoleId>>, now: map<UserId, set<RoleId>>,
                       user: UserId, ok: bool, scope: set<RoleId>, desired: set<RoleId>)
    requires Moved(was, mid, user, true, current => ScopedTarget(current, scope, desired))
    requires Moved(mid, now, user, ok, current => GrantTarget(current, desired))
    ensures Moved(was, now, user, ok, current => (current - scope) + desired)
  {
  }

  lemma AwardRolesStep(cat: Catalogue, awards: seq<MedalId>, n: nat)
    requires n < |awards|
    ensures AwardRoles(cat, awards[..n + 1]) == AwardRoles(cat, awards[..n]) + MedalRole(cat, awards[n])
  {
  }

  // ── What a whole run of jobs can take away ─────────────────────────────────

  datatype Write =
    | Scoped(user: UserId, scope: set<RoleId>, desired: set<RoleId>)
    | Granted(user: UserId, desired: set<RoleId>)
    | Assigned(user: UserId, roleId: RoleId)
    | Removed(user: UserId, roleId: RoleId)
    | Resynced(user: UserId, managed: set<RoleId>, desired: set<RoleId>, readable: bool)
    | Banned(user: UserId, managed: set<RoleId>, banRole: RoleId, readable: bool)

  function TargetOf(write: Write, current: set<RoleId>): set<RoleId> {
    match write
    case Scoped(_, scope, desired) => ScopedTarget(current, scope, desired)
    case Granted(_, desired) => GrantTarget(current, desired)
    case Assigned(_, roleId) => current + {roleId}
    case Removed(_, roleId) => current - {roleId}
    case Resynced(_, managed, desired, readable) => ResyncTarget(current, managed, desired, readable)
    case Banned(_, managed, banRole, readable) => BanTarget(current, managed, banRole, readable)
  }

  /** The one licence to take `roleId` from `user`. */
  predicate MayTake(write: Write, user: UserId, roleId: RoleId) {
    write.user == user &&
    match write
    case Scoped(_, scope, desired) => roleId in scope && roleId !in desired
    case Removed(_, removed) => roleId == removed
    case Resynced(_, managed, desired, readable) => readable && roleId in managed && roleId !in desired
    case Banned(_, managed, banRole, readable) => readable && roleId in managed && roleId != banRole
    case _ => false
  }

  /** Job by job, what a member wears once it is done, role for role. */
  lemma TargetsInFull(write: Write, current: set<RoleId>, roleId: RoleId)
    ensures roleId in TargetOf(write, current) <==>
            match write
            case Scoped(_, scope, desired) => if roleId in scope then roleId in desired else roleId in current
            case Granted(_, desired) => roleId in current || roleId in desired
            case Assigned(_, granted) => roleId in current || roleId == granted
            case Removed(_, removed) => roleId in current && roleId != removed
            case Resynced(_, managed, desired, readable) =>
              roleId in desired || (roleId in current && !(readable && roleId in managed))
            case Banned(_, managed, banRole, readable) =>
              roleId == banRole || (roleId in current && !(readable && roleId in managed))
  {
  }

  /** The licence is exact: it is held for just those roles the job takes from whoever wears them. */
  lemma LicensedExactlyWhenTaken(write: Write, user: UserId, roleId: RoleId)
    ensures MayTake(write, user, roleId) <==>
            write.user == user && forall current: set<RoleId> :: roleId !in TargetOf(write, current)
  {
    forall current: set<RoleId> | MayTake(write, user, roleId) ensures roleId !in TargetOf(write, current) {
      TargetsInFull(write, current, roleId);
    }
    TargetsInFull(write, {roleId}, roleId);
    if forall current: set<RoleId> :: roleId !in TargetOf(write, current) {
      assert roleId !in TargetOf(write, {roleId});
    }
  }

  /**
   Over any run of jobs, finished or abandoned, each moving its own user towards its own target:
   a role that was there and is gone was taken by a job holding a licence for it. With
   no resync and no ban in the run, that is a scoped job that named it or an explicit
   remove: nothing else in the system can cost a member a role.
   */
  lemma {:induction false} LossIsLicensed(guilds: seq<map<UserId, set<RoleId>>>, writes: seq<Write>,
                                          user: UserId, roleId: RoleId)
    requires |guilds| == |writes| + 1
    requires forall i | 0 <= i < |writes| ::
               Moved(guilds[i], guilds[i + 1], writes[i].user, false, current => TargetOf(writes[i], current))
    requires user in guilds[0] && roleId in guilds[0][user]
    requires user !in guilds[|writes|] || roleId !in guilds[|writes|][user]
    ensures exists i :: 0 <= i < |writes| && MayTake(writes[i], user, roleId)
    decreases |writes|
  {
    assert writes != [];
    assert Moved(guilds[0], guilds[1], writes[0].user, false, current => TargetOf(writes[0], current));
    if roleId in guilds[1][user] {
      var later := writes[1..];
      assert forall i | 0 <= i < |later| :: later[i] == writes[i + 1];
      LossIsLicensed(guilds[1..], later, user, roleId);
      var i :| 0 <= i < |later| && MayTake(later[i], user, roleId);
      assert MayTake(writes[i + 1], user, roleId);
    } else {
      assert MayTake(writes[0], user, roleId);
    }
  }

  /** Re-running a finished job changes nothing: every mode aims at a fixed point. */
  lemma TargetsAreFixedPoints(write: Write, current: set<RoleId>)
    ensures TargetOf(write, TargetOf(write, current)) == TargetOf(write, current)
  {
  }

  /** An abandoned job leaves the retry aiming at exactly the place the first run aimed. */
  lemma RetryReachesTheSameTarget(write: Write, was: set<RoleId>, partial: set<RoleId>)
    requires Between(was, partial, TargetOf(write, was))
    ensures TargetOf(write, partial) == TargetOf(write, was)
  {
  }
}
