/**
 Learning a rank from the Discord roles a member already wears: the scan that picks it,
 the stated ways a reading can fail, and why pressing the button twice changes nothing.
 */
module RoleAdoption {
  import opened Hierarchy
  import opened Roster
  import opened Wrappers

  /** Precedence 1 is the top of the ladder. `guarded` marks the entry, Applicant and Mercenary ranks. */
  datatype Rank = Rank(id: RankId, precedence: int, roleId: Option<RoleId>, guarded: bool)

  datatype Medal = Medal(id: MedalId, roleId: Option<RoleId>)

  /** `None` is the floor of a member who holds no rank at all. */
  predicate Eligible(rank: Rank, held: set<RoleId>, floor: Option<int>) {
    Linked(rank.roleId) * held != {} && !rank.guarded && (floor.Some? ==> rank.precedence < floor.value)
  }

  lemma WornMeansLinkedAndHeld(link: Option<RoleId>, held: set<RoleId>)
    ensures Linked(link) * held != {} <==> link.Some? && link.value != "" && link.value in held
  {
    if link.Some? && link.value != "" && link.value in held {
      assert link.value in Linked(link) * held;
    }
  }

  lemma EligibleInFull(rank: Rank, held: set<RoleId>, floor: Option<int>)
    ensures Eligible(rank, held, floor) <==>
            rank.roleId.Some? && rank.roleId.value != "" && rank.roleId.value in held && !rank.guarded &&
            (floor.Some? ==> rank.precedence < floor.value)
  {
    WornMeansLinkedAndHeld(rank.roleId, held);
  }

  /** The top eligible rank, the first of them where several share a precedence. */
  method HighestHeldRank(ranks: seq<Rank>, held: set<RoleId>, floor: Option<int>) returns (best: Option<Rank>)
    ensures forall i | 0 <= i < |ranks| ::
              Eligible(ranks[i], held, floor) <==>
              ranks[i].roleId.Some? && ranks[i].roleId.value != "" && ranks[i].roleId.value in held && !ranks[i].guarded &&
              (floor.Some? ==> ranks[i].precedence < floor.value)
    ensures best.None? <==> forall i | 0 <= i < |ranks| :: !Eligible(ranks[i], held, floor)
    ensures best.Some? ==>
              exists k :: 0 <= k < |ranks| && best.value == ranks[k] && Eligible(ranks[k], held, floor) &&
                (forall i | 0 <= i < |ranks| && Eligible(ranks[i], held, floor) :: ranks[k].precedence <= ranks[i].precedence) &&
                (forall i | 0 <= i < k && Eligible(ranks[i], held, floor) :: ranks[k].precedence < ranks[i].precedence)
  {
    forall i | 0 <= i < |ranks| {
      EligibleInFull(ranks[i], held, floor);
    }
    best := None;
    ghost var k := -1;
    for n := 0 to |ranks|
      invariant best.None? <==> forall i | 0 <= i < n :: !Eligible(ranks[i], held, floor)
      invariant best.Some? ==>
                  0 <= k < n && best.value == ranks[k] && Eligible(ranks[k], held, floor) &&
                  (forall i | 0 <= i < n && Eligible(ranks[i], held, floor) :: ranks[k].precedence <= ranks[i].precedence) &&
                  (forall i | 0 <= i < k && Eligible(ranks[i], held, floor) :: ranks[k].precedence < ranks[i].precedence)
    {
      var rank := ranks[n];
      if Linked(rank.roleId) == {} || Linked(rank.roleId) !! held || rank.guarded ||
         (floor.Some? && rank.precedence >= floor.value)
      {
        continue;
      }
      if best.None? || rank.precedence < best.value.precedence {
        best := Some(rank);
        k := n;
      }
    }
  }

  datatype Reading =
    | NotLinked
    | BotDisabled
    | NotInGuild
    | Unreachable
    | Read(rank: Option<Rank>, medals: seq<Medal>)

  function HeldMedals(medals: seq<Medal>, held: set<RoleId>): seq<Medal> {
    if medals == [] then []
    else (if Linked(medals[0].roleId) * held != {} then [medals[0]] else []) + HeldMedals(medals[1..], held)
  }

  lemma {:induction false} HeldMedalsAre(medals: seq<Medal>, held: set<RoleId>, medal: Medal)
    ensures medal in HeldMedals(medals, held) <==> medal in medals && Linked(medal.roleId) * held != {}
  {
    if medals != [] {
      HeldMedalsAre(medals[1..], held, medal);
    }
  }

  predicate IsLinked(user: Option<string>) {
    user.Some? && user.value != ""
  }

  /**
   Every failure is named. Each read may throw, and is `None` then: the settings, the guild's
   answer, the two catalogues. The guild answers with no one for a member who has left it. A
   member without a role costs no catalogue read, and is a successful reading of nothing.
   */
  method ReadGuildState(user: Option<string>, botEnabled: Option<bool>, answer: Option<Option<set<RoleId>>>,
                        ranks: Option<seq<Rank>>, medals: Option<seq<Medal>>, floor: Option<int>)
    returns (reading: Reading)
    ensures IsLinked(user) <==> user.Some? && user.value != ""
    ensures reading.NotLinked? <==> !IsLinked(user)
    ensures reading.BotDisabled? <==> IsLinked(user) && botEnabled == Some(false)
    ensures reading.NotInGuild? <==> IsLinked(user) && botEnabled == Some(true) && answer == Some(None)
    ensures reading.Read? <==>
              IsLinked(user) && botEnabled == Some(true) && answer.Some? && answer.value.Some? &&
              (answer.value.value == {} || (ranks.Some? && medals.Some?))
    ensures reading.Unreachable? <==>
              IsLinked(user) &&
              (botEnabled.None? ||
               (botEnabled.value &&
                (answer.None? ||
                 (answer.value.Some? && answer.value.value != {} && (ranks.None? || medals.None?)))))
    ensures reading.Read? && answer.value.value == {} ==> reading == Read(None, [])
    ensures reading.Read? && answer.value.value != {} ==>
              var held := answer.value.value;
              (reading.rank.None? <==> forall i | 0 <= i < |ranks.value| :: !Eligible(ranks.value[i], held, floor)) &&
              (reading.rank.Some? ==>
                 reading.rank.value in ranks.value && Eligible(reading.rank.value, held, floor) &&
                 forall i | 0 <= i < |ranks.value| && Eligible(ranks.value[i], held, floor) ::
                   reading.rank.value.precedence <= ranks.value[i].precedence) &&
              forall medal :: medal in reading.medals <==>
                medal in medals.value && medal.roleId.Some? && medal.roleId.value != "" && medal.roleId.value in held
  {
    if user.None? || user.value == "" {
      return NotLinked;
    }
    if botEnabled.None? {
      return Unreachable;
    }
    if !botEnabled.value {
      return BotDisabled;
    }
    if answer.None? {
      return Unreachable;
    }
    if answer.value.None? {
      return NotInGuild;
    }
    var held := answer.value.value;
    if held == {} {
      return Read(None, []);
    }
    if ranks.None? {
      return Unreachable;
    }
    var rank := HighestHeldRank(ranks.value, held, floor);
    if medals.None? {
      return Unreachable;
    }
    reading := Read(rank, HeldMedals(medals.value, held));
    forall medal
      ensures medal in reading.medals <==>
              medal in medals.value && medal.roleId.Some? && medal.roleId.value != "" && medal.roleId.value in held
    {
      HeldMedalsAre(medals.value, held, medal);
      WornMeansLinkedAndHeld(medal.roleId, held);
    }
  }

  /** Promotion only, and idempotent: with the adopted rank as the new floor nothing more is eligible. */
  lemma SecondDeriveFindsNothing(ranks: seq<Rank>, held: set<RoleId>, floor: Option<int>, best: Rank, awards: seq<MedalId>,
                                 medals: seq<MedalId>)
    requires Eligible(best, held, floor)
    requires forall i | 0 <= i < |ranks| && Eligible(ranks[i], held, floor) :: best.precedence <= ranks[i].precedence
    ensures floor.Some? ==> best.precedence < floor.value
    ensures forall i | 0 <= i < |ranks| :: !Eligible(ranks[i], held, Some(best.precedence))
    ensures Missing(awards + Missing(awards, medals), medals) == []
  {
    DeriveIsIdempotent(awards, medals, medals);
  }
}
