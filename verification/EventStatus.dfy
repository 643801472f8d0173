/**
 The status sweep: two bulk updates a minute, in a fixed order, over every live event.
 */
module EventStatus {
  import opened Wrappers

  type EventId = string

  datatype Status = Upcoming | Ongoing | Previous

  datatype Event = Event(startsAt: int, endsAt: Option<int>, status: Status, isDraft: bool, isArchived: bool, deleted: bool)

  const OPEN_ENDED_DURATION_MS := 6 * 60 * 60 * 1000

  predicate Live(e: Event) {
    !e.isDraft && !e.isArchived && !e.deleted
  }

  predicate Starts(e: Event, now: int) {
    Live(e) && e.status.Upcoming? && e.startsAt <= now && (e.endsAt.None? || e.endsAt.value > now)
  }

  /** Over: past its end, or six hours in when it has none. */
  predicate Over(e: Event, now: int) {
    if e.endsAt.Some? then e.endsAt.value <= now else e.startsAt <= now - OPEN_ENDED_DURATION_MS
  }

  predicate Ends(e: Event, now: int) {
    Live(e) && e.status != Previous && Over(e, now)
  }

  function Updated(rows: map<EventId, Event>, hit: set<EventId>, status: Status): map<EventId, Event> {
    map id | id in rows :: if id in hit then rows[id].(status := status) else rows[id]
  }

  /** One event after a whole sweep. */
  function Swept(e: Event, now: int): Event {
    if Ends(e, now) then e.(status := Previous)
    else if Starts(e, now) then e.(status := Ongoing)
    else e
  }

  function Starting(rows: map<EventId, Event>, now: int): set<EventId> {
    set id | id in rows && Starts(rows[id], now)
  }

  function Ending(rows: map<EventId, Event>, now: int): set<EventId> {
    set id | id in rows && Ends(rows[id], now)
  }

  lemma SecondPassSeesTheSame(rows: map<EventId, Event>, now: int)
    ensures Ending(Updated(rows, Starting(rows, now), Ongoing), now) == Ending(rows, now)
  {
  }

  lemma PassesAreOneJudgement(rows: map<EventId, Event>, now: int)
    ensures Updated(Updated(rows, Starting(rows, now), Ongoing), Ending(rows, now), Previous) ==
            map id | id in rows :: Swept(rows[id], now)
  {
  }

  class EventStatusScheduler {
    var rows: map<EventId, Event>

    constructor (rows: map<EventId, Event>)
      ensures this.rows == rows
    {
      this.rows := rows;
    }

    /** The two ordered passes amount to one judgement per event; an open-ended event hours past its start is counted twice. */
    method AdvanceStatuses(now: int) returns (affected: nat)
      modifies this
      ensures rows == map id | id in old(rows) :: Swept(old(rows)[id], now)
      ensures forall id | id in rows ::
                var was := old(rows)[id];
                var over := if was.endsAt.Some? then was.endsAt.value <= now else was.startsAt + 21_600_000 <= now;
                rows[id] == was.(status :=
                  if was.isDraft || was.isArchived || was.deleted then was.status
                  else if was.status == Previous || over then Previous
                  else if was.status == Ongoing || was.startsAt <= now then Ongoing
                  else Upcoming)
      ensures affected == |Starting(old(rows), now)| + |Ending(old(rows), now)|
      ensures forall id :: id in Starting(old(rows), now) <==>
                id in old(rows) && !old(rows)[id].isDraft && !old(rows)[id].isArchived && !old(rows)[id].deleted &&
                old(rows)[id].status == Upcoming && old(rows)[id].startsAt <= now &&
                (old(rows)[id].endsAt.Some? ==> old(rows)[id].endsAt.value > now)
      ensures forall id :: id in Ending(old(rows), now) <==>
                id in old(rows) && !old(rows)[id].isDraft && !old(rows)[id].isArchived && !old(rows)[id].deleted &&
                old(rows)[id].status != Previous &&
                if old(rows)[id].endsAt.Some? then old(rows)[id].endsAt.value <= now
                else old(rows)[id].startsAt + 21_600_000 <= now
    {
      SecondPassSeesTheSame(rows, now);
      PassesAreOneJudgement(rows, now);
      var toOngoing := Starting(rows, now);
      rows := Updated(rows, toOngoing, Ongoing);
      var toPrevious := Ending(rows, now);
      rows := Updated(rows, toPrevious, Previous);
      affected := |toOngoing| + |toPrevious|;
    }
  }

  /** A late sweep alone gives what an earlier sweep and then the late one give: no tick is ever owed. */
  lemma MissedSweepsDoNotMatter(e: Event, earlier: int, later: int)
    requires earlier <= later
    ensures Swept(Swept(e, earlier), later) == Swept(e, later)
  {
  }

  function SweptAll(e: Event, times: seq<int>): Event
    decreases |times|
  {
    if times == [] then e else SweptAll(Swept(e, times[0]), times[1..])
  }

  /** Over any series of sweeps only the last one matters, and a status never moves backwards. */
  lemma {:induction false} OnlyTheLastSweepMatters(e: Event, times: seq<int>)
    requires times != [] && forall i, j | 0 <= i < j < |times| :: times[i] <= times[j]
    ensures SweptAll(e, times) == Swept(e, times[|times| - 1])
    ensures e.status == Previous ==> SweptAll(e, times).status == Previous
    ensures e.status == Ongoing ==> SweptAll(e, times).status in {Ongoing, Previous}
    decreases |times|
  {
    if |times| == 1 {
      assert SweptAll(Swept(e, times[0]), times[1..]) == Swept(e, times[0]);
    } else {
      OnlyTheLastSweepMatters(Swept(e, times[0]), times[1..]);
      MissedSweepsDoNotMatter(e, times[0], times[|times| - 1]);
    }
  }
}
