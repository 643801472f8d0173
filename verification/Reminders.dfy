/**
 Lead-time reminders: rows that fire once, claimed by a conditional update that racing
 sweeps contend for, and rewritten by edits that must not forget what already fired.
 */
module Reminders {
  import opened Wrappers

  type EventId = string

  const MINUTE_MS: int := 60_000
  const BATCH_SIZE: nat := 50

  datatype Key = Key(event: EventId, minutes: nat)

  /** `token` names the row across the wipe-and-rewrite an edit performs on it. */
  datatype Offset = Offset(sentAt: Option<int>, token: nat)

  datatype Sent = Sent(key: Key, token: nat, sweepAt: int, startsAt: int)

  // ── One sweep ──────────────────────────────────────────────────────────────

  predicate DueAt(startsAt: int, minutes: nat, now: int) {
    startsAt - minutes * MINUTE_MS <= now
  }

  /** Ordered by start, then by lead time: within one event the nearest comes first. */
  predicate SortedDue(starts: map<EventId, int>, due: seq<Key>) {
    (forall i | 0 <= i < |due| :: due[i].event in starts) &&
    (forall i, j | 0 <= i < j < |due| :: due[i] != due[j]) &&
    (forall i, j | 0 <= i < j < |due| && due[i].event == due[j].event :: due[i].minutes <= due[j].minutes)
  }

  function RowsOf(keys: seq<Key>): set<Key> {
    set key | key in keys
  }

  /** The due rows of one event, nearest first. */
  predicate IsGroup(group: seq<Key>) {
    group != [] &&
    (forall i | 0 <= i < |group| :: group[i].event == group[0].event && group[0].minutes <= group[i].minutes) &&
    (forall i, j | 0 <= i < j < |group| :: group[i] != group[j])
  }

  predicate AreGroups(groups: seq<seq<Key>>) {
    (forall g | 0 <= g < |groups| :: IsGroup(groups[g])) &&
    (forall g, h | 0 <= g < h < |groups| :: groups[g][0].event != groups[h][0].event)
  }

  ghost predicate Grouped(groups: seq<seq<Key>>, key: Key) {
    exists g :: 0 <= g < |groups| && key in groups[g]
  }

  /** Append a row to its event's group. */
  lemma GroupGrows(groups: seq<seq<Key>>, g: nat, key: Key)
    requires AreGroups(groups) && g < |groups| && groups[g][0].event == key.event
    requires groups[g][0].minutes <= key.minutes && !Grouped(groups, key)
    ensures AreGroups(groups[g := groups[g] + [key]])
    ensures forall other :: Grouped(groups[g := groups[g] + [key]], other) <==> Grouped(groups, other) || other == key
  {
    var grown := groups[g := groups[g] + [key]];
    assert key !in groups[g];
    assert IsGroup(grown[g]);
    forall other ensures Grouped(grown, other) <==> Grouped(groups, other) || other == key {
      if Grouped(groups, other) {
        var h :| 0 <= h < |groups| && other in groups[h];
        assert other in grown[h];
      }
      assert key in grown[g];
    }
  }

  lemma GroupStarts(groups: seq<seq<Key>>, key: Key)
    requires AreGroups(groups) && forall g | 0 <= g < |groups| :: groups[g][0].event != key.event
    ensures AreGroups(groups + [[key]])
    ensures forall other :: Grouped(groups + [[key]], other) <==> Grouped(groups, other) || other == key
  {
    var grown := groups + [[key]];
    forall other ensures Grouped(grown, other) <==> Grouped(groups, other) || other == key {
      if Grouped(groups, other) {
        var h :| 0 <= h < |groups| && other in groups[h];
        assert other in grown[h];
      }
      assert key in grown[|groups|];
    }
  }

  /** The `Map` of due rows by event, in order of first appearance. */
  method GroupByEvent(starts: map<EventId, int>, due: seq<Key>) returns (groups: seq<seq<Key>>)
    requires SortedDue(starts, due)
    ensures AreGroups(groups) && forall key :: Grouped(groups, key) <==> key in due
    ensures forall g | 0 <= g < |groups| ::
              groups[g] != [] && (forall i, j | 0 <= i < j < |groups[g]| :: groups[g][i] != groups[g][j]) &&
              forall key | key in groups[g] :: key in due && key.event == groups[g][0].event && groups[g][0].minutes <= key.minutes
    ensures forall g, h | 0 <= g < h < |groups| :: groups[g][0].event != groups[h][0].event
    ensures forall key | key in due :: exists g :: 0 <= g < |groups| && key in groups[g]
  {
    groups := [];
    for n := 0 to |due|
      invariant AreGroups(groups)
      invariant forall key :: Grouped(groups, key) <==> key in due[..n]
    {
      var key := due[n];
      assert due[..n + 1] == due[..n] + [key];
      var g := 0;
      while g < |groups| && groups[g][0].event != key.event
        invariant 0 <= g <= |groups|
        invariant forall h | 0 <= h < g :: groups[h][0].event != key.event
      {
        g := g + 1;
      }
      if g < |groups| {
        assert Grouped(groups, groups[g][0]);
        GroupGrows(groups, g, key);
        groups := groups[g := groups[g] + [key]];
      } else {
        GroupStarts(groups, key);
        groups := groups + [[key]];
      }
    }
    assert due[..|due|] == due;
  }

  /** The reminders a sweep owes: one per event still to come, its nearest due offset. */
  ghost predicate Owes(starts: map<EventId, int>, offsets: map<Key, Offset>, due: seq<Key>, now: int, sent: seq<Sent>) {
    (forall s | s in sent ::
       s.key in due && s.key in offsets && s.key.event in starts &&
       s.token == offsets[s.key].token && s.sweepAt == now < s.startsAt == starts[s.key.event] &&
       forall other | other in due && other.event == s.key.event :: s.key.minutes <= other.minutes) &&
    (forall i, j | 0 <= i < j < |sent| :: sent[i].key.event != sent[j].key.event) &&
    (forall key | key in due && key.event in starts && starts[key.event] > now :: exists s :: s in sent && s.key.event == key.event)
  }

  /** The whole effect of one sweep: every due row resolved, and the reminders it owes sent. */
  ghost predicate SweepDid(starts: map<EventId, int>, was: map<Key, Offset>, due: seq<Key>, now: int, left: map<Key, Offset>,
                           sent: seq<Sent>) {
    left == Stamped(was, RowsOf(due), now) && Owes(starts, was, due, now, sent)
  }

  /**
   Spelled out: the due rows are stamped and no other is touched; what is sent names a due
   row of an event still to come, the nearest of that event's due rows, once per event, and
   no event still to come goes without.
   */
  lemma SweepInFull(starts: map<EventId, int>, was: map<Key, Offset>, due: seq<Key>, now: int, left: map<Key, Offset>,
                    sent: seq<Sent>)
    ensures SweepDid(starts, was, due, now, left, sent) <==>
            left.Keys == was.Keys &&
            (forall key | key in was && key in left ::
               left[key] == if key in due then was[key].(sentAt := Some(now)) else was[key]) &&
            (forall s | s in sent ::
               s.key in due && s.key in was && s.token == was[s.key].token && s.sweepAt == now &&
               s.key.event in starts && s.startsAt == starts[s.key.event] && now < s.startsAt &&
               forall other | other in due && other.event == s.key.event :: s.key.minutes <= other.minutes) &&
            (forall i, j | 0 <= i < j < |sent| :: sent[i].key.event != sent[j].key.event) &&
            (forall key | key in due && key.event in starts && starts[key.event] > now ::
               exists s :: s in sent && s.key.event == key.event)
  {
  }

  /** Unresolved rows of live events whose fire time has passed. */
  predicate AreDue(starts: map<EventId, int>, offsets: map<Key, Offset>, due: seq<Key>, now: int) {
    forall i | 0 <= i < |due| ::
      due[i].event in starts && due[i] in offsets && offsets[due[i]].sentAt.None? &&
      DueAt(starts[due[i].event], due[i].minutes, now)
  }

  class EventReminderScheduler {
    const starts: map<EventId, int>
    var offsets: map<Key, Offset>
    var enqueued: seq<Sent>

    constructor (starts: map<EventId, int>, offsets: map<Key, Offset>)
      ensures this.starts == starts && this.offsets == offsets && enqueued == []
    {
      this.starts, this.offsets, enqueued := starts, offsets, [];
    }

    /** UPDATE ... WHERE sent_at IS NULL: true for the one caller that changed the row. */
    method Claim(key: Key, now: int) returns (won: bool)
      modifies this`offsets
      ensures won <==> key in old(offsets) && old(offsets)[key].sentAt.None?
      ensures won ==> offsets == old(offsets)[key := old(offsets)[key].(sentAt := Some(now))]
      ensures offsets == if won then Stamped(old(offsets), {key}, now) else old(offsets)
    {
      won := key in offsets && offsets[key].sentAt.None?;
      if won {
        offsets := offsets[key := offsets[key].(sentAt := Some(now))];
      }
    }

    /** What the query promises: unresolved rows of live events whose fire time has passed. */
    predicate DueList(due: seq<Key>, now: int)
      reads this
    {
      SortedDue(starts, due) && |due| <= BATCH_SIZE && AreDue(starts, offsets, due, now)
    }

    /** What makes a row due: its event is live, it is unresolved, and its lead time in minutes has begun. */
    lemma DueListInFull(due: seq<Key>, now: int)
      ensures DueList(due, now) ==>
                |due| <= 50 &&
                forall key | key in due ::
                  key.event in starts && key in offsets && offsets[key].sentAt.None? &&
                  now >= starts[key.event] - key.minutes * 60_000
      ensures |due| <= 50 && (forall i, j | 0 <= i < j < |due| :: due[i] != due[j]) &&
              (forall i, j | 0 <= i < j < |due| && due[i].event == due[j].event :: due[i].minutes <= due[j].minutes) &&
              (forall key | key in due ::
                 key.event in starts && key in offsets && offsets[key].sentAt.None? &&
                 now >= starts[key.event] - key.minutes * 60_000) ==>
                DueList(due, now)
    {
    }

    /** One event's due rows: the farther ones are retired silently, the nearest is sent if it is still true. */
    method ResolveEvent(group: seq<Key>, now: int) returns (sent: bool)
      requires IsGroup(group) && group[0].event in starts
      requires forall i | 0 <= i < |group| :: group[i] in offsets && offsets[group[i]].sentAt.None?
      modifies this
      ensures offsets == Stamped(old(offsets), RowsOf(group), now)
      ensures sent <==> starts[group[0].event] > now
      ensures enqueued == old(enqueued) +
                          (if sent then [Sent(group[0], old(offsets)[group[0]].token, now, starts[group[0].event])] else [])
    {
      ghost var was := offsets;
      for n := 1 to |group|
        invariant offsets == Stamped(was, RowsOf(group[1..n]), now) && enqueued == old(enqueued)
      {
        NextRow(was, group[1..n], group[n], now);
        assert group[1..n + 1] == group[1..n] + [group[n]];
        var retired := Claim(group[n], now);
      }
      NextRow(was, group[1..|group|], group[0], now);
      var won := Claim(group[0], now);
      sent := won && starts[group[0].event] > now;
      if sent {
        enqueued := enqueued + [Sent(group[0], offsets[group[0]].token, now, starts[group[0].event])];
      }
      assert RowsOf(group) == RowsOf(group[1..|group|] + [group[0]]) by {
        assert group == [group[0]] + group[1..|group|];
      }
    }

    /** One turn of the loop over the groups. */
    method ResolveNth(groups: seq<seq<Key>>, g: nat, now: int, ghost was: map<Key, Offset>) returns (sent: bool)
      requires Open(starts, was, groups) && g < |groups| && offsets == Stamped(was, KeysOf(groups, g), now)
      modifies this
      ensures offsets == Stamped(was, KeysOf(groups, g + 1), now)
      ensures forall before :: old(enqueued) == before + Fires(starts, was, groups, g, now) ==>
                enqueued == before + Fires(starts, was, groups, g + 1, now)
      ensures |enqueued| == |old(enqueued)| + if sent then 1 else 0
    {
      GroupsTurn(starts, was, groups, g, now);
      ghost var group := groups[g];
      ghost var fired := if starts[group[0].event] > now
                         then [Sent(group[0], offsets[group[0]].token, now, starts[group[0].event])] else [];
      sent := ResolveEvent(groups[g], now);
      assert Fires(starts, was, groups, g + 1, now) == Fires(starts, was, groups, g, now) + fired;
    }

    /** The `for (const [eventId, offsets] of byEvent)` loop. */
    method ResolveGroups(groups: seq<seq<Key>>, now: int) returns (sent: nat)
      requires Open(starts, offsets, groups)
      modifies this
      ensures offsets == Stamped(old(offsets), KeysOf(groups, |groups|), now)
      ensures enqueued == old(enqueued) + Fires(starts, old(offsets), groups, |groups|, now)
      ensures sent == |enqueued| - |old(enqueued)|
    {
      ghost var was, before := offsets, enqueued;
      sent := 0;
      for g := 0 to |groups|
        invariant offsets == Stamped(was, KeysOf(groups, g), now)
        invariant enqueued == before + Fires(starts, was, groups, g, now)
        invariant sent == |enqueued| - |before|
      {
        var fired := ResolveNth(groups, g, now, was);
        if fired {
          sent := sent + 1;
        }
      }
    }

    /**
     Resolve every due row; send one reminder per event, and none for an event already under
     way: each reminder sent is for a due row of an event still to come, the nearest of its
     event's due rows, and no such event goes without.
     */
    method Sweep(due: seq<Key>, now: int) returns (sent: nat)
      requires DueList(due, now)
      modifies this
      ensures old(enqueued) <= enqueued && sent == |enqueued| - |old(enqueued)|
      ensures SweepDid(starts, old(offsets), due, now, offsets, enqueued[|old(enqueued)|..])
      ensures offsets.Keys == old(offsets).Keys
      ensures forall key | key in offsets && key in old(offsets) ::
                offsets[key] == if key in due then old(offsets)[key].(sentAt := Some(now)) else old(offsets)[key]
    {
      var groups := GroupByEvent(starts, due);
      GroupsCover(due, groups);
      GroupsAreOpen(starts, offsets, due, groups);
      FiresAreOwed(starts, offsets, due, groups, now);
      ghost var fires := Fires(starts, offsets, groups, |groups|, now);
      sent := ResolveGroups(groups, now);
      assert enqueued[|old(enqueued)|..] == fires;
    }
  }

  /** Stamping one more row than those already stamped. */
  lemma NextRow(was: map<Key, Offset>, done: seq<Key>, key: Key, now: int)
    requires key in was && key !in done
    ensures Stamped(was, RowsOf(done), now)[key] == was[key]
    ensures Stamped(Stamped(was, RowsOf(done), now), {key}, now) == Stamped(was, RowsOf(done + [key]), now)
  {
  }

  /** Groups of rows that exist, are unresolved and belong to live events. */
  predicate Open(starts: map<EventId, int>, offsets: map<Key, Offset>, groups: seq<seq<Key>>) {
    AreGroups(groups) &&
    forall g, i | 0 <= g < |groups| && 0 <= i < |groups[g]| ::
      groups[g][i].event in starts && groups[g][i] in offsets && offsets[groups[g][i]].sentAt.None?
  }

  lemma GroupsAreOpen(starts: map<EventId, int>, offsets: map<Key, Offset>, due: seq<Key>, groups: seq<seq<Key>>)
    requires AreGroups(groups) && SortedDue(starts, due) && forall key :: Grouped(groups, key) <==> key in due
    requires forall i | 0 <= i < |due| :: due[i] in offsets && offsets[due[i]].sentAt.None?
    ensures Open(starts, offsets, groups)
  {
    forall g, i | 0 <= g < |groups| && 0 <= i < |groups[g]|
      ensures groups[g][i].event in starts && groups[g][i] in offsets && offsets[groups[g][i]].sentAt.None?
    {
      assert groups[g][i] in groups[g];
      assert Grouped(groups, groups[g][i]);
      var k :| 0 <= k < |due| && due[k] == groups[g][i];
    }
  }

  /** The rows of the first `n` groups. */
  function KeysOf(groups: seq<seq<Key>>, n: nat): set<Key>
    requires n <= |groups|
  {
    if n == 0 then {} else KeysOf(groups, n - 1) + RowsOf(groups[n - 1])
  }

  lemma {:induction false} KeysAre(groups: seq<seq<Key>>, n: nat, key: Key)
    requires n <= |groups|
    ensures key in KeysOf(groups, n) <==> exists g :: 0 <= g < n && key in groups[g]
  {
    if n > 0 {
      KeysAre(groups, n - 1, key);
    }
  }

  lemma GroupsCover(due: seq<Key>, groups: seq<seq<Key>>)
    requires forall key :: Grouped(groups, key) <==> key in due
    ensures KeysOf(groups, |groups|) == RowsOf(due)
  {
    forall key ensures key in KeysOf(groups, |groups|) <==> key in due {
      KeysAre(groups, |groups|, key);
      assert Grouped(groups, key) <==> key in due;
    }
  }

  lemma GroupDone(starts: map<EventId, int>, was: map<Key, Offset>, groups: seq<seq<Key>>, g: nat, now: int)
    requires g < |groups| && groups[g] != []
    ensures Stamped(Stamped(was, KeysOf(groups, g), now), RowsOf(groups[g]), now) ==
            Stamped(was, KeysOf(groups, g + 1), now)
    ensures Fires(starts, was, groups, g + 1, now) == Fires(starts, was, groups, g, now) + Reminder(starts, was, groups[g][0], now)
  {
  }

  /** A row of a later group is still unresolved when its turn comes. */
  lemma GroupIsOpen(starts: map<EventId, int>, was: map<Key, Offset>, groups: seq<seq<Key>>, g: nat, now: int)
    requires Open(starts, was, groups) && g < |groups|
    ensures forall i | 0 <= i < |groups[g]| ::
              groups[g][i] in was && Stamped(was, KeysOf(groups, g), now)[groups[g][i]] == was[groups[g][i]]
  {
    forall i | 0 <= i < |groups[g]| ensures groups[g][i] !in KeysOf(groups, g) {
      KeysAre(groups, g, groups[g][i]);
      forall h | 0 <= h < g ensures groups[g][i] !in groups[h] {
        assert groups[g][i].event == groups[g][0].event != groups[h][0].event;
      }
    }
  }

  /** What the loop needs when a group's turn comes: its rows are open, and resolving them is one more group. */
  lemma GroupsTurn(starts: map<EventId, int>, was: map<Key, Offset>, groups: seq<seq<Key>>, g: nat, now: int)
    requires Open(starts, was, groups) && g < |groups|
    ensures var mid, group := Stamped(was, KeysOf(groups, g), now), groups[g];
            IsGroup(group) && group[0].event in starts &&
            (forall i | 0 <= i < |group| :: group[i] in mid && mid[group[i]].sentAt.None?) &&
            Stamped(mid, RowsOf(group), now) == Stamped(was, KeysOf(groups, g + 1), now) &&
            Fires(starts, was, groups, g + 1, now) ==
            Fires(starts, was, groups, g, now) +
            (if starts[group[0].event] > now
             then [Sent(group[0], mid[group[0]].token, now, starts[group[0].event])] else [])
  {
    GroupIsOpen(starts, was, groups, g, now);
    GroupDone(starts, was, groups, g, now);
  }

  function Reminder(starts: map<EventId, int>, was: map<Key, Offset>, key: Key, now: int): seq<Sent> {
    if key in was && key.event in starts && starts[key.event] > now
    then [Sent(key, was[key].token, now, starts[key.event])] else []
  }

  /** What the first `n` groups send. */
  function Fires(starts: map<EventId, int>, was: map<Key, Offset>, groups: seq<seq<Key>>, n: nat, now: int): seq<Sent>
    requires n <= |groups|
  {
    if n == 0 then []
    else
      Fires(starts, was, groups, n - 1, now) +
      (if groups[n - 1] == [] then [] else Reminder(starts, was, groups[n - 1][0], now))
  }

  lemma {:induction false} FiresAre(starts: map<EventId, int>, was: map<Key, Offset>, groups: seq<seq<Key>>, n: nat, now: int)
    requires AreGroups(groups) && n <= |groups|
    ensures forall s | s in Fires(starts, was, groups, n, now) ::
              exists g :: 0 <= g < n && s in Reminder(starts, was, groups[g][0], now)
    ensures forall g, s | 0 <= g < n && s in Reminder(starts, was, groups[g][0], now) :: s in Fires(starts, was, groups, n, now)
    ensures forall i, j | 0 <= i < j < |Fires(starts, was, groups, n, now)| ::
              Fires(starts, was, groups, n, now)[i].key.event != Fires(starts, was, groups, n, now)[j].key.event
  {
    if n > 0 {
      FiresAre(starts, was, groups, n - 1, now);
      var before := Fires(starts, was, groups, n - 1, now);
      forall s | s in before ensures s.key.event != groups[n - 1][0].event {
        var g :| 0 <= g < n - 1 && s in Reminder(starts, was, groups[g][0], now);
      }
      assert forall i | 0 <= i < |before| :: before[i] in before;
    }
  }

  lemma NearestInGroup(groups: seq<seq<Key>>, due: seq<Key>, g: nat, other: Key)
    requires AreGroups(groups) && (forall key :: Grouped(groups, key) <==> key in due) && g < |groups|
    requires other in due && other.event == groups[g][0].event
    ensures groups[g][0] in due && groups[g][0].minutes <= other.minutes
  {
  }

  lemma FiresAreOwed(starts: map<EventId, int>, was: map<Key, Offset>, due: seq<Key>, groups: seq<seq<Key>>, now: int)
    requires AreGroups(groups) && Open(starts, was, groups) && forall key :: Grouped(groups, key) <==> key in due
    ensures Owes(starts, was, due, now, Fires(starts, was, groups, |groups|, now))
  {
    var fires := Fires(starts, was, groups, |groups|, now);
    FiresAre(starts, was, groups, |groups|, now);
    forall s | s in fires
      ensures s.key in due && s.key in was && s.key.event in starts &&
              s.token == was[s.key].token && s.sweepAt == now < s.startsAt == starts[s.key.event] &&
              forall other | other in due && other.event == s.key.event :: s.key.minutes <= other.minutes
    {
      var g :| 0 <= g < |groups| && s in Reminder(starts, was, groups[g][0], now);
      NearestInGroup(groups, due, g, groups[g][0]) by {
        assert groups[g][0] in groups[g] && Grouped(groups, groups[g][0]);
      }
      forall other | other in due && other.event == s.key.event ensures s.key.minutes <= other.minutes {
        NearestInGroup(groups, due, g, other);
      }
    }
    forall key | key in due && key.event in starts && starts[key.event] > now
      ensures exists s :: s in fires && s.key.event == key.event
    {
      assert Grouped(groups, key);
      var g :| 0 <= g < |groups| && key in groups[g];
      SomeoneFires(starts, was, groups, g, now);
    }
  }

  lemma SomeoneFires(starts: map<EventId, int>, was: map<Key, Offset>, groups: seq<seq<Key>>, g: nat, now: int)
    requires Open(starts, was, groups) && g < |groups| && starts[groups[g][0].event] > now
    ensures exists s :: s in Fires(starts, was, groups, |groups|, now) && s.key.event == groups[g][0].event
  {
    FiresAre(starts, was, groups, |groups|, now);
    var s := Sent(groups[g][0], was[groups[g][0]].token, now, starts[groups[g][0].event]);
    assert s in Reminder(starts, was, groups[g][0], now);
  }

  function Stamped(offsets: map<Key, Offset>, keys: set<Key>, now: int): map<Key, Offset> {
    map key | key in offsets :: if key in keys then offsets[key].(sentAt := Some(now)) else offsets[key]
  }

  // ── Successive sweeps ──────────────────────────────────────────────────────

  /** One sweep of a run: what it found, what was due, and what it left and sent. */
  datatype Swept = Swept(was: map<Key, Offset>, due: seq<Key>, now: int, left: map<Key, Offset>, sent: seq<Sent>)

  /** Sweeps one after another, each doing what `Sweep` does, with nothing else writing the rows. */
  ghost predicate SweepRun(starts: map<EventId, int>, run: seq<Swept>) {
    (forall n | 0 <= n < |run| ::
       SweepDid(starts, run[n].was, run[n].due, run[n].now, run[n].left, run[n].sent) &&
       AreDue(starts, run[n].was, run[n].due, run[n].now)) &&
    (forall n | 0 < n < |run| :: run[n].was == run[n - 1].left && run[n].now >= run[n - 1].now)
  }

  /** Any sweep starts a run of them, and any later one on the rows it left carries it on. */
  lemma SweepsGrow(starts: map<EventId, int>, run: seq<Swept>, s: Swept)
    requires SweepDid(starts, s.was, s.due, s.now, s.left, s.sent) && AreDue(starts, s.was, s.due, s.now)
    ensures SweepRun(starts, [s])
    ensures run != [] && SweepRun(starts, run) && s.was == run[|run| - 1].left && s.now >= run[|run| - 1].now ==>
              SweepRun(starts, run + [s])
  {
    var grown := run + [s];
    assert grown[|run|] == s && forall n | 0 <= n < |run| :: grown[n] == run[n];
    assert [s][0] == s;
  }

  /** What is unresolved at a later sweep was unresolved after every earlier one. */
  lemma {:induction false} UnresolvedBefore(starts: map<EventId, int>, run: seq<Swept>, i: nat, j: nat, key: Key)
    requires SweepRun(starts, run) && i < j < |run| && key in run[j].was && run[j].was[key].sentAt.None?
    ensures key in run[i].left && run[i].left[key].sentAt.None?
    decreases j - i
  {
    if i + 1 < j {
      assert run[j].was == Stamped(run[j - 1].was, RowsOf(run[j - 1].due), run[j - 1].now);
      UnresolvedBefore(starts, run, i, j - 1, key);
    }
  }

  /**
   An event counts down: each reminder it sends is strictly nearer the start than the ones
   before, if the batch limit cut none of its due rows off the earlier sweep's list.
   */
  lemma LeadTimesDecrease(starts: map<EventId, int>, run: seq<Swept>, i: nat, j: nat, a: Sent, b: Sent)
    requires SweepRun(starts, run) && i < j < |run| && a in run[i].sent && b in run[j].sent
    requires a.key.event == b.key.event
    requires forall key | key in run[i].was && key.event == a.key.event && key.event in starts ::
               run[i].was[key].sentAt.None? && run[i].now >= starts[key.event] - key.minutes * 60_000 ==> key in run[i].due
    ensures b.key.minutes < a.key.minutes
  {
    var k :| 0 <= k < |run[j].due| && run[j].due[k] == b.key;
    UnresolvedBefore(starts, run, i, j, b.key);
    assert b.key in run[i].was && run[i].was[b.key].sentAt.None? && b.key !in RowsOf(run[i].due);
    var l :| 0 <= l < |run[i].due| && run[i].due[l] == a.key;
    assert !DueAt(starts[b.key.event], b.key.minutes, run[i].now) && DueAt(starts[a.key.event], a.key.minutes, run[i].now);
  }
}
