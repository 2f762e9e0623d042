/** What a reclaim achieves: nothing stays stranded, reclaimed platform picks outrank the
    old pool, and a dry run foretells its actions. */
module ReclaimLaws {
  import opened Wrappers
  import opened ArtifactTables
  import opened ArtifactStore
  import opened ToComposeSelection
  import opened Reclaim

  // ---------- The probe ----------

  /** Nobody claims the day and no row stands on it. */
  ghost predicate IsFree(toCompose: ToCompose, claimed: set<Day>, day: Day) {
    day !in claimed && forall k :: k in toCompose ==> k.day != day
  }

  /** The days a probe looks at. */
  const WINDOW_DAYS: nat := 366

  lemma OpenIsFree(toCompose: ToCompose, claimed: set<Day>, day: Day)
    ensures IsOpen(toCompose, claimed, day) <==> IsFree(toCompose, claimed, day)
  {
    if k :| k in toCompose && k.day == day {
      assert toCompose[k].artifact in NamedOn(toCompose, day);
    }
  }

  /** The probe returns the earliest open day of its window exactly when there is one. */
  lemma {:induction false} ProbeFinds(toCompose: ToCompose, claimed: set<Day>, cursor: Day, n: nat)
    ensures var d := Probe(toCompose, claimed, cursor, n);
            && cursor <= d <= cursor + n
            && (forall e :: cursor <= e < d ==> !IsFree(toCompose, claimed, e))
            && (d < cursor + n ==> IsFree(toCompose, claimed, d))
    decreases n
  {
    hide IsOpen, IsFree;
    OpenIsFree(toCompose, claimed, cursor);
    if n > 0 && !IsFree(toCompose, claimed, cursor) {
      ProbeFinds(toCompose, claimed, cursor + 1, n - 1);
    }
  }

  /** The days of the probe's window that are claimed or locked in. */
  ghost function Blocked(toCompose: ToCompose, claimed: set<Day>, today: Day): set<Day> {
    set d | today <= d < today + WINDOW_DAYS && !IsFree(toCompose, claimed, d)
  }

  ghost function Window(today: Day, n: nat): (days: set<Day>)
    ensures |days| == n
    ensures forall d :: d in days <==> today <= d < today + n
  {
    if n == 0 then {} else Window(today, n - 1) + {today + n - 1}
  }

  lemma {:induction false} SubsetSize<T>(a: set<T>, b: set<T>)
    requires a <= b
    ensures |a| <= |b|
  {
    if a != {} {
      var x :| x in a;
      SubsetSize(a - {x}, b - {x});
    }
  }

  /** Fewer than 366 of the next 366 days claimed or locked in, and the probe finds the earliest
      of the others: nobody claims it and no row stands on it. */
  lemma NextOpenDayIsEarliest(toCompose: ToCompose, claimed: set<Day>, today: Day)
    requires |Blocked(toCompose, claimed, today)| < WINDOW_DAYS
    ensures var d := NextOpenDay(toCompose, claimed, today);
            && today <= d < today + 366
            && d !in claimed && (forall k :: k in toCompose ==> k.day != d)
            && forall e :: today <= e < d ==> e in claimed || exists k :: k in toCompose && k.day == e
  {
    ProbeFinds(toCompose, claimed, today, WINDOW_DAYS);
    var d := NextOpenDay(toCompose, claimed, today);
    if d == today + WINDOW_DAYS {
      var window := Window(today, WINDOW_DAYS);
      assert window <= Blocked(toCompose, claimed, today);
      SubsetSize(window, Blocked(toCompose, claimed, today));
    }
    forall e | today <= e < d
      ensures e in claimed || exists k :: k in toCompose && k.day == e
    {
      assert !IsFree(toCompose, claimed, e);
    }
  }

  // ---------- Findings ----------

  ghost predicate NoAliasing(toCompose: ToCompose) {
    forall j, k :: j in toCompose && k in toCompose && toCompose[j].artifact == toCompose[k].artifact ==> j == k
  }

  /** Findings a reclaim can act on: SELECTED artifacts, each found once at a past row. */
  ghost predicate Ready(room: Room, findings: seq<Finding>, today: Day) {
    && (forall f :: f in findings ==> IsSelected(room.artifacts, f.id) && f.key.day < today)
    && (forall i, j :: 0 <= i < j < |findings| ==> findings[i].id != findings[j].id)
  }

  lemma {:induction false} StaleAreStale(room: Room, today: Day, scan: seq<SlotKey>, seen: set<Id>)
    ensures forall f :: f in StaleFrom(room, today, scan, seen) ==>
              && f.key in scan
              && IsStale(room, today, f.key)
              && f == FindingAt(room.toCompose, today, f.key)
              && f.id !in seen
  {
    if scan != [] {
      var k := scan[0];
      StaleAreStale(room, today, scan[1..], seen);
      if IsStale(room, today, k) {
        StaleAreStale(room, today, scan[1..], seen + {room.toCompose[k].artifact});
      }
    }
  }

  lemma {:induction false} StaleAreReady(room: Room, today: Day, scan: seq<SlotKey>, seen: set<Id>)
    ensures Ready(room, StaleFrom(room, today, scan, seen), today)
  {
    StaleAreStale(room, today, scan, seen);
    if scan != [] {
      var k := scan[0];
      StaleAreReady(room, today, scan[1..], seen);
      if IsStale(room, today, k) && room.toCompose[k].artifact !in seen {
        var id := room.toCompose[k].artifact;
        StaleAreReady(room, today, scan[1..], seen + {id});
        StaleAreStale(room, today, scan[1..], seen + {id});
        var rest := StaleFrom(room, today, scan[1..], seen + {id});
        forall j | 0 <= j < |rest|
          ensures rest[j].id != id
        {
          assert rest[j] in rest;
        }
      }
    }
  }

  ghost predicate Finds(findings: seq<Finding>, id: Id) {
    exists f :: f in findings && f.id == id
  }

  lemma {:induction false} StaleMissesNone(room: Room, today: Day, scan: seq<SlotKey>, seen: set<Id>, k: SlotKey)
    requires k in scan && IsStale(room, today, k)
    ensures room.toCompose[k].artifact in seen
            || Finds(StaleFrom(room, today, scan, seen), room.toCompose[k].artifact)
  {
    var id := room.toCompose[k].artifact;
    var head := scan[0];
    if IsStale(room, today, head) && room.toCompose[head].artifact !in seen {
      var first := FindingAt(room.toCompose, today, head);
      var rest := StaleFrom(room, today, scan[1..], seen + {first.id});
      assert first in [first] + rest;
      if first.id != id {
        StaleMissesNone(room, today, scan[1..], seen + {first.id}, k);
        if Finds(rest, id) {
          var f :| f in rest && f.id == id;
          assert f in [first] + rest;
        }
      }
    } else if head != k {
      StaleMissesNone(room, today, scan[1..], seen, k);
    }
  }

  // ---------- One finding ----------

  /** Nothing but its own artifact and row, apart from pins on the day it takes, changes. */
  lemma StepFrame(room: Room, f: Finding, action: Action, now: Instant)
    requires IsSelected(room.artifacts, f.id)
    ensures var next := RoomAfter(room, f, action, now);
            && next.contents == room.contents
            && next.toCompose == WithoutRow(room.toCompose, f.key)
            && next.artifacts.Keys == room.artifacts.Keys
            && (forall x :: x in room.artifacts && x != f.id ==>
                  || next.artifacts[x] == room.artifacts[x]
                  || (action.RepinnedForward? && IsPending(room.artifacts, x)
                      && room.artifacts[x].pin == Some(action.target)
                      && next.artifacts[x] == room.artifacts[x].(pin := None)))
            && match action
               case RowDeletedOnly => next.artifacts == room.artifacts
               case RepinnedForward(d) =>
                 next.artifacts[f.id] == room.artifacts[f.id].(status := Pending, pin := Some(d))
               case RevertedWithBoost(p) =>
                 next.artifacts[f.id]
                 == room.artifacts[f.id].(status := Pending, priority := p, computedAt := Some(now))
  {
    if action.RepinnedForward? {
      var reverted := Reverted(room.artifacts, f.id);
      var holders := PinHolders(PendingList(reverted), action.target, f.id);
      PendingListFacts(reverted);
      assert f.id !in holders;
      forall x | x in holders
        ensures IsPending(reverted, x) && reverted[x].pin == Some(action.target)
      {
      }
    }
  }

  lemma ReadyStep(room: Room, findings: seq<Finding>, today: Day, action: Action, now: Instant)
    requires Ready(room, findings, today) && findings != []
    ensures Takes(room, findings[0], action)
    ensures Ready(RoomAfter(room, findings[0], action, now), findings[1..], today)
  {
    hide RoomAfter, WithoutRow;
    var f := findings[0];
    assert f in findings;
    StepFrame(room, f, action, now);
    forall g | g in findings[1..]
      ensures g.id != f.id && g in findings
    {
      var i :| 0 <= i < |findings| - 1 && findings[1..][i] == g;
      assert g == findings[i + 1];
    }
  }

  // ---------- The dry run foretells the real one ----------

  /** The same finding and action, boosts aside. */
  predicate SamePlan(dry: Entry, actual: Entry) {
    && dry.finding == actual.finding
    && match dry.action
       case RevertedWithBoost(_) => actual.action.RevertedWithBoost?
       case _ => actual.action == dry.action
  }

  predicate SamePlans(dry: seq<Entry>, actual: seq<Entry>) {
    |dry| == |actual| && forall i :: 0 <= i < |dry| ==> SamePlan(dry[i], actual[i])
  }

  lemma SamePlansNone()
    ensures SamePlans([], [])
  {
  }

  lemma SamePlansCons(d: Entry, r: Entry, dry: seq<Entry>, actual: seq<Entry>)
    requires SamePlan(d, r) && SamePlans(dry, actual)
    ensures SamePlans([d] + dry, [r] + actual)
  {
  }

  lemma {:induction false} SameProbe(a: ToCompose, b: ToCompose, claimed: set<Day>, cursor: Day, n: nat)
    requires forall d :: d >= cursor ==> NamedOn(a, d) == NamedOn(b, d)
    ensures Probe(a, claimed, cursor, n) == Probe(b, claimed, cursor, n)
    decreases n
  {
    if n > 0 {
      SameProbe(a, b, claimed, cursor + 1, n - 1);
    }
  }

  lemma PastRowsLockNothing(toCompose: ToCompose, k: SlotKey, day: Day)
    requires k.day != day
    ensures NamedOn(WithoutRow(toCompose, k), day) == NamedOn(toCompose, day)
  {
  }

  /** How a pass over Ready findings unfolds: every finding is taken. */
  lemma RealStep(room: Room, findings: seq<Finding>, today: Day, now: Instant, claimed: set<Day>)
    requires Ready(room, findings, today) && findings != []
    ensures var f := findings[0];
            var action := PlannedAction(room, f, today, claimed);
            var next := RoomAfter(room, f, action, now);
            var rest := RealFrom(next, findings[1..], today, now, ClaimedAfter(claimed, action));
            && RealFrom(room, findings, today, now, claimed) == Outcome(rest.room, [Entry(f, action)] + rest.entries)
            && Ready(next, findings[1..], today)
            && f.key.day < today
            && (forall g :: g in findings ==> IsSelected(room.artifacts, g.id))
            && (forall i :: 0 < i < |findings| ==> findings[i].id != f.id)
  {
    assert findings[0] in findings;
    ReadyStep(room, findings, today, PlannedAction(room, findings[0], today, claimed), now);
  }

  lemma RealDone(room: Room, today: Day, now: Instant, claimed: set<Day>)
    ensures RealFrom(room, [], today, now, claimed) == Outcome(room, [])
  {
  }

  lemma PlannedKind(room: Room, f: Finding, today: Day, claimed: set<Day>)
    ensures var action := PlannedAction(room, f, today, claimed);
            && (f.current ==> action == RowDeletedOnly)
            && (IsHumanPick(f) ==> action.RepinnedForward?)
            && (IsPlatformPick(f) ==> action == RevertedWithBoost(BoostedPriority(room.artifacts, f.id)))
            && (!f.current ==> !action.RowDeletedOnly?)
  {
  }

  ghost predicate IsHumanPick(f: Finding) {
    f.lane == Human && !f.current
  }

  ghost predicate IsPlatformPick(f: Finding) {
    f.lane == Platform && !f.current
  }

  lemma SamePlanned(room: Room, dryRoom: Room, f: Finding, today: Day, claimed: set<Day>)
    requires forall d :: d >= today ==> NamedOn(room.toCompose, d) == NamedOn(dryRoom.toCompose, d)
    ensures var action := PlannedAction(room, f, today, claimed);
            var dryAction := PlannedAction(dryRoom, f, today, claimed);
            && SamePlan(Entry(f, dryAction), Entry(f, action))
            && ClaimedAfter(claimed, dryAction) == ClaimedAfter(claimed, action)
  {
    hide NamedOn, BoostedPriority;
    SameProbe(room.toCompose, dryRoom.toCompose, claimed, today, WINDOW_DAYS);
  }

  /** From rooms that agree on which days of today on are locked in, the dry pass and the
      real pass report the same plan, entry by entry. */
  lemma {:induction false} DryPassForetells(room: Room, dryRoom: Room, findings: seq<Finding>, today: Day, now: Instant,
                                            claimed: set<Day>)
    requires Ready(room, findings, today)
    requires forall d :: d >= today ==> NamedOn(room.toCompose, d) == NamedOn(dryRoom.toCompose, d)
    ensures var dry := DryFrom(dryRoom, findings, today, claimed);
            var actual := RealFrom(room, findings, today, now, claimed).entries;
            SamePlans(dry, actual)
    decreases |findings|
  {
    hide RoomAfter, PlannedAction, Ready, RealFrom, NamedOn, SamePlan, SamePlans, ClaimedAfter, IsSelected, WithoutRow;
    if findings == [] {
      RealDone(room, today, now, claimed);
      SamePlansNone();
    } else {
      var f := findings[0];
      var action := PlannedAction(room, f, today, claimed);
      RealStep(room, findings, today, now, claimed);
      SamePlanned(room, dryRoom, f, today, claimed);
      assert f in findings;
      StepFrame(room, f, action, now);
      var next := RoomAfter(room, f, action, now);
      forall d | d >= today
        ensures NamedOn(next.toCompose, d) == NamedOn(dryRoom.toCompose, d)
      {
        PastRowsLockNothing(room.toCompose, f.key, d);
      }
      DryPassForetells(next, dryRoom, findings[1..], today, now, ClaimedAfter(claimed, action));
      SamePlansCons(Entry(f, PlannedAction(dryRoom, f, today, claimed)), Entry(f, action),
                    DryFrom(dryRoom, findings[1..], today, ClaimedAfter(claimed, action)),
                    RealFrom(next, findings[1..], today, now, ClaimedAfter(claimed, action)).entries);
    }
  }

  /** A dry run reports the artifacts, actions and target days of the real run from the
      same state, in the same order. */
  lemma DryRunForetells(room: Room, today: Day, now: Instant, scan: seq<SlotKey>)
    ensures var dry := DryReclaim(room, today, scan);
            var actual := RealReclaim(room, today, now, scan).entries;
            SamePlans(dry, actual)
  {
    StaleAreReady(room, today, scan, {});
    DryPassForetells(room, room, Stale(room, today, scan), today, now, ClaimedDays(room.artifacts));
  }

  // ---------- Nothing stays stranded ----------

  ghost function KeysOf(findings: seq<Finding>): set<SlotKey> {
    set f | f in findings :: f.key
  }

  lemma KeysOfCons(findings: seq<Finding>)
    ensures KeysOf(findings) == if findings == [] then {} else {findings[0].key} + KeysOf(findings[1..])
  {
  }

  lemma RemovedInTurn(toCompose: ToCompose, k: SlotKey, keys: set<SlotKey>)
    ensures WithoutRow(toCompose, k) - keys == toCompose - ({k} + keys)
  {
  }

  /** A pass reports its findings in order and deletes exactly their rows. */
  lemma {:induction false} PassTables(room: Room, findings: seq<Finding>, today: Day, now: Instant, claimed: set<Day>)
    requires Ready(room, findings, today)
    ensures var out := RealFrom(room, findings, today, now, claimed);
            && out.room.contents == room.contents
            && out.room.toCompose == room.toCompose - KeysOf(findings)
            && out.room.artifacts.Keys == room.artifacts.Keys
            && |out.entries| == |findings|
            && (forall i :: 0 <= i < |findings| ==> out.entries[i].finding == findings[i])
    decreases |findings|
  {
    hide RoomAfter, RealFrom, Ready, PlannedAction, ClaimedAfter, WithoutRow, KeysOf, IsSelected;
    if findings == [] {
      RealDone(room, today, now, claimed);
      KeysOfCons([]);
    } else {
      var f, rest := findings[0], findings[1..];
      var action := PlannedAction(room, f, today, claimed);
      RealStep(room, findings, today, now, claimed);
      assert f in findings;
      StepFrame(room, f, action, now);
      PassTables(RoomAfter(room, f, action, now), rest, today, now, ClaimedAfter(claimed, action));
      KeysOfCons(findings);
      RemovedInTurn(room.toCompose, f.key, KeysOf(rest));
    }
  }

  /** It may clear the pin of an artifact it did not find, and changes nothing else of it. */
  lemma {:induction false} PassSpares(room: Room, findings: seq<Finding>, today: Day, now: Instant, claimed: set<Day>, x: Id)
    requires Ready(room, findings, today)
    requires x in room.artifacts && !Finds(findings, x)
    ensures var out := RealFrom(room, findings, today, now, claimed);
            x in out.room.artifacts
            && (out.room.artifacts[x] == room.artifacts[x] || out.room.artifacts[x] == room.artifacts[x].(pin := None))
    decreases |findings|
  {
    hide RoomAfter, RealFrom, Ready, PlannedAction, ClaimedAfter, WithoutRow, NamedOn, Finds;
    if findings == [] {
      RealDone(room, today, now, claimed);
    } else {
      var f := findings[0];
      var action := PlannedAction(room, f, today, claimed);
      RealStep(room, findings, today, now, claimed);
      NotAmongRest(findings);
      assert f in findings;
      StepFrame(room, f, action, now);
      PassSpares(RoomAfter(room, f, action, now), findings[1..], today, now, ClaimedAfter(claimed, action), x);
    }
  }

  /** The columns no selection or reclaim writes. */
  ghost predicate SameOrigin(a: Artifact, b: Artifact) {
    b.service == a.service && b.url == a.url && b.eventDate == a.eventDate && b.createdAt == a.createdAt
  }

  lemma {:induction false} PassKeepsOrigins(room: Room, findings: seq<Finding>, today: Day, now: Instant, claimed: set<Day>, x: Id)
    requires Ready(room, findings, today) && x in room.artifacts
    ensures var out := RealFrom(room, findings, today, now, claimed);
            x in out.room.artifacts && SameOrigin(room.artifacts[x], out.room.artifacts[x])
    decreases |findings|
  {
    hide RoomAfter, RealFrom, Ready, PlannedAction, ClaimedAfter, WithoutRow, NamedOn;
    if findings == [] {
      RealDone(room, today, now, claimed);
    } else {
      var f := findings[0];
      var action := PlannedAction(room, f, today, claimed);
      RealStep(room, findings, today, now, claimed);
      assert f in findings;
      StepFrame(room, f, action, now);
      PassKeepsOrigins(RoomAfter(room, f, action, now), findings[1..], today, now, ClaimedAfter(claimed, action), x);
    }
  }

  /** It moves each finding's artifact to PENDING, unless that is also currently selected. */
  lemma {:induction false} PassReverts(room: Room, findings: seq<Finding>, today: Day, now: Instant, claimed: set<Day>, i: nat)
    requires Ready(room, findings, today) && i < |findings|
    ensures var out := RealFrom(room, findings, today, now, claimed);
            var f := findings[i];
            && f.id in out.room.artifacts
            && out.room.artifacts[f.id].status == if f.current then Selected else Pending
    decreases |findings|
  {
    hide RoomAfter, RealFrom, Ready, PlannedAction, ClaimedAfter, WithoutRow, NamedOn, Finds;
    var f, rest := findings[0], findings[1..];
    var action := PlannedAction(room, f, today, claimed);
    RealStep(room, findings, today, now, claimed);
    PlannedKind(room, f, today, claimed);
    NotAmongRest(findings);
    assert f in findings;
    StepFrame(room, f, action, now);
    var next := RoomAfter(room, f, action, now);
    if i == 0 {
      PassSpares(next, rest, today, now, ClaimedAfter(claimed, action), f.id);
    } else {
      PassReverts(next, rest, today, now, ClaimedAfter(claimed, action), i - 1);
    }
  }

  /** After a real reclaim of a store without aliasing, no SELECTED artifact is named by a
      row before today, and a second reclaim finds nothing. */
  lemma ReclaimClears(room: Room, today: Day, now: Instant, scan: seq<SlotKey>, rescan: seq<SlotKey>)
    requires NoAliasing(room.toCompose) && IsScan(scan, room.toCompose)
    requires IsScan(rescan, RealReclaim(room, today, now, scan).room.toCompose)
    ensures var next := RealReclaim(room, today, now, scan).room;
            && (forall k :: k in next.toCompose && IsSelected(next.artifacts, next.toCompose[k].artifact) ==> k.day >= today)
            && Stale(next, today, rescan) == []
  {
    var findings := Stale(room, today, scan);
    var claimed := ClaimedDays(room.artifacts);
    var next := RealReclaim(room, today, now, scan).room;
    StaleAreReady(room, today, scan, {});
    PassTables(room, findings, today, now, claimed);
    forall k | k in next.toCompose && k.day < today
      ensures !IsStale(next, today, k)
    {
      NotStaleAfter(room, today, now, scan, k);
    }
    StaleAreStale(next, today, rescan, {});
    NoneMeansEmpty(Stale(next, today, rescan));
  }

  lemma NoneMeansEmpty<T>(s: seq<T>)
    ensures s == [] || exists x :: x in s
  {
    if s != [] {
      assert s[0] in s;
    }
  }

  /** Without aliasing, an artifact is found exactly when its one row is stale. */
  lemma FoundIffStale(room: Room, today: Day, scan: seq<SlotKey>, k: SlotKey)
    requires NoAliasing(room.toCompose) && IsScan(scan, room.toCompose) && k in room.toCompose
    ensures IsStale(room, today, k) <==> k in KeysOf(Stale(room, today, scan))
    ensures IsStale(room, today, k) <==> Finds(Stale(room, today, scan), room.toCompose[k].artifact)
  {
    var findings := Stale(room, today, scan);
    StaleAreStale(room, today, scan, {});
    if IsStale(room, today, k) {
      StaleMissesNone(room, today, scan, {}, k);
      var f :| f in findings && f.id == room.toCompose[k].artifact;
      assert f.key == k;
    }
  }

  lemma NotStaleAfter(room: Room, today: Day, now: Instant, scan: seq<SlotKey>, k: SlotKey)
    requires NoAliasing(room.toCompose) && IsScan(scan, room.toCompose)
    requires k in RealReclaim(room, today, now, scan).room.toCompose && k.day < today
    ensures !IsStale(RealReclaim(room, today, now, scan).room, today, k)
  {
    var findings := Stale(room, today, scan);
    var claimed := ClaimedDays(room.artifacts);
    var next := RealReclaim(room, today, now, scan).room;
    StaleAreReady(room, today, scan, {});
    PassTables(room, findings, today, now, claimed);
    FoundIffStale(room, today, scan, k);
    hide RealFrom, StaleFrom, ClaimedDays;
    var id := room.toCompose[k].artifact;
    if id in room.artifacts {
      PassSpares(room, findings, today, now, claimed, id);
    }
  }

  lemma NotAmongRest(findings: seq<Finding>)
    requires findings != []
    requires forall i :: 0 < i < |findings| ==> findings[i].id != findings[0].id
    ensures !Finds(findings[1..], findings[0].id)
    ensures forall x :: !Finds(findings, x) ==> !Finds(findings[1..], x) && x != findings[0].id
  {
  }

  /** The findings, told from the tables: each SELECTED artifact that a past row names is found
      once, at such a row and with its columns, and nothing else is found; it counts as current
      when a row of today or later names it too. */
  lemma FindingsTold(room: Room, today: Day, scan: seq<SlotKey>)
    requires IsScan(scan, room.toCompose)
    ensures var findings := Stale(room, today, scan);
            && (forall f :: f in findings ==>
                  && f.key in room.toCompose && f.key.day < today
                  && f.id == room.toCompose[f.key].artifact
                  && f.lane == room.toCompose[f.key].lane
                  && f.service == room.toCompose[f.key].service
                  && f.id in room.artifacts && room.artifacts[f.id].status == Selected
                  && (f.current <==> exists k :: k in room.toCompose && k.day >= today && room.toCompose[k].artifact == f.id))
            && (forall i, j :: 0 <= i < j < |findings| ==> findings[i].id != findings[j].id)
            && (forall k :: k in room.toCompose && k.day < today && IsSelected(room.artifacts, room.toCompose[k].artifact) ==>
                  Finds(findings, room.toCompose[k].artifact))
  {
    StaleAreStale(room, today, scan, {});
    StaleAreReady(room, today, scan, {});
    forall k | k in room.toCompose && k.day < today && IsSelected(room.artifacts, room.toCompose[k].artifact)
      ensures Finds(Stale(room, today, scan), room.toCompose[k].artifact)
    {
      StaleMissesNone(room, today, scan, {}, k);
    }
  }

  /** A reclaim deletes no row of today or later and leaves every artifact such a row has
      selected as it is, whatever past rows name it too. */
  lemma CurrentPicksStay(room: Room, today: Day, now: Instant, scan: seq<SlotKey>, k: SlotKey)
    requires IsScan(scan, room.toCompose) && k in room.toCompose && k.day >= today
    ensures var next := RealReclaim(room, today, now, scan).room;
            && k in next.toCompose && next.toCompose[k] == room.toCompose[k]
            && next.contents == room.contents
            && (IsSelected(room.artifacts, room.toCompose[k].artifact) ==>
                  var x := room.toCompose[k].artifact;
                  x in next.artifacts && next.artifacts[x] == room.artifacts[x])
  {
    var findings, claimed := Stale(room, today, scan), ClaimedDays(room.artifacts);
    var x := room.toCompose[k].artifact;
    StaleAreReady(room, today, scan, {});
    FindingsTold(room, today, scan);
    PassTables(room, findings, today, now, claimed);
    if IsSelected(room.artifacts, x) {
      forall f | f in findings && f.id == x
        ensures f.current
      {
      }
      hide StaleFrom, RealFrom, Ready, ClaimedDays, IsScan;
      PassSparesCurrent(room, findings, today, now, claimed, x);
    }
  }

  /** What is SELECTED and found only as current is not touched. */
  lemma {:induction false} PassSparesCurrent(room: Room, findings: seq<Finding>, today: Day, now: Instant, claimed: set<Day>, x: Id)
    requires Ready(room, findings, today) && IsSelected(room.artifacts, x)
    requires forall f :: f in findings && f.id == x ==> f.current
    ensures var out := RealFrom(room, findings, today, now, claimed).room;
            x in out.artifacts && out.artifacts[x] == room.artifacts[x]
    decreases |findings|
  {
    hide RoomAfter, RealFrom, Ready, PlannedAction, ClaimedAfter, WithoutRow, NamedOn;
    if findings == [] {
      RealDone(room, today, now, claimed);
    } else {
      var f := findings[0];
      var action := PlannedAction(room, f, today, claimed);
      RealStep(room, findings, today, now, claimed);
      PlannedKind(room, f, today, claimed);
      assert f in findings;
      StepFrame(room, f, action, now);
      assert forall g :: g in findings[1..] ==> g in findings;
      PassSparesCurrent(RoomAfter(room, f, action, now), findings[1..], today, now, ClaimedAfter(claimed, action), x);
    }
  }

  /** Without aliasing the rows a reclaim deletes are the past rows of SELECTED artifacts. */
  lemma StaleRowsGo(room: Room, today: Day, now: Instant, scan: seq<SlotKey>, k: SlotKey)
    requires NoAliasing(room.toCompose) && IsScan(scan, room.toCompose) && k in room.toCompose
    ensures var rows := RealReclaim(room, today, now, scan).room.toCompose;
            && (k in rows <==> !(k.day < today && IsSelected(room.artifacts, room.toCompose[k].artifact)))
            && (k in rows ==> rows[k] == room.toCompose[k])
  {
    hide RealFrom, StaleFrom;
    StaleAreReady(room, today, scan, {});
    PassTables(room, Stale(room, today, scan), today, now, ClaimedDays(room.artifacts));
    FoundIffStale(room, today, scan, k);
  }

  // ---------- Reclaimed platform picks outrank the old pool ----------

  lemma BoostTopsPending(artifacts: Artifacts, id: Id, x: Id)
    requires IsPending(artifacts, x)
    ensures artifacts[x].priority + BOOST <= BoostedPriority(artifacts, id)
  {
    var index := IndexOf(artifacts);
    var k := KeyOf(x, artifacts[x]);
    assert k in index;
    var keys := Sorted(index.Keys);
    assert k in keys;
    assert |index.Keys| == |index|;
    var i :| 0 <= i < |keys| && keys[i] == k;
    assert i > 0 ==> Before(keys[0], keys[i]);
    assert PendingList(artifacts)[0].key == keys[0];
  }

  /** Entry i of a pass puts a platform pick back at a priority above everything pending. */
  ghost predicate Boosted(room: Room, findings: seq<Finding>, out: Outcome, i: nat) {
    && i < |findings| && i < |out.entries|
    && out.entries[i].action.RevertedWithBoost?
    && var id := findings[i].id;
    && IsPending(out.room.artifacts, id)
    && out.room.artifacts[id].priority == out.entries[i].action.boosted
    && forall x :: IsPending(room.artifacts, x) ==> room.artifacts[x].priority < out.entries[i].action.boosted
  }

  lemma {:induction false} PassBoosts(room: Room, findings: seq<Finding>, today: Day, now: Instant, claimed: set<Day>, i: nat)
    requires Ready(room, findings, today)
    requires i < |findings| && IsPlatformPick(findings[i])
    ensures Boosted(room, findings, RealFrom(room, findings, today, now, claimed), i)
    decreases |findings|
  {
    hide RoomAfter, RealFrom, Ready, PlannedAction, ClaimedAfter, WithoutRow, NamedOn, BoostedPriority, IsHumanPick, IsPlatformPick;
    var f, rest := findings[0], findings[1..];
    var action := PlannedAction(room, f, today, claimed);
    RealStep(room, findings, today, now, claimed);
    PlannedKind(room, f, today, claimed);
    NotAmongRest(findings);
    assert f in findings;
    StepFrame(room, f, action, now);
    var next := RoomAfter(room, f, action, now);
    var claimedNext := ClaimedAfter(claimed, action);
    forall x | IsPending(room.artifacts, x)
      ensures IsPending(next.artifacts, x) && next.artifacts[x].priority == room.artifacts[x].priority
      ensures room.artifacts[x].priority < BoostedPriority(room.artifacts, f.id)
    {
      BoostTopsPending(room.artifacts, f.id, x);
    }
    if i == 0 {
      PassSpares(next, rest, today, now, claimedNext, f.id);
    } else {
      PassBoosts(next, rest, today, now, claimedNext, i - 1);
    }
  }

  lemma {:induction false} PassBoostsRise(room: Room, findings: seq<Finding>, today: Day, now: Instant, claimed: set<Day>,
                                          i: nat, j: nat)
    requires Ready(room, findings, today)
    requires i < j < |findings| && IsPlatformPick(findings[i]) && IsPlatformPick(findings[j])
    ensures var entries := RealFrom(room, findings, today, now, claimed).entries;
            && j < |entries|
            && entries[i].action.RevertedWithBoost? && entries[j].action.RevertedWithBoost?
            && entries[i].action.boosted < entries[j].action.boosted
    decreases |findings|
  {
    hide RoomAfter, RealFrom, Ready, PlannedAction, ClaimedAfter, WithoutRow, NamedOn, BoostedPriority, IsHumanPick, IsPlatformPick;
    var f, rest := findings[0], findings[1..];
    var action := PlannedAction(room, f, today, claimed);
    RealStep(room, findings, today, now, claimed);
    PlannedKind(room, f, today, claimed);
    assert f in findings;
    StepFrame(room, f, action, now);
    var next := RoomAfter(room, f, action, now);
    var claimedNext := ClaimedAfter(claimed, action);
    if i == 0 {
      PassBoosts(next, rest, today, now, claimedNext, j - 1);
      assert IsPending(next.artifacts, f.id);
    } else {
      PassBoostsRise(next, rest, today, now, claimedNext, i - 1, j - 1);
    }
  }

  /** The artifact precedes everything that was PENDING before. */
  ghost predicate Outranks(before: Artifacts, after: Artifacts, id: Id) {
    && IsPending(after, id)
    && forall x :: IsPending(before, x) ==>
         IsPending(after, x) && Before(KeyOf(id, after[id]), KeyOf(x, after[x]))
  }

  ghost predicate BoostsRise(findings: seq<Finding>, entries: seq<Entry>) {
    forall i, j :: 0 <= i < j < |findings| && IsPlatformPick(findings[i]) && IsPlatformPick(findings[j]) ==>
      && j < |entries|
      && entries[i].action.RevertedWithBoost? && entries[j].action.RevertedWithBoost?
      && entries[i].action.boosted < entries[j].action.boosted
  }

  lemma PassOutranks(room: Room, findings: seq<Finding>, today: Day, now: Instant, claimed: set<Day>, i: nat)
    requires Ready(room, findings, today)
    requires i < |findings| && IsPlatformPick(findings[i])
    ensures Outranks(room.artifacts, RealFrom(room, findings, today, now, claimed).room.artifacts, findings[i].id)
  {
    hide Ready, RealFrom, IsPlatformPick, IsSelected;
    PassBoosts(room, findings, today, now, claimed, i);
    FindingsAreSelected(room, findings, today);
    forall x | IsPending(room.artifacts, x)
      ensures var after := RealFrom(room, findings, today, now, claimed).room.artifacts;
              IsPending(after, x) && after[x].priority == room.artifacts[x].priority
    {
      PendingNotFound(room, findings, x);
      PassSpares(room, findings, today, now, claimed, x);
    }
  }

  lemma FindingsAreSelected(room: Room, findings: seq<Finding>, today: Day)
    requires Ready(room, findings, today)
    ensures forall f :: f in findings ==> IsSelected(room.artifacts, f.id)
  {
  }

  lemma PendingNotFound(room: Room, findings: seq<Finding>, x: Id)
    requires forall f :: f in findings ==> IsSelected(room.artifacts, f.id)
    requires IsPending(room.artifacts, x)
    ensures !Finds(findings, x)
  {
  }

  /** After a real reclaim every reclaimed platform pick precedes every artifact that was
      PENDING before the call, and boosts rise strictly in processing order. */
  lemma PlatformPicksOutrank(room: Room, today: Day, now: Instant, scan: seq<SlotKey>)
    ensures var findings := Stale(room, today, scan);
            var out := RealReclaim(room, today, now, scan);
            && (forall i :: 0 <= i < |findings| && IsPlatformPick(findings[i]) ==>
                  Outranks(room.artifacts, out.room.artifacts, findings[i].id))
            && BoostsRise(findings, out.entries)
  {
    hide ClaimedDays, RealFrom, StaleFrom, IsPlatformPick, Outranks, Ready;
    var findings := Stale(room, today, scan);
    var claimed := ClaimedDays(room.artifacts);
    StaleAreReady(room, today, scan, {});
    forall i | 0 <= i < |findings| && IsPlatformPick(findings[i])
      ensures Outranks(room.artifacts, RealReclaim(room, today, now, scan).room.artifacts, findings[i].id)
    {
      PassOutranks(room, findings, today, now, claimed, i);
    }
    forall i, j | 0 <= i < j < |findings| && IsPlatformPick(findings[i]) && IsPlatformPick(findings[j])
      ensures var entries := RealReclaim(room, today, now, scan).entries;
              && j < |entries|
              && entries[i].action.RevertedWithBoost? && entries[j].action.RevertedWithBoost?
              && entries[i].action.boosted < entries[j].action.boosted
    {
      PassBoostsRise(room, findings, today, now, claimed, i, j);
    }
  }
}
