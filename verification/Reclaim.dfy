/** Carrying forward picks that were never composed: `find_stale_selected_artifacts` and
    `reclaim_stale_selected_artifacts`. */
module Reclaim {
  import opened Wrappers
  import opened ArtifactTables
  import opened ArtifactStore
  import opened ToComposeSelection

  // ---------- Findings ----------

  datatype Finding = Finding(id: Id, key: SlotKey, lane: Lane, service: string, current: bool)

  /** A full-table scan returns every row once, in an order of the store's choosing. */
  ghost predicate IsScan(scan: seq<SlotKey>, toCompose: ToCompose) {
    && (forall k :: k in scan <==> k in toCompose)
    && (forall i, j :: 0 <= i < j < |scan| ==> scan[i] != scan[j])
  }

  /** The artifacts named by rows of `today` or later. */
  function CurrentIds(toCompose: ToCompose, today: Day): set<Id> {
    set k | k in toCompose && k.day >= today :: toCompose[k].artifact
  }

  function FindingAt(toCompose: ToCompose, today: Day, k: SlotKey): Finding
    requires k in toCompose
  {
    var row := toCompose[k];
    Finding(row.artifact, k, row.lane, row.service, row.artifact in CurrentIds(toCompose, today))
  }

  predicate IsStale(room: Room, today: Day, k: SlotKey) {
    k in room.toCompose && k.day < today && IsSelected(room.artifacts, room.toCompose[k].artifact)
  }

  /** The findings of the rest of a scan, given the artifacts already found. */
  function StaleFrom(room: Room, today: Day, scan: seq<SlotKey>, seen: set<Id>): seq<Finding> {
    if scan == [] then []
    else
      var k := scan[0];
      if IsStale(room, today, k) && room.toCompose[k].artifact !in seen
      then [FindingAt(room.toCompose, today, k)]
           + StaleFrom(room, today, scan[1..], seen + {room.toCompose[k].artifact})
      else StaleFrom(room, today, scan[1..], seen)
  }

  function Stale(room: Room, today: Day, scan: seq<SlotKey>): seq<Finding> {
    StaleFrom(room, today, scan, {})
  }

  method FindStaleSelectedArtifacts(store: Store, today: Day, scan: seq<SlotKey>) returns (stale: seq<Finding>)
    requires IsScan(scan, store.toCompose)
    ensures stale == Stale(store.View(), today, scan)
  {
    ghost var room := store.View();
    var current := set k | k in store.toCompose && k.day >= today :: store.toCompose[k].artifact;
    assert current == CurrentIds(store.toCompose, today);
    stale := [];
    var seen: set<Id> := {};
    for i := 0 to |scan|
      invariant stale + StaleFrom(room, today, scan[i..], seen) == Stale(room, today, scan)
    {
      var k := scan[i];
      assert k in scan;
      if k.day >= today {
        continue;
      }
      var row := store.toCompose[k];
      if row.artifact in seen {
        continue;
      }
      if IsSelected(store.artifacts, row.artifact) {
        seen := seen + {row.artifact};
        var found := Finding(row.artifact, k, row.lane, row.service, row.artifact in current);
        AppendMoves(stale, found, StaleFrom(room, today, scan[i + 1..], seen));
        stale := stale + [found];
      }
    }
    assert scan[|scan|..] == [];
    assert stale + [] == stale;
  }

  // ---------- The pin probe ----------

  const PROBE_DAYS: nat := 366

  /** A day nobody has claimed and no selection has locked in. */
  predicate IsOpen(toCompose: ToCompose, claimed: set<Day>, day: Day) {
    day !in claimed && NamedOn(toCompose, day) == {}
  }

  /** The earliest open day among the next n, or the day after them. */
  function Probe(toCompose: ToCompose, claimed: set<Day>, cursor: Day, n: nat): Day
    decreases n
  {
    if n == 0 || IsOpen(toCompose, claimed, cursor) then cursor
    else Probe(toCompose, claimed, cursor + 1, n - 1)
  }

  function NextOpenDay(toCompose: ToCompose, claimed: set<Day>, today: Day): Day {
    Probe(toCompose, claimed, today, PROBE_DAYS)
  }

  method NextOpenDayForPin(store: Store, startDay: Day, claimed: set<Day>) returns (day: Day)
    ensures day == NextOpenDay(store.toCompose, claimed, startDay)
  {
    var cursor := startDay;
    var left: nat := PROBE_DAYS;
    while left > 0
      invariant Probe(store.toCompose, claimed, cursor, left) == NextOpenDay(store.toCompose, claimed, startDay)
    {
      RowsForDayName(store.toCompose, cursor);
      if cursor !in claimed && RowsForDay(store.toCompose, cursor) == [] {
        return cursor;
      }
      cursor := cursor + 1;
      left := left - 1;
    }
    return cursor;
  }

  // ---------- Reclaiming one finding ----------

  datatype Action = RowDeletedOnly | RepinnedForward(target: Day) | RevertedWithBoost(boosted: real)

  datatype Entry = Entry(finding: Finding, action: Action)

  const BOOST: real := 1.0

  function Max(x: real, y: real): real {
    if x < y then y else x
  }

  /** One above the head of the pending listing and the artifact's own priority. */
  function BoostedPriority(artifacts: Artifacts, id: Id): real {
    var pending := PendingList(artifacts);
    var top := if pending == [] then 0.0 else pending[0].key.priority;
    var own := if id in artifacts then artifacts[id].priority else 0.0;
    Max(top, own) + BOOST
  }

  /** What a dry run reports for a finding, and what a real run does about it. */
  function PlannedAction(room: Room, f: Finding, today: Day, claimed: set<Day>): Action {
    if f.current then RowDeletedOnly
    else if f.lane == Human then RepinnedForward(NextOpenDay(room.toCompose, claimed, today))
    else RevertedWithBoost(BoostedPriority(room.artifacts, f.id))
  }

  function ClaimedAfter(claimed: set<Day>, action: Action): set<Day> {
    match action
    case RepinnedForward(target) => claimed + {target}
    case _ => claimed
  }

  function WithoutRow(toCompose: ToCompose, k: SlotKey): ToCompose {
    toCompose - {k}
  }

  /** A row is only deleted once its artifact has been moved back, except when the artifact
      is also selected for a current day. */
  function Takes(room: Room, f: Finding, action: Action): bool {
    action.RowDeletedOnly? || IsSelected(room.artifacts, f.id)
  }

  function ArtifactsAfter(artifacts: Artifacts, id: Id, action: Action, now: Instant): Artifacts {
    match action
    case RowDeletedOnly => artifacts
    case RepinnedForward(target) => PinnedFor(Reverted(artifacts, id), id, target)
    case RevertedWithBoost(boosted) => WithPriority(Reverted(artifacts, id), id, boosted, now)
  }

  function RoomAfter(room: Room, f: Finding, action: Action, now: Instant): Room {
    if Takes(room, f, action)
    then room.(artifacts := ArtifactsAfter(room.artifacts, f.id, action, now),
               toCompose := WithoutRow(room.toCompose, f.key))
    else room
  }

  // ---------- Whole passes ----------

  function DryFrom(room: Room, findings: seq<Finding>, today: Day, claimed: set<Day>): seq<Entry> {
    if findings == [] then []
    else
      var action := PlannedAction(room, findings[0], today, claimed);
      [Entry(findings[0], action)] + DryFrom(room, findings[1..], today, ClaimedAfter(claimed, action))
  }

  datatype Outcome = Outcome(room: Room, entries: seq<Entry>)

  function RealFrom(room: Room, findings: seq<Finding>, today: Day, now: Instant, claimed: set<Day>): Outcome
    decreases |findings|
  {
    if findings == [] then Outcome(room, [])
    else
      var f := findings[0];
      var action := PlannedAction(room, f, today, claimed);
      var rest := RealFrom(RoomAfter(room, f, action, now), findings[1..], today, now, ClaimedAfter(claimed, action));
      Outcome(rest.room, (if Takes(room, f, action) then [Entry(f, action)] else []) + rest.entries)
  }

  function PinnedDays(rows: seq<Listed>): set<Day> {
    set r | r in rows && r.row.pin.Some? :: r.row.pin.value
  }

  /** The days that listed pending artifacts are pinned for. */
  function ClaimedDays(artifacts: Artifacts): set<Day> {
    PinnedDays(PendingList(artifacts))
  }

  lemma ClaimedDaysArePinned(artifacts: Artifacts)
    ensures ClaimedDays(artifacts) == PinnedDays(PendingList(artifacts))
  {
  }

  function DryReclaim(room: Room, today: Day, scan: seq<SlotKey>): seq<Entry> {
    DryFrom(room, Stale(room, today, scan), today, ClaimedDays(room.artifacts))
  }

  function RealReclaim(room: Room, today: Day, now: Instant, scan: seq<SlotKey>): Outcome {
    RealFrom(room, Stale(room, today, scan), today, now, ClaimedDays(room.artifacts))
  }

  /** One iteration of the reclaim loop. */
  method ReclaimOne(store: Store, f: Finding, today: Day, now: Instant, claimed: set<Day>, dryRun: bool)
    returns (taken: bool, action: Action)
    requires store.Valid()
    modifies store
    ensures store.Valid()
    ensures action == PlannedAction(old(store.View()), f, today, claimed)
    ensures taken == (dryRun || Takes(old(store.View()), f, action))
    ensures store.View() == if dryRun then old(store.View()) else RoomAfter(old(store.View()), f, action, now)
  {
    hide IndexOf, PinnedFor, WithPriority;
    if f.current {
      if !dryRun {
        store.toCompose := store.toCompose - {f.key};
      }
      return true, RowDeletedOnly;
    }
    if f.lane == Human {
      var target := NextOpenDayForPin(store, today, claimed);
      action := RepinnedForward(target);
      if dryRun {
        return true, action;
      }
      var reverted := store.RevertArtifactToPending(f.id);
      if reverted {
        var _ := store.PinArtifactForDay(f.id, target);
        store.toCompose := store.toCompose - {f.key};
      }
      return reverted, action;
    }
    var pendingNow := store.ListPendingArtifacts();
    var top := if pendingNow == [] then 0.0 else pendingNow[0].key.priority;
    var own := if f.id in store.artifacts then store.artifacts[f.id].priority else 0.0;
    var boosted := Max(top, own) + BOOST;
    action := RevertedWithBoost(boosted);
    if dryRun {
      return true, action;
    }
    var reverted := store.RevertArtifactToPending(f.id);
    if reverted {
      store.UpdateArtifactPriority(f.id, boosted, now);
      store.toCompose := store.toCompose - {f.key};
    }
    return reverted, action;
  }

  lemma DryUnfold(room: Room, stale: seq<Finding>, i: nat, today: Day, claimed: set<Day>, done: seq<Entry>)
    requires i < |stale|
    ensures var action := PlannedAction(room, stale[i], today, claimed);
            done + DryFrom(room, stale[i..], today, claimed)
            == done + [Entry(stale[i], action)] + DryFrom(room, stale[i + 1..], today, ClaimedAfter(claimed, action))
  {
  }

  lemma RealUnfold(room: Room, stale: seq<Finding>, i: nat, today: Day, now: Instant, claimed: set<Day>, done: seq<Entry>)
    requires i < |stale|
    ensures var action := PlannedAction(room, stale[i], today, claimed);
            var whole := RealFrom(room, stale[i..], today, now, claimed);
            var rest := RealFrom(RoomAfter(room, stale[i], action, now), stale[i + 1..], today, now,
                                 ClaimedAfter(claimed, action));
            && whole.room == rest.room
            && done + whole.entries
               == (if Takes(room, stale[i], action) then done + [Entry(stale[i], action)] else done) + rest.entries
  {
    hide PlannedAction, RoomAfter, Takes, ClaimedAfter;
    assert stale[i..][1..] == stale[i + 1..] && stale[i..][0] == stale[i];
  }

  lemma ReclaimDone(room: Room, stale: seq<Finding>, today: Day, now: Instant, claimed: set<Day>, done: seq<Entry>)
    ensures done + DryFrom(room, stale[|stale|..], today, claimed) == done
    ensures var rest := RealFrom(room, stale[|stale|..], today, now, claimed);
            rest.room == room && done + rest.entries == done
  {
  }

  method ReclaimStaleSelectedArtifacts(store: Store, today: Day, now: Instant, scan: seq<SlotKey>, dryRun: bool)
    returns (reclaimed: seq<Entry>)
    requires store.Valid()
    requires IsScan(scan, store.toCompose)
    modifies store
    ensures store.Valid()
    ensures dryRun ==>
              store.View() == old(store.View()) && reclaimed == DryReclaim(old(store.View()), today, scan)
    ensures !dryRun ==>
              Outcome(store.View(), reclaimed) == RealReclaim(old(store.View()), today, now, scan)
  {
    hide IndexOf, PendingList, PlannedAction, RoomAfter, Takes, Stale, DryFrom, RealFrom, ClaimedDays, ClaimedAfter, IsScan;
    ghost var room := store.View();
    var stale := FindStaleSelectedArtifacts(store, today, scan);
    var pending := store.ListPendingArtifacts();
    var claimed := PinnedDays(pending);
    ghost var seed := claimed;
    ClaimedDaysArePinned(room.artifacts);
    reclaimed := [];
    assert stale[0..] == stale;
    for i := 0 to |stale|
      invariant store.Valid()
      invariant dryRun ==> store.View() == room
      invariant dryRun ==> DryFrom(room, stale, today, seed) == reclaimed + DryFrom(room, stale[i..], today, claimed)
      invariant !dryRun ==>
                  var rest := RealFrom(store.View(), stale[i..], today, now, claimed);
                  RealFrom(room, stale, today, now, seed) == Outcome(rest.room, reclaimed + rest.entries)
    {
      DryUnfold(store.View(), stale, i, today, claimed, reclaimed);
      RealUnfold(store.View(), stale, i, today, now, claimed, reclaimed);
      var taken, action := ReclaimOne(store, stale[i], today, now, claimed, dryRun);
      claimed := ClaimedAfter(claimed, action);
      if taken {
        reclaimed := reclaimed + [Entry(stale[i], action)];
      }
    }
    ReclaimDone(store.View(), stale, today, now, claimed, reclaimed);
  }
}
