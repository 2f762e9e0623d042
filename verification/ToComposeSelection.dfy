/** Day-ahead selection: filling a day's `to_compose` rows, and undoing it. */
module ToComposeSelection {
  import opened Wrappers
  import opened ArtifactTables
  import opened ArtifactStore
  import opened PlatformRanking

  // ---------- What select and reset mean ----------

  /** The first listed artifact pinned for the day. */
  function FirstPinned(rows: seq<Listed>, day: Day): Option<Listed> {
    if rows == [] then None
    else if rows[0].row.pin == Some(day) then Some(rows[0])
    else FirstPinned(rows[1..], day)
  }

  function HumanPick(artifacts: Artifacts, day: Day): Option<Listed> {
    FirstPinned(PendingList(artifacts), day)
  }

  function PlatformSlots(cfg: Config, human: Option<Listed>): nat {
    var n := cfg.maxPerDay - if human.Some? then 1 else 0;
    if n > 0 then n else 0
  }

  function PlatformPicks(artifacts: Artifacts, day: Day, cfg: Config, published: set<string>): seq<Listed> {
    var human := HumanPick(artifacts, day);
    RankedPicks(PendingList(artifacts), human, PlatformSlots(cfg, human), cfg.newServiceShare, published)
  }

  function AsSeq(human: Option<Listed>): seq<Listed> {
    match human
    case None => []
    case Some(r) => [r]
  }

  /** The day's lineup in slot order: the human pick, if any, then the platform picks. */
  function LineupOf(artifacts: Artifacts, day: Day, cfg: Config, published: set<string>): seq<Listed> {
    AsSeq(HumanPick(artifacts, day)) + PlatformPicks(artifacts, day, cfg, published)
  }

  function LaneOf(slot: nat, hasHuman: bool): Lane {
    if hasHuman && slot == 0 then Human else Platform
  }

  function SlotKeys(day: Day, n: nat): (keys: set<SlotKey>)
    ensures forall k :: k in keys <==> k.day == day && k.slot < n
  {
    set i | 0 <= i < n :: SlotKey(day, i)
  }

  function DayRows(day: Day, now: Instant, lineup: seq<Listed>, hasHuman: bool): ToCompose {
    map k | k in SlotKeys(day, |lineup|) ::
      Slot(lineup[k.slot].key.id, LaneOf(k.slot, hasHuman), lineup[k.slot].row.service, now)
  }

  /** The rows of other days that name none of `ids`. */
  function Kept(toCompose: ToCompose, day: Day, ids: set<Id>): ToCompose {
    map k | k in toCompose && k.day != day && toCompose[k].artifact !in ids :: toCompose[k]
  }

  function MarkedAll(artifacts: Artifacts, ids: set<Id>, status: Status): Artifacts {
    map x | x in artifacts :: if x in ids then artifacts[x].(status := status) else artifacts[x]
  }

  /** The room once `lineup` occupies the day: its artifacts are SELECTED and named by the
      day's rows alone. */
  function Placed(room: Room, day: Day, now: Instant, lineup: seq<Listed>, hasHuman: bool): Room {
    Room(MarkedAll(room.artifacts, IdsOf(lineup), Selected),
         room.contents,
         Kept(room.toCompose, day, IdsOf(lineup)) + DayRows(day, now, lineup, hasHuman))
  }

  function SelectedFor(room: Room, day: Day, now: Instant, cfg: Config, published: set<string>): Room {
    Placed(room, day, now, LineupOf(room.artifacts, day, cfg, published), HumanPick(room.artifacts, day).Some?)
  }

  /** The artifacts a day's rows name. */
  function NamedOn(toCompose: ToCompose, day: Day): set<Id> {
    set k | k in toCompose && k.day == day :: toCompose[k].artifact
  }

  function WithoutDay(toCompose: ToCompose, day: Day): ToCompose {
    map k | k in toCompose && k.day != day :: toCompose[k]
  }

  function RevertedAll(artifacts: Artifacts, ids: set<Id>): Artifacts {
    map x | x in artifacts ::
      if x in ids && artifacts[x].status == Selected then artifacts[x].(status := Pending) else artifacts[x]
  }

  function ResetFor(room: Room, day: Day): Room {
    Room(RevertedAll(room.artifacts, NamedOn(room.toCompose, day)),
         room.contents,
         WithoutDay(room.toCompose, day))
  }

  // ---------- Placing one slot ----------

  function Purged(toCompose: ToCompose, id: Id): ToCompose {
    map k | k in toCompose && toCompose[k].artifact != id :: toCompose[k]
  }

  /** `_insert_slot` on the room. */
  function WithSlot(room: Room, key: SlotKey, row: Slot): Room {
    Room(Marked(room.artifacts, row.artifact, Selected),
         room.contents,
         Purged(room.toCompose, row.artifact)[key := row])
  }

  lemma PlaceNone(room: Room, day: Day, now: Instant, lineup: seq<Listed>, hasHuman: bool)
    ensures Placed(room, day, now, lineup[..0], hasHuman) == room.(toCompose := WithoutDay(room.toCompose, day))
  {
  }

  lemma PlaceOneMore(room: Room, day: Day, now: Instant, lineup: seq<Listed>, hasHuman: bool, i: nat)
    requires DistinctIds(lineup) && i < |lineup|
    requires lineup[i].key.id in room.artifacts
    ensures var r := lineup[i];
            Placed(room, day, now, lineup[..i + 1], hasHuman)
            == WithSlot(Placed(room, day, now, lineup[..i], hasHuman), SlotKey(day, i),
                        Slot(r.key.id, LaneOf(i, hasHuman), r.row.service, now))
  {
    var r := lineup[i];
    var before, after := lineup[..i], lineup[..i + 1];
    assert IdsOf(after) == IdsOf(before) + {r.key.id} by {
      assert after == before + [r];
    }
    assert MarkedAll(room.artifacts, IdsOf(after), Selected)
        == Marked(MarkedAll(room.artifacts, IdsOf(before), Selected), r.key.id, Selected);
    PlaceRowsOneMore(room.toCompose, day, now, lineup, hasHuman, i);
  }

  lemma KeptOneLess(toCompose: ToCompose, day: Day, ids: set<Id>, id: Id)
    ensures Kept(toCompose, day, ids + {id}) == Purged(Kept(toCompose, day, ids), id)
  {
  }

  lemma DayRowsOneMore(day: Day, now: Instant, lineup: seq<Listed>, hasHuman: bool, i: nat)
    requires DistinctIds(lineup) && i < |lineup|
    ensures var r := lineup[i];
            DayRows(day, now, lineup[..i + 1], hasHuman)
            == Purged(DayRows(day, now, lineup[..i], hasHuman), r.key.id)
                 [SlotKey(day, i) := Slot(r.key.id, LaneOf(i, hasHuman), r.row.service, now)]
  {
    forall j: nat | j < i
      ensures lineup[..i + 1][j] == lineup[..i][j] == lineup[j] && lineup[j].key.id != lineup[i].key.id
    {
    }
  }

  lemma PurgedSum(a: ToCompose, b: ToCompose, id: Id)
    requires a.Keys !! b.Keys
    ensures Purged(a + b, id) == Purged(a, id) + Purged(b, id)
  {
  }

  lemma PlaceRowsOneMore(toCompose: ToCompose, day: Day, now: Instant, lineup: seq<Listed>, hasHuman: bool, i: nat)
    requires DistinctIds(lineup) && i < |lineup|
    requires IdsOf(lineup[..i + 1]) == IdsOf(lineup[..i]) + {lineup[i].key.id}
    ensures var r := lineup[i];
            Kept(toCompose, day, IdsOf(lineup[..i + 1])) + DayRows(day, now, lineup[..i + 1], hasHuman)
            == Purged(Kept(toCompose, day, IdsOf(lineup[..i])) + DayRows(day, now, lineup[..i], hasHuman), r.key.id)
                 [SlotKey(day, i) := Slot(r.key.id, LaneOf(i, hasHuman), r.row.service, now)]
  {
    var r := lineup[i];
    KeptOneLess(toCompose, day, IdsOf(lineup[..i]), r.key.id);
    DayRowsOneMore(day, now, lineup, hasHuman, i);
    var kept, rows := Kept(toCompose, day, IdsOf(lineup[..i])), DayRows(day, now, lineup[..i], hasHuman);
    assert kept.Keys !! rows.Keys;
    hide *;
    PurgedSum(kept, rows, r.key.id);
    SumThenUpdate(Purged(kept, r.key.id), Purged(rows, r.key.id), SlotKey(day, i),
                  Slot(r.key.id, LaneOf(i, hasHuman), r.row.service, now));
  }

  lemma {:induction false} FirstPinnedFacts(rows: seq<Listed>, day: Day)
    ensures var h := FirstPinned(rows, day);
            if h.Some? then h.value in rows && h.value.row.pin == Some(day)
            else forall r :: r in rows ==> r.row.pin != Some(day)
  {
    if rows != [] && rows[0].row.pin != Some(day) {
      FirstPinnedFacts(rows[1..], day);
      assert rows == [rows[0]] + rows[1..];
    }
  }

  lemma PicksFacts(pending: seq<Listed>, human: Option<Listed>, n: nat, share: real, published: set<string>)
    requires SortedListing(pending) && DistinctIds(pending)
    ensures var picks := RankedPicks(pending, human, n, share, published);
            && (forall r :: r in picks ==> r in pending && !Skipped(r, human, {}))
            && DistinctIds(picks) && DistinctServices(picks)
  {
    EligibleKeepsOrder(pending, human, {});
    EligibleAreListed(pending, human, {});
    EligibleServices(pending, human, {});
    var eligible := Eligible(pending, human);
    OnlyKeepsOrder(eligible, ChosenIds(eligible, n, share, published));
    hide Only, ChosenIds, EligibleFrom;
  }

  lemma HumanFirst(h: Listed, picks: seq<Listed>)
    requires DistinctIds(picks) && DistinctServices(picks)
    requires forall r :: r in picks ==> !Skipped(r, Some(h), {})
    ensures DistinctIds([h] + picks) && DistinctServices([h] + picks)
  {
    forall j | 0 <= j < |picks|
      ensures picks[j].key.id != h.key.id
      ensures picks[j].row.service != "" ==> picks[j].row.service != h.row.service
    {
      assert picks[j] in picks;
    }
  }

  /** Every artifact of a lineup is PENDING, and no artifact or named service occurs twice. */
  lemma LineupFacts(artifacts: Artifacts, day: Day, cfg: Config, published: set<string>)
    ensures var lineup := LineupOf(artifacts, day, cfg, published);
            && (forall r :: r in lineup ==>
                  && IsPending(artifacts, r.key.id)
                  && r == Listed(KeyOf(r.key.id, artifacts[r.key.id]), RowOf(artifacts[r.key.id])))
            && DistinctIds(lineup)
            && DistinctServices(lineup)
  {
    PendingListFacts(artifacts);
    hide PendingList, RankedPicks;
    var pending := PendingList(artifacts);
    var human := HumanPick(artifacts, day);
    var picks := PlatformPicks(artifacts, day, cfg, published);
    FirstPinnedFacts(pending, day);
    PicksFacts(pending, human, PlatformSlots(cfg, human), cfg.newServiceShare, published);
    if human.Some? {
      HumanFirst(human.value, picks);
      assert LineupOf(artifacts, day, cfg, published) == [human.value] + picks;
    } else {
      assert LineupOf(artifacts, day, cfg, published) == picks;
    }
  }

  // ---------- The code ----------

  method DeleteForDay(store: Store, day: Day)
    modifies store`toCompose
    ensures store.toCompose == WithoutDay(old(store.toCompose), day)
  {
    store.toCompose := map k | k in store.toCompose && k.day != day :: store.toCompose[k];
  }

  method PurgeOtherToComposeRows(store: Store, id: Id)
    modifies store`toCompose
    ensures store.toCompose == Purged(old(store.toCompose), id)
  {
    var rest := store.toCompose.Keys;
    while rest != {}
      invariant rest <= store.toCompose.Keys <= old(store.toCompose).Keys
      invariant forall k :: k in store.toCompose ==> store.toCompose[k] == old(store.toCompose)[k]
      invariant forall k :: k in old(store.toCompose) && (k in rest || old(store.toCompose)[k].artifact != id) ==>
                  k in store.toCompose
      invariant forall k :: k in store.toCompose && k !in rest ==> store.toCompose[k].artifact != id
      decreases |rest|
    {
      var k :| k in rest;
      if store.toCompose[k].artifact == id {
        store.toCompose := store.toCompose - {k};
      }
      rest := rest - {k};
    }
  }

  method InsertSlot(store: Store, day: Day, slot: nat, r: Listed, lane: Lane, now: Instant)
    requires store.Valid()
    requires IsPending(store.artifacts, r.key.id)
    modifies store
    ensures store.Valid()
    ensures store.View() == WithSlot(old(store.View()), SlotKey(day, slot), Slot(r.key.id, lane, r.row.service, now))
  {
    PurgeOtherToComposeRows(store, r.key.id);
    store.toCompose := store.toCompose[SlotKey(day, slot) := Slot(r.key.id, lane, r.row.service, now)];
    store.MarkArtifactStatus(r.key.id, Selected);
  }

  method FindPinned(rows: seq<Listed>, day: Day) returns (human: Option<Listed>)
    ensures human == FirstPinned(rows, day)
  {
    for i := 0 to |rows|
      invariant FirstPinned(rows[i..], day) == FirstPinned(rows, day)
    {
      if rows[i].row.pin == Some(day) {
        return Some(rows[i]);
      }
    }
    return None;
  }

  method SelectToComposeForDay(store: Store, day: Day, now: Instant, cfg: Config, published: set<string>)
    returns (human: Option<Listed>, picks: seq<Listed>)
    requires store.Valid()
    modifies store
    ensures store.Valid()
    ensures store.View() == SelectedFor(old(store.View()), day, now, cfg, published)
    ensures human == HumanPick(old(store.artifacts), day)
    ensures picks == PlatformPicks(old(store.artifacts), day, cfg, published)
  {
    ghost var room := store.View();
    DeleteForDay(store, day);
    var pending := store.ListPendingArtifacts();
    human := FindPinned(pending, day);
    var platformN := PlatformSlots(cfg, human);
    picks := RankPlatformPicks(pending, human, platformN, cfg.newServiceShare, published);
    LineupFacts(room.artifacts, day, cfg, published);
    hide IndexOf, PendingList, FirstPinned, RankedPicks, Placed, PlatformSlots, DistinctServices;
    assert LineupOf(room.artifacts, day, cfg, published) == AsSeq(human) + picks;
    InsertLineup(store, room, day, now, human, picks);
  }

  /** The slot-by-slot part of SelectToComposeForDay. */
  method InsertLineup(store: Store, ghost room: Room, day: Day, now: Instant,
                      human: Option<Listed>, picks: seq<Listed>)
    requires store.Valid()
    requires store.View() == room.(toCompose := WithoutDay(room.toCompose, day))
    requires DistinctIds(AsSeq(human) + picks)
    requires forall r :: r in AsSeq(human) + picks ==> IsPending(room.artifacts, r.key.id)
    modifies store
    ensures store.Valid()
    ensures store.View() == Placed(room, day, now, AsSeq(human) + picks, human.Some?)
  {
    hide IndexOf, Placed, WithSlot;
    ghost var lineup := AsSeq(human) + picks;
    PlaceNone(room, day, now, lineup, human.Some?);
    var slot: nat := 0;
    if human.Some? {
      assert lineup[0] == human.value;
      PlaceOneMore(room, day, now, lineup, true, 0);
      InsertSlot(store, day, slot, human.value, Human, now);
      slot := slot + 1;
    }
    ghost var first := slot;
    assert first == |AsSeq(human)|;
    for i := 0 to |picks|
      invariant slot == first + i
      invariant store.Valid()
      invariant store.View() == Placed(room, day, now, lineup[..slot], human.Some?)
    {
      assert lineup[slot] == picks[i];
      PlaceOneMore(room, day, now, lineup, human.Some?, slot);
      StillPending(room, day, now, lineup, human.Some?, slot);
      InsertSlot(store, day, slot, picks[i], Platform, now);
      slot := slot + 1;
    }
    assert lineup[..slot] == lineup;
  }

  lemma StillPending(room: Room, day: Day, now: Instant, lineup: seq<Listed>, hasHuman: bool, i: nat)
    requires i < |lineup| && DistinctIds(lineup) && IsPending(room.artifacts, lineup[i].key.id)
    ensures IsPending(Placed(room, day, now, lineup[..i], hasHuman).artifacts, lineup[i].key.id)
  {
  }

  // ---------- Reset ----------

  function SlotsOf(toCompose: ToCompose, day: Day): (slots: set<nat>)
    ensures forall i :: i in slots <==> SlotKey(day, i) in toCompose
  {
    set k | k in toCompose && k.day == day :: k.slot
  }

  predicate IsLeast(i: nat, slots: set<nat>) {
    i in slots && forall j :: j in slots ==> i <= j
  }

  lemma LeastExists(slots: set<nat>)
    requires slots != {}
    ensures exists i :: IsLeast(i, slots)
  {
    var x :| x in slots;
    assert forall j :: j in slots ==> j == x || j in slots - {x};
    if slots - {x} == {} {
      assert IsLeast(x, slots);
    } else {
      LeastExists(slots - {x});
      var y :| IsLeast(y, slots - {x});
      assert IsLeast(if x < y then x else y, slots);
    }
  }

  function Ascending(slots: set<nat>): seq<nat> {
    if slots == {} then []
    else
      LeastExists(slots);
      var i :| IsLeast(i, slots);
      [i] + Ascending(slots - {i})
  }

  lemma {:induction false} AscendingFacts(slots: set<nat>)
    ensures forall i :: i in Ascending(slots) <==> i in slots
    ensures forall i, j :: 0 <= i < j < |Ascending(slots)| ==> Ascending(slots)[i] < Ascending(slots)[j]
  {
    if slots != {} {
      var first := Ascending(slots)[0];
      var rest := Ascending(slots - {first});
      AscendingFacts(slots - {first});
      forall j | 0 <= j < |rest|
        ensures first < rest[j]
      {
        assert rest[j] in rest;
      }
    }
  }

  /** `list_to_compose_for_day`: the day's rows in slot order. */
  function RowsForDay(toCompose: ToCompose, day: Day): seq<Slot> {
    var slots := Ascending(SlotsOf(toCompose, day));
    AscendingFacts(SlotsOf(toCompose, day));
    seq(|slots|, i requires 0 <= i < |slots| => assert slots[i] in slots; toCompose[SlotKey(day, slots[i])])
  }

  /** They are the rows stored for the day, each once, by rising slot. */
  lemma RowsForDayInOrder(toCompose: ToCompose, day: Day) returns (slots: seq<nat>)
    ensures forall i: nat :: i in slots <==> SlotKey(day, i) in toCompose
    ensures forall i, j :: 0 <= i < j < |slots| ==> slots[i] < slots[j]
    ensures |RowsForDay(toCompose, day)| == |slots|
    ensures forall i :: 0 <= i < |slots| ==> RowsForDay(toCompose, day)[i] == toCompose[SlotKey(day, slots[i])]
  {
    slots := Ascending(SlotsOf(toCompose, day));
    AscendingFacts(SlotsOf(toCompose, day));
  }

  function ArtifactsOf(rows: seq<Slot>): set<Id> {
    set row | row in rows :: row.artifact
  }

  lemma RowsForDayName(toCompose: ToCompose, day: Day)
    ensures ArtifactsOf(RowsForDay(toCompose, day)) == NamedOn(toCompose, day)
    ensures RowsForDay(toCompose, day) == [] <==> NamedOn(toCompose, day) == {}
  {
    var slots, rows := Ascending(SlotsOf(toCompose, day)), RowsForDay(toCompose, day);
    AscendingFacts(SlotsOf(toCompose, day));
    forall x | x in NamedOn(toCompose, day)
      ensures x in ArtifactsOf(rows)
    {
      var k :| k in toCompose && k.day == day && toCompose[k].artifact == x;
      assert k.slot in slots;
      var i :| 0 <= i < |slots| && slots[i] == k.slot;
      assert SlotKey(day, k.slot) == k;
      assert rows[i] == toCompose[k];
    }
    forall row | row in rows
      ensures row.artifact in NamedOn(toCompose, day)
    {
      var i :| 0 <= i < |rows| && rows[i] == row;
      assert slots[i] in slots;
    }
    assert rows != [] ==> rows[0].artifact in ArtifactsOf(rows);
    assert rows == [] ==> ArtifactsOf(rows) == {};
  }

  lemma RevertedStep(artifacts: Artifacts, rows: seq<Slot>, i: nat)
    requires i < |rows|
    ensures ArtifactsOf(rows[..i + 1]) == ArtifactsOf(rows[..i]) + {rows[i].artifact}
    ensures RevertedAll(artifacts, ArtifactsOf(rows[..i + 1]))
            == Reverted(RevertedAll(artifacts, ArtifactsOf(rows[..i])), rows[i].artifact)
  {
  }

  predicate IsSelected(artifacts: Artifacts, id: Id) {
    id in artifacts && artifacts[id].status == Selected
  }

  /** None when there is no such artifact. */
  function StatusOf(artifacts: Artifacts, id: Id): Option<Status> {
    if id in artifacts then Some(artifacts[id].status) else None
  }

  /** A row a reset leaves alone, with the status it found its artifact in. */
  datatype Skip = Skip(id: Id, status: Option<Status>)

  /** The report lists each still-SELECTED pick once as reverted, and every other row of the
      day as skipped: an artifact that had moved on with the status it had moved on to, and
      a second row of a reverted pick as PENDING. */
  ghost predicate ResetReport(artifacts: Artifacts, rows: seq<Slot>, reverted: seq<Id>, skipped: seq<Skip>) {
    && (forall x :: x in reverted <==> x in ArtifactsOf(rows) && IsSelected(artifacts, x))
    && (forall x :: x in ArtifactsOf(rows) && !IsSelected(artifacts, x) ==> Skip(x, StatusOf(artifacts, x)) in skipped)
    && (forall s :: s in skipped ==>
          && s.id in ArtifactsOf(rows)
          && s.status == if IsSelected(artifacts, s.id) then Some(Pending) else StatusOf(artifacts, s.id))
    && (forall i, j :: 0 <= i < j < |reverted| ==> reverted[i] != reverted[j])
    && |reverted| + |skipped| == |rows|
  }

  /** The reverted picks in the order of the day's rows. */
  ghost function RevertedInOrder(artifacts: Artifacts, rows: seq<Slot>): seq<Id> {
    if rows == [] then []
    else
      var front, id := rows[..|rows| - 1], rows[|rows| - 1].artifact;
      RevertedInOrder(artifacts, front) + if IsSelected(artifacts, id) && id !in ArtifactsOf(front) then [id] else []
  }

  /** The ids of the skipped rows in the order of the day's rows. */
  ghost function SkippedInOrder(artifacts: Artifacts, rows: seq<Slot>): seq<Id> {
    if rows == [] then []
    else
      var front, id := rows[..|rows| - 1], rows[|rows| - 1].artifact;
      SkippedInOrder(artifacts, front) + if IsSelected(artifacts, id) && id !in ArtifactsOf(front) then [] else [id]
  }

  ghost function IdsSkipped(skipped: seq<Skip>): seq<Id> {
    seq(|skipped|, i requires 0 <= i < |skipped| => skipped[i].id)
  }

  lemma InOrderStep(artifacts: Artifacts, rows: seq<Slot>, i: nat)
    requires i < |rows|
    ensures var id := rows[i].artifact;
            var isReverted := IsSelected(artifacts, id) && id !in ArtifactsOf(rows[..i]);
            && RevertedInOrder(artifacts, rows[..i + 1])
               == (if isReverted then RevertedInOrder(artifacts, rows[..i]) + [id] else RevertedInOrder(artifacts, rows[..i]))
            && SkippedInOrder(artifacts, rows[..i + 1])
               == (if isReverted then SkippedInOrder(artifacts, rows[..i]) else SkippedInOrder(artifacts, rows[..i]) + [id])
  {
    assert rows[..i + 1][..i] == rows[..i];
  }

  lemma ResetNone(artifacts: Artifacts, rows: seq<Slot>)
    ensures RevertedAll(artifacts, ArtifactsOf(rows[..0])) == artifacts
    ensures ResetReport(artifacts, rows[..0], [], [])
    ensures RevertedInOrder(artifacts, rows[..0]) == [] && SkippedInOrder(artifacts, rows[..0]) == IdsSkipped([])
  {
  }

  lemma StatusInTurn(artifacts: Artifacts, ids: set<Id>, id: Id)
    ensures StatusOf(RevertedAll(artifacts, ids), id)
            == if id in ids && IsSelected(artifacts, id) then Some(Pending) else StatusOf(artifacts, id)
  {
  }

  lemma ResetReportStep(artifacts: Artifacts, rows: seq<Slot>, i: nat, reverted: seq<Id>, skipped: seq<Skip>)
    requires i < |rows| && ResetReport(artifacts, rows[..i], reverted, skipped)
    ensures var id := rows[i].artifact;
            var status := StatusOf(RevertedAll(artifacts, ArtifactsOf(rows[..i])), id);
            if status == Some(Selected)
            then ResetReport(artifacts, rows[..i + 1], reverted + [id], skipped)
            else ResetReport(artifacts, rows[..i + 1], reverted, skipped + [Skip(id, status)])
  {
    hide ArtifactsOf, RevertedAll;
    StatusInTurn(artifacts, ArtifactsOf(rows[..i]), rows[i].artifact);
    RevertedStep(artifacts, rows, i);
  }

  lemma OneMoreSkipped(skipped: seq<Skip>, s: Skip)
    ensures IdsSkipped(skipped + [s]) == IdsSkipped(skipped) + [s.id]
  {
  }

  method ResetToComposeForDay(store: Store, day: Day) returns (reverted: seq<Id>, skipped: seq<Skip>)
    requires store.Valid()
    modifies store
    ensures store.Valid()
    ensures store.View() == ResetFor(old(store.View()), day)
    ensures ResetReport(old(store.artifacts), RowsForDay(old(store.toCompose), day), reverted, skipped)
    ensures reverted == RevertedInOrder(old(store.artifacts), RowsForDay(old(store.toCompose), day))
    ensures IdsSkipped(skipped) == SkippedInOrder(old(store.artifacts), RowsForDay(old(store.toCompose), day))
  {
    RowsForDayName(store.toCompose, day);
    hide IndexOf, RowsForDay, NamedOn, ArtifactsOf, ResetReport, RevertedAll, RevertedInOrder, SkippedInOrder, IdsSkipped;
    var rows := RowsForDay(store.toCompose, day);
    reverted, skipped := RevertRows(store, rows);
    DeleteForDay(store, day);
  }

  /** The row-by-row part of ResetToComposeForDay. */
  method RevertRows(store: Store, rows: seq<Slot>) returns (reverted: seq<Id>, skipped: seq<Skip>)
    requires store.Valid()
    modifies store`artifacts, store`pending
    ensures store.Valid()
    ensures store.artifacts == RevertedAll(old(store.artifacts), ArtifactsOf(rows))
    ensures ResetReport(old(store.artifacts), rows, reverted, skipped)
    ensures reverted == RevertedInOrder(old(store.artifacts), rows)
    ensures IdsSkipped(skipped) == SkippedInOrder(old(store.artifacts), rows)
  {
    hide IndexOf, ArtifactsOf, ResetReport, RevertedAll, RevertedInOrder, SkippedInOrder, IdsSkipped;
    ghost var start := store.artifacts;
    ResetNone(start, rows);
    reverted, skipped := [], [];
    for i := 0 to |rows|
      invariant store.Valid()
      invariant store.artifacts == RevertedAll(start, ArtifactsOf(rows[..i]))
      invariant ResetReport(start, rows[..i], reverted, skipped)
      invariant reverted == RevertedInOrder(start, rows[..i]) && IdsSkipped(skipped) == SkippedInOrder(start, rows[..i])
    {
      InOrderStep(start, rows, i);
      StatusInTurn(start, ArtifactsOf(rows[..i]), rows[i].artifact);
      RevertedStep(start, rows, i);
      ResetReportStep(start, rows, i, reverted, skipped);
      var id := rows[i].artifact;
      var status := StatusOf(store.artifacts, id);
      var ok := false;
      if status == Some(Selected) {
        ok := store.RevertArtifactToPending(id);
      }
      if ok {
        reverted := reverted + [id];
      } else {
        OneMoreSkipped(skipped, Skip(id, status));
        skipped := skipped + [Skip(id, status)];
      }
    }
    assert rows[..|rows|] == rows;
  }

  function ReselectedFor(room: Room, day: Day, now: Instant, cfg: Config, published: set<string>): Room {
    SelectedFor(ResetFor(room, day), day, now, cfg, published)
  }

  method ResetAndReselectForDay(store: Store, day: Day, now: Instant, cfg: Config, published: set<string>)
    requires store.Valid()
    modifies store
    ensures store.Valid()
    ensures store.View() == ReselectedFor(old(store.View()), day, now, cfg, published)
  {
    var _, _ := ResetToComposeForDay(store, day);
    var _, _ := SelectToComposeForDay(store, day, now, cfg, published);
  }
}
