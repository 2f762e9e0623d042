/** What a day's lineup is, and that a reset takes a selection back. */
module SelectionLaws {
  import opened Wrappers
  import opened ArtifactTables
  import opened ArtifactStore
  import opened PlatformRanking
  import opened Text
  import opened ToComposeSelection

  // ---------- The human slot ----------

  ghost predicate IsPinned(artifacts: Artifacts, day: Day, x: Id) {
    IsPending(artifacts, x) && artifacts[x].pin == Some(day)
  }

  lemma PicksFill(artifacts: Artifacts, day: Day, cfg: Config, published: set<string>)
    ensures var human := HumanPick(artifacts, day);
            |PlatformPicks(artifacts, day, cfg, published)|
            == Min(PlatformSlots(cfg, human), |Eligible(PendingList(artifacts), human)|)
  {
    hide HumanPick, PlatformSlots, PicksOf, EligibleFrom, PendingList;
    var pending, human := PendingList(artifacts), HumanPick(artifacts, day);
    PendingListFacts(artifacts);
    EligibleKeepsOrder(pending, human, {});
    PicksCount(Eligible(pending, human), PlatformSlots(cfg, human), cfg.newServiceShare, published);
  }

  /** A pinned artifact takes the human slot, and only that. */
  lemma HumanSlot(artifacts: Artifacts, day: Day)
    requires WithinLimit(artifacts)
    ensures HumanPick(artifacts, day).Some? <==> exists x :: IsPinned(artifacts, day, x)
    ensures HumanPick(artifacts, day).Some? ==> IsPinned(artifacts, day, HumanPick(artifacts, day).value.key.id)
  {
    FirstPinnedFacts(PendingList(artifacts), day);
    PendingListFacts(artifacts);
    hide PendingList, FirstPinned;
    if HumanPick(artifacts, day).Some? {
      assert IsPinned(artifacts, day, HumanPick(artifacts, day).value.key.id);
    }
    if x :| IsPinned(artifacts, day, x) {
      PendingListComplete(artifacts, x);
      assert Listed(KeyOf(x, artifacts[x]), RowOf(artifacts[x])).row.pin == Some(day);
    }
  }

  lemma {:induction false} FirstPinnedIsFirst(rows: seq<Listed>, day: Day, r: Listed)
    requires SortedListing(rows) && r in rows && r.row.pin == Some(day)
    ensures var h := FirstPinned(rows, day);
            h.Some? && (h.value == r || Before(h.value.key, r.key))
  {
    if rows[0].row.pin != Some(day) {
      FirstPinnedIsFirst(rows[1..], day, r);
    }
  }

  /** Of several artifacts pinned for the day the one ahead of the others takes the slot. */
  lemma HumanPickIsFirst(artifacts: Artifacts, day: Day, x: Id)
    requires WithinLimit(artifacts) && IsPinned(artifacts, day, x)
    ensures var h := HumanPick(artifacts, day);
            h.Some? && (h.value.key.id == x || Before(h.value.key, KeyOf(x, artifacts[x])))
  {
    hide PendingList, FirstPinned;
    PendingListFacts(artifacts);
    PendingListComplete(artifacts, x);
    FirstPinnedIsFirst(PendingList(artifacts), day, Listed(KeyOf(x, artifacts[x]), RowOf(artifacts[x])));
  }

  // ---------- Who competes for the slots ----------

  /** Ahead of every other pending artifact pinned for the day. */
  ghost predicate HoldsHumanSlot(artifacts: Artifacts, day: Day, h: Id) {
    && IsPinned(artifacts, day, h)
    && forall y :: IsPinned(artifacts, day, y) && y != h ==> Before(KeyOf(h, artifacts[h]), KeyOf(y, artifacts[y]))
  }

  /** Ahead of every other pending artifact of its service, if it has one. */
  ghost predicate LeadsItsService(artifacts: Artifacts, x: Id)
    requires x in artifacts
  {
    artifacts[x].service != "" ==>
      forall y :: IsPending(artifacts, y) && artifacts[y].service == artifacts[x].service && y != x ==>
        Before(KeyOf(x, artifacts[x]), KeyOf(y, artifacts[y]))
  }

  /** The pending artifacts the day's platform slots can go to: the first of each service, the
      human pick and its service left out. */
  ghost function Competing(artifacts: Artifacts, day: Day): set<Id> {
    set x | x in artifacts && artifacts[x].status == Pending && LeadsItsService(artifacts, x)
            && forall h :: HoldsHumanSlot(artifacts, day, h) ==>
                 x != h && (artifacts[x].service != "" ==> artifacts[x].service != artifacts[h].service)
  }

  lemma HumanSlotHolder(artifacts: Artifacts, day: Day, h: Id)
    requires WithinLimit(artifacts)
    ensures HoldsHumanSlot(artifacts, day, h) <==> HumanPick(artifacts, day).Some? && HumanPick(artifacts, day).value.key.id == h
  {
    HumanSlot(artifacts, day);
    var pick := HumanPick(artifacts, day);
    PendingListFacts(artifacts);
    FirstPinnedFacts(PendingList(artifacts), day);
    hide PendingList, HumanPick, WithinLimit;
    if pick.Some? {
      var x := pick.value.key.id;
      forall y | IsPinned(artifacts, day, y) && y != x
        ensures Before(KeyOf(x, artifacts[x]), KeyOf(y, artifacts[y]))
      {
        HumanPickIsFirst(artifacts, day, y);
      }
    }
  }

  /** A listed row leads its service exactly when no row ahead of it has the service. */
  lemma LeadsInListing(artifacts: Artifacts, p: nat)
    requires WithinLimit(artifacts) && p < |PendingList(artifacts)|
    requires PendingList(artifacts)[p].key.id in artifacts && PendingList(artifacts)[p].row.service != ""
    ensures var pending := PendingList(artifacts);
            LeadsItsService(artifacts, pending[p].key.id)
            <==> forall q :: 0 <= q < p ==> pending[q].row.service != pending[p].row.service
  {
    PendingListFacts(artifacts);
    hide PendingList, WithinLimit, Before;
    var pending := PendingList(artifacts);
    var x := pending[p].key.id;
    assert pending[p] in pending;
    if LeadsItsService(artifacts, x) {
      forall q | 0 <= q < p
        ensures pending[q].row.service != pending[p].row.service
      {
        assert pending[q] in pending;
        BeforeOneWay(pending[q].key, pending[p].key);
      }
    } else {
      var y :| IsPending(artifacts, y) && artifacts[y].service == artifacts[x].service && y != x
               && !Before(KeyOf(x, artifacts[x]), KeyOf(y, artifacts[y]));
      PendingListComplete(artifacts, y);
      var q :| 0 <= q < |pending| && pending[q] == Listed(KeyOf(y, artifacts[y]), RowOf(artifacts[y]));
      assert q < p;
    }
  }

  lemma BeforeOneWay(x: PendingKey, y: PendingKey)
    requires Before(x, y)
    ensures !Before(y, x)
  {
  }

  lemma CompetesIff(artifacts: Artifacts, day: Day, p: nat)
    requires WithinLimit(artifacts) && p < |PendingList(artifacts)|
    ensures PendingList(artifacts)[p].key.id in Competing(artifacts, day)
            <==> MayFill(PendingList(artifacts), HumanPick(artifacts, day), p)
  {
    PendingListFacts(artifacts);
    FirstPinnedFacts(PendingList(artifacts), day);
    var pending, human := PendingList(artifacts), HumanPick(artifacts, day);
    hide PendingList, WithinLimit, HoldsHumanSlot, LeadsItsService, FirstPinned, Before;
    var x := pending[p].key.id;
    assert pending[p] in pending;
    if pending[p].row.service != "" {
      LeadsInListing(artifacts, p);
    } else {
      NoServiceToLead(artifacts, x);
    }
    forall h
      ensures HoldsHumanSlot(artifacts, day, h) <==> human.Some? && human.value.key.id == h
    {
      HumanSlotHolder(artifacts, day, h);
    }
  }

  lemma NoServiceToLead(artifacts: Artifacts, x: Id)
    requires x in artifacts && artifacts[x].service == ""
    ensures LeadsItsService(artifacts, x)
  {
  }

  /** The eligible rows are those of the competing artifacts. */
  lemma EligibleCompete(artifacts: Artifacts, day: Day)
    requires WithinLimit(artifacts)
    ensures var eligible := Eligible(PendingList(artifacts), HumanPick(artifacts, day));
            IdsOf(eligible) == Competing(artifacts, day) && |eligible| == |Competing(artifacts, day)|
  {
    PendingListFacts(artifacts);
    var pending, human := PendingList(artifacts), HumanPick(artifacts, day);
    HumanIsListed(artifacts, day);
    EligibleExactly(pending, human);
    var eligible := Eligible(pending, human);
    ListedCount(eligible);
    hide PendingList, HumanPick, WithinLimit, EligibleFrom, MayFill, Competing, DistinctIds, SortedListing;
    forall x
      ensures x in IdsOf(eligible) <==> x in Competing(artifacts, day)
    {
      if x in IdsOf(eligible) {
        var r :| r in eligible && r.key.id == x;
        var p :| 0 <= p < |pending| && pending[p] == r;
        CompetesIff(artifacts, day, p);
      }
      if x in Competing(artifacts, day) {
        CompetingArePending(artifacts, day, x);
        PendingListComplete(artifacts, x);
        var p :| 0 <= p < |pending| && pending[p] == Listed(KeyOf(x, artifacts[x]), RowOf(artifacts[x]));
        CompetesIff(artifacts, day, p);
      }
    }
  }

  lemma CompetingArePending(artifacts: Artifacts, day: Day, x: Id)
    requires x in Competing(artifacts, day)
    ensures IsPending(artifacts, x)
  {
  }

  lemma HumanIsListed(artifacts: Artifacts, day: Day)
    ensures PickedFrom(PendingList(artifacts), HumanPick(artifacts, day))
  {
    PendingListFacts(artifacts);
    FirstPinnedFacts(PendingList(artifacts), day);
    hide PendingList, FirstPinned;
  }

  // ---------- The lineup ----------

  /** After select the day's rows are slots 0..k-1: one for the human pick, if an artifact is pinned,
      and one for each competing artifact, up to the daily maximum, which an unpinned day has in
      full; slot 0 is in the human lane iff an artifact was pinned for the day, and no other slot is;
      artifacts and named services are pairwise distinct; exactly the day's artifacts moved,
      each from PENDING to SELECTED; and other days lost exactly the rows naming them. */
  lemma LineupContract(room: Room, day: Day, now: Instant, cfg: Config, published: set<string>)
    requires cfg.maxPerDay >= 1 && WithinLimit(room.artifacts)
    ensures var next := SelectedFor(room, day, now, cfg, published);
            var k := |LineupOf(room.artifacts, day, cfg, published)|;
            var pinned := if exists x :: IsPinned(room.artifacts, day, x) then 1 else 0;
            && k == Min(cfg.maxPerDay, pinned + |Competing(room.artifacts, day)|)
            && (forall i: nat :: i in SlotsOf(next.toCompose, day) <==> i < k)
            && (forall i: nat :: i in SlotsOf(next.toCompose, day) ==>
                  (next.toCompose[SlotKey(day, i)].lane == Human
                   <==> i == 0 && exists x :: IsPinned(room.artifacts, day, x)))
            && (forall i: nat, j: nat :: i in SlotsOf(next.toCompose, day) && j in SlotsOf(next.toCompose, day) && i != j ==>
                  var a, b := next.toCompose[SlotKey(day, i)], next.toCompose[SlotKey(day, j)];
                  a.artifact != b.artifact && (a.service != "" ==> a.service != b.service))
            && next.artifacts.Keys == room.artifacts.Keys
            && (forall x :: x in room.artifacts ==>
                  if x in NamedOn(next.toCompose, day)
                  then room.artifacts[x].status == Pending
                       && next.artifacts[x] == room.artifacts[x].(status := Selected)
                  else next.artifacts[x] == room.artifacts[x])
            && (forall key: SlotKey :: key.day != day ==>
                  (key in next.toCompose
                   <==> key in room.toCompose && room.toCompose[key].artifact !in NamedOn(next.toCompose, day))
                  && (key in next.toCompose ==> next.toCompose[key] == room.toCompose[key]))
  {
    hide LineupOf, HumanPick, PlatformPicks, IdsOf, IndexOf, PendingList, WithinLimit, Competing;
    var lineup := LineupOf(room.artifacts, day, cfg, published);
    var hasHuman := HumanPick(room.artifacts, day).Some?;
    LineupSize(room.artifacts, day, cfg, published);
    LineupFacts(room.artifacts, day, cfg, published);
    HumanSlot(room.artifacts, day);
    var next := SelectedFor(room, day, now, cfg, published);
    PlacedRows(room, day, now, lineup, hasHuman);
    PlacedNames(room, day, now, lineup, hasHuman);
    LineupIds(lineup, room.artifacts);
  }

  lemma PicksAreSorted(artifacts: Artifacts, day: Day, cfg: Config, published: set<string>)
    ensures SortedListing(PlatformPicks(artifacts, day, cfg, published))
  {
    hide PendingList, HumanPick, ChosenIds, EligibleFrom, Only;
    PendingListFacts(artifacts);
    var pending, human := PendingList(artifacts), HumanPick(artifacts, day);
    EligibleKeepsOrder(pending, human, {});
    EligibleServices(pending, human, {});
    var eligible := Eligible(pending, human);
    OnlyKeepsOrder(eligible, ChosenIds(eligible, PlatformSlots(cfg, human), cfg.newServiceShare, published));
  }

  lemma LineupOrder(artifacts: Artifacts, day: Day, cfg: Config, published: set<string>, i: nat, j: nat)
    requires i < j < |LineupOf(artifacts, day, cfg, published)|
    requires LaneOf(i, HumanPick(artifacts, day).Some?) == Platform
    ensures var lineup := LineupOf(artifacts, day, cfg, published);
            Before(lineup[i].key, lineup[j].key)
  {
    hide HumanPick, PlatformPicks;
    PicksAreSorted(artifacts, day, cfg, published);
    var lineup := LineupOf(artifacts, day, cfg, published);
    var picks := PlatformPicks(artifacts, day, cfg, published);
    var skip := if HumanPick(artifacts, day).Some? then 1 else 0;
    assert lineup[i] == picks[i - skip] && lineup[j] == picks[j - skip];
  }

  /** Each row of the day names its artifact's own service and the time of the select. */
  lemma LineupRow(room: Room, day: Day, now: Instant, cfg: Config, published: set<string>, i: nat)
    requires i < |LineupOf(room.artifacts, day, cfg, published)|
    ensures var next := SelectedFor(room, day, now, cfg, published);
            var r := LineupOf(room.artifacts, day, cfg, published)[i];
            && next.contents == room.contents
            && r.key.id in room.artifacts && r.key == KeyOf(r.key.id, room.artifacts[r.key.id])
            && SlotKey(day, i) in next.toCompose
            && next.toCompose[SlotKey(day, i)]
               == Slot(r.key.id, LaneOf(i, HumanPick(room.artifacts, day).Some?), room.artifacts[r.key.id].service, now)
  {
    hide HumanPick, LineupOf, IdsOf, Placed;
    var lineup := LineupOf(room.artifacts, day, cfg, published);
    var hasHuman := HumanPick(room.artifacts, day).Some?;
    LineupFacts(room.artifacts, day, cfg, published);
    PlacedRows(room, day, now, lineup, hasHuman);
    PlacedArtifacts(room, day, now, lineup, hasHuman);
    assert lineup[i] in lineup;
  }

  /** The platform slots of a day run in priority order. */
  lemma PlatformSlotsInOrder(room: Room, day: Day, now: Instant, cfg: Config, published: set<string>, i: nat, j: nat)
    requires i < j < |LineupOf(room.artifacts, day, cfg, published)|
    ensures var rows := SelectedFor(room, day, now, cfg, published).toCompose;
            && SlotKey(day, i) in rows && SlotKey(day, j) in rows
            && var a, b := rows[SlotKey(day, i)], rows[SlotKey(day, j)];
            && a.artifact in room.artifacts && b.artifact in room.artifacts
            && (a.lane == Platform ==>
                  b.lane == Platform
                  && Before(KeyOf(a.artifact, room.artifacts[a.artifact]), KeyOf(b.artifact, room.artifacts[b.artifact])))
  {
    hide HumanPick, LineupOf, SelectedFor;
    LineupRow(room, day, now, cfg, published, i);
    LineupRow(room, day, now, cfg, published, j);
    if LaneOf(i, HumanPick(room.artifacts, day).Some?) == Platform {
      LineupOrder(room.artifacts, day, cfg, published, i, j);
    }
  }

  lemma LineupSize(artifacts: Artifacts, day: Day, cfg: Config, published: set<string>)
    requires cfg.maxPerDay >= 1 && WithinLimit(artifacts)
    ensures |LineupOf(artifacts, day, cfg, published)|
            == Min(cfg.maxPerDay, (if HumanPick(artifacts, day).Some? then 1 else 0) + |Competing(artifacts, day)|)
    ensures HumanPick(artifacts, day).Some? ==> |LineupOf(artifacts, day, cfg, published)| > 0
  {
    hide PlatformPicks, HumanPick, PendingList, EligibleFrom, Competing, WithinLimit;
    PicksFill(artifacts, day, cfg, published);
    EligibleCompete(artifacts, day);
  }

  /** The artifacts in a day's platform slots. */
  ghost function InPlatformSlots(toCompose: ToCompose, day: Day): set<Id> {
    set k | k in toCompose && k.day == day && toCompose[k].lane == Platform :: toCompose[k].artifact
  }

  lemma PlatformSlotsArePicks(room: Room, day: Day, now: Instant, cfg: Config, published: set<string>)
    ensures InPlatformSlots(SelectedFor(room, day, now, cfg, published).toCompose, day)
            == IdsOf(PlatformPicks(room.artifacts, day, cfg, published))
  {
    hide HumanPick, PlatformPicks, Placed;
    var human, picks := HumanPick(room.artifacts, day), PlatformPicks(room.artifacts, day, cfg, published);
    var lineup := LineupOf(room.artifacts, day, cfg, published);
    var rows := SelectedFor(room, day, now, cfg, published).toCompose;
    PlacedRows(room, day, now, lineup, human.Some?);
    var skip := if human.Some? then 1 else 0;
    forall x | x in IdsOf(picks)
      ensures x in InPlatformSlots(rows, day)
    {
      var r :| r in picks && r.key.id == x;
      var i :| 0 <= i < |picks| && picks[i] == r;
      assert lineup[i + skip] == r;
      assert SlotKey(day, i + skip) in rows;
    }
    forall x | x in InPlatformSlots(rows, day)
      ensures x in IdsOf(picks)
    {
      var k :| k in rows && k.day == day && rows[k].lane == Platform && rows[k].artifact == x;
      assert k == SlotKey(day, k.slot);
      assert lineup[k.slot] == picks[k.slot - skip];
    }
  }

  /** After select the day's platform rows hold a best choice: as many as there are platform
      slots, or competing artifacts, they meet the pool floors, and no equally large set of competing
      artifacts that does has more total priority. */
  lemma SelectIsOptimal(room: Room, day: Day, now: Instant, cfg: Config, published: set<string>, ids: set<Id>)
    requires 0.0 <= cfg.newServiceShare <= 1.0
    ensures var human := HumanPick(room.artifacts, day);
            var eligible := Eligible(PendingList(room.artifacts), human);
            var reserved := if human.Some? then 1 else 0;
            var slots := if cfg.maxPerDay > reserved then cfg.maxPerDay - reserved else 0;
            var chosen := InPlatformSlots(SelectedFor(room, day, now, cfg, published).toCompose, day);
            && (WithinLimit(room.artifacts) ==> IdsOf(eligible) == Competing(room.artifacts, day))
            && IsCandidate(eligible, slots, cfg.newServiceShare, published, chosen)
            && (IsCandidate(eligible, slots, cfg.newServiceShare, published, ids) ==>
                  TotalPriority(eligible, ids) <= TotalPriority(eligible, chosen))
  {
    hide HumanPick, PendingList, SelectedFor, RankedPicks, IsCandidate, InPlatformSlots, TotalPriority, EligibleFrom,
      Competing, WithinLimit, MayFill, IsPinned, DistinctServices;
    var human := HumanPick(room.artifacts, day);
    PendingListFacts(room.artifacts);
    HumanIsListed(room.artifacts, day);
    if WithinLimit(room.artifacts) {
      EligibleCompete(room.artifacts, day);
    }
    RankingIsOptimal(PendingList(room.artifacts), human, PlatformSlots(cfg, human), cfg.newServiceShare, published, ids);
    PlatformSlotsArePicks(room, day, now, cfg, published);
  }

  lemma LineupIds(lineup: seq<Listed>, artifacts: Artifacts)
    requires forall r :: r in lineup ==> IsPending(artifacts, r.key.id)
    ensures forall x :: x in IdsOf(lineup) ==> IsPending(artifacts, x)
  {
  }

  /** The rows a placed lineup leaves on its day and on the others. */
  lemma PlacedRows(room: Room, day: Day, now: Instant, lineup: seq<Listed>, hasHuman: bool)
    ensures var rows := Placed(room, day, now, lineup, hasHuman).toCompose;
            && (forall i: nat :: SlotKey(day, i) in rows <==> i < |lineup|)
            && (forall i: nat :: i < |lineup| ==>
                  rows[SlotKey(day, i)]
                  == Slot(lineup[i].key.id, LaneOf(i, hasHuman), lineup[i].row.service, now))
            && (forall k: SlotKey :: k.day != day ==>
                  (k in rows <==> k in room.toCompose && room.toCompose[k].artifact !in IdsOf(lineup))
                  && (k in rows ==> rows[k] == room.toCompose[k]))
  {
  }

  lemma PlacedNames(room: Room, day: Day, now: Instant, lineup: seq<Listed>, hasHuman: bool)
    ensures NamedOn(Placed(room, day, now, lineup, hasHuman).toCompose, day) == IdsOf(lineup)
  {
    hide Placed;
    var rows := Placed(room, day, now, lineup, hasHuman).toCompose;
    PlacedRows(room, day, now, lineup, hasHuman);
    forall x | x in IdsOf(lineup)
      ensures x in NamedOn(rows, day)
    {
      var r :| r in lineup && r.key.id == x;
      var i :| 0 <= i < |lineup| && lineup[i] == r;
      assert SlotKey(day, i) in rows;
    }
    forall x | x in NamedOn(rows, day)
      ensures x in IdsOf(lineup)
    {
      var k :| k in rows && k.day == day && rows[k].artifact == x;
      assert k == SlotKey(day, k.slot);
      assert lineup[k.slot] in lineup;
    }
  }

  // ---------- The venue ----------

  /** Once a pending artifact has a venue, its pool is told by the venue alone, whatever its own
      service; and nothing else of it changes. */
  lemma VenueDecidesPool(artifacts: Artifacts, id: Id, venue: string, published: set<string>)
    requires IsPending(artifacts, id) && venue != "" && WithinLimit(WithVenue(artifacts, id, venue))
    ensures var after := WithVenue(artifacts, id, venue);
            && IsPending(after, id) && after[id] == artifacts[id].(venue := venue)
            && var r := Listed(KeyOf(id, after[id]), RowOf(after[id]));
            && r in PendingList(after)
            && (InNewPool(r, published) <==> Lower(Strip(venue)) != "" && Lower(Strip(venue)) !in published)
  {
    hide PendingList, WithinLimit;
    PendingListComplete(WithVenue(artifacts, id, venue), id);
  }

  // ---------- Reset undoes select ----------

  ghost function NamesOf(toCompose: ToCompose): set<Id> {
    set k | k in toCompose :: toCompose[k].artifact
  }

  /** A drain resolves picks one at a time, to COMPOSED or DISCARDED. */
  datatype Resolution = Resolution(id: Id, status: Status)

  ghost predicate IsResolution(r: Resolution) {
    r.status == Composed || r.status == Discarded
  }

  ghost function Resolved(artifacts: Artifacts, resolutions: seq<Resolution>): Artifacts {
    if resolutions == [] then artifacts
    else Resolved(Marked(artifacts, resolutions[0].id, resolutions[0].status), resolutions[1..])
  }

  lemma {:induction false} ResolvedOnlyMarks(artifacts: Artifacts, resolutions: seq<Resolution>)
    requires forall r :: r in resolutions ==> IsResolution(r)
    ensures var next := Resolved(artifacts, resolutions);
            && next.Keys == artifacts.Keys
            && forall x :: x in artifacts ==>
                 || next[x] == artifacts[x]
                 || (next[x] == artifacts[x].(status := next[x].status)
                     && (next[x].status == Composed || next[x].status == Discarded))
    decreases |resolutions|
  {
    if resolutions != [] {
      assert resolutions[0] in resolutions;
      ResolvedOnlyMarks(Marked(artifacts, resolutions[0].id, resolutions[0].status), resolutions[1..]);
    }
  }

  /** Nothing pending is named by a row: what a select then purges is only its own. */
  ghost predicate PendingUnnamed(room: Room) {
    forall x :: IsPending(room.artifacts, x) ==> x !in NamesOf(room.toCompose)
  }

  lemma RowsAreNamed(toCompose: ToCompose, day: Day)
    ensures forall k :: k in toCompose && k.day == day ==> toCompose[k].artifact in NamedOn(toCompose, day)
  {
  }

  lemma SelectKeepsOtherDays(room: Room, day: Day, now: Instant, lineup: seq<Listed>, hasHuman: bool)
    requires NamedOn(room.toCompose, day) == {}
    requires PendingUnnamed(room)
    requires forall r :: r in lineup ==> IsPending(room.artifacts, r.key.id)
    ensures WithoutDay(Placed(room, day, now, lineup, hasHuman).toCompose, day) == room.toCompose
  {
    hide Placed, IdsOf, NamedOn;
    PlacedRows(room, day, now, lineup, hasHuman);
    LineupIds(lineup, room.artifacts);
    RowsAreNamed(room.toCompose, day);
    var rows := WithoutDay(Placed(room, day, now, lineup, hasHuman).toCompose, day);
    forall k
      ensures k in rows <==> k in room.toCompose
      ensures k in rows ==> rows[k] == room.toCompose[k]
    {
      if k in room.toCompose {
        assert room.toCompose[k].artifact in NamesOf(room.toCompose);
      }
    }
  }

  /** Select on a day without rows, then any composes and discards, then reset: the rows
      are back as they were, exactly the picks still SELECTED are back as they were, and
      every resolved artifact stays resolved. */
  lemma ResetAfterProgress(room: Room, day: Day, now: Instant, cfg: Config, published: set<string>,
                           resolutions: seq<Resolution>)
    requires NamedOn(room.toCompose, day) == {} && PendingUnnamed(room)
    requires forall r :: r in resolutions ==> IsResolution(r)
    ensures var selected := SelectedFor(room, day, now, cfg, published);
            var progressed := selected.(artifacts := Resolved(selected.artifacts, resolutions));
            var back := ResetFor(progressed, day);
            && back.toCompose == room.toCompose
            && back.contents == room.contents
            && back.artifacts.Keys == room.artifacts.Keys
            && forall x :: x in room.artifacts ==>
                 back.artifacts[x]
                 == if x in NamedOn(selected.toCompose, day) && progressed.artifacts[x].status == Selected
                    then room.artifacts[x] else progressed.artifacts[x]
  {
    hide LineupOf, HumanPick, IdsOf, Placed, Resolved, NamedOn, WithoutDay, IndexOf, PendingList;
    var lineup := LineupOf(room.artifacts, day, cfg, published);
    var hasHuman := HumanPick(room.artifacts, day).Some?;
    var selected := SelectedFor(room, day, now, cfg, published);
    LineupFacts(room.artifacts, day, cfg, published);
    LineupIds(lineup, room.artifacts);
    PlacedNames(room, day, now, lineup, hasHuman);
    SelectKeepsOtherDays(room, day, now, lineup, hasHuman);
    PlacedArtifacts(room, day, now, lineup, hasHuman);
    ResolvedOnlyMarks(selected.artifacts, resolutions);
  }

  lemma PlacedArtifacts(room: Room, day: Day, now: Instant, lineup: seq<Listed>, hasHuman: bool)
    ensures Placed(room, day, now, lineup, hasHuman).artifacts == MarkedAll(room.artifacts, IdsOf(lineup), Selected)
    ensures Placed(room, day, now, lineup, hasHuman).contents == room.contents
  {
  }

  /** With nothing resolved in between, the whole room is back, and with it the index. */
  lemma ResetUndoesSelect(room: Room, day: Day, now: Instant, cfg: Config, published: set<string>)
    requires NamedOn(room.toCompose, day) == {} && PendingUnnamed(room)
    ensures ResetFor(SelectedFor(room, day, now, cfg, published), day) == room
  {
    hide LineupOf, HumanPick, IdsOf, Placed, NamedOn, WithoutDay, IndexOf, PendingList;
    var lineup := LineupOf(room.artifacts, day, cfg, published);
    var hasHuman := HumanPick(room.artifacts, day).Some?;
    LineupFacts(room.artifacts, day, cfg, published);
    LineupIds(lineup, room.artifacts);
    PlacedNames(room, day, now, lineup, hasHuman);
    SelectKeepsOtherDays(room, day, now, lineup, hasHuman);
    PlacedArtifacts(room, day, now, lineup, hasHuman);
    RevertUndoesMark(room.artifacts, IdsOf(lineup));
  }

  lemma RevertUndoesMark(artifacts: Artifacts, ids: set<Id>)
    requires forall x :: x in ids ==> IsPending(artifacts, x)
    ensures RevertedAll(MarkedAll(artifacts, ids, Selected), ids) == artifacts
  {
  }

  /** Redoing a day's picks in an otherwise unchanged room picks what the first select picked. */
  lemma RedoIsSelect(room: Room, day: Day, earlier: Instant, now: Instant, cfg: Config, published: set<string>)
    requires NamedOn(room.toCompose, day) == {} && PendingUnnamed(room)
    ensures ReselectedFor(SelectedFor(room, day, earlier, cfg, published), day, now, cfg, published)
            == SelectedFor(room, day, now, cfg, published)
  {
    hide SelectedFor, ResetFor;
    ResetUndoesSelect(room, day, earlier, cfg, published);
  }
}
