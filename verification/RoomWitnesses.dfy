/** Runs from empty tables on which a documented property of the editorial room fails. */
module RoomWitnesses {
  import opened Wrappers
  import opened ArtifactTables
  import opened ArtifactHistory
  import opened ArtifactStore
  import opened PlatformRanking
  import opened ToComposeSelection
  import opened SelectionLaws
  import opened Reclaim
  import opened ReclaimLaws
  import opened ReclaimPins
  import opened DryRunBoosts
  import opened PinningLaws
  import opened EditorialRuns

  const CFG: Config := Config(3, 0.5, ShippedRules(20000))

  function Call(service: string): Request {
    Request(service, "", "url", "web", "text", "title", Metadata(map[], []), None)
  }

  // ---------- Rooms with at most one pending artifact ----------

  ghost predicate NonePending(artifacts: Artifacts) {
    forall x :: !IsPending(artifacts, x)
  }

  ghost predicate OnlyPending(artifacts: Artifacts, x: Id) {
    IsPending(artifacts, x) && forall y :: IsPending(artifacts, y) ==> y == x
  }

  lemma NothingListed(artifacts: Artifacts)
    requires NonePending(artifacts)
    ensures PendingList(artifacts) == []
  {
    PendingListFacts(artifacts);
    NoneMeansEmpty(PendingList(artifacts));
  }

  lemma EndsDiffer(rows: seq<Listed>)
    requires DistinctIds(rows) && |rows| > 1
    ensures rows[0].key.id != rows[|rows| - 1].key.id && rows[|rows| - 1] in rows
  {
  }

  lemma OneListed(artifacts: Artifacts, x: Id)
    requires OnlyPending(artifacts, x)
    ensures PendingList(artifacts) == [Listed(KeyOf(x, artifacts[x]), RowOf(artifacts[x]))]
  {
    PendingListFacts(artifacts);
    PendingNotEmpty(artifacts, x);
    var rows := PendingList(artifacts);
    hide PendingList;
    assert rows[0] in rows;
    if |rows| > 1 {
      EndsDiffer(rows);
    }
  }

  lemma InsertAlone(room: Room, id: Id, service: string, now: Instant)
    requires NonePending(room.artifacts) && id !in room.artifacts
    ensures var next := Apply(room, Insert(id, Call(service), now), CFG);
            && next.artifacts == room.artifacts[id := NewArtifact(Call(service), "", None, now)]
            && next.toCompose == room.toCompose
            && OnlyPending(next.artifacts, id)
  {
    NothingListed(room.artifacts);
    hide PendingList;
    var next := Apply(room, Insert(id, Call(service), now), CFG);
    assert next.artifacts == room.artifacts[id := NewArtifact(Call(service), "", None, now)];
    forall y | IsPending(next.artifacts, y)
      ensures y == id
    {
      assert !IsPending(room.artifacts, y);
    }
  }

  lemma PinAlone(room: Room, id: Id, day: Day)
    requires OnlyPending(room.artifacts, id)
    ensures var next := Apply(room, Pin(id, day), CFG);
            && next.artifacts == room.artifacts[id := room.artifacts[id].(pin := Some(day))]
            && next.toCompose == room.toCompose
            && OnlyPending(next.artifacts, id)
  {
    OneListed(room.artifacts, id);
    hide PendingList;
    assert PinHolders([Listed(KeyOf(id, room.artifacts[id]), RowOf(room.artifacts[id]))], day, id) == {};
    NobodyElse(room.artifacts, day, id);
  }

  lemma NobodyElse(artifacts: Artifacts, day: Day, id: Id)
    requires OnlyPending(artifacts, id)
    ensures var after := WithPin(Unpinned(artifacts, {}), id, Some(day));
            after == artifacts[id := artifacts[id].(pin := Some(day))] && OnlyPending(after, id)
  {
    assert Unpinned(artifacts, {}) == artifacts;
    var after := artifacts[id := artifacts[id].(pin := Some(day))];
    forall y | IsPending(after, y)
      ensures y == id
    {
      assert y != id ==> !IsPending(artifacts, y);
    }
  }

  lemma EligibleOfOne(r: Listed, human: Option<Listed>)
    ensures Eligible([r], human) == if Skipped(r, human, {}) then [] else [r]
  {
    assert [r][1..] == [];
    assert EligibleFrom([r][1..], human, Seen({}, r)) == [] && EligibleFrom([r][1..], human, {}) == [];
    assert [r] + [] == [r];
  }

  lemma LineupAlone(artifacts: Artifacts, day: Day, x: Id)
    requires OnlyPending(artifacts, x)
    ensures LineupOf(artifacts, day, CFG, {}) == [Listed(KeyOf(x, artifacts[x]), RowOf(artifacts[x]))]
    ensures HumanPick(artifacts, day).Some? <==> artifacts[x].pin == Some(day)
  {
    var r := Listed(KeyOf(x, artifacts[x]), RowOf(artifacts[x]));
    OneListed(artifacts, x);
    hide PendingList, PicksOf;
    var human := HumanPick(artifacts, day);
    assert FirstPinned([r], day) == (if r.row.pin == Some(day) then Some(r) else None);
    var eligible := Eligible([r], human);
    EligibleOfOne(r, human);
    assert eligible == if human.Some? then [] else [r];
    PicksCount(eligible, PlatformSlots(CFG, human), CFG.newServiceShare, {});
    PicksFacts([r], human, PlatformSlots(CFG, human), CFG.newServiceShare, {});
    var picks := PlatformPicks(artifacts, day, CFG, {});
    if picks != [] {
      assert picks[0] in picks;
    }
  }

  /** A select takes the only pending artifact. */
  lemma SelectAlone(room: Room, day: Day, now: Instant, x: Id)
    requires OnlyPending(room.artifacts, x)
    requires forall k :: k in room.toCompose ==> k.day != day && room.toCompose[k].artifact != x
    ensures var next := Apply(room, Select(day, now, {}), CFG);
            var lane := if room.artifacts[x].pin == Some(day) then Human else Platform;
            && next.artifacts == room.artifacts[x := room.artifacts[x].(status := Selected)]
            && next.toCompose == room.toCompose[SlotKey(day, 0) := Slot(x, lane, room.artifacts[x].service, now)]
            && NonePending(next.artifacts)
  {
    hide LineupOf, HumanPick, Placed;
    LineupAlone(room.artifacts, day, x);
    var lineup := LineupOf(room.artifacts, day, CFG, {});
    var hasHuman := HumanPick(room.artifacts, day).Some?;
    assert |lineup| == 1 && lineup[0].key.id == x && lineup[0].row.service == room.artifacts[x].service;
    PlacedRows(room, day, now, lineup, hasHuman);
    PlacedArtifacts(room, day, now, lineup, hasHuman);
    assert IdsOf(lineup) == {x};
    var next := Apply(room, Select(day, now, {}), CFG);
    assert next.artifacts == room.artifacts[x := room.artifacts[x].(status := Selected)];
    assert next.toCompose[SlotKey(day, 0)] == Slot(x, LaneOf(0, hasHuman), room.artifacts[x].service, now);
    forall k: SlotKey
      ensures k in next.toCompose <==> k in room.toCompose || k == SlotKey(day, 0)
      ensures k in room.toCompose ==> next.toCompose[k] == room.toCompose[k]
    {
      if k.day == day {
        assert k == SlotKey(day, k.slot);
      }
    }
    var lane := if room.artifacts[x].pin == Some(day) then Human else Platform;
    assert next.toCompose == room.toCompose[SlotKey(day, 0) := Slot(x, lane, room.artifacts[x].service, now)];
    forall y
      ensures !IsPending(next.artifacts, y)
    {
      assert y != x ==> !IsPending(room.artifacts, y);
    }
  }

  /** A select with nothing pending empties the day and picks nothing. */
  lemma SelectNothing(room: Room, day: Day, now: Instant)
    requires NonePending(room.artifacts)
    ensures var next := Apply(room, Select(day, now, {}), CFG);
            next.artifacts == room.artifacts && next.toCompose == WithoutDay(room.toCompose, day)
  {
    hide LineupOf, HumanPick, Placed;
    NoLineup(room.artifacts, day);
    var lineup := LineupOf(room.artifacts, day, CFG, {});
    assert lineup[..0] == lineup;
    PlaceNone(room, day, now, lineup, false);
  }

  lemma NoLineup(artifacts: Artifacts, day: Day)
    requires NonePending(artifacts)
    ensures LineupOf(artifacts, day, CFG, {}) == [] && HumanPick(artifacts, day) == None
  {
    NothingListed(artifacts);
    hide PendingList, PicksOf;
    PicksCount([], PlatformSlots(CFG, None), CFG.newServiceShare, {});
  }

  // ---------- Runs ----------

  lemma RunOne(room: Room, steps: seq<Step>)
    requires steps != []
    ensures Run(room, steps, CFG) == Run(Apply(room, steps[0], CFG), steps[1..], CFG)
    ensures RunEnabled(room, steps, CFG) <==>
              Enabled(room, steps[0]) && RunEnabled(Apply(room, steps[0], CFG), steps[1..], CFG)
  {
  }

  lemma RunNone(room: Room)
    ensures Run(room, [], CFG) == room && RunEnabled(room, [], CFG)
  {
  }

  const PICK_AND_REPLACE: seq<Step> := [Insert(0, Call("s"), 0), Select(1, 0, {}), Insert(1, Call("s"), 1), Revert(0)]

  /** A pick, a newer update of its service and the pick's revert: two pending for one service. */
  lemma RevertCrowds()
    ensures RunEnabled(EMPTY, PICK_AND_REPLACE, CFG)
    ensures !OnePerService(Run(EMPTY, PICK_AND_REPLACE, CFG).artifacts)
  {
    hide Apply, Run, RunEnabled;
    var steps := PICK_AND_REPLACE;
    RunOne(EMPTY, steps);
    InsertAlone(EMPTY, 0, "s", 0);
    var a := Apply(EMPTY, steps[0], CFG);
    RunOne(a, steps[1..]);
    SelectAlone(a, 1, 0, 0);
    var b := Apply(a, steps[1], CFG);
    RunOne(b, steps[1..][1..]);
    InsertAlone(b, 1, "s", 1);
    var c := Apply(b, steps[2], CFG);
    RunOne(c, steps[1..][1..][1..]);
    assert steps[1..][1..][1..][1..] == [];
    var d := Apply(c, steps[3], CFG);
    RunNone(d);
    RevertMeans(c, 0);
    assert IsPending(d.artifacts, 0) && IsPending(d.artifacts, 1);
    assert d.artifacts[0].service == d.artifacts[1].service == "s";
  }

  lemma RevertMeans(room: Room, id: Id)
    ensures Apply(room, Revert(id), CFG) == room.(artifacts := Reverted(room.artifacts, id))
  {
  }

  const SELECT_TWICE: seq<Step> := [Insert(0, Call("s"), 0), Select(1, 0, {}), Select(1, 0, {})]

  /** The second select of a day deletes the first one's row but not its status. */
  lemma SelectTwiceStrands()
    ensures RunEnabled(EMPTY, SELECT_TWICE, CFG)
    ensures var room := Run(EMPTY, SELECT_TWICE, CFG);
            IsSelected(room.artifacts, 0) && room.toCompose == map[] && !AllNamed(room)
  {
    hide Apply, Run, RunEnabled;
    var steps := SELECT_TWICE;
    RunOne(EMPTY, steps);
    InsertAlone(EMPTY, 0, "s", 0);
    var a := Apply(EMPTY, steps[0], CFG);
    RunOne(a, steps[1..]);
    SelectAlone(a, 1, 0, 0);
    var b := Apply(a, steps[1], CFG);
    RunOne(b, steps[1..][1..]);
    SelectNothing(b, 1, 0);
    var c := Apply(b, steps[2], CFG);
    assert steps[1..][1..][1..] == [];
    RunNone(c);
    assert 0 !in NamesOf(c.toCompose);
  }

  /** Marking a picked artifact pending writes no index row, although the index now owes one. */
  lemma MarkingPendingLosesTheIndex()
    ensures var picked := Run(EMPTY, SELECT_TWICE, CFG).artifacts;
            IndexOf(Marked(picked, 0, Pending)) != IndexOf(picked)
  {
    SelectTwiceStrands();
    hide Run;
    var picked := Run(EMPTY, SELECT_TWICE, CFG).artifacts;
    var marked := Marked(picked, 0, Pending);
    assert KeyOf(0, marked[0]) in IndexOf(marked) && KeyOf(0, marked[0]) !in IndexOf(picked);
  }

  // ---------- Two stale picks ----------

  lemma {:induction false} RunSplits(room: Room, first: seq<Step>, second: seq<Step>)
    ensures Run(room, first + second, CFG) == Run(Run(room, first, CFG), second, CFG)
    ensures RunEnabled(room, first + second, CFG)
            <==> RunEnabled(room, first, CFG) && RunEnabled(Run(room, first, CFG), second, CFG)
    decreases |first|
  {
    hide Apply, Enabled;
    if first == [] {
      assert first + second == second;
    } else {
      RunSplits(Apply(room, first[0], CFG), first[1..], second);
      assert (first + second)[1..] == first[1..] + second;
    }
  }

  function OnePick(id: Id, service: string, pin: Day, day: Day, now: Instant): seq<Step> {
    [Insert(id, Call(service), now), Pin(id, pin), Select(day, 0, {})]
  }

  function Picked(id: Id, service: string, pin: Day, now: Instant): Artifact {
    NewArtifact(Call(service), "", Some(pin), now).(status := Selected)
  }

  function PickRow(id: Id, service: string, pin: Day, day: Day): Slot {
    Slot(id, if pin == day then Human else Platform, service, 0)
  }

  /** A service is reported, pinned and picked. */
  lemma OnePickRun(room: Room, id: Id, service: string, pin: Day, day: Day, now: Instant)
    requires NonePending(room.artifacts) && id !in room.artifacts
    requires forall k :: k in room.toCompose ==> k.day != day && room.toCompose[k].artifact != id
    ensures RunEnabled(room, OnePick(id, service, pin, day, now), CFG)
    ensures var next := Run(room, OnePick(id, service, pin, day, now), CFG);
            && next.artifacts == room.artifacts[id := Picked(id, service, pin, now)]
            && next.toCompose == room.toCompose[SlotKey(day, 0) := PickRow(id, service, pin, day)]
            && NonePending(next.artifacts)
  {
    hide Apply, Run, RunEnabled;
    var steps := OnePick(id, service, pin, day, now);
    RunOne(room, steps);
    InsertAlone(room, id, service, now);
    var a := Apply(room, steps[0], CFG);
    RunOne(a, steps[1..]);
    PinAlone(a, id, pin);
    var b := Apply(a, steps[1], CFG);
    RunOne(b, steps[1..][1..]);
    SelectAlone(b, day, 0, id);
    assert steps[1..][1..][1..] == [];
    RunNone(Apply(b, steps[2], CFG));
  }

  /** Two services, each pinned for a day and then picked, on days 1 and 2. */
  function TwoPicks(p: Day, q: Day): seq<Step> {
    OnePick(0, "s", p, 1, 0) + OnePick(1, "t", q, 2, 1)
  }

  ghost predicate HasTwoPicks(room: Room, p: Day, q: Day) {
    && room.artifacts == map[0 := Picked(0, "s", p, 0), 1 := Picked(1, "t", q, 1)]
    && room.toCompose == map[SlotKey(1, 0) := PickRow(0, "s", p, 1), SlotKey(2, 0) := PickRow(1, "t", q, 2)]
  }

  lemma TwoPicksRun(p: Day, q: Day)
    ensures RunEnabled(EMPTY, TwoPicks(p, q), CFG)
    ensures HasTwoPicks(Run(EMPTY, TwoPicks(p, q), CFG), p, q)
  {
    hide Run, RunEnabled, OnePick, Picked;
    RunSplits(EMPTY, OnePick(0, "s", p, 1, 0), OnePick(1, "t", q, 2, 1));
    OnePickRun(EMPTY, 0, "s", p, 1, 0);
    OnePickRun(Run(EMPTY, OnePick(0, "s", p, 1, 0), CFG), 1, "t", q, 2, 1);
  }

  const SCAN: seq<SlotKey> := [SlotKey(1, 0), SlotKey(2, 0)]

  function TwoFindings(p: Day, q: Day): seq<Finding> {
    [Finding(0, SlotKey(1, 0), if p == 1 then Human else Platform, "s", false),
     Finding(1, SlotKey(2, 0), if q == 2 then Human else Platform, "t", false)]
  }

  lemma StaleHead(room: Room, today: Day, k: SlotKey, rest: seq<SlotKey>, seen: set<Id>)
    requires IsStale(room, today, k) && room.toCompose[k].artifact !in seen
    ensures StaleFrom(room, today, [k] + rest, seen)
            == [FindingAt(room.toCompose, today, k)] + StaleFrom(room, today, rest, seen + {room.toCompose[k].artifact})
  {
    assert ([k] + rest)[1..] == rest;
  }

  lemma TwoStale(room: Room, p: Day, q: Day, today: Day)
    requires HasTwoPicks(room, p, q) && today >= 3
    ensures Stale(room, today, SCAN) == TwoFindings(p, q)
    ensures IsScan(SCAN, room.toCompose)
  {
    hide StaleFrom;
    assert CurrentIds(room.toCompose, today) == {};
    assert SCAN == [SlotKey(1, 0)] + ([SlotKey(2, 0)] + []);
    StaleHead(room, today, SlotKey(1, 0), [SlotKey(2, 0)] + [], {});
    StaleHead(room, today, SlotKey(2, 0), [], {} + {0});
    NothingStale(room, today, {} + {0} + {1});
  }

  lemma NothingStale(room: Room, today: Day, seen: set<Id>)
    ensures StaleFrom(room, today, [], seen) == []
  {
  }

  lemma EqualPriorities(room: Room, p: Day, q: Day)
    requires HasTwoPicks(room, p, q)
    ensures NonNegative(room.artifacts) && PriorityOf(room.artifacts, 0) == PriorityOf(room.artifacts, 1)
  {
  }

  /** Two stale platform picks of equal priority: the dry run reports another boost for the
      second than the real run gives it. */
  lemma DryRunMisleads()
    ensures var room := Run(EMPTY, TwoPicks(100, 101), CFG);
            IsScan(SCAN, room.toCompose) && DryReclaim(room, 3, SCAN) != RealReclaim(room, 3, 0, SCAN).entries
  {
    hide Run, DryReclaim, RealReclaim, Stale, HasTwoPicks, NonNegative, PriorityOf, TwoPicks, IsScan;
    var room := Run(EMPTY, TwoPicks(100, 101), CFG);
    TwoPicksRun(100, 101);
    TwoStale(room, 100, 101, 3);
    EqualPriorities(room, 100, 101);
    EqualPicksMislead(room, 3, 0, SCAN, 0, 1);
  }

  lemma OneHumanAfter()
    ensures HumanPicks(TwoFindings(5, 2)) == 1 && HumanPicks(TwoFindings(5, 2)[..0]) == 0
  {
    var findings := TwoFindings(5, 2);
    assert findings[1..][1..] == [] && findings[..0] == [];
    assert HumanPicks(findings[1..]) == 1;
  }

  /** Day 5 is free, and the first free one. */
  lemma FirstFreeDay(room: Room)
    requires HasTwoPicks(room, 5, 2)
    ensures IsTaken(room.toCompose, {}, 5, 0, 1, 5)
  {
    assert NamedOn(room.toCompose, 5) == {};
    assert OpenDays(room.toCompose, {}, 5, 5) == {};
  }

  lemma FirstIsPinned(room: Room, p: Day, q: Day)
    requires HasTwoPicks(room, p, q)
    ensures 0 in room.artifacts && room.artifacts[0].pin == Some(p)
  {
  }

  /** A platform pick pinned for day 5 loses the pin on day 5 to the human pick found after it. */
  lemma PlatformPinLost()
    ensures var room := Run(EMPTY, TwoPicks(5, 2), CFG);
            && IsScan(SCAN, room.toCompose) && 0 in room.artifacts && room.artifacts[0].pin == Some(5)
            && var next := RealReclaim(room, 5, 0, SCAN).room.artifacts;
               0 in next && next[0].pin != Some(5)
  {
    hide Run, RealReclaim, Stale, HasTwoPicks, TwoPicks, IsTaken, LimitLeft, ClaimedDays, IsScan, HumanPicks;
    var room := Run(EMPTY, TwoPicks(5, 2), CFG);
    TwoPicksRun(5, 2);
    TwoStale(room, 5, 2, 5);
    NothingPendingThen(room, 5, 2);
    FirstIsPinned(room, 5, 2);
    OneHumanAfter();
    FirstFreeDay(room);
    PlatformPinKeptIff(room, 5, 0, SCAN, 0);
  }

  lemma NothingPendingThen(room: Room, p: Day, q: Day)
    requires HasTwoPicks(room, p, q)
    ensures LimitLeft(room.artifacts, 2) && ClaimedDays(room.artifacts) == {}
  {
    NothingListed(room.artifacts);
    hide PendingList;
    assert PendingKeys(room.artifacts) == {};
  }

  const PIN_AGAIN: seq<Step> := [Insert(1, Call("t"), 1), Pin(1, 2), Revert(0)]

  /** A pinned pick, another pin for its day and the pick's revert: two pins for one day. */
  lemma RevertSharesAPin()
    ensures RunEnabled(EMPTY, OnePick(0, "s", 2, 2, 0) + PIN_AGAIN, CFG)
    ensures !OnePinPerDay(Run(EMPTY, OnePick(0, "s", 2, 2, 0) + PIN_AGAIN, CFG).artifacts)
  {
    hide Apply, Run, RunEnabled, OnePick;
    var steps := PIN_AGAIN;
    RunSplits(EMPTY, OnePick(0, "s", 2, 2, 0), steps);
    OnePickRun(EMPTY, 0, "s", 2, 2, 0);
    var a := Run(EMPTY, OnePick(0, "s", 2, 2, 0), CFG);
    RunOne(a, steps);
    InsertAlone(a, 1, "t", 1);
    var b := Apply(a, steps[0], CFG);
    RunOne(b, steps[1..]);
    PinAlone(b, 1, 2);
    var c := Apply(b, steps[1], CFG);
    RunOne(c, steps[1..][1..]);
    assert steps[1..][1..][1..] == [];
    var d := Apply(c, steps[2], CFG);
    RunNone(d);
    RevertMeans(c, 0);
    assert IsPending(d.artifacts, 0) && IsPending(d.artifacts, 1);
    assert d.artifacts[0].pin == d.artifacts[1].pin == Some(2);
  }
}
