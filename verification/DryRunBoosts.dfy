/** When a dry run of the reclaim also foretells the boosted priorities. It computes every
    boost from the pool as it stands, a real run from the pool as earlier reverts left it. */
module DryRunBoosts {
  import opened ArtifactTables
  import opened ToComposeSelection
  import opened Reclaim
  import opened ReclaimLaws

  /** The highest pending priority, 0.0 for an empty pool. */
  function Top(artifacts: Artifacts): real {
    var pending := PendingList(artifacts);
    if pending == [] then 0.0 else pending[0].key.priority
  }

  function PriorityOf(artifacts: Artifacts, id: Id): real {
    if id in artifacts then artifacts[id].priority else 0.0
  }

  /** Scores are never negative. */
  ghost predicate NonNegative(artifacts: Artifacts) {
    forall x :: x in artifacts ==> artifacts[x].priority >= 0.0
  }

  /** Where a revert puts its artifact, as far as a dry run can tell. */
  function Landing(artifacts: Artifacts, f: Finding): real {
    if f.lane == Human then PriorityOf(artifacts, f.id) else BoostedPriority(artifacts, f.id)
  }

  /** No platform pick is preceded by a revert that lands above both the pool and the pick. */
  ghost predicate NoneOvertakes(artifacts: Artifacts, findings: seq<Finding>) {
    forall i, j :: 0 <= i < j < |findings| && !findings[i].current && IsPlatformPick(findings[j])
                   ==> Landing(artifacts, findings[i]) <= Max(Top(artifacts), PriorityOf(artifacts, findings[j].id))
  }

  ghost predicate NoneBelow(artifacts: Artifacts, findings: seq<Finding>, top: real) {
    forall j :: 0 <= j < |findings| && IsPlatformPick(findings[j])
                ==> top <= Max(Top(artifacts), PriorityOf(artifacts, findings[j].id))
  }

  lemma TopFacts(artifacts: Artifacts)
    requires NonNegative(artifacts)
    ensures Top(artifacts) >= 0.0
    ensures forall x :: IsPending(artifacts, x) ==> artifacts[x].priority <= Top(artifacts)
    ensures Top(artifacts) == 0.0 || exists x :: IsPending(artifacts, x) && artifacts[x].priority == Top(artifacts)
  {
    var pending := PendingList(artifacts);
    PendingListFacts(artifacts);
    if pending != [] {
      assert pending[0] in pending;
    }
    forall x | IsPending(artifacts, x)
      ensures artifacts[x].priority <= Top(artifacts)
    {
      PendingNotEmpty(artifacts, x);
      HeadIsHighest(artifacts, x);
    }
  }

  lemma PendingNotEmpty(artifacts: Artifacts, x: Id)
    requires IsPending(artifacts, x)
    ensures PendingList(artifacts) != []
  {
    assert KeyOf(x, artifacts[x]) in IndexOf(artifacts);
    assert |IndexOf(artifacts).Keys| == |IndexOf(artifacts)|;
  }

  lemma HeadIsHighest(artifacts: Artifacts, x: Id)
    requires IsPending(artifacts, x) && PendingList(artifacts) != []
    ensures artifacts[x].priority <= PendingList(artifacts)[0].key.priority
  {
    var index := IndexOf(artifacts);
    var keys := Sorted(index.Keys);
    assert KeyOf(x, artifacts[x]) in keys;
    var i :| 0 <= i < |keys| && keys[i] == KeyOf(x, artifacts[x]);
    assert i > 0 ==> Before(keys[0], keys[i]);
    assert PendingList(artifacts)[0].key == keys[0];
  }

  lemma BoostIsAboveTop(artifacts: Artifacts, id: Id)
    ensures BoostedPriority(artifacts, id) == Max(Top(artifacts), PriorityOf(artifacts, id)) + BOOST
  {
  }

  lemma TopRises(before: Artifacts, after: Artifacts, id: Id, priority: real)
    requires NonNegative(before) && NonNegative(after)
    requires after.Keys == before.Keys && id in before
    requires !IsPending(before, id) && IsPending(after, id) && after[id].priority == priority
    requires forall x :: x in before && x != id ==>
               after[x].status == before[x].status && after[x].priority == before[x].priority
    ensures Top(after) == Max(Top(before), priority)
  {
    hide Top, NonNegative;
    TopFacts(before);
    TopFacts(after);
    PriorityIsUp(after, id);
    forall x | IsPending(before, x)
      ensures IsPending(after, x)
    {
    }
  }

  lemma PriorityIsUp(artifacts: Artifacts, id: Id)
    requires NonNegative(artifacts) && id in artifacts
    ensures artifacts[id].priority >= 0.0
  {
  }

  /** One revert raises the pool's top to where the artifact lands. */
  lemma TopAfter(room: Room, f: Finding, today: Day, now: Instant, claimed: set<Day>)
    requires IsSelected(room.artifacts, f.id) && NonNegative(room.artifacts)
    ensures var next := RoomAfter(room, f, PlannedAction(room, f, today, claimed), now);
            && NonNegative(next.artifacts)
            && (forall x :: x in room.artifacts && x != f.id ==>
                  x in next.artifacts && next.artifacts[x].priority == room.artifacts[x].priority)
            && Top(next.artifacts) == if f.current then Top(room.artifacts)
                                      else Max(Top(room.artifacts), Landing(room.artifacts, f))
  {
    hide RoomAfter, PlannedAction, Top;
    var action := PlannedAction(room, f, today, claimed);
    var next := RoomAfter(room, f, action, now);
    PlannedKind(room, f, today, claimed);
    StepFrame(room, f, action, now);
    BoostIsAboveTop(room.artifacts, f.id);
    TopFacts(room.artifacts);
    if !f.current {
      TopRises(room.artifacts, next.artifacts, f.id, Landing(room.artifacts, f));
    }
  }

  lemma NoneBelowCons(artifacts: Artifacts, findings: seq<Finding>, top: real)
    requires findings != []
    ensures NoneBelow(artifacts, findings, top)
            <==> && NoneBelow(artifacts, findings[1..], top)
                 && (IsPlatformPick(findings[0]) ==> top <= Max(Top(artifacts), PriorityOf(artifacts, findings[0].id)))
  {
  }

  lemma NoneOvertakesCons(artifacts: Artifacts, findings: seq<Finding>)
    requires findings != []
    ensures NoneOvertakes(artifacts, findings)
            <==> && NoneOvertakes(artifacts, findings[1..])
                 && (!findings[0].current ==> NoneBelow(artifacts, findings[1..], Landing(artifacts, findings[0])))
  {
  }

  lemma NoneBelowMax(artifacts: Artifacts, findings: seq<Finding>, a: real, b: real)
    ensures NoneBelow(artifacts, findings, Max(a, b)) <==> NoneBelow(artifacts, findings, a) && NoneBelow(artifacts, findings, b)
  {
  }

  /** Both plans for one finding agree fully exactly when the pool has not risen above both
      the pool the dry run saw and the pick itself. */
  lemma SameActionIff(room: Room, dryRoom: Room, f: Finding, today: Day, claimed: set<Day>)
    requires forall d :: d >= today ==> NamedOn(room.toCompose, d) == NamedOn(dryRoom.toCompose, d)
    requires Top(dryRoom.artifacts) <= Top(room.artifacts)
    requires PriorityOf(room.artifacts, f.id) == PriorityOf(dryRoom.artifacts, f.id)
    ensures PlannedAction(dryRoom, f, today, claimed) == PlannedAction(room, f, today, claimed)
            <==> (IsPlatformPick(f) ==> Top(room.artifacts) <= Max(Top(dryRoom.artifacts), PriorityOf(dryRoom.artifacts, f.id)))
    ensures PlannedAction(dryRoom, f, today, claimed) == PlannedAction(room, f, today, claimed) && !f.current ==>
              Landing(room.artifacts, f) == Landing(dryRoom.artifacts, f)
  {
    hide NamedOn, Top, BoostedPriority;
    PlannedKind(room, f, today, claimed);
    PlannedKind(dryRoom, f, today, claimed);
    SamePlanned(room, dryRoom, f, today, claimed);
    BoostIsAboveTop(room.artifacts, f.id);
    BoostIsAboveTop(dryRoom.artifacts, f.id);
  }

  /** From rooms with the same locked days and the same priorities of what is to be found. */
  ghost predicate Alike(room: Room, dryRoom: Room, findings: seq<Finding>, today: Day) {
    && (forall d :: d >= today ==> NamedOn(room.toCompose, d) == NamedOn(dryRoom.toCompose, d))
    && Top(dryRoom.artifacts) <= Top(room.artifacts)
    && NonNegative(room.artifacts)
    && forall f :: f in findings ==> PriorityOf(room.artifacts, f.id) == PriorityOf(dryRoom.artifacts, f.id)
  }

  lemma AlikeStep(room: Room, dryRoom: Room, findings: seq<Finding>, today: Day, now: Instant, claimed: set<Day>)
    requires Ready(room, findings, today) && findings != [] && Alike(room, dryRoom, findings, today)
    ensures var f := findings[0];
            var next := RoomAfter(room, f, PlannedAction(room, f, today, claimed), now);
            && Alike(next, dryRoom, findings[1..], today)
            && Top(next.artifacts) == if f.current then Top(room.artifacts)
                                      else Max(Top(room.artifacts), Landing(room.artifacts, f))
  {
    hide RoomAfter, PlannedAction, NamedOn, Top, Landing, WithoutRow;
    var f := findings[0];
    var action := PlannedAction(room, f, today, claimed);
    var next := RoomAfter(room, f, action, now);
    assert f in findings;
    TopAfter(room, f, today, now, claimed);
    StepFrame(room, f, action, now);
    forall d | d >= today
      ensures NamedOn(next.toCompose, d) == NamedOn(dryRoom.toCompose, d)
    {
      PastRowsLockNothing(room.toCompose, f.key, d);
    }
    forall g | g in findings[1..]
      ensures PriorityOf(next.artifacts, g.id) == PriorityOf(dryRoom.artifacts, g.id)
    {
      assert g in findings && g.id in room.artifacts;
      var i :| 0 <= i < |findings| - 1 && findings[1..][i] == g;
      assert findings[i + 1].id != findings[0].id;
    }
  }

  lemma ConsEqual<T>(x: T, y: T, s: seq<T>, t: seq<T>)
    ensures [x] + s == [y] + t <==> x == y && s == t
  {
    if [x] + s == [y] + t {
      assert ([x] + s)[0] == ([y] + t)[0];
      assert ([x] + s)[1..] == s && ([y] + t)[1..] == t;
    }
  }

  lemma {:induction false} PassForetellsIff(room: Room, dryRoom: Room, findings: seq<Finding>, today: Day, now: Instant,
                                            claimed: set<Day>)
    requires Ready(room, findings, today) && Alike(room, dryRoom, findings, today)
    ensures DryFrom(dryRoom, findings, today, claimed) == RealFrom(room, findings, today, now, claimed).entries
            <==> NoneBelow(dryRoom.artifacts, findings, Top(room.artifacts)) && NoneOvertakes(dryRoom.artifacts, findings)
    decreases |findings|
  {
    hide RoomAfter, PlannedAction, Ready, RealFrom, NamedOn, ClaimedAfter, IsSelected, WithoutRow, Top, Landing, PriorityOf,
         BoostedPriority, IsPlatformPick, NoneBelow, NoneOvertakes, NonNegative;
    if findings == [] {
      RealDone(room, today, now, claimed);
      NoFindings(dryRoom.artifacts, Top(room.artifacts));
    } else {
      var f, rest := findings[0], findings[1..];
      var action, dryAction := PlannedAction(room, f, today, claimed), PlannedAction(dryRoom, f, today, claimed);
      assert f in findings;
      RealStep(room, findings, today, now, claimed);
      SamePlanned(room, dryRoom, f, today, claimed);
      SameActionIff(room, dryRoom, f, today, claimed);
      AlikeStep(room, dryRoom, findings, today, now, claimed);
      var next := RoomAfter(room, f, action, now);
      var claimedNext := ClaimedAfter(claimed, action);
      PassForetellsIff(next, dryRoom, rest, today, now, claimedNext);
      ConsEqual(Entry(f, dryAction), Entry(f, action), DryFrom(dryRoom, rest, today, claimedNext),
                RealFrom(next, rest, today, now, claimedNext).entries);
      NoneBelowCons(dryRoom.artifacts, findings, Top(room.artifacts));
      NoneOvertakesCons(dryRoom.artifacts, findings);
      NoneBelowMax(dryRoom.artifacts, rest, Top(room.artifacts), Landing(dryRoom.artifacts, f));
    }
  }

  lemma NoFindings(artifacts: Artifacts, top: real)
    ensures NoneBelow(artifacts, [], top) && NoneOvertakes(artifacts, [])
  {
  }

  /** The dry run's report is the real run's, boosts included, exactly when no platform pick
      follows a revert that lands above both the pool and that pick. */
  lemma DryRunIsExactIff(room: Room, today: Day, now: Instant, scan: seq<SlotKey>)
    requires NonNegative(room.artifacts)
    ensures DryReclaim(room, today, scan) == RealReclaim(room, today, now, scan).entries
            <==> NoneOvertakes(room.artifacts, Stale(room, today, scan))
  {
    hide StaleFrom, Ready, Top, NoneOvertakes, DryFrom, RealFrom;
    var findings := Stale(room, today, scan);
    StaleAreReady(room, today, scan, {});
    PassForetellsIff(room, room, findings, today, now, ClaimedDays(room.artifacts));
    assert NoneBelow(room.artifacts, findings, Top(room.artifacts));
  }

  /** One above the artifact's own priority and every pending one, and above nothing more. */
  ghost predicate OneAboveAll(artifacts: Artifacts, id: Id, boosted: real) {
    && id in artifacts
    && boosted >= artifacts[id].priority + 1.0
    && (forall x :: IsPending(artifacts, x) ==> boosted >= artifacts[x].priority + 1.0)
    && (boosted == artifacts[id].priority + 1.0 || exists x :: IsPending(artifacts, x) && boosted == artifacts[x].priority + 1.0)
  }

  lemma BoostTold(artifacts: Artifacts, id: Id)
    requires NonNegative(artifacts) && id in artifacts
    ensures OneAboveAll(artifacts, id, BoostedPriority(artifacts, id))
  {
    hide Top, NonNegative, BoostedPriority;
    TopFacts(artifacts);
    PriorityIsUp(artifacts, id);
    BoostIsAboveTop(artifacts, id);
  }

  lemma {:induction false} DryPlans(room: Room, findings: seq<Finding>, today: Day, claimed: set<Day>, i: nat)
    requires i < |findings| && IsPlatformPick(findings[i])
    ensures var entries := DryFrom(room, findings, today, claimed);
            i < |entries| && entries[i] == Entry(findings[i], RevertedWithBoost(BoostedPriority(room.artifacts, findings[i].id)))
    decreases |findings|
  {
    hide PlannedAction, BoostedPriority, ClaimedAfter;
    var action := PlannedAction(room, findings[0], today, claimed);
    PlannedKind(room, findings[0], today, claimed);
    if i > 0 {
      DryPlans(room, findings[1..], today, ClaimedAfter(claimed, action), i - 1);
    }
  }

  /** A dry run announces for every platform pick a priority exactly one above the pool as it
      stands and the pick's own. */
  lemma DryBoosts(room: Room, today: Day, scan: seq<SlotKey>, i: nat)
    requires NonNegative(room.artifacts)
    requires i < |Stale(room, today, scan)| && IsPlatformPick(Stale(room, today, scan)[i])
    ensures var f, entries := Stale(room, today, scan)[i], DryReclaim(room, today, scan);
            && i < |entries| && entries[i].finding == f
            && entries[i].action.RevertedWithBoost? && OneAboveAll(room.artifacts, f.id, entries[i].action.boosted)
  {
    hide StaleFrom, DryFrom, NonNegative, BoostedPriority, OneAboveAll, IsPlatformPick, ClaimedDays;
    var findings := Stale(room, today, scan);
    StaleAreReady(room, today, scan, {});
    FindingsAreSelected(room, findings, today);
    DryPlans(room, findings, today, ClaimedDays(room.artifacts), i);
    BoostTold(room.artifacts, findings[i].id);
  }

  /** So two platform picks of equal priority are never foretold. */
  lemma EqualPicksMislead(room: Room, today: Day, now: Instant, scan: seq<SlotKey>, i: nat, j: nat)
    requires NonNegative(room.artifacts)
    requires i < j < |Stale(room, today, scan)|
    requires IsPlatformPick(Stale(room, today, scan)[i]) && IsPlatformPick(Stale(room, today, scan)[j])
    requires PriorityOf(room.artifacts, Stale(room, today, scan)[i].id) == PriorityOf(room.artifacts, Stale(room, today, scan)[j].id)
    ensures DryReclaim(room, today, scan) != RealReclaim(room, today, now, scan).entries
  {
    hide StaleFrom, DryFrom, RealFrom, Top, BoostedPriority;
    DryRunIsExactIff(room, today, now, scan);
    BoostIsAboveTop(room.artifacts, Stale(room, today, scan)[i].id);
  }
}
