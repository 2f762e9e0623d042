/** "One pending artifact per service" and "one pin per day" over whole runs: every operation
    keeps them but a return to PENDING, and that exactly when it crowds nothing. */
module CrowdingRuns {
  import opened Wrappers
  import opened ArtifactTables
  import opened ArtifactStore
  import opened InsertLaws
  import opened ToComposeSelection
  import opened Reclaim
  import opened ReclaimLaws
  import opened ReclaimPins
  import opened PinningLaws
  import opened EditorialRuns

  // ---------- What returns to PENDING ----------

  /** The still SELECTED artifacts a reset of the day brings back. */
  ghost function ReturnedByReset(room: Room, day: Day): set<Id> {
    set x | x in NamedOn(room.toCompose, day) && IsSelected(room.artifacts, x)
  }

  ghost function ReturnedByReclaim(findings: seq<Finding>): set<Id> {
    set f | f in findings && !f.current :: f.id
  }

  /** The artifacts an operation brings back to PENDING; for a reselect, in its first half. */
  ghost function ReturnedBy(room: Room, step: Step): set<Id> {
    match step
    case Revert(id) => if IsSelected(room.artifacts, id) then {id} else {}
    case Reset(day) => ReturnedByReset(room, day)
    case Reselect(day, _, _) => ReturnedByReset(room, day)
    case Reclaim(today, _, scan, dryRun) => if dryRun then {} else ReturnedByReclaim(Stale(room, today, scan))
    case _ => {}
  }

  /** `after` has the pending artifacts of `before` and the returned ones. */
  ghost predicate Returns(before: Artifacts, after: Artifacts, ids: set<Id>) {
    && after.Keys == before.Keys
    && (forall x :: x in before ==> after[x].service == before[x].service)
    && (forall x :: x in ids ==> IsSelected(before, x))
    && (forall x :: IsPending(after, x) <==> IsPending(before, x) || x in ids)
  }

  lemma ResetReturns(room: Room, day: Day)
    ensures Returns(room.artifacts, ResetFor(room, day).artifacts, ReturnedByReset(room, day))
  {
    hide NamedOn, WithoutDay;
  }

  lemma RevertReturns(artifacts: Artifacts, id: Id)
    ensures Returns(artifacts, Reverted(artifacts, id), if IsSelected(artifacts, id) then {id} else {})
  {
  }

  lemma ReclaimReturns(room: Room, today: Day, now: Instant, scan: seq<SlotKey>)
    ensures Returns(room.artifacts, RealReclaim(room, today, now, scan).room.artifacts,
                    ReturnedByReclaim(Stale(room, today, scan)))
  {
    hide StaleFrom, RealFrom, ClaimedDays, Ready;
    var findings, claimed := Stale(room, today, scan), ClaimedDays(room.artifacts);
    StaleAreReady(room, today, scan, {});
    FindingsAreSelected(room, findings, today);
    PassTables(room, findings, today, now, claimed);
    var after := RealFrom(room, findings, today, now, claimed).room.artifacts;
    forall x | x in room.artifacts
      ensures after[x].service == room.artifacts[x].service
      ensures IsPending(after, x) <==> IsPending(room.artifacts, x) || x in ReturnedByReclaim(findings)
    {
      PassKeepsOrigins(room, findings, today, now, claimed, x);
      if f :| f in findings && f.id == x {
        var i :| 0 <= i < |findings| && findings[i] == f;
        PassReverts(room, findings, today, now, claimed, i);
        OneFindingEach(room, findings, today, f);
      } else {
        PassSpares(room, findings, today, now, claimed, x);
      }
    }
  }

  lemma OneFindingEach(room: Room, findings: seq<Finding>, today: Day, f: Finding)
    requires Ready(room, findings, today) && f in findings
    ensures forall g :: g in findings && g.id == f.id ==> g == f
  {
  }

  // ---------- One pending artifact per service ----------

  /** No returned artifact has the service of another returned or pending one. */
  ghost predicate Uncrowded(artifacts: Artifacts, ids: set<Id>) {
    forall x, y | x in ids && x in artifacts && y in artifacts && x != y && (y in ids || IsPending(artifacts, y))
      :: artifacts[x].service == artifacts[y].service ==> artifacts[x].service == ""
  }

  lemma ReturnKeepsOnePerServiceIff(before: Artifacts, after: Artifacts, ids: set<Id>)
    requires OnePerService(before) && Returns(before, after, ids)
    ensures OnePerService(after) <==> Uncrowded(before, ids)
  {
    if OnePerService(after) {
      forall x, y | x in ids && x in before && y in before && x != y && (y in ids || IsPending(before, y))
                    && before[x].service == before[y].service
        ensures before[x].service == ""
      {
        assert IsPending(after, x) && IsPending(after, y);
      }
    }
    if Uncrowded(before, ids) {
      forall x, y | IsPending(after, x) && IsPending(after, y) && x != y && after[x].service == after[y].service
        ensures after[x].service == ""
      {
        assert x in before && y in before;
        assert x in ids || y in ids || (IsPending(before, x) && IsPending(before, y));
      }
    }
  }

  /** Taking artifacts out of PENDING crowds nothing. */
  lemma FewerPendingCrowdNothing(before: Artifacts, after: Artifacts)
    requires OnePerService(before)
    requires forall x :: IsPending(after, x) ==> IsPending(before, x) && after[x].service == before[x].service
    ensures OnePerService(after)
  {
  }

  lemma InsertKeepsOnePerService(room: Room, step: Step, cfg: Config)
    requires step.Insert? && Enabled(room, step) && WithinLimit(room.artifacts) && OnePerService(room.artifacts)
    ensures OnePerService(Apply(room, step, cfg).artifacts)
  {
    hide InsertedOver, WithinLimit;
    var s := SupersededBy(room.artifacts, step.req.service);
    SupersededIsPending(room.artifacts, step.req.service);
    InsertSupersedes(room, s, step.id, step.req, step.now, cfg.rules);
    SupersedingCrowdsNothing(room.artifacts, Apply(room, step, cfg).artifacts, step.id, step.req.service, IdOf(s));
  }

  lemma SupersedingCrowdsNothing(before: Artifacts, after: Artifacts, id: Id, service: string, s: Option<Id>)
    requires OnePerService(before) && Supersedes(before, after, id, service, s)
    requires s.None? && service != "" ==> PendingOf(before, service) == {}
    ensures OnePerService(after)
  {
    forall x, y | IsPending(after, x) && IsPending(after, y) && x != y && after[x].service == after[y].service
      ensures after[x].service == ""
    {
      var other := if x == id then y else x;
      assert other in before && s != Some(other);
      assert x == id || y == id || (IsPending(before, x) && IsPending(before, y));
      if (x == id || y == id) && service != "" {
        assert other in PendingOf(before, service);
      }
    }
  }

  lemma SelectTakesFromPending(room: Room, day: Day, now: Instant, cfg: Config, published: set<string>)
    ensures var after := SelectedFor(room, day, now, cfg, published).artifacts;
            forall x :: IsPending(after, x) ==> IsPending(room.artifacts, x) && after[x] == room.artifacts[x]
  {
    hide LineupOf, HumanPick, IdsOf, Kept, DayRows;
  }

  /** After an operation, and half-way through a reselect, no service has two. */
  ghost predicate OneAfter(room: Room, step: Step, cfg: Config) {
    && OnePerService(Apply(room, step, cfg).artifacts)
    && (step.Reselect? ==> OnePerService(ResetFor(room, step.day).artifacts))
  }

  /** The quiet operations leave every status and service as it is. */
  lemma QuietKeepsServices(room: Room, step: Step, cfg: Config)
    requires step.UpdatePriority? || step.Sweep? || step.Pin? || step.ClearPin? || step.SetVenue?
    ensures var after := Apply(room, step, cfg).artifacts;
            forall x :: IsPending(after, x) ==> IsPending(room.artifacts, x) && after[x].service == room.artifacts[x].service
  {
    hide PendingList, PinHolders, IdsOf;
  }

  /** From one pending artifact per service, an operation keeps it so exactly when what it
      brings back to PENDING crowds nothing. */
  lemma OneAfterIff(room: Room, step: Step, cfg: Config)
    requires Enabled(room, step) && (step.Insert? ==> WithinLimit(room.artifacts))
    requires OnePerService(room.artifacts)
    ensures OneAfter(room, step, cfg) <==> Uncrowded(room.artifacts, ReturnedBy(room, step))
  {
    var after := Apply(room, step, cfg).artifacts;
    hide OnePerService, Uncrowded, WithinLimit, ReturnedByReset, ReturnedByReclaim, Returns, Inserted, Marked, Reverted,
      SelectedFor, ResetFor, RealReclaim, PinnedFor, Swept, WithPriority, WithPin, WithVenue;
    NothingReturned(room.artifacts);
    match step
    case Insert(id, req, now) => InsertKeepsOnePerService(room, step, cfg);
    case Resolve(id, status) =>
      ResolveTakesFromPending(room, id, status);
      FewerPendingCrowdNothing(room.artifacts, after);
    case Select(day, now, published) =>
      SelectTakesFromPending(room, day, now, cfg, published);
      FewerPendingCrowdNothing(room.artifacts, after);
    case Revert(id) =>
      RevertReturns(room.artifacts, id);
      ReturnKeepsOnePerServiceIff(room.artifacts, after, ReturnedBy(room, step));
    case Reset(day) =>
      ResetReturns(room, day);
      ReturnKeepsOnePerServiceIff(room.artifacts, after, ReturnedBy(room, step));
    case Reselect(day, now, published) =>
      var middle := ResetFor(room, day);
      ResetReturns(room, day);
      ReturnKeepsOnePerServiceIff(room.artifacts, middle.artifacts, ReturnedBy(room, step));
      SelectTakesFromPending(middle, day, now, cfg, published);
      if OnePerService(middle.artifacts) {
        FewerPendingCrowdNothing(middle.artifacts, after);
      }
    case Reclaim(today, now, scan, dryRun) =>
      if !dryRun {
        ReclaimReturns(room, today, now, scan);
        ReturnKeepsOnePerServiceIff(room.artifacts, after, ReturnedBy(room, step));
      }
    case _ =>
      QuietKeepsServices(room, step, cfg);
      FewerPendingCrowdNothing(room.artifacts, after);
  }

  lemma ResolveTakesFromPending(room: Room, id: Id, status: Status)
    requires status == Composed || status == Discarded
    ensures var after := Marked(room.artifacts, id, status);
            forall x :: IsPending(after, x) ==> IsPending(room.artifacts, x) && after[x] == room.artifacts[x]
  {
  }

  lemma NothingReturned(artifacts: Artifacts)
    ensures Uncrowded(artifacts, {})
  {
  }

  // ---------- Over runs ----------

  ghost predicate InsertsSeeAll(room: Room, steps: seq<Step>, cfg: Config)
    decreases |steps|
  {
    steps != [] ==>
      (steps[0].Insert? ==> WithinLimit(room.artifacts)) && InsertsSeeAll(Apply(room, steps[0], cfg), steps[1..], cfg)
  }

  /** Before the run and after each of its steps no named service has two pending artifacts. */
  ghost predicate AlwaysOnePerService(room: Room, steps: seq<Step>, cfg: Config)
    decreases |steps|
  {
    && OnePerService(room.artifacts)
    && (steps != [] ==> OneAfter(room, steps[0], cfg) && AlwaysOnePerService(Apply(room, steps[0], cfg), steps[1..], cfg))
  }

  ghost predicate RunUncrowded(room: Room, steps: seq<Step>, cfg: Config)
    decreases |steps|
  {
    steps != [] ==>
      Uncrowded(room.artifacts, ReturnedBy(room, steps[0])) && RunUncrowded(Apply(room, steps[0], cfg), steps[1..], cfg)
  }

  /** The documented invariant holds all along a run exactly when no revert, reset or reclaim
      in it brings an artifact back beside another one of its service. */
  lemma {:induction false} OnePerServiceRunIff(room: Room, steps: seq<Step>, cfg: Config)
    requires RunEnabled(room, steps, cfg) && InsertsSeeAll(room, steps, cfg)
    requires OnePerService(room.artifacts)
    ensures AlwaysOnePerService(room, steps, cfg) <==> RunUncrowded(room, steps, cfg)
    decreases |steps|
  {
    hide Apply, Enabled, OnePerService, Uncrowded, ReturnedBy, WithinLimit, OneAfter;
    if steps != [] {
      OneAfterIff(room, steps[0], cfg);
      OneAfterMeans(room, steps[0], cfg);
      if OneAfter(room, steps[0], cfg) {
        OnePerServiceRunIff(Apply(room, steps[0], cfg), steps[1..], cfg);
      }
    }
  }

  lemma OneAfterMeans(room: Room, step: Step, cfg: Config)
    ensures OneAfter(room, step, cfg) ==> OnePerService(Apply(room, step, cfg).artifacts)
  {
  }

  // ---------- One pin per day ----------

  lemma InsertKeepsOnePin(room: Room, id: Id, req: Request, now: Instant, rules: MergeRules)
    requires id !in room.artifacts && WithinLimit(room.artifacts) && OnePinPerDay(room.artifacts)
    ensures OnePinPerDay(Inserted(room, id, req, now, rules).artifacts)
  {
    hide InsertedOver, WithinLimit;
    var s := SupersededBy(room.artifacts, req.service);
    SupersededIsPending(room.artifacts, req.service);
    InsertSupersedes(room, s, id, req, now, rules);
    SupersedingSharesNoPin(room.artifacts, Inserted(room, id, req, now, rules).artifacts, id, req.service, IdOf(s));
  }

  lemma SupersedingSharesNoPin(before: Artifacts, after: Artifacts, id: Id, service: string, s: Option<Id>)
    requires OnePinPerDay(before) && Supersedes(before, after, id, service, s)
    ensures OnePinPerDay(after)
  {
    forall x, y | IsPending(after, x) && IsPending(after, y) && x != y && after[x].pin == after[y].pin
      ensures after[x].pin == None
    {
      var other := if x == id then y else x;
      assert other in before && s != Some(other);
      assert x == id || y == id || (IsPending(before, x) && IsPending(before, y));
    }
  }

  /** No returned artifact is pinned for the day of another returned or pending one. */
  ghost predicate ApartInPins(artifacts: Artifacts, ids: set<Id>) {
    forall x, y | x in ids && x in artifacts && y in artifacts && x != y && (y in ids || IsPending(artifacts, y))
      :: artifacts[x].pin == artifacts[y].pin ==> artifacts[x].pin == None
  }

  lemma ReturnKeepsOnePinIff(before: Artifacts, after: Artifacts, ids: set<Id>)
    requires OnePinPerDay(before) && Returns(before, after, ids)
    requires forall x :: x in before ==> after[x].pin == before[x].pin
    ensures OnePinPerDay(after) <==> ApartInPins(before, ids)
  {
    if OnePinPerDay(after) {
      forall x, y | x in ids && x in before && y in before && x != y && (y in ids || IsPending(before, y))
                    && before[x].pin == before[y].pin
        ensures before[x].pin == None
      {
        assert IsPending(after, x) && IsPending(after, y);
      }
    }
    if ApartInPins(before, ids) {
      forall x, y | IsPending(after, x) && IsPending(after, y) && x != y && after[x].pin == after[y].pin
        ensures after[x].pin == None
      {
        assert x in before && y in before;
        assert x in ids || y in ids || (IsPending(before, x) && IsPending(before, y));
      }
    }
  }

  /** A reset keeps one pin per day exactly when nothing it brings back is pinned for the day
      of something else it brings back or finds pending. */
  lemma ResetKeepsOnePinIff(room: Room, day: Day)
    requires OnePinPerDay(room.artifacts)
    ensures OnePinPerDay(ResetFor(room, day).artifacts) <==> ApartInPins(room.artifacts, ReturnedByReset(room, day))
  {
    hide NamedOn, WithoutDay, ReturnedByReset, Returns, OnePinPerDay, ApartInPins;
    ResetReturns(room, day);
    ResetKeepsPins(room, day);
    ReturnsKeepKeys(room.artifacts, ResetFor(room, day).artifacts, ReturnedByReset(room, day));
    ReturnKeepsOnePinIff(room.artifacts, ResetFor(room, day).artifacts, ReturnedByReset(room, day));
  }

  lemma ReturnsKeepKeys(before: Artifacts, after: Artifacts, ids: set<Id>)
    requires Returns(before, after, ids)
    ensures after.Keys == before.Keys
  {
  }

  lemma ResetKeepsPins(room: Room, day: Day)
    ensures forall x :: x in room.artifacts ==>
              x in ResetFor(room, day).artifacts && ResetFor(room, day).artifacts[x].pin == room.artifacts[x].pin
  {
    hide NamedOn, WithoutDay;
  }

  /** The pin a reclaim leaves a platform pick with. */
  ghost function PlatformPinAfter(room: Room, findings: seq<Finding>, today: Day, i: nat): Option<Day>
    requires i < |findings| && findings[i].id in room.artifacts
  {
    var pin := room.artifacts[findings[i].id].pin;
    if pin.Some? && IsTaken(room.toCompose, ClaimedDays(room.artifacts), today, HumanPicks(findings[..i]),
                            HumanPicks(findings), pin.value)
    then None else pin
  }

  /** The day is one of those the human picks are carried to. */
  ghost predicate IsTarget(room: Room, findings: seq<Finding>, today: Day, day: Day) {
    var claimed := ClaimedDays(room.artifacts);
    && InWindow(today, day) && IsFree(room.toCompose, claimed, day)
    && Rank(room.toCompose, claimed, today, day) < HumanPicks(findings)
  }

  /** No platform pick keeps a pin for a day that a pending artifact, a carried human pick or
      another platform pick holds. */
  ghost predicate ReclaimedApart(room: Room, findings: seq<Finding>, today: Day) {
    forall i | 0 <= i < |findings| && IsPlatformPick(findings[i]) && findings[i].id in room.artifacts ::
      var pin := PlatformPinAfter(room, findings, today, i);
      pin.Some? ==>
        && (forall y :: IsPending(room.artifacts, y) ==> room.artifacts[y].pin != pin)
        && !IsTarget(room, findings, today, pin.value)
        && (forall j :: 0 <= j < |findings| && j != i && IsPlatformPick(findings[j]) && findings[j].id in room.artifacts ==>
              PlatformPinAfter(room, findings, today, j) != pin)
  }

  ghost predicate HumansPinned(room: Room, after: Artifacts, findings: seq<Finding>, today: Day) {
    forall i :: 0 <= i < |findings| && IsHumanPick(findings[i]) ==>
      && IsPending(after, findings[i].id) && after[findings[i].id].pin.Some?
      && var d := after[findings[i].id].pin.value;
      && IsTarget(room, findings, today, d)
      && Rank(room.toCompose, ClaimedDays(room.artifacts), today, d) == HumanPicks(findings[..i])
  }

  ghost predicate PlatformsPinned(room: Room, after: Artifacts, findings: seq<Finding>, today: Day) {
    forall i :: 0 <= i < |findings| && IsPlatformPick(findings[i]) ==>
      && findings[i].id in room.artifacts && IsPending(after, findings[i].id)
      && after[findings[i].id].pin == PlatformPinAfter(room, findings, today, i)
  }

  /** What a reclaim leaves pending, and with which pin. */
  ghost predicate PinnedAfter(room: Room, after: Artifacts, findings: seq<Finding>, today: Day) {
    && (forall x :: IsPending(room.artifacts, x) ==> IsPending(after, x) && after[x].pin == room.artifacts[x].pin)
    && HumansPinned(room, after, findings, today)
    && PlatformsPinned(room, after, findings, today)
    && (forall x :: IsPending(after, x) ==>
          || IsPending(room.artifacts, x)
          || exists i :: 0 <= i < |findings| && findings[i].id == x && !findings[i].current)
  }

  lemma UnpinnedStaysUnpinned(room: Room, findings: seq<Finding>, today: Day, now: Instant, claimed: set<Day>, i: nat)
    requires Ready(room, findings, today)
    requires i < |findings| && IsPlatformPick(findings[i])
    requires findings[i].id in room.artifacts && room.artifacts[findings[i].id].pin == None
    ensures var out := RealFrom(room, findings, today, now, claimed).room;
            findings[i].id in out.artifacts && out.artifacts[findings[i].id].pin == None
    decreases |findings|
  {
    hide RoomAfter, RealFrom, Ready, PlannedAction, ClaimedAfter, WithoutRow, NamedOn, IsPlatformPick, BoostedPriority;
    var f, rest := findings[0], findings[1..];
    var action := PlannedAction(room, f, today, claimed);
    RealStep(room, findings, today, now, claimed);
    PlannedKind(room, f, today, claimed);
    NotAmongRest(findings);
    assert f in findings;
    StepFrame(room, f, action, now);
    var next := RoomAfter(room, f, action, now);
    if i == 0 {
      PassSpares(next, rest, today, now, ClaimedAfter(claimed, action), f.id);
    } else {
      assert findings[i] in findings;
      UnpinnedStaysUnpinned(next, rest, today, now, ClaimedAfter(claimed, action), i - 1);
    }
  }

  lemma ReclaimPinsAfter(room: Room, today: Day, now: Instant, scan: seq<SlotKey>)
    requires LimitLeft(room.artifacts, |Stale(room, today, scan)|)
    requires HumanPicks(Stale(room, today, scan)) <= OpenCount(room.toCompose, ClaimedDays(room.artifacts), today)
    ensures PinnedAfter(room, RealReclaim(room, today, now, scan).room.artifacts, Stale(room, today, scan), today)
  {
    hide StaleFrom, RealFrom, ClaimedDays, OpenCount, LimitLeft, WithinLimit, HumansPinned, PlatformsPinned, Repinned;
    var findings := Stale(room, today, scan);
    var after := RealReclaim(room, today, now, scan).room.artifacts;
    LimitLeftNow(room.artifacts, |findings|);
    PinsRollForward(room, today, now, scan);
    ReclaimReturns(room, today, now, scan);
    HumansArePinned(room, today, now, scan);
    PlatformsArePinned(room, today, now, scan);
    forall x | IsPending(after, x) && !IsPending(room.artifacts, x)
      ensures exists i :: 0 <= i < |findings| && findings[i].id == x && !findings[i].current
    {
      var f :| f in findings && !f.current && f.id == x;
      var i :| 0 <= i < |findings| && findings[i] == f;
    }
  }

  lemma HumansArePinned(room: Room, today: Day, now: Instant, scan: seq<SlotKey>)
    requires WithinLimit(room.artifacts)
    requires HumanPicks(Stale(room, today, scan)) <= OpenCount(room.toCompose, ClaimedDays(room.artifacts), today)
    ensures HumansPinned(room, RealReclaim(room, today, now, scan).room.artifacts, Stale(room, today, scan), today)
  {
    hide StaleFrom, RealFrom, ClaimedDays, OpenCount, Rank, IsFree, WithinLimit, IsHumanPick;
    var findings := Stale(room, today, scan);
    PinsRollForward(room, today, now, scan);
    forall i | 0 <= i < |findings| && IsHumanPick(findings[i])
      ensures HumanPicks(findings[..i]) < HumanPicks(findings)
      ensures Repinned(room, findings, RealReclaim(room, today, now, scan), today, ClaimedDays(room.artifacts), i)
    {
      HumansInOrder(findings, i);
    }
  }

  lemma PlatformsArePinned(room: Room, today: Day, now: Instant, scan: seq<SlotKey>)
    requires LimitLeft(room.artifacts, |Stale(room, today, scan)|)
    ensures PlatformsPinned(room, RealReclaim(room, today, now, scan).room.artifacts, Stale(room, today, scan), today)
  {
    hide StaleFrom, RealFrom, ClaimedDays, Ready, LimitLeft, PlatformPinAfter;
    var findings := Stale(room, today, scan);
    StaleAreReady(room, today, scan, {});
    FindingsAreSelected(room, findings, today);
    forall i | 0 <= i < |findings| && IsPlatformPick(findings[i])
      ensures var after := RealReclaim(room, today, now, scan).room.artifacts;
              && findings[i].id in room.artifacts && IsPending(after, findings[i].id)
              && after[findings[i].id].pin == PlatformPinAfter(room, findings, today, i)
    {
      assert findings[i] in findings;
      PassReverts(room, findings, today, now, ClaimedDays(room.artifacts), i);
      PlatformKeepsOrLoses(room, findings, today, now, i);
    }
  }

  lemma PlatformKeepsOrLoses(room: Room, findings: seq<Finding>, today: Day, now: Instant, i: nat)
    requires Ready(room, findings, today) && LimitLeft(room.artifacts, |findings|)
    requires i < |findings| && IsPlatformPick(findings[i]) && findings[i].id in room.artifacts
    ensures var out := RealFrom(room, findings, today, now, ClaimedDays(room.artifacts)).room;
            && findings[i].id in out.artifacts
            && out.artifacts[findings[i].id].pin == PlatformPinAfter(room, findings, today, i)
  {
    hide RealFrom, ClaimedDays, Ready, IsTaken, LimitLeft, CarriedTo;
    var claimed, pin := ClaimedDays(room.artifacts), room.artifacts[findings[i].id].pin;
    if pin == None {
      UnpinnedStaysUnpinned(room, findings, today, now, claimed, i);
    } else {
      PassPlatformPinIff(room, findings, today, now, claimed, i);
      HumansInOrder(findings, i);
      CarriedIffTaken(room, findings, today, now, claimed, i + 1, pin.value);
    }
  }

  /** Two human picks have different targets, and no pending pin is a target. */
  lemma TargetsApart(room: Room, findings: seq<Finding>, today: Day, d: Day, e: Day)
    requires IsTarget(room, findings, today, d) && IsTarget(room, findings, today, e)
    requires Rank(room.toCompose, ClaimedDays(room.artifacts), today, d)
             == Rank(room.toCompose, ClaimedDays(room.artifacts), today, e)
    ensures d == e
  {
    hide ClaimedDays, IsFree, Rank;
    var claimed := ClaimedDays(room.artifacts);
    if d < e {
      RankRises(room.toCompose, claimed, today, d, e);
    } else if e < d {
      RankRises(room.toCompose, claimed, today, e, d);
    }
  }

  lemma PendingPinIsNoTarget(room: Room, findings: seq<Finding>, today: Day, x: Id)
    requires WithinLimit(room.artifacts) && IsPending(room.artifacts, x) && room.artifacts[x].pin.Some?
    ensures !IsTarget(room, findings, today, room.artifacts[x].pin.value)
  {
    hide WithinLimit, Rank, ClaimedDays;
    PendingPinsAreClaimed(room.artifacts);
  }

  /** Under the row limit, and while the window holds a day for every human pick, a reclaim
      keeps one pin per day exactly when no platform pick keeps a day that someone else has. */
  lemma ReclaimKeepsOnePinIff(room: Room, today: Day, now: Instant, scan: seq<SlotKey>)
    requires OnePinPerDay(room.artifacts)
    requires LimitLeft(room.artifacts, |Stale(room, today, scan)|)
    requires HumanPicks(Stale(room, today, scan)) <= OpenCount(room.toCompose, ClaimedDays(room.artifacts), today)
    ensures OnePinPerDay(RealReclaim(room, today, now, scan).room.artifacts)
            <==> ReclaimedApart(room, Stale(room, today, scan), today)
  {
    hide StaleFrom, RealFrom, Ready, OpenCount, LimitLeft, PinnedAfter, ReclaimedApart, OnePinPerDay, WithinLimit;
    var findings := Stale(room, today, scan);
    var after := RealReclaim(room, today, now, scan).room.artifacts;
    StaleAreReady(room, today, scan, {});
    ReclaimPinsAfter(room, today, now, scan);
    LimitLeftNow(room.artifacts, |findings|);
    FindingsApart(room, findings, today);
    if OnePinPerDay(after) {
      OnePinMeansApart(room, after, findings, today);
    }
    if ReclaimedApart(room, findings, today) {
      ApartMeansOnePin(room, after, findings, today);
    }
  }

  ghost predicate OneEach(room: Room, findings: seq<Finding>) {
    && (forall f :: f in findings ==> IsSelected(room.artifacts, f.id))
    && forall i, j :: 0 <= i < j < |findings| ==> findings[i].id != findings[j].id
  }

  lemma FindingsApart(room: Room, findings: seq<Finding>, today: Day)
    requires Ready(room, findings, today)
    ensures OneEach(room, findings)
  {
  }

  lemma OnePinMeansApart(room: Room, after: Artifacts, findings: seq<Finding>, today: Day)
    requires PinnedAfter(room, after, findings, today) && OneEach(room, findings) && OnePinPerDay(after)
    ensures ReclaimedApart(room, findings, today)
  {
    hide ClaimedDays, Rank, IsTarget, PlatformPinAfter;
    forall i | 0 <= i < |findings| && IsPlatformPick(findings[i]) && findings[i].id in room.artifacts
               && PlatformPinAfter(room, findings, today, i).Some?
      ensures var pin := PlatformPinAfter(room, findings, today, i);
              && (forall y :: IsPending(room.artifacts, y) ==> room.artifacts[y].pin != pin)
              && !IsTarget(room, findings, today, pin.value)
              && (forall j :: 0 <= j < |findings| && j != i && IsPlatformPick(findings[j]) && findings[j].id in room.artifacts ==>
                    PlatformPinAfter(room, findings, today, j) != pin)
    {
      assert findings[i] in findings;
      var pin := PlatformPinAfter(room, findings, today, i);
      if IsTarget(room, findings, today, pin.value) {
        var j := TargetHasPick(room, after, findings, today, pin.value);
      }
    }
  }

  lemma TargetHasPick(room: Room, after: Artifacts, findings: seq<Finding>, today: Day, d: Day) returns (j: nat)
    requires PinnedAfter(room, after, findings, today) && IsTarget(room, findings, today, d)
    ensures j < |findings| && IsHumanPick(findings[j]) && IsPending(after, findings[j].id)
    ensures after[findings[j].id].pin == Some(d)
  {
    hide ClaimedDays, Rank, PlatformPinAfter;
    j := KthHumanExists(findings, Rank(room.toCompose, ClaimedDays(room.artifacts), today, d));
    TargetsApart(room, findings, today, d, after[findings[j].id].pin.value);
  }

  lemma ApartMeansOnePin(room: Room, after: Artifacts, findings: seq<Finding>, today: Day)
    requires PinnedAfter(room, after, findings, today) && OneEach(room, findings)
    requires OnePinPerDay(room.artifacts) && WithinLimit(room.artifacts)
    requires ReclaimedApart(room, findings, today)
    ensures OnePinPerDay(after)
  {
    hide ClaimedDays, Rank, IsTarget, PlatformPinAfter, WithinLimit;
    forall x, y | IsPending(after, x) && IsPending(after, y) && x != y && after[x].pin == after[y].pin
      ensures after[x].pin == None
    {
      if after[x].pin.Some? {
        PinsDiffer(room, after, findings, today, x, y);
      }
    }
  }

  /** Two artifacts never end up pinned for one day. */
  lemma PinsDiffer(room: Room, after: Artifacts, findings: seq<Finding>, today: Day, x: Id, y: Id)
    requires PinnedAfter(room, after, findings, today) && OneEach(room, findings)
    requires OnePinPerDay(room.artifacts) && WithinLimit(room.artifacts)
    requires ReclaimedApart(room, findings, today)
    requires x != y && IsPending(after, x) && IsPending(after, y) && after[x].pin.Some?
    ensures after[x].pin != after[y].pin
  {
    hide ClaimedDays, Rank, IsTarget, PlatformPinAfter, WithinLimit, OneEach;
    if IsPending(room.artifacts, x) {
      PendingPinIsNoTarget(room, findings, today, x);
    }
    if IsPending(room.artifacts, y) && room.artifacts[y].pin.Some? {
      PendingPinIsNoTarget(room, findings, today, y);
    }
    if !IsPending(room.artifacts, x) && !IsPending(room.artifacts, y) {
      var i: nat :| i < |findings| && findings[i].id == x && !findings[i].current;
      var j: nat :| j < |findings| && findings[j].id == y && !findings[j].current;
      if IsHumanPick(findings[i]) && IsHumanPick(findings[j]) {
        SameTargetSamePick(findings, i, j);
      }
    }
  }

  lemma SameTargetSamePick(findings: seq<Finding>, i: nat, j: nat)
    requires i < |findings| && j < |findings| && IsHumanPick(findings[i]) && IsHumanPick(findings[j])
    ensures HumanPicks(findings[..i]) == HumanPicks(findings[..j]) ==> i == j
  {
    hide IsHumanPick;
    var low, high := if i < j then i else j, if i < j then j else i;
    if low < high {
      HumansInOrder(findings, low);
      HumansMonotone(findings, low + 1, high);
    }
  }

  // ---------- Pins over runs ----------

  /** What a step's scan and probe have to see: all of the pending partition, and a day for
      every human pick. */
  ghost predicate PinsInReach(room: Room, step: Step) {
    match step
    case Insert(_, _, _) => WithinLimit(room.artifacts)
    case Pin(_, _) => WithinLimit(room.artifacts)
    case Reclaim(today, _, scan, dryRun) =>
      dryRun || (&& LimitLeft(room.artifacts, |Stale(room, today, scan)|)
                 && HumanPicks(Stale(room, today, scan)) <= OpenCount(room.toCompose, ClaimedDays(room.artifacts), today))
    case _ => true
  }

  /** What an operation brings back shares no pinned day with anything. */
  ghost predicate ReturnsApart(room: Room, step: Step) {
    match step
    case Reclaim(today, _, scan, dryRun) => dryRun || ReclaimedApart(room, Stale(room, today, scan), today)
    case _ => ApartInPins(room.artifacts, ReturnedBy(room, step))
  }

  ghost predicate OnePinAfter(room: Room, step: Step, cfg: Config) {
    && OnePinPerDay(Apply(room, step, cfg).artifacts)
    && (step.Reselect? ==> OnePinPerDay(ResetFor(room, step.day).artifacts))
  }

  lemma FewerPendingShareNothing(before: Artifacts, after: Artifacts)
    requires OnePinPerDay(before)
    requires forall x :: IsPending(after, x) ==> IsPending(before, x) && (after[x].pin == before[x].pin || after[x].pin == None)
    ensures OnePinPerDay(after)
  {
  }

  lemma QuietKeepsPins(room: Room, step: Step, cfg: Config)
    requires step.UpdatePriority? || step.Sweep? || step.ClearPin? || step.SetVenue?
    ensures var after := Apply(room, step, cfg).artifacts;
            forall x :: IsPending(after, x) ==>
              IsPending(room.artifacts, x) && (after[x].pin == room.artifacts[x].pin || after[x].pin == None)
  {
    hide PendingList, IdsOf;
  }

  lemma RevertKeepsPins(artifacts: Artifacts, id: Id)
    ensures forall x :: x in artifacts ==> x in Reverted(artifacts, id) && Reverted(artifacts, id)[x].pin == artifacts[x].pin
  {
  }

  lemma NothingReturnedApart(artifacts: Artifacts)
    ensures ApartInPins(artifacts, {})
  {
  }

  /** From one pin per day, an operation keeps it so exactly when what it brings back to
      PENDING shares no pinned day. */
  lemma OnePinAfterIff(room: Room, step: Step, cfg: Config)
    requires Enabled(room, step) && PinsInReach(room, step)
    requires OnePinPerDay(room.artifacts)
    ensures OnePinAfter(room, step, cfg) <==> ReturnsApart(room, step)
  {
    var after := Apply(room, step, cfg).artifacts;
    hide OnePinPerDay, ApartInPins, WithinLimit, LimitLeft, ReturnedByReset, ReturnedByReclaim, Returns, ReclaimedApart,
         OpenCount, SelectedFor, ResetFor, RealReclaim, Inserted, PinnedFor, StaleFrom, ClaimedDays;
    NothingReturnedApart(room.artifacts);
    match step
    case Insert(id, req, now) => InsertKeepsOnePin(room, id, req, now, cfg.rules);
    case Pin(id, day) => PinKeepsOnePerDay(room.artifacts, id, day);
    case Resolve(id, status) =>
      ResolveTakesFromPending(room, id, status);
      FewerPendingShareNothing(room.artifacts, after);
    case Select(day, now, published) =>
      SelectTakesFromPending(room, day, now, cfg, published);
      FewerPendingShareNothing(room.artifacts, after);
    case Revert(id) =>
      RevertReturns(room.artifacts, id);
      RevertKeepsPins(room.artifacts, id);
      ReturnKeepsOnePinIff(room.artifacts, after, ReturnedBy(room, step));
    case Reset(day) => ResetKeepsOnePinIff(room, day);
    case Reselect(day, now, published) =>
      ResetKeepsOnePinIff(room, day);
      SelectTakesFromPending(ResetFor(room, day), day, now, cfg, published);
      if OnePinPerDay(ResetFor(room, day).artifacts) {
        FewerPendingShareNothing(ResetFor(room, day).artifacts, after);
      }
    case Reclaim(today, now, scan, dryRun) =>
      if !dryRun {
        ReclaimKeepsOnePinIff(room, today, now, scan);
      }
    case _ =>
      QuietKeepsPins(room, step, cfg);
      FewerPendingShareNothing(room.artifacts, after);
  }

  ghost predicate RunPinsInReach(room: Room, steps: seq<Step>, cfg: Config)
    decreases |steps|
  {
    steps != [] ==> PinsInReach(room, steps[0]) && RunPinsInReach(Apply(room, steps[0], cfg), steps[1..], cfg)
  }

  /** Before the run and after each of its steps no day has two pinned pending artifacts. */
  ghost predicate AlwaysOnePin(room: Room, steps: seq<Step>, cfg: Config)
    decreases |steps|
  {
    && OnePinPerDay(room.artifacts)
    && (steps != [] ==> OnePinAfter(room, steps[0], cfg) && AlwaysOnePin(Apply(room, steps[0], cfg), steps[1..], cfg))
  }

  ghost predicate RunReturnsApart(room: Room, steps: seq<Step>, cfg: Config)
    decreases |steps|
  {
    steps != [] ==> ReturnsApart(room, steps[0]) && RunReturnsApart(Apply(room, steps[0], cfg), steps[1..], cfg)
  }

  /** One pin per day holds all along a run exactly when no revert, reset or reclaim in it
      brings back an artifact whose pinned day someone else has. */
  lemma {:induction false} OnePinRunIff(room: Room, steps: seq<Step>, cfg: Config)
    requires RunEnabled(room, steps, cfg) && RunPinsInReach(room, steps, cfg)
    requires OnePinPerDay(room.artifacts)
    ensures AlwaysOnePin(room, steps, cfg) <==> RunReturnsApart(room, steps, cfg)
    decreases |steps|
  {
    hide Apply, Enabled, OnePinPerDay, ReturnsApart, PinsInReach, OnePinAfter;
    if steps != [] {
      OnePinAfterIff(room, steps[0], cfg);
      OnePinAfterMeans(room, steps[0], cfg);
      if OnePinAfter(room, steps[0], cfg) {
        OnePinRunIff(Apply(room, steps[0], cfg), steps[1..], cfg);
      }
    }
  }

  lemma OnePinAfterMeans(room: Room, step: Step, cfg: Config)
    ensures OnePinAfter(room, step, cfg) ==> OnePinPerDay(Apply(room, step, cfg).artifacts)
  {
  }
}
