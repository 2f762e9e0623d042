/** Whole runs of the editorial room: any sequence of store and selection operations. */
module EditorialRuns {
  import opened Wrappers
  import opened ArtifactTables
  import opened ArtifactHistory
  import opened ArtifactStore
  import opened InsertLaws
  import opened ToComposeSelection
  import opened SelectionLaws
  import opened Reclaim
  import opened ReclaimLaws

  /** The operations. Resolve is a drain's verdict on an artifact, the only use of
      `mark_artifact_status` outside the store and the selection. */
  datatype Step =
    | Insert(id: Id, req: Request, now: Instant)
    | UpdatePriority(id: Id, priority: real, now: Instant)
    | Sweep(score: (Artifact, Option<Content>) -> real, now: Instant)
    | Resolve(id: Id, status: Status)
    | Revert(id: Id)
    | Pin(id: Id, day: Day)
    | ClearPin(id: Id)
    | SetVenue(id: Id, venue: string)
    | Select(day: Day, now: Instant, published: set<string>)
    | Reset(day: Day)
    | Reselect(day: Day, now: Instant, published: set<string>)
    | Reclaim(today: Day, now: Instant, scan: seq<SlotKey>, dryRun: bool)

  function Apply(room: Room, step: Step, cfg: Config): Room {
    match step
    case Insert(id, req, now) => Inserted(room, id, req, now, cfg.rules)
    case UpdatePriority(id, priority, now) => room.(artifacts := WithPriority(room.artifacts, id, priority, now))
    case Sweep(score, now) => room.(artifacts := Swept(room.artifacts, room.contents, score, now))
    case Resolve(id, status) => room.(artifacts := Marked(room.artifacts, id, status))
    case Revert(id) => room.(artifacts := Reverted(room.artifacts, id))
    case Pin(id, day) => room.(artifacts := PinnedFor(room.artifacts, id, day))
    case ClearPin(id) => room.(artifacts := WithPin(room.artifacts, id, None))
    case SetVenue(id, venue) => room.(artifacts := WithVenue(room.artifacts, id, venue))
    case Select(day, now, published) => SelectedFor(room, day, now, cfg, published)
    case Reset(day) => ResetFor(room, day)
    case Reselect(day, now, published) => ReselectedFor(room, day, now, cfg, published)
    case Reclaim(today, now, scan, dryRun) => if dryRun then room else RealReclaim(room, today, now, scan).room
  }

  /** What the callers supply: a fresh id, a verdict that resolves, a scan of the table. */
  ghost predicate Enabled(room: Room, step: Step) {
    match step
    case Insert(id, _, _) => id !in room.artifacts
    case Resolve(_, status) => status == Composed || status == Discarded
    case Reclaim(_, _, scan, _) => IsScan(scan, room.toCompose)
    case _ => true
  }

  function Run(room: Room, steps: seq<Step>, cfg: Config): Room
    decreases |steps|
  {
    if steps == [] then room else Run(Apply(room, steps[0], cfg), steps[1..], cfg)
  }

  ghost predicate RunEnabled(room: Room, steps: seq<Step>, cfg: Config)
    decreases |steps|
  {
    steps != [] ==> Enabled(room, steps[0]) && RunEnabled(Apply(room, steps[0], cfg), steps[1..], cfg)
  }

  const EMPTY: Room := Room(map[], map[], map[])

  // ---------- The store performs runs ----------

  method Perform(store: Store, step: Step, cfg: Config)
    requires store.Valid()
    requires Enabled(store.View(), step)
    modifies store
    ensures store.Valid()
    ensures store.View() == Apply(old(store.View()), step, cfg)
  {
    hide IndexOf, Inserted, WithPriority, Swept, Marked, Reverted, PinnedFor, WithPin, WithVenue, SelectedFor,
      ResetFor, ReselectedFor, RealReclaim, IsScan;
    match step
    case Insert(id, req, now) => store.InsertArtifact(id, req, now, cfg.rules);
    case UpdatePriority(id, priority, now) => store.UpdateArtifactPriority(id, priority, now);
    case Sweep(score, now) => var _ := store.SweepArtifactPriorities(score, now);
    case Resolve(id, status) => store.MarkArtifactStatus(id, status);
    case Revert(id) => var _ := store.RevertArtifactToPending(id);
    case Pin(id, day) => var _ := store.PinArtifactForDay(id, day);
    case ClearPin(id) => store.ClearArtifactPin(id);
    case SetVenue(id, venue) => var _ := store.SetArtifactVenueServiceId(id, venue);
    case Select(day, now, published) => var _, _ := SelectToComposeForDay(store, day, now, cfg, published);
    case Reset(day) => var _, _ := ResetToComposeForDay(store, day);
    case Reselect(day, now, published) => ResetAndReselectForDay(store, day, now, cfg, published);
    case Reclaim(today, now, scan, dryRun) =>
      var _ := ReclaimStaleSelectedArtifacts(store, today, now, scan, dryRun);
  }

  /** After any run the pending index is exactly the PENDING rows, and the tables are what
      the operations mean, one after the other. */
  method Execute(store: Store, steps: seq<Step>, cfg: Config)
    requires store.Valid()
    requires RunEnabled(store.View(), steps, cfg)
    modifies store
    ensures store.Valid()
    ensures store.View() == Run(old(store.View()), steps, cfg)
  {
    hide IndexOf, Apply, Enabled;
    ghost var room := store.View();
    for i := 0 to |steps|
      invariant store.Valid()
      invariant RunEnabled(store.View(), steps[i..], cfg)
      invariant Run(store.View(), steps[i..], cfg) == Run(room, steps, cfg)
    {
      assert steps[i..][1..] == steps[i + 1..];
      Perform(store, steps[i], cfg);
    }
  }

  // ---------- What a step can do to a status ----------

  ghost predicate IsDone(artifacts: Artifacts, x: Id) {
    x in artifacts && (artifacts[x].status == Composed || artifacts[x].status == Discarded)
  }

  /** The status moves an operation can make. */
  ghost predicate StatusMove(before: Status, after: Status, selects: bool) {
    || after == before
    || (before == Pending && after == Selected && selects)
    || (before == Selected && after == Pending)
    || after == Composed
    || after == Discarded
  }

  lemma InsertMoves(room: Room, id: Id, req: Request, now: Instant, rules: MergeRules, x: Id)
    requires id !in room.artifacts && x in room.artifacts
    ensures var next := Inserted(room, id, req, now, rules);
            x in next.artifacts && StatusMove(room.artifacts[x].status, next.artifacts[x].status, false)
  {
    hide SupersededBy, MergedContent;
  }

  lemma SelectMoves(room: Room, day: Day, now: Instant, cfg: Config, published: set<string>, x: Id)
    requires x in room.artifacts
    ensures var next := SelectedFor(room, day, now, cfg, published);
            x in next.artifacts && StatusMove(room.artifacts[x].status, next.artifacts[x].status, true)
  {
    hide LineupOf, HumanPick, IdsOf, Kept, DayRows;
    var lineup := LineupOf(room.artifacts, day, cfg, published);
    LineupFacts(room.artifacts, day, cfg, published);
    LineupIds(lineup, room.artifacts);
  }

  lemma ResetMoves(room: Room, day: Day, x: Id)
    requires x in room.artifacts
    ensures var next := ResetFor(room, day);
            x in next.artifacts && StatusMove(room.artifacts[x].status, next.artifacts[x].status, false)
  {
    hide NamedOn, WithoutDay;
  }

  lemma ReclaimMoves(room: Room, today: Day, now: Instant, scan: seq<SlotKey>, x: Id)
    requires x in room.artifacts
    ensures var next := RealReclaim(room, today, now, scan).room;
            x in next.artifacts && StatusMove(room.artifacts[x].status, next.artifacts[x].status, false)
  {
    hide RealFrom, StaleFrom, ClaimedDays;
    var findings := Stale(room, today, scan);
    var claimed := ClaimedDays(room.artifacts);
    StaleAreReady(room, today, scan, {});
    if f :| f in findings && f.id == x {
      var i :| 0 <= i < |findings| && findings[i] == f;
      PassReverts(room, findings, today, now, claimed, i);
    } else {
      PassSpares(room, findings, today, now, claimed, x);
    }
  }

  predicate Selects(step: Step) {
    step.Select? || step.Reselect?
  }

  /** No operation drops an artifact, selects anything but a PENDING one, or moves a
      COMPOSED or DISCARDED artifact back. */
  lemma StepMoves(room: Room, step: Step, cfg: Config, x: Id)
    requires Enabled(room, step) && x in room.artifacts
    ensures var next := Apply(room, step, cfg);
            x in next.artifacts && StatusMove(room.artifacts[x].status, next.artifacts[x].status, Selects(step))
  {
    hide Inserted, SelectedFor, ResetFor, RealReclaim, PendingList, PinHolders, IdsOf;
    match step
    case Insert(id, req, now) => InsertMoves(room, id, req, now, cfg.rules, x);
    case Select(day, now, published) => SelectMoves(room, day, now, cfg, published, x);
    case Reset(day) => ResetMoves(room, day, x);
    case Reselect(day, now, published) =>
      ResetMoves(room, day, x);
      SelectMoves(ResetFor(room, day), day, now, cfg, published, x);
    case Reclaim(today, now, scan, dryRun) =>
      if !dryRun {
        ReclaimMoves(room, today, now, scan, x);
      }
    case _ =>
  }

  lemma DoneStaysDone(room: Room, step: Step, cfg: Config, x: Id)
    requires Enabled(room, step) && IsDone(room.artifacts, x)
    ensures IsDone(Apply(room, step, cfg).artifacts, x)
  {
    hide Apply;
    StepMoves(room, step, cfg, x);
  }

  /** No run ever brings a COMPOSED or DISCARDED artifact back to PENDING or SELECTED. */
  lemma {:induction false} NoResurrection(room: Room, steps: seq<Step>, cfg: Config, x: Id)
    requires RunEnabled(room, steps, cfg) && IsDone(room.artifacts, x)
    ensures IsDone(Run(room, steps, cfg).artifacts, x)
    decreases |steps|
  {
    hide Apply, IsDone, Enabled;
    if steps != [] {
      DoneStaysDone(room, steps[0], cfg, x);
      NoResurrection(Apply(room, steps[0], cfg), steps[1..], cfg, x);
    }
  }

  // ---------- No aliasing ----------

  lemma SelectAliases(room: Room, day: Day, now: Instant, cfg: Config, published: set<string>)
    requires NoAliasing(room.toCompose)
    ensures NoAliasing(SelectedFor(room, day, now, cfg, published).toCompose)
  {
    hide LineupOf, HumanPick, Placed;
    var lineup := LineupOf(room.artifacts, day, cfg, published);
    LineupFacts(room.artifacts, day, cfg, published);
    PlacedRows(room, day, now, lineup, HumanPick(room.artifacts, day).Some?);
    var rows := SelectedFor(room, day, now, cfg, published).toCompose;
    forall k | k in rows && k.day == day
      ensures k == SlotKey(day, k.slot) && k.slot < |lineup| && rows[k].artifact == lineup[k.slot].key.id
      ensures rows[k].artifact in IdsOf(lineup)
    {
      assert lineup[k.slot] in lineup;
    }
  }

  lemma ReclaimOnlyDeletes(room: Room, today: Day, now: Instant, scan: seq<SlotKey>)
    ensures RealReclaim(room, today, now, scan).room.toCompose == room.toCompose - KeysOf(Stale(room, today, scan))
  {
    hide RealFrom, StaleFrom;
    StaleAreReady(room, today, scan, {});
    PassTables(room, Stale(room, today, scan), today, now, ClaimedDays(room.artifacts));
  }

  /** Every operation, the public revert included, leaves each artifact named by at most
      one row. */
  lemma AliasingStep(room: Room, step: Step, cfg: Config)
    requires NoAliasing(room.toCompose)
    ensures NoAliasing(Apply(room, step, cfg).toCompose)
  {
    hide SelectedFor, RealReclaim, RevertedAll, NamedOn, Inserted;
    match step
    case Insert(id, req, now) => InsertKeepsRows(room, id, req, now, cfg.rules);
    case Select(day, now, published) => SelectAliases(room, day, now, cfg, published);
    case Reselect(day, now, published) => SelectAliases(ResetFor(room, day), day, now, cfg, published);
    case Reclaim(today, now, scan, dryRun) => ReclaimOnlyDeletes(room, today, now, scan);
    case _ =>
  }

  lemma InsertKeepsRows(room: Room, id: Id, req: Request, now: Instant, rules: MergeRules)
    ensures Inserted(room, id, req, now, rules).toCompose == room.toCompose
  {
  }

  lemma {:induction false} AliasingRun(room: Room, steps: seq<Step>, cfg: Config)
    requires NoAliasing(room.toCompose)
    ensures NoAliasing(Run(room, steps, cfg).toCompose)
    decreases |steps|
  {
    hide Apply, NoAliasing;
    if steps != [] {
      AliasingStep(room, steps[0], cfg);
      AliasingRun(Apply(room, steps[0], cfg), steps[1..], cfg);
    }
  }

  /** From empty tables no artifact is ever named by two rows, so no finding of a reclaim
      ever has a current reference: that branch is unreachable. */
  lemma NoAliasingEver(steps: seq<Step>, cfg: Config, today: Day, scan: seq<SlotKey>)
    requires IsScan(scan, Run(EMPTY, steps, cfg).toCompose)
    ensures var room := Run(EMPTY, steps, cfg);
            && NoAliasing(room.toCompose)
            && forall f :: f in Stale(room, today, scan) ==> !f.current
  {
    hide Run, StaleFrom;
    AliasingRun(EMPTY, steps, cfg);
    var room := Run(EMPTY, steps, cfg);
    StaleAreStale(room, today, scan, {});
    forall f | f in Stale(room, today, scan)
      ensures !f.current
    {
      assert room.toCompose[f.key].artifact == f.id;
    }
  }

  // ---------- Nothing is stranded ----------

  /** Every SELECTED artifact is named by a row. */
  ghost predicate AllNamed(room: Room) {
    forall x :: IsSelected(room.artifacts, x) ==> x in NamesOf(room.toCompose)
  }

  /** The caller's side of select: never on a day whose rows still name a SELECTED pick. */
  ghost predicate Guarded(room: Room, step: Step) {
    step.Select? ==> forall x :: x in NamedOn(room.toCompose, step.day) ==> !IsSelected(room.artifacts, x)
  }

  lemma SelectNames(room: Room, day: Day, now: Instant, cfg: Config, published: set<string>)
    requires AllNamed(room)
    requires forall x :: x in NamedOn(room.toCompose, day) ==> !IsSelected(room.artifacts, x)
    ensures AllNamed(SelectedFor(room, day, now, cfg, published))
  {
    hide LineupOf, HumanPick, Placed;
    var lineup := LineupOf(room.artifacts, day, cfg, published);
    var hasHuman := HumanPick(room.artifacts, day).Some?;
    var next := SelectedFor(room, day, now, cfg, published);
    LineupFacts(room.artifacts, day, cfg, published);
    LineupIds(lineup, room.artifacts);
    PlacedRows(room, day, now, lineup, hasHuman);
    PlacedNames(room, day, now, lineup, hasHuman);
    PlacedArtifacts(room, day, now, lineup, hasHuman);
    forall x | IsSelected(next.artifacts, x)
      ensures x in NamesOf(next.toCompose)
    {
      if x in IdsOf(lineup) {
        assert x in NamedOn(next.toCompose, day);
      } else {
        assert IsSelected(room.artifacts, x);
        var k :| k in room.toCompose && room.toCompose[k].artifact == x;
        assert k.day == day ==> x in NamedOn(room.toCompose, day);
        assert k in next.toCompose;
      }
    }
  }

  /** A select on a day whose rows name a SELECTED pick deletes that pick's only row. */
  lemma SelectStrands(room: Room, day: Day, now: Instant, cfg: Config, published: set<string>, x: Id)
    requires NoAliasing(room.toCompose)
    requires x in NamedOn(room.toCompose, day) && IsSelected(room.artifacts, x)
    ensures !AllNamed(SelectedFor(room, day, now, cfg, published))
  {
    hide LineupOf, HumanPick, Placed;
    var lineup := LineupOf(room.artifacts, day, cfg, published);
    var hasHuman := HumanPick(room.artifacts, day).Some?;
    var next := SelectedFor(room, day, now, cfg, published);
    LineupFacts(room.artifacts, day, cfg, published);
    LineupIds(lineup, room.artifacts);
    PlacedRows(room, day, now, lineup, hasHuman);
    PlacedNames(room, day, now, lineup, hasHuman);
    PlacedArtifacts(room, day, now, lineup, hasHuman);
    var own :| own in room.toCompose && own.day == day && room.toCompose[own].artifact == x;
    assert x !in IdsOf(lineup) && IsSelected(next.artifacts, x);
    forall k | k in next.toCompose
      ensures next.toCompose[k].artifact != x
    {
      if k.day == day {
        assert next.toCompose[k].artifact in NamedOn(next.toCompose, day);
      }
    }
  }

  lemma ResetNames(room: Room, day: Day)
    requires AllNamed(room)
    ensures AllNamed(ResetFor(room, day))
    ensures NamedOn(ResetFor(room, day).toCompose, day) == {}
  {
    var next := ResetFor(room, day);
    forall x | IsSelected(next.artifacts, x)
      ensures x in NamesOf(next.toCompose)
    {
      assert IsSelected(room.artifacts, x);
      var k :| k in room.toCompose && room.toCompose[k].artifact == x;
      assert k.day == day ==> x in NamedOn(room.toCompose, day);
      assert k in next.toCompose;
    }
  }

  lemma ReclaimNames(room: Room, today: Day, now: Instant, scan: seq<SlotKey>)
    requires AllNamed(room) && NoAliasing(room.toCompose) && IsScan(scan, room.toCompose)
    ensures AllNamed(RealReclaim(room, today, now, scan).room)
  {
    hide RealFrom, StaleFrom, ClaimedDays;
    var findings := Stale(room, today, scan);
    var next := RealReclaim(room, today, now, scan).room;
    StaleAreReady(room, today, scan, {});
    StaleAreStale(room, today, scan, {});
    ReclaimOnlyDeletes(room, today, now, scan);
    PassTables(room, findings, today, now, ClaimedDays(room.artifacts));
    forall x | IsSelected(next.artifacts, x)
      ensures x in NamesOf(next.toCompose)
    {
      ReclaimMoves(room, today, now, scan, x);
      assert IsSelected(room.artifacts, x);
      var k :| k in room.toCompose && room.toCompose[k].artifact == x;
      FoundIffStale(room, today, scan, k);
      if Finds(findings, x) {
        FoundIsReverted(room, today, now, scan, x);
      }
      assert k in next.toCompose;
    }
  }

  lemma FoundIsReverted(room: Room, today: Day, now: Instant, scan: seq<SlotKey>, x: Id)
    requires NoAliasing(room.toCompose) && IsScan(scan, room.toCompose)
    requires Finds(Stale(room, today, scan), x)
    ensures !IsSelected(RealReclaim(room, today, now, scan).room.artifacts, x)
  {
    hide RealFrom, StaleFrom, ClaimedDays;
    var findings := Stale(room, today, scan);
    StaleAreReady(room, today, scan, {});
    StaleAreStale(room, today, scan, {});
    var f :| f in findings && f.id == x;
    var i :| 0 <= i < |findings| && findings[i] == f;
    assert !f.current by {
      assert room.toCompose[f.key].artifact == f.id;
    }
    PassReverts(room, findings, today, now, ClaimedDays(room.artifacts), i);
  }

  /** An operation keeps every SELECTED artifact named exactly when it is guarded. */
  lemma NamedStepIff(room: Room, step: Step, cfg: Config)
    requires Enabled(room, step)
    requires AllNamed(room) && NoAliasing(room.toCompose)
    ensures AllNamed(Apply(room, step, cfg)) <==> Guarded(room, step)
  {
    hide SelectedFor, ResetFor, RealReclaim, IsScan, NoAliasing, NamesOf, NamedOn, Inserted, PendingList;
    match step
    case Select(day, now, published) =>
      if x :| x in NamedOn(room.toCompose, day) && IsSelected(room.artifacts, x) {
        SelectStrands(room, day, now, cfg, published, x);
      } else {
        SelectNames(room, day, now, cfg, published);
      }
    case Reset(day) => ResetNames(room, day);
    case Reselect(day, now, published) =>
      ResetNames(room, day);
      SelectNames(ResetFor(room, day), day, now, cfg, published);
    case Reclaim(today, now, scan, dryRun) =>
      if !dryRun {
        ReclaimNames(room, today, now, scan);
      }
    case Insert(id, req, now) =>
      InsertKeepsRows(room, id, req, now, cfg.rules);
      InsertSelectsNone(room, id, req, now, cfg.rules);
    case _ =>
      forall x | IsSelected(Apply(room, step, cfg).artifacts, x)
        ensures IsSelected(room.artifacts, x)
      {
        StepMoves(room, step, cfg, x);
      }
  }

  lemma InsertSelectsNone(room: Room, id: Id, req: Request, now: Instant, rules: MergeRules)
    ensures forall x :: IsSelected(Inserted(room, id, req, now, rules).artifacts, x) ==> IsSelected(room.artifacts, x)
  {
    hide SupersededBy, MergedContent;
  }

  ghost predicate RunGuarded(room: Room, steps: seq<Step>, cfg: Config)
    decreases |steps|
  {
    steps != [] ==> Guarded(room, steps[0]) && RunGuarded(Apply(room, steps[0], cfg), steps[1..], cfg)
  }

  /** Before the run and after each of its steps every SELECTED artifact is named. */
  ghost predicate AlwaysNamed(room: Room, steps: seq<Step>, cfg: Config)
    decreases |steps|
  {
    AllNamed(room) && (steps != [] ==> AlwaysNamed(Apply(room, steps[0], cfg), steps[1..], cfg))
  }

  lemma {:induction false} NamedRunIff(room: Room, steps: seq<Step>, cfg: Config)
    requires RunEnabled(room, steps, cfg)
    requires AllNamed(room) && NoAliasing(room.toCompose)
    ensures AlwaysNamed(room, steps, cfg) <==> RunGuarded(room, steps, cfg)
    ensures RunGuarded(room, steps, cfg) ==> AllNamed(Run(room, steps, cfg)) && NoAliasing(Run(room, steps, cfg).toCompose)
    decreases |steps|
  {
    hide Apply, NoAliasing, AllNamed, Enabled, Guarded;
    if steps != [] {
      AliasingStep(room, steps[0], cfg);
      NamedStepIff(room, steps[0], cfg);
      if Guarded(room, steps[0]) {
        NamedRunIff(Apply(room, steps[0], cfg), steps[1..], cfg);
      } else {
        UnnamedIsNotAlways(Apply(room, steps[0], cfg), steps[1..], cfg);
      }
    }
  }

  lemma UnnamedIsNotAlways(room: Room, steps: seq<Step>, cfg: Config)
    requires !AllNamed(room)
    ensures !AlwaysNamed(room, steps, cfg)
  {
  }

  /** From empty tables, no SELECTED artifact is ever without a row exactly when every select
      runs on a day whose rows name no SELECTED pick. */
  lemma NeverStrandedIff(steps: seq<Step>, cfg: Config)
    requires RunEnabled(EMPTY, steps, cfg)
    ensures AlwaysNamed(EMPTY, steps, cfg) <==> RunGuarded(EMPTY, steps, cfg)
  {
    hide Run, RunEnabled, RunGuarded, AlwaysNamed;
    assert AllNamed(EMPTY);
    NamedRunIff(EMPTY, steps, cfg);
  }

  /** In every guarded run from empty tables each SELECTED artifact has exactly one row. */
  lemma SelectedHasOneRow(steps: seq<Step>, cfg: Config, x: Id)
    requires RunEnabled(EMPTY, steps, cfg) && RunGuarded(EMPTY, steps, cfg)
    requires IsSelected(Run(EMPTY, steps, cfg).artifacts, x)
    ensures var rows := Run(EMPTY, steps, cfg).toCompose;
            exists k :: k in rows && rows[k].artifact == x
                        && forall j :: j in rows && rows[j].artifact == x ==> j == k
  {
    hide Run, RunEnabled, RunGuarded;
    assert AllNamed(EMPTY);
    NamedRunIff(EMPTY, steps, cfg);
    var rows := Run(EMPTY, steps, cfg).toCompose;
    assert x in NamesOf(rows);
    var k :| k in rows && rows[k].artifact == x;
  }

  /** Nothing is stranded: after a reclaim at the end of such a run, every SELECTED artifact
      has exactly one row, for today or later, and a second reclaim finds nothing. */
  lemma NothingStranded(steps: seq<Step>, cfg: Config, today: Day, now: Instant, scan: seq<SlotKey>, rescan: seq<SlotKey>)
    requires RunEnabled(EMPTY, steps, cfg) && RunGuarded(EMPTY, steps, cfg)
    requires IsScan(scan, Run(EMPTY, steps, cfg).toCompose)
    requires IsScan(rescan, RealReclaim(Run(EMPTY, steps, cfg), today, now, scan).room.toCompose)
    ensures var next := RealReclaim(Run(EMPTY, steps, cfg), today, now, scan).room;
            && (forall x :: IsSelected(next.artifacts, x) ==>
                  exists k :: k in next.toCompose && next.toCompose[k].artifact == x && k.day >= today
                              && forall j :: j in next.toCompose && next.toCompose[j].artifact == x ==> j == k)
            && Stale(next, today, rescan) == []
  {
    hide Run, RunEnabled, RunGuarded, RealReclaim, IsScan, Stale;
    assert AllNamed(EMPTY);
    NamedRunIff(EMPTY, steps, cfg);
    var room := Run(EMPTY, steps, cfg);
    var next := RealReclaim(room, today, now, scan).room;
    ReclaimClears(room, today, now, scan, rescan);
    ReclaimNames(room, today, now, scan);
    ReclaimOnlyDeletes(room, today, now, scan);
    forall x | IsSelected(next.artifacts, x)
      ensures exists k :: k in next.toCompose && next.toCompose[k].artifact == x && k.day >= today
                          && forall j :: j in next.toCompose && next.toCompose[j].artifact == x ==> j == k
    {
      assert x in NamesOf(next.toCompose);
      var k :| k in next.toCompose && next.toCompose[k].artifact == x;
      assert k.day >= today;
      assert k in next.toCompose && next.toCompose[k].artifact == x;
    }
  }

  // ---------- History over runs ----------

  function UpdatesOf(steps: seq<Step>, service: string): seq<Update> {
    if steps == [] then []
    else
      (if steps[0].Insert? && steps[0].req.service == service then [Update(steps[0].req, steps[0].now)] else [])
      + UpdatesOf(steps[1..], service)
  }

  /** An operation that passes a service over: it selects, resolves and returns none of the
      artifacts pending for it, whatever it does to others. An insert always does. */
  ghost predicate PassesOver(room: Room, step: Step, cfg: Config, service: string) {
    step.Insert? || PendingOf(Apply(room, step, cfg).artifacts, service) == PendingOf(room.artifacts, service)
  }

  /** Every operation of the run passes the service over, and every insert's scan sees the
      whole pending partition. */
  ghost predicate RunPassesOver(room: Room, steps: seq<Step>, cfg: Config, service: string)
    decreases |steps|
  {
    steps != [] ==>
      && PassesOver(room, steps[0], cfg, service)
      && (steps[0].Insert? ==> WithinLimit(room.artifacts))
      && RunPassesOver(Apply(room, steps[0], cfg), steps[1..], cfg, service)
  }

  lemma QuietTracks(room: Room, next: Room, service: string, mine: seq<Update>, rules: MergeRules)
    requires next.contents == room.contents
    requires forall x :: x in room.artifacts ==> x in next.artifacts && SameOrigin(room.artifacts[x], next.artifacts[x])
    requires PendingOf(next.artifacts, service) == PendingOf(room.artifacts, service)
    requires Tracks(room, service, mine, rules)
    ensures Tracks(next, service, mine, rules)
  {
    hide Accumulated;
    if mine != [] {
      var x :| HoldsHistory(room, service, mine, rules, x);
      assert HoldsHistory(next, service, mine, rules, x);
    }
  }

  lemma SelectKeepsOrigins(room: Room, day: Day, now: Instant, cfg: Config, published: set<string>, x: Id)
    requires x in room.artifacts
    ensures var next := SelectedFor(room, day, now, cfg, published);
            next.contents == room.contents && x in next.artifacts && SameOrigin(room.artifacts[x], next.artifacts[x])
  {
    hide LineupOf, HumanPick, IdsOf, Kept, DayRows;
  }

  lemma ResetKeepsOrigins(room: Room, day: Day, x: Id)
    requires x in room.artifacts
    ensures var next := ResetFor(room, day);
            next.contents == room.contents && x in next.artifacts && SameOrigin(room.artifacts[x], next.artifacts[x])
  {
    hide NamedOn, WithoutDay;
  }

  lemma ReclaimKeepsOrigins(room: Room, today: Day, now: Instant, scan: seq<SlotKey>, x: Id)
    requires x in room.artifacts
    ensures var next := RealReclaim(room, today, now, scan).room;
            next.contents == room.contents && x in next.artifacts && SameOrigin(room.artifacts[x], next.artifacts[x])
  {
    hide RealFrom, StaleFrom, ClaimedDays, Ready;
    StaleAreReady(room, today, scan, {});
    PassTables(room, Stale(room, today, scan), today, now, ClaimedDays(room.artifacts));
    PassKeepsOrigins(room, Stale(room, today, scan), today, now, ClaimedDays(room.artifacts), x);
  }

  /** No operation but an insert writes contents or what an artifact came with. */
  lemma OriginsStay(room: Room, step: Step, cfg: Config, x: Id)
    requires !step.Insert? && x in room.artifacts
    ensures var next := Apply(room, step, cfg);
            next.contents == room.contents && x in next.artifacts && SameOrigin(room.artifacts[x], next.artifacts[x])
  {
    hide SelectedFor, ResetFor, RealReclaim, PendingList, PinHolders, IdsOf;
    match step
    case Select(day, now, published) => SelectKeepsOrigins(room, day, now, cfg, published, x);
    case Reset(day) => ResetKeepsOrigins(room, day, x);
    case Reselect(day, now, published) =>
      ResetKeepsOrigins(room, day, x);
      SelectKeepsOrigins(ResetFor(room, day), day, now, cfg, published, x);
    case Reclaim(today, now, scan, dryRun) =>
      if !dryRun {
        ReclaimKeepsOrigins(room, today, now, scan, x);
      }
    case _ =>
  }

  lemma ContentsStay(room: Room, step: Step, cfg: Config)
    requires !step.Insert?
    ensures Apply(room, step, cfg).contents == room.contents
  {
    hide RealReclaim, LineupOf, HumanPick, DayRows, Kept, MarkedAll, RevertedAll, NamedOn, WithoutDay;
    if step.Reclaim? {
      ReclaimKeepsContents(room, step.today, step.now, step.scan);
    }
  }

  lemma ReclaimKeepsContents(room: Room, today: Day, now: Instant, scan: seq<SlotKey>)
    ensures RealReclaim(room, today, now, scan).room.contents == room.contents
  {
    hide RealFrom, StaleFrom, Ready, ClaimedDays;
    StaleAreReady(room, today, scan, {});
    PassTables(room, Stale(room, today, scan), today, now, ClaimedDays(room.artifacts));
  }

  lemma HistoryStep(room: Room, step: Step, cfg: Config, service: string, mine: seq<Update>)
    requires Enabled(room, step) && PassesOver(room, step, cfg, service)
    requires step.Insert? ==> WithinLimit(room.artifacts)
    requires service != "" && Tracks(room, service, mine, cfg.rules)
    ensures Tracks(Apply(room, step, cfg), service, mine + UpdatesOf([step], service), cfg.rules)
  {
    UpdatesOfOne(step, service);
    hide Tracks, UpdatesOf, Inserted, WithinLimit, SameOrigin;
    if step.Insert? {
      InsertTracks(room, step.id, Update(step.req, step.now), cfg.rules, service, mine);
    } else {
      hide Apply;
      forall x | x in room.artifacts
        ensures x in Apply(room, step, cfg).artifacts && SameOrigin(room.artifacts[x], Apply(room, step, cfg).artifacts[x])
      {
        OriginsStay(room, step, cfg, x);
      }
      ContentsStay(room, step, cfg);
      QuietTracks(room, Apply(room, step, cfg), service, mine, cfg.rules);
    }
    assert mine + [] == mine;
  }

  lemma UpdatesOfOne(step: Step, service: string)
    ensures UpdatesOf([step], service)
            == if step.Insert? && step.req.service == service then [Update(step.req, step.now)] else []
  {
  }

  /** However often selects, resets, reclaims and verdicts pass a service over, and however
      its updates interleave with other services, sweeps and pins, it has one pending
      artifact, whose content is the accumulation of all its updates since it last had none. */
  lemma {:induction false} HistoryRun(room: Room, steps: seq<Step>, cfg: Config, service: string, mine: seq<Update>)
    requires RunEnabled(room, steps, cfg) && RunPassesOver(room, steps, cfg, service)
    requires service != "" && Tracks(room, service, mine, cfg.rules)
    ensures Tracks(Run(room, steps, cfg), service, mine + UpdatesOf(steps, service), cfg.rules)
    decreases |steps|
  {
    hide Apply, Tracks, Enabled, WithinLimit, PassesOver;
    if steps == [] {
      assert mine + [] == mine;
    } else {
      HistoryStep(room, steps[0], cfg, service, mine);
      var first := UpdatesOf([steps[0]], service);
      HistoryRun(Apply(room, steps[0], cfg), steps[1..], cfg, service, mine + first);
      UpdatesOfCons(steps, service);
      assert mine + first + UpdatesOf(steps[1..], service) == mine + (first + UpdatesOf(steps[1..], service));
    }
  }

  lemma UpdatesOfCons(steps: seq<Step>, service: string)
    requires steps != []
    ensures UpdatesOf(steps, service) == UpdatesOf([steps[0]], service) + UpdatesOf(steps[1..], service)
  {
  }

  // ---------- Who is passed over ----------

  /** A select passes a service over exactly when its lineup names no artifact of it. */
  lemma SelectPassesOverIff(room: Room, day: Day, now: Instant, published: set<string>, cfg: Config, service: string)
    ensures PassesOver(room, Select(day, now, published), cfg, service)
            <==> forall r :: r in LineupOf(room.artifacts, day, cfg, published) ==> r.row.service != service
  {
    hide LineupOf, HumanPick, Kept, DayRows;
    var lineup := LineupOf(room.artifacts, day, cfg, published);
    LineupFacts(room.artifacts, day, cfg, published);
    var next := SelectedFor(room, day, now, cfg, published);
    if r :| r in lineup && r.row.service == service {
      assert r.key.id in PendingOf(room.artifacts, service) && r.key.id !in PendingOf(next.artifacts, service);
    } else {
      forall x
        ensures x in PendingOf(next.artifacts, service) <==> x in PendingOf(room.artifacts, service)
      {
        if x in IdsOf(lineup) {
          var r :| r in lineup && r.key.id == x;
        }
      }
    }
  }
}
