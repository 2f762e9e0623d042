/** Where a reclaim carries the stale human picks: the k-th of them to the k-th open day. */
module ReclaimPins {
  import opened Wrappers
  import opened ArtifactTables
  import opened ToComposeSelection
  import opened Reclaim
  import opened ReclaimLaws

  // ---------- Open days ----------

  /** The days from today on, before `end`, that nobody has claimed and no selection locked in. */
  ghost function OpenDays(toCompose: ToCompose, claimed: set<Day>, today: Day, end: Day): set<Day> {
    set d | today <= d < end && IsFree(toCompose, claimed, d)
  }

  /** How many open days come before d. */
  ghost function Rank(toCompose: ToCompose, claimed: set<Day>, today: Day, d: Day): nat {
    |OpenDays(toCompose, claimed, today, d)|
  }

  ghost function OpenCount(toCompose: ToCompose, claimed: set<Day>, today: Day): nat {
    Rank(toCompose, claimed, today, today + WINDOW_DAYS)
  }

  ghost predicate InWindow(today: Day, d: Day) {
    today <= d < today + WINDOW_DAYS
  }

  /** Open days are ranked in their order. */
  lemma RankRises(toCompose: ToCompose, claimed: set<Day>, today: Day, d: Day, e: Day)
    requires today <= d < e && IsFree(toCompose, claimed, d)
    ensures Rank(toCompose, claimed, today, d) < Rank(toCompose, claimed, today, e)
  {
    var before, after := OpenDays(toCompose, claimed, today, d), OpenDays(toCompose, claimed, today, e);
    assert before + {d} <= after;
    SubsetSize(before + {d}, after);
  }

  /** The open day of rank k, or the day after the window when it holds no more than k. */
  ghost predicate IsKthOpen(toCompose: ToCompose, claimed: set<Day>, today: Day, k: nat, d: Day) {
    if k < OpenCount(toCompose, claimed, today)
    then InWindow(today, d) && IsFree(toCompose, claimed, d) && Rank(toCompose, claimed, today, d) == k
    else d == today + WINDOW_DAYS
  }

  lemma ProbeIsFirstOpen(toCompose: ToCompose, claimed: set<Day>, today: Day)
    ensures IsKthOpen(toCompose, claimed, today, 0, NextOpenDay(toCompose, claimed, today))
  {
    ProbeFinds(toCompose, claimed, today, WINDOW_DAYS);
    var d := NextOpenDay(toCompose, claimed, today);
    assert OpenDays(toCompose, claimed, today, d) == {};
    if d < today + WINDOW_DAYS {
      RankRises(toCompose, claimed, today, d, today + WINDOW_DAYS);
    }
  }

  lemma SameOpenness(toCompose: ToCompose, k: SlotKey, claimed: set<Day>, today: Day, d: Day)
    requires k.day < today <= d
    ensures IsFree(WithoutRow(toCompose, k), claimed, d) <==> IsFree(toCompose, claimed, d)
  {
  }

  /** Deleting a past row opens no day. */
  lemma PastRowsOpenNothing(toCompose: ToCompose, k: SlotKey, claimed: set<Day>, today: Day, end: Day)
    requires k.day < today
    ensures OpenDays(WithoutRow(toCompose, k), claimed, today, end) == OpenDays(toCompose, claimed, today, end)
  {
    hide IsFree, WithoutRow;
    forall d | today <= d < end
      ensures IsFree(WithoutRow(toCompose, k), claimed, d) <==> IsFree(toCompose, claimed, d)
    {
      SameOpenness(toCompose, k, claimed, today, d);
    }
  }

  lemma ClaimTakesOne(toCompose: ToCompose, claimed: set<Day>, today: Day, end: Day, d: Day)
    ensures OpenDays(toCompose, claimed + {d}, today, end) == OpenDays(toCompose, claimed, today, end) - {d}
  {
  }

  lemma CountAfterClaim(toCompose: ToCompose, claimed: set<Day>, today: Day)
    ensures var first := NextOpenDay(toCompose, claimed, today);
            var count := OpenCount(toCompose, claimed, today);
            OpenCount(toCompose, claimed + {first}, today) == if count > 0 then count - 1 else 0
  {
    hide NextOpenDay;
    ProbeIsFirstOpen(toCompose, claimed, today);
    ClaimTakesOne(toCompose, claimed, today, today + WINDOW_DAYS, NextOpenDay(toCompose, claimed, today));
  }

  lemma OpenAfterClaim(toCompose: ToCompose, claimed: set<Day>, first: Day, d: Day)
    ensures IsFree(toCompose, claimed + {first}, d) <==> IsFree(toCompose, claimed, d) && d != first
  {
  }

  lemma RankAfterClaim(toCompose: ToCompose, claimed: set<Day>, today: Day, first: Day, d: Day)
    requires today <= first < d && IsFree(toCompose, claimed, first)
    ensures Rank(toCompose, claimed, today, d) == Rank(toCompose, claimed + {first}, today, d) + 1
  {
    ClaimTakesOne(toCompose, claimed, today, d, first);
    assert first in OpenDays(toCompose, claimed, today, d);
  }

  /** Once the probe's day is claimed, the open days behind it move up by one. */
  lemma ClaimShiftsRanks(toCompose: ToCompose, claimed: set<Day>, today: Day, k: nat, d: Day)
    requires var first := NextOpenDay(toCompose, claimed, today);
             IsKthOpen(toCompose, claimed + {first}, today, k, d)
    ensures IsKthOpen(toCompose, claimed, today, k + 1, d)
  {
    hide NextOpenDay, IsFree, Rank, OpenCount;
    var first := NextOpenDay(toCompose, claimed, today);
    ProbeIsFirstOpen(toCompose, claimed, today);
    CountAfterClaim(toCompose, claimed, today);
    OpenAfterClaim(toCompose, claimed, first, d);
    if first < d && k + 1 < OpenCount(toCompose, claimed, today) {
      RankAfterClaim(toCompose, claimed, today, first, d);
    } else if today <= d < first && IsFree(toCompose, claimed, d) {
      RankRises(toCompose, claimed, today, d, first);
    }
  }

  // ---------- Counting human picks ----------

  ghost function HumanPicks(findings: seq<Finding>): nat {
    if findings == [] then 0 else (if IsHumanPick(findings[0]) then 1 else 0) + HumanPicks(findings[1..])
  }

  lemma HumansBeforeNext(findings: seq<Finding>, i: nat)
    requires 0 < i <= |findings|
    ensures HumanPicks(findings[..i]) == (if IsHumanPick(findings[0]) then 1 else 0) + HumanPicks(findings[1..][..i - 1])
  {
    assert findings[..i][1..] == findings[1..][..i - 1];
  }

  /** Human picks before i, at i, and in all. */
  lemma {:induction false} HumansInOrder(findings: seq<Finding>, i: nat)
    requires i < |findings|
    ensures HumanPicks(findings[..i + 1]) == HumanPicks(findings[..i]) + if IsHumanPick(findings[i]) then 1 else 0
    ensures HumanPicks(findings[..i + 1]) <= HumanPicks(findings)
  {
    assert findings[..0] == [];
    HumansBeforeNext(findings, i + 1);
    if i > 0 {
      HumansBeforeNext(findings, i);
      HumansInOrder(findings[1..], i - 1);
    } else {
      assert findings[1..][..0] == [];
    }
  }

  lemma {:induction false} HumansMonotone(findings: seq<Finding>, i: nat, j: nat)
    requires i <= j <= |findings|
    ensures HumanPicks(findings[..i]) <= HumanPicks(findings[..j]) <= HumanPicks(findings)
    decreases j - i
  {
    if i < j {
      HumansInOrder(findings, i);
      HumansMonotone(findings, i + 1, j);
    } else {
      if j < |findings| {
        HumansInOrder(findings, j);
      }
      assert findings[..|findings|] == findings;
    }
  }

  lemma {:induction false} KthHumanExists(findings: seq<Finding>, k: nat) returns (j: nat)
    requires k < HumanPicks(findings)
    ensures j < |findings| && IsHumanPick(findings[j]) && HumanPicks(findings[..j]) == k
  {
    if IsHumanPick(findings[0]) && k == 0 {
      j := 0;
      assert findings[..0] == [];
    } else {
      var i := KthHumanExists(findings[1..], k - if IsHumanPick(findings[0]) then 1 else 0);
      j := i + 1;
      HumansBeforeNext(findings, j);
    }
  }

  // ---------- The targets ----------

  lemma HeadTarget(room: Room, f: Finding, today: Day, claimed: set<Day>)
    ensures var action := PlannedAction(room, f, today, claimed);
            && (IsHumanPick(f) ==> action == RepinnedForward(NextOpenDay(room.toCompose, claimed, today)))
            && (!IsHumanPick(f) ==> ClaimedAfter(claimed, action) == claimed && !action.RepinnedForward?)
            && (IsHumanPick(f) ==> ClaimedAfter(claimed, action) == claimed + {NextOpenDay(room.toCompose, claimed, today)})
  {
    hide NextOpenDay, BoostedPriority;
  }

  /** The human pick with k others before it is re-pinned to the open day with k others
      before it, whatever else is found around them. */
  lemma {:induction false} PassTargets(room: Room, findings: seq<Finding>, today: Day, now: Instant, claimed: set<Day>, i: nat)
    requires Ready(room, findings, today)
    requires i < |findings|
    ensures var entries := RealFrom(room, findings, today, now, claimed).entries;
            && i < |entries|
            && (entries[i].action.RepinnedForward? <==> IsHumanPick(findings[i]))
            && (IsHumanPick(findings[i]) ==>
                  IsKthOpen(room.toCompose, claimed, today, HumanPicks(findings[..i]), entries[i].action.target))
    decreases |findings|
  {
    hide RoomAfter, RealFrom, Ready, PlannedAction, ClaimedAfter, WithoutRow, NamedOn, NextOpenDay, IsHumanPick, IsSelected;
    var f, rest := findings[0], findings[1..];
    var action := PlannedAction(room, f, today, claimed);
    RealStep(room, findings, today, now, claimed);
    HeadTarget(room, f, today, claimed);
    ProbeIsFirstOpen(room.toCompose, claimed, today);
    if i == 0 {
      assert findings[..0] == [];
    } else {
      assert f in findings;
      StepFrame(room, f, action, now);
      var next := RoomAfter(room, f, action, now);
      var nextClaimed := ClaimedAfter(claimed, action);
      PassTargets(next, rest, today, now, nextClaimed, i - 1);
      HumansBeforeNext(findings, i);
      if IsHumanPick(findings[i]) {
        var d := RealFrom(next, rest, today, now, nextClaimed).entries[i - 1].action.target;
        SameRanks(room.toCompose, f.key, nextClaimed, today, HumanPicks(rest[..i - 1]), d);
        if IsHumanPick(f) {
          ClaimShiftsRanks(room.toCompose, claimed, today, HumanPicks(rest[..i - 1]), d);
        }
      }
    }
  }

  lemma SameRanks(toCompose: ToCompose, key: SlotKey, claimed: set<Day>, today: Day, k: nat, d: Day)
    requires key.day < today
    ensures IsKthOpen(WithoutRow(toCompose, key), claimed, today, k, d) <==> IsKthOpen(toCompose, claimed, today, k, d)
    ensures OpenCount(WithoutRow(toCompose, key), claimed, today) == OpenCount(toCompose, claimed, today)
  {
    PastRowsOpenNothing(toCompose, key, claimed, today, d);
    PastRowsOpenNothing(toCompose, key, claimed, today, today + WINDOW_DAYS);
    if d >= today {
      SameOpenness(toCompose, key, claimed, today, d);
    }
  }

  // ---------- No theft ----------

  ghost predicate PinClaimed(artifacts: Artifacts, claimed: set<Day>, x: Id) {
    IsPending(artifacts, x) && (artifacts[x].pin.Some? ==> artifacts[x].pin.value in claimed)
  }

  /** While the window holds an open day for every human pick, a claimed pin is never taken. */
  lemma {:induction false} PassProtects(room: Room, findings: seq<Finding>, today: Day, now: Instant, claimed: set<Day>, x: Id)
    requires Ready(room, findings, today)
    requires HumanPicks(findings) <= OpenCount(room.toCompose, claimed, today)
    requires PinClaimed(room.artifacts, claimed, x)
    ensures var out := RealFrom(room, findings, today, now, claimed).room;
            x in out.artifacts && out.artifacts[x] == room.artifacts[x]
    decreases |findings|
  {
    hide RoomAfter, RealFrom, Ready, PlannedAction, ClaimedAfter, WithoutRow, NamedOn, NextOpenDay, IsHumanPick, OpenCount;
    if findings == [] {
      RealDone(room, today, now, claimed);
    } else {
      var f := findings[0];
      var action := PlannedAction(room, f, today, claimed);
      RealStep(room, findings, today, now, claimed);
      HeadTarget(room, f, today, claimed);
      assert f in findings;
      StepFrame(room, f, action, now);
      ProbeIsFirstOpen(room.toCompose, claimed, today);
      CountAfterClaim(room.toCompose, claimed, today);
      SameRanks(room.toCompose, f.key, ClaimedAfter(claimed, action), today, 0, today);
      var next := RoomAfter(room, f, action, now);
      assert next.artifacts[x] == room.artifacts[x];
      PassProtects(next, findings[1..], today, now, ClaimedAfter(claimed, action), x);
    }
  }

  lemma {:induction false} PassRepins(room: Room, findings: seq<Finding>, today: Day, now: Instant, claimed: set<Day>, i: nat)
    requires Ready(room, findings, today)
    requires HumanPicks(findings) <= OpenCount(room.toCompose, claimed, today)
    requires i < |findings| && IsHumanPick(findings[i])
    ensures var out := RealFrom(room, findings, today, now, claimed);
            var id := findings[i].id;
            && i < |out.entries| && out.entries[i].action.RepinnedForward?
            && id in room.artifacts && id in out.room.artifacts
            && out.room.artifacts[id] == room.artifacts[id].(status := Pending, pin := Some(out.entries[i].action.target))
    decreases |findings|
  {
    hide RoomAfter, RealFrom, Ready, PlannedAction, ClaimedAfter, WithoutRow, NamedOn, NextOpenDay, IsHumanPick, OpenCount;
    var f, rest := findings[0], findings[1..];
    var action := PlannedAction(room, f, today, claimed);
    RealStep(room, findings, today, now, claimed);
    HeadTarget(room, f, today, claimed);
    assert f in findings && findings[i] in findings;
    StepFrame(room, f, action, now);
    CountAfterClaim(room.toCompose, claimed, today);
    SameRanks(room.toCompose, f.key, ClaimedAfter(claimed, action), today, 0, today);
    var next := RoomAfter(room, f, action, now);
    var nextClaimed := ClaimedAfter(claimed, action);
    if i == 0 {
      PassProtects(next, rest, today, now, nextClaimed, f.id);
    } else {
      PassRepins(next, rest, today, now, nextClaimed, i - 1);
    }
  }

  /** Entry i re-pins a human pick to the open day of its own rank, and the pick ends up
      PENDING and pinned to it, otherwise as it was. */
  ghost predicate Repinned(room: Room, findings: seq<Finding>, out: Outcome, today: Day, claimed: set<Day>, i: nat) {
    && i < |findings| && i < |out.entries|
    && out.entries[i].action.RepinnedForward?
    && var d := out.entries[i].action.target;
    && InWindow(today, d) && IsFree(room.toCompose, claimed, d)
    && Rank(room.toCompose, claimed, today, d) == HumanPicks(findings[..i])
    && var id := findings[i].id;
    && id in room.artifacts && id in out.room.artifacts
    && out.room.artifacts[id] == room.artifacts[id].(status := Pending, pin := Some(d))
  }

  lemma TargetsInWindow(room: Room, findings: seq<Finding>, today: Day, now: Instant, claimed: set<Day>, i: nat)
    requires Ready(room, findings, today)
    requires HumanPicks(findings) <= OpenCount(room.toCompose, claimed, today)
    requires i < |findings| && IsHumanPick(findings[i])
    ensures Repinned(room, findings, RealFrom(room, findings, today, now, claimed), today, claimed, i)
  {
    hide RealFrom, Ready, OpenCount, Rank, IsFree, IsHumanPick;
    PassTargets(room, findings, today, now, claimed, i);
    PassRepins(room, findings, today, now, claimed, i);
    HumansInOrder(findings, i);
  }

  /** The days of two re-pinned picks stand in the picks' own order. */
  lemma TargetsRise(room: Room, findings: seq<Finding>, out: Outcome, today: Day, claimed: set<Day>, i: nat, j: nat)
    requires i < j && Repinned(room, findings, out, today, claimed, i) && Repinned(room, findings, out, today, claimed, j)
    requires IsHumanPick(findings[i])
    ensures out.entries[i].action.target < out.entries[j].action.target
  {
    hide IsFree, Rank, IsHumanPick;
    var d, e := out.entries[i].action.target, out.entries[j].action.target;
    HumansInOrder(findings, i);
    HumansMonotone(findings, i + 1, j);
    if e < d {
      RankRises(room.toCompose, claimed, today, e, d);
    }
  }

  /** No row stands on the day and no PENDING artifact is pinned to it. */
  ghost predicate IsNobodys(room: Room, day: Day) {
    && (forall k :: k in room.toCompose ==> k.day != day)
    && (forall x :: IsPending(room.artifacts, x) ==> room.artifacts[x].pin != Some(day))
  }

  /** The days a reclaim starts out from as claimed. */
  lemma ClaimedDaysTold(artifacts: Artifacts, day: Day)
    requires WithinLimit(artifacts)
    ensures day in ClaimedDays(artifacts) <==> exists x :: IsPending(artifacts, x) && artifacts[x].pin == Some(day)
  {
    PendingPinsAreClaimed(artifacts);
    PendingListFacts(artifacts);
    hide PendingList, WithinLimit;
    if day in ClaimedDays(artifacts) {
      var r :| r in PendingList(artifacts) && r.row.pin.Some? && r.row.pin.value == day;
      assert IsPending(artifacts, r.key.id);
    }
    if x :| IsPending(artifacts, x) && artifacts[x].pin == Some(day) {
      assert PinClaimed(artifacts, ClaimedDays(artifacts), x);
    }
  }

  /** While the window holds an open day for every stale human pick, a real reclaim carries
      the k-th of them to the k-th open day, so to pairwise distinct days in their order, days
      without a row and without anyone else's pin, leaves each PENDING and pinned to its day, and
      changes no artifact that was PENDING before. */
  lemma PinsRollForward(room: Room, today: Day, now: Instant, scan: seq<SlotKey>)
    requires WithinLimit(room.artifacts)
    requires HumanPicks(Stale(room, today, scan)) <= OpenCount(room.toCompose, ClaimedDays(room.artifacts), today)
    ensures var findings := Stale(room, today, scan);
            var out := RealReclaim(room, today, now, scan);
            && (forall x :: IsPending(room.artifacts, x) ==>
                  x in out.room.artifacts && out.room.artifacts[x] == room.artifacts[x])
            && (forall i :: 0 <= i < |findings| && IsHumanPick(findings[i]) ==>
                  && Repinned(room, findings, out, today, ClaimedDays(room.artifacts), i)
                  && IsNobodys(room, out.entries[i].action.target))
            && (forall i, j :: 0 <= i < j < |findings| && IsHumanPick(findings[i]) && IsHumanPick(findings[j]) ==>
                  && j < |out.entries|
                  && out.entries[i].action.RepinnedForward? && out.entries[j].action.RepinnedForward?
                  && out.entries[i].action.target < out.entries[j].action.target)
  {
    var findings := Stale(room, today, scan);
    var claimed := ClaimedDays(room.artifacts);
    PendingPinsAreClaimed(room.artifacts);
    hide ClaimedDays, RealFrom, StaleFrom, Repinned, OpenCount, IsHumanPick, Ready, PinClaimed, WithinLimit;
    StaleAreReady(room, today, scan, {});
    forall x | IsPending(room.artifacts, x)
      ensures var out := RealReclaim(room, today, now, scan);
              x in out.room.artifacts && out.room.artifacts[x] == room.artifacts[x]
    {
      PassProtects(room, findings, today, now, claimed, x);
    }
    forall i | 0 <= i < |findings| && IsHumanPick(findings[i])
      ensures var out := RealReclaim(room, today, now, scan);
              Repinned(room, findings, out, today, claimed, i) && IsNobodys(room, out.entries[i].action.target)
    {
      TargetsInWindow(room, findings, today, now, claimed, i);
      TargetIsNobodys(room, findings, RealReclaim(room, today, now, scan), today, i);
    }
    forall i, j | 0 <= i < j < |findings| && IsHumanPick(findings[i]) && IsHumanPick(findings[j])
      ensures var entries := RealReclaim(room, today, now, scan).entries;
              && j < |entries|
              && entries[i].action.RepinnedForward? && entries[j].action.RepinnedForward?
              && entries[i].action.target < entries[j].action.target
    {
      PassTargets(room, findings, today, now, claimed, i);
      PassTargets(room, findings, today, now, claimed, j);
      TargetsRise(room, findings, RealReclaim(room, today, now, scan), today, claimed, i, j);
    }
  }

  lemma TargetIsNobodys(room: Room, findings: seq<Finding>, out: Outcome, today: Day, i: nat)
    requires WithinLimit(room.artifacts) && Repinned(room, findings, out, today, ClaimedDays(room.artifacts), i)
    ensures IsNobodys(room, out.entries[i].action.target)
  {
    ClaimedDaysTold(room.artifacts, out.entries[i].action.target);
  }

  lemma PendingPinsAreClaimed(artifacts: Artifacts)
    requires WithinLimit(artifacts)
    ensures forall x :: IsPending(artifacts, x) ==> PinClaimed(artifacts, ClaimedDays(artifacts), x)
  {
    forall x | IsPending(artifacts, x)
      ensures PinClaimed(artifacts, ClaimedDays(artifacts), x)
    {
      PendingListComplete(artifacts, x);
    }
  }
}
