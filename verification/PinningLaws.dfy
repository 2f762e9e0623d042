/** "One pending artifact per service" and "one pin per day": what keeps them, and exactly
    when a revert or a reclaim does not. */
module PinningLaws {
  import opened Wrappers
  import opened ArtifactTables
  import opened ArtifactStore
  import opened InsertLaws
  import opened ToComposeSelection
  import opened Reclaim
  import opened ReclaimLaws
  import opened ReclaimPins

  ghost predicate OnePerService(artifacts: Artifacts) {
    forall x, y | IsPending(artifacts, x) && IsPending(artifacts, y) && x != y
      :: artifacts[x].service == artifacts[y].service ==> artifacts[x].service == ""
  }

  ghost predicate OnePinPerDay(artifacts: Artifacts) {
    forall x, y | IsPending(artifacts, x) && IsPending(artifacts, y) && x != y
      :: artifacts[x].pin == artifacts[y].pin ==> artifacts[x].pin == None
  }

  // ---------- Pinning ----------

  lemma HoldersExact(artifacts: Artifacts, id: Id, day: Day)
    requires WithinLimit(artifacts)
    ensures PinHolders(PendingList(artifacts), day, id) == PinnedOn(artifacts, day) - {id}
  {
    PendingListFacts(artifacts);
    forall x | x in PinnedOn(artifacts, day) - {id}
      ensures x in PinHolders(PendingList(artifacts), day, id)
    {
      PendingListComplete(artifacts, x);
      var r := Listed(KeyOf(x, artifacts[x]), RowOf(artifacts[x]));
      assert r in PendingList(artifacts) && r.key.id == x;
    }
  }

  /** Under the row limit, pinning leaves that artifact the day's only holder, and changes
      no other column and no pin of another day. */
  lemma PinIsExclusive(artifacts: Artifacts, id: Id, day: Day)
    requires WithinLimit(artifacts) && IsPending(artifacts, id)
    ensures var after := PinnedFor(artifacts, id, day);
            && after.Keys == artifacts.Keys
            && PinnedOn(after, day) == {id}
            && (forall x :: x in artifacts ==> after[x] == artifacts[x].(pin := after[x].pin))
            && (forall x :: x in artifacts && x != id && x !in PinnedOn(artifacts, day) ==> after[x] == artifacts[x])
  {
    hide WithinLimit, PinnedOn, PinnedFor;
    var after := PinnedFor(artifacts, id, day);
    forall x
      ensures x in after <==> x in artifacts
      ensures x in artifacts ==> after[x] == PinnedAt(artifacts, id, day, x)
      ensures x in PinnedOn(after, day) <==> x == id
    {
      PinnedForAt(artifacts, id, day, x);
      InPinnedOn(artifacts, day, x);
      InPinnedOn(after, day, x);
    }
  }

  /** One artifact after a pin. */
  ghost function PinnedAt(artifacts: Artifacts, id: Id, day: Day, x: Id): Artifact
    requires x in artifacts
  {
    if x == id then artifacts[x].(pin := Some(day))
    else if x in PinnedOn(artifacts, day) then artifacts[x].(pin := None)
    else artifacts[x]
  }

  lemma PinnedForAt(artifacts: Artifacts, id: Id, day: Day, x: Id)
    requires WithinLimit(artifacts) && IsPending(artifacts, id)
    ensures var after := PinnedFor(artifacts, id, day);
            && (x in after <==> x in artifacts)
            && (x in artifacts ==> after[x] == PinnedAt(artifacts, id, day, x))
  {
    HoldersExact(artifacts, id, day);
    hide PendingList, PinHolders, PinnedOn, WithinLimit;
  }

  lemma InPinnedOn(artifacts: Artifacts, day: Day, x: Id)
    ensures x in PinnedOn(artifacts, day) <==> IsPending(artifacts, x) && artifacts[x].pin == Some(day)
  {
  }

  lemma PinKeepsOnePerDay(artifacts: Artifacts, id: Id, day: Day)
    requires WithinLimit(artifacts) && OnePinPerDay(artifacts)
    ensures OnePinPerDay(PinnedFor(artifacts, id, day))
  {
    hide PinnedFor, WithinLimit, PinnedOn;
    NoPinUnlessPending(artifacts, id, day);
    var after := PinnedFor(artifacts, id, day);
    if IsPending(artifacts, id) {
      forall x, y | IsPending(after, x) && IsPending(after, y) && x != y && after[x].pin == after[y].pin
        ensures after[x].pin == None
      {
        PinnedForAt(artifacts, id, day, x);
        PinnedForAt(artifacts, id, day, y);
        InPinnedOn(artifacts, day, x);
        InPinnedOn(artifacts, day, y);
      }
    }
  }

  lemma NoPinUnlessPending(artifacts: Artifacts, id: Id, day: Day)
    ensures !IsPending(artifacts, id) ==> PinnedFor(artifacts, id, day) == artifacts
  {
  }

  // ---------- Reverting ----------

  /** Reverting a selected artifact keeps one pending artifact per service exactly when its
      service has nothing else pending. */
  lemma RevertKeepsOnePerServiceIff(artifacts: Artifacts, id: Id)
    requires OnePerService(artifacts)
    ensures OnePerService(Reverted(artifacts, id))
            <==> (IsSelected(artifacts, id) && artifacts[id].service != "" ==> PendingOf(artifacts, artifacts[id].service) == {})
  {
    var after := Reverted(artifacts, id);
    if IsSelected(artifacts, id) && artifacts[id].service != "" {
      forall y | y in PendingOf(artifacts, artifacts[id].service)
        ensures IsPending(after, y) && IsPending(after, id) && after[y].service == after[id].service
      {
      }
      forall x, y | IsPending(after, x) && IsPending(after, y) && x != y && after[x].service == after[y].service
        ensures || after[x].service == ""
                || x in PendingOf(artifacts, artifacts[id].service) || y in PendingOf(artifacts, artifacts[id].service)
      {
      }
    }
  }

  /** It keeps one pin per day exactly when no pending artifact holds the reverted one's day. */
  lemma RevertKeepsOnePinIff(artifacts: Artifacts, id: Id)
    requires OnePinPerDay(artifacts)
    ensures OnePinPerDay(Reverted(artifacts, id))
            <==> (IsSelected(artifacts, id) && artifacts[id].pin.Some? ==> PinnedOn(artifacts, artifacts[id].pin.value) == {})
  {
    var after := Reverted(artifacts, id);
    if IsSelected(artifacts, id) && artifacts[id].pin.Some? {
      var day := artifacts[id].pin.value;
      forall y | y in PinnedOn(artifacts, day)
        ensures IsPending(after, y) && IsPending(after, id) && after[y].pin == after[id].pin
      {
      }
      forall x, y | IsPending(after, x) && IsPending(after, y) && x != y && after[x].pin == after[y].pin
        ensures after[x].pin == None || x in PinnedOn(artifacts, day) || y in PinnedOn(artifacts, day)
      {
      }
    }
  }

  // ---------- A reverted pin in a reclaim ----------

  /** The listing sees every pending artifact even after `more` reverts. */
  ghost predicate LimitLeft(artifacts: Artifacts, more: nat) {
    |PendingKeys(artifacts)| + more <= ROW_LIMIT
  }

  lemma LimitLeftNow(artifacts: Artifacts, more: nat)
    requires LimitLeft(artifacts, more)
    ensures WithinLimit(artifacts)
  {
    assert IndexOf(artifacts).Keys == PendingKeys(artifacts);
    assert |IndexOf(artifacts)| == |IndexOf(artifacts).Keys|;
  }

  lemma LimitLeftStep(before: Artifacts, after: Artifacts, id: Id, more: nat)
    requires LimitLeft(before, more) && more > 0
    requires after.Keys == before.Keys && id in before
    requires forall x :: x in before && x != id ==> after[x] == before[x].(pin := after[x].pin)
    requires !IsPending(before, id)
    ensures LimitLeft(after, more - 1)
  {
    var extra := {KeyOf(id, after[id])};
    assert PendingKeys(after) <= PendingKeys(before) + extra;
    SubsetSize(PendingKeys(after), PendingKeys(before) + extra);
  }

  /** Some later human pick is re-pinned to the day. */
  ghost predicate CarriedTo(entries: seq<Entry>, day: Day) {
    exists j :: 0 <= j < |entries| && entries[j].action == RepinnedForward(day)
  }

  lemma CarriedToCons(e: Entry, rest: seq<Entry>, day: Day)
    ensures CarriedTo([e] + rest, day) <==> e.action == RepinnedForward(day) || CarriedTo(rest, day)
  {
    if CarriedTo(rest, day) {
      var j :| 0 <= j < |rest| && rest[j].action == RepinnedForward(day);
      assert ([e] + rest)[j + 1].action == RepinnedForward(day);
    }
    if e.action == RepinnedForward(day) {
      assert ([e] + rest)[0].action == RepinnedForward(day);
    }
  }

  /** What a step does to a pending artifact's pin. */
  lemma StepPin(room: Room, f: Finding, action: Action, now: Instant, x: Id, day: Day)
    requires IsSelected(room.artifacts, f.id) && LimitLeft(room.artifacts, 1)
    requires IsPending(room.artifacts, x) && room.artifacts[x].pin == Some(day)
    ensures var next := RoomAfter(room, f, action, now).artifacts;
            IsPending(next, x) && next[x].pin == if action == RepinnedForward(day) then None else Some(day)
  {
    hide RoomAfter, WithoutRow;
    StepFrame(room, f, action, now);
    if action.RepinnedForward? && action.target == day {
      StepTakes(room, f, now, x, day);
    }
  }

  lemma StepTakes(room: Room, f: Finding, now: Instant, x: Id, day: Day)
    requires IsSelected(room.artifacts, f.id) && LimitLeft(room.artifacts, 1)
    requires IsPending(room.artifacts, x) && room.artifacts[x].pin == Some(day)
    ensures x in RoomAfter(room, f, RepinnedForward(day), now).artifacts
    ensures RoomAfter(room, f, RepinnedForward(day), now).artifacts[x].pin == None
  {
    hide PinnedFor, LimitLeft, WithinLimit, PinnedOn;
    var reverted := Reverted(room.artifacts, f.id);
    LimitLeftStep(room.artifacts, reverted, f.id, 1);
    LimitLeftNow(reverted, 0);
    PinnedForAt(reverted, f.id, day, x);
    InPinnedOn(reverted, day, x);
  }

  lemma LimitLeftAfter(room: Room, f: Finding, action: Action, now: Instant, more: nat)
    requires IsSelected(room.artifacts, f.id) && LimitLeft(room.artifacts, more) && more > 0
    ensures LimitLeft(RoomAfter(room, f, action, now).artifacts, more - 1)
  {
    hide RoomAfter, WithoutRow, LimitLeft;
    StepFrame(room, f, action, now);
    LimitLeftStep(room.artifacts, RoomAfter(room, f, action, now).artifacts, f.id, more);
  }

  /** A pending artifact's pin survives the pass exactly when no human pick takes its day. */
  lemma {:induction false} PassPinIff(room: Room, findings: seq<Finding>, today: Day, now: Instant, claimed: set<Day>,
                                      x: Id, day: Day)
    requires Ready(room, findings, today) && LimitLeft(room.artifacts, |findings|)
    requires IsPending(room.artifacts, x) && room.artifacts[x].pin == Some(day)
    ensures var out := RealFrom(room, findings, today, now, claimed);
            x in out.room.artifacts && out.room.artifacts[x].pin == if CarriedTo(out.entries, day) then None else Some(day)
    decreases |findings|
  {
    hide RoomAfter, RealFrom, Ready, PlannedAction, ClaimedAfter, WithoutRow, NamedOn, Finds, LimitLeft, CarriedTo;
    if findings == [] {
      RealDone(room, today, now, claimed);
      NoneTaken(day);
    } else {
      var f, rest := findings[0], findings[1..];
      var action := PlannedAction(room, f, today, claimed);
      RealStep(room, findings, today, now, claimed);
      assert f in findings;
      LimitLeftLess(room.artifacts, |findings|);
      StepPin(room, f, action, now, x, day);
      LimitLeftAfter(room, f, action, now, |findings|);
      var next := RoomAfter(room, f, action, now);
      var claimedNext := ClaimedAfter(claimed, action);
      CarriedToCons(Entry(f, action), RealFrom(next, rest, today, now, claimedNext).entries, day);
      if action == RepinnedForward(day) {
        PendingNotFound(room, findings, x);
        NotAmongRest(findings);
        PassSpares(next, rest, today, now, claimedNext, x);
      } else {
        PassPinIff(next, rest, today, now, claimedNext, x, day);
      }
    }
  }

  lemma NoneTaken(day: Day)
    ensures !CarriedTo([], day)
  {
  }

  lemma LimitLeftLess(artifacts: Artifacts, more: nat)
    requires LimitLeft(artifacts, more) && more > 0
    ensures LimitLeft(artifacts, 1)
  {
  }

  /** A platform pick keeps the pin it was reverted with exactly when no human pick found
      after it is re-pinned to that day. */
  lemma {:induction false} PassPlatformPinIff(room: Room, findings: seq<Finding>, today: Day, now: Instant, claimed: set<Day>, i: nat)
    requires Ready(room, findings, today) && LimitLeft(room.artifacts, |findings|)
    requires i < |findings| && IsPlatformPick(findings[i])
    requires findings[i].id in room.artifacts && room.artifacts[findings[i].id].pin.Some?
    ensures var out := RealFrom(room, findings, today, now, claimed);
            var id := findings[i].id;
            && |out.entries| == |findings|
            && id in out.room.artifacts
            && out.room.artifacts[id].pin
               == if CarriedTo(out.entries[i + 1..], room.artifacts[id].pin.value) then None else room.artifacts[id].pin
    decreases |findings|
  {
    hide RoomAfter, RealFrom, Ready, PlannedAction, ClaimedAfter, WithoutRow, NamedOn, LimitLeft, CarriedTo, IsPlatformPick,
      BoostedPriority;
    var f, rest := findings[0], findings[1..];
    var action := PlannedAction(room, f, today, claimed);
    RealStep(room, findings, today, now, claimed);
    PlannedKind(room, f, today, claimed);
    assert f in findings;
    StepFrame(room, f, action, now);
    LimitLeftAfter(room, f, action, now, |findings|);
    var next := RoomAfter(room, f, action, now);
    var claimedNext := ClaimedAfter(claimed, action);
    var tail := RealFrom(next, rest, today, now, claimedNext).entries;
    PassLength(next, rest, today, now, claimedNext);
    assert ([Entry(f, action)] + tail)[i + 1..] == tail[i..];
    if i == 0 {
      assert tail[0..] == tail;
      PassPinIff(next, rest, today, now, claimedNext, f.id, room.artifacts[f.id].pin.value);
    } else {
      var id := findings[i].id;
      assert findings[i] in findings && rest[i - 1] == findings[i];
      assert next.artifacts[id] == room.artifacts[id];
      PassPlatformPinIff(next, rest, today, now, claimedNext, i - 1);
    }
  }

  lemma {:induction false} PassLength(room: Room, findings: seq<Finding>, today: Day, now: Instant, claimed: set<Day>)
    requires Ready(room, findings, today)
    ensures |RealFrom(room, findings, today, now, claimed).entries| == |findings|
    decreases |findings|
  {
    hide RoomAfter, RealFrom, Ready, PlannedAction, ClaimedAfter;
    if findings == [] {
      RealDone(room, today, now, claimed);
    } else {
      RealStep(room, findings, today, now, claimed);
      var action := PlannedAction(room, findings[0], today, claimed);
      PassLength(RoomAfter(room, findings[0], action, now), findings[1..], today, now, ClaimedAfter(claimed, action));
    }
  }

  /** The last of a reclaim's human picks are carried to the day: those found after `before`
      of them, up to `all`. An open day of the window is taken by the pick of its own rank, the day
      after the window by every pick the window has no day for. */
  ghost predicate IsTaken(toCompose: ToCompose, claimed: set<Day>, today: Day, before: nat, all: nat, day: Day) {
    || (InWindow(today, day) && IsFree(toCompose, claimed, day) && before <= Rank(toCompose, claimed, today, day) < all)
    || (day == today + WINDOW_DAYS && before < all && OpenCount(toCompose, claimed, today) < all)
  }

  /** What the entries of a report from `start` on carry to a day, told from the tables. */
  lemma CarriedIffTaken(room: Room, findings: seq<Finding>, today: Day, now: Instant, claimed: set<Day>, start: nat, day: Day)
    requires Ready(room, findings, today) && start <= |findings|
    ensures var entries := RealFrom(room, findings, today, now, claimed).entries;
            && |entries| == |findings|
            && (CarriedTo(entries[start..], day)
                <==> IsTaken(room.toCompose, claimed, today, HumanPicks(findings[..start]), HumanPicks(findings), day))
  {
    hide RealFrom, Ready, IsHumanPick, IsFree, Rank, OpenCount;
    PassLength(room, findings, today, now, claimed);
    var entries := RealFrom(room, findings, today, now, claimed).entries;
    var later := entries[start..];
    if CarriedTo(later, day) {
      var j: nat :| j < |later| && later[j].action == RepinnedForward(day);
      TakenBy(room, findings, today, now, claimed, start, start + j);
    }
    if IsTaken(room.toCompose, claimed, today, HumanPicks(findings[..start]), HumanPicks(findings), day) {
      var j := TakerOf(room, findings, today, now, claimed, start, day);
      assert later[j - start] == entries[j];
    }
  }

  lemma TakenBy(room: Room, findings: seq<Finding>, today: Day, now: Instant, claimed: set<Day>, start: nat, j: nat)
    requires Ready(room, findings, today)
    requires start <= j < |findings| && j < |RealFrom(room, findings, today, now, claimed).entries|
    requires RealFrom(room, findings, today, now, claimed).entries[j].action.RepinnedForward?
    ensures IsTaken(room.toCompose, claimed, today, HumanPicks(findings[..start]), HumanPicks(findings),
                    RealFrom(room, findings, today, now, claimed).entries[j].action.target)
  {
    hide RealFrom, Ready, IsHumanPick, IsFree, Rank, OpenCount;
    PassTargets(room, findings, today, now, claimed, j);
    HumansMonotone(findings, start, j);
    HumansInOrder(findings, j);
  }

  lemma TakerOf(room: Room, findings: seq<Finding>, today: Day, now: Instant, claimed: set<Day>, start: nat, day: Day)
    returns (j: nat)
    requires Ready(room, findings, today) && start <= |findings|
    requires IsTaken(room.toCompose, claimed, today, HumanPicks(findings[..start]), HumanPicks(findings), day)
    ensures start <= j < |findings| && j < |RealFrom(room, findings, today, now, claimed).entries|
    ensures RealFrom(room, findings, today, now, claimed).entries[j].action == RepinnedForward(day)
  {
    hide RealFrom, Ready, IsHumanPick, IsFree, Rank;
    var rank := Rank(room.toCompose, claimed, today, day);
    var k := if day == today + WINDOW_DAYS then HumanPicks(findings) - 1 else rank;
    j := KthHumanExists(findings, k);
    PassTargets(room, findings, today, now, claimed, j);
    if j < start {
      HumansInOrder(findings, j);
      HumansMonotone(findings, j + 1, start);
    }
    var d := RealFrom(room, findings, today, now, claimed).entries[j].action.target;
    if day < today + WINDOW_DAYS {
      RankRises(room.toCompose, claimed, today, day, today + WINDOW_DAYS);
      if d < day {
        RankRises(room.toCompose, claimed, today, d, day);
      } else if day < d {
        RankRises(room.toCompose, claimed, today, day, d);
      }
    }
  }

  /** A pin that was pending before the call is lost exactly when it is for the day after the
      probe's window and the window has no day for some stale human pick. */
  lemma PendingPinKeptIff(room: Room, today: Day, now: Instant, scan: seq<SlotKey>, x: Id)
    requires LimitLeft(room.artifacts, |Stale(room, today, scan)|)
    requires IsPending(room.artifacts, x) && room.artifacts[x].pin.Some?
    ensures var after := RealReclaim(room, today, now, scan).room.artifacts;
            && x in after
            && (after[x].pin == room.artifacts[x].pin
                <==> !(&& room.artifacts[x].pin == Some(today + WINDOW_DAYS)
                       && OpenCount(room.toCompose, ClaimedDays(room.artifacts), today) < HumanPicks(Stale(room, today, scan))))
  {
    hide StaleFrom, Ready, RealFrom, CarriedTo, LimitLeft, OpenCount, Rank, ClaimedDays, WithinLimit;
    var findings, claimed := Stale(room, today, scan), ClaimedDays(room.artifacts);
    var day := room.artifacts[x].pin.value;
    StaleAreReady(room, today, scan, {});
    LimitLeftNow(room.artifacts, |findings|);
    PendingPinsAreClaimed(room.artifacts);
    PassPinIff(room, findings, today, now, claimed, x, day);
    CarriedIffTaken(room, findings, today, now, claimed, 0, day);
    var entries := RealFrom(room, findings, today, now, claimed).entries;
    assert entries[0..] == entries && findings[..0] == [];
  }

  /** A reclaimed platform pick with a pin keeps it exactly when its day is not one the human
      picks found after it are carried to: only pins of artifacts PENDING before the call
      are protected. */
  lemma PlatformPinKeptIff(room: Room, today: Day, now: Instant, scan: seq<SlotKey>, i: nat)
    requires LimitLeft(room.artifacts, |Stale(room, today, scan)|)
    requires i < |Stale(room, today, scan)| && IsPlatformPick(Stale(room, today, scan)[i])
    requires Stale(room, today, scan)[i].id in room.artifacts && room.artifacts[Stale(room, today, scan)[i].id].pin.Some?
    ensures var findings := Stale(room, today, scan);
            var id := findings[i].id;
            var out := RealReclaim(room, today, now, scan);
            && id in out.room.artifacts
            && (out.room.artifacts[id].pin == room.artifacts[id].pin
                <==> !IsTaken(room.toCompose, ClaimedDays(room.artifacts), today,
                              HumanPicks(findings[..i]), HumanPicks(findings), room.artifacts[id].pin.value))
  {
    hide StaleFrom, Ready, RealFrom, CarriedTo, LimitLeft, IsTaken;
    var findings := Stale(room, today, scan);
    var claimed := ClaimedDays(room.artifacts);
    StaleAreReady(room, today, scan, {});
    PassPlatformPinIff(room, findings, today, now, claimed, i);
    HumansInOrder(findings, i);
    CarriedIffTaken(room, findings, today, now, claimed, i + 1, room.artifacts[findings[i].id].pin.value);
  }
}
