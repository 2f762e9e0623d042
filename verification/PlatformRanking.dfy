/** `_rank_platform_picks`: who gets a platform slot, and why no other choice that
    respects the two pool floors is better. */
module PlatformRanking {
  import opened Wrappers
  import opened ArtifactTables
  import opened ArtifactStore
  import opened ArticleMatching
  import opened Text

  // ---------- The code ----------

  /** `_artifact_pool`: the venue decides when it is set. */
  predicate InNewPool(r: Listed, published: set<string>) {
    !ServiceHasArticle(published, if r.row.venue != "" then r.row.venue else r.row.service)
  }

  /** What the loop keeps of the listing: not the human pick, not its service, and one
      artifact per named service. */
  function EligibleFrom(pending: seq<Listed>, human: Option<Listed>, seen: set<string>): seq<Listed> {
    if pending == [] then []
    else
      var r := pending[0];
      if Skipped(r, human, seen) then EligibleFrom(pending[1..], human, seen)
      else [r] + EligibleFrom(pending[1..], human, Seen(seen, r))
  }

  function Seen(seen: set<string>, r: Listed): set<string> {
    if r.row.service != "" then seen + {r.row.service} else seen
  }

  predicate Skipped(r: Listed, human: Option<Listed>, seen: set<string>) {
    || (human.Some? && r.key.id == human.value.key.id)
    || (r.row.service != "" &&
        ((human.Some? && r.row.service == human.value.row.service) || r.row.service in seen))
  }

  function Eligible(pending: seq<Listed>, human: Option<Listed>): seq<Listed> {
    EligibleFrom(pending, human, {})
  }

  function Pool(rows: seq<Listed>, published: set<string>, wantNew: bool): seq<Listed> {
    if rows == [] then []
    else
      var last := rows[|rows| - 1];
      Pool(rows[..|rows| - 1], published, wantNew) + if InNewPool(last, published) == wantNew then [last] else []
  }

  /** The listed rows whose ids are in `ids`, in order. */
  function Only(rows: seq<Listed>, ids: set<Id>): seq<Listed> {
    if rows == [] then []
    else
      var last := rows[|rows| - 1];
      Only(rows[..|rows| - 1], ids) + if last.key.id in ids then [last] else []
  }

  /** Python's xs[:n], with its negative-index meaning. */
  function Take(rows: seq<Listed>, n: int): seq<Listed> {
    if n >= 0 then (if n <= |rows| then rows[..n] else rows)
    else if -n <= |rows| then rows[..|rows| + n] else []
  }

  /** Python's int(x) */
  function Truncate(x: real): int {
    if x >= 0.0 then x.Floor else -((-x).Floor)
  }

  const EPSILON: real := 0.000000001

  function NewFloor(platformN: nat, share: real): int {
    Truncate(platformN as real * share + EPSILON)
  }

  function UpdateFloor(platformN: nat, share: real): int {
    Truncate(platformN as real * (1.0 - share) + EPSILON)
  }

  /** The ids chosen by the two floors. */
  function FloorIds(eligible: seq<Listed>, platformN: nat, share: real, published: set<string>): set<Id> {
    IdsOf(Take(Pool(eligible, published, true), NewFloor(platformN, share)))
    + IdsOf(Take(Pool(eligible, published, false), UpdateFloor(platformN, share)))
  }

  function ChosenIds(eligible: seq<Listed>, platformN: nat, share: real, published: set<string>): set<Id> {
    var chosen := FloorIds(eligible, platformN, share, published);
    var needed := platformN - |chosen|;
    if needed > 0 then chosen + IdsOf(Take(Only(eligible, IdsOf(eligible) - chosen), needed)) else chosen
  }

  function PicksOf(eligible: seq<Listed>, platformN: nat, share: real, published: set<string>): seq<Listed> {
    Take(Only(eligible, ChosenIds(eligible, platformN, share, published)), platformN)
  }

  function RankedPicks(pending: seq<Listed>, human: Option<Listed>, platformN: nat, share: real,
                       published: set<string>): seq<Listed>
  {
    PicksOf(Eligible(pending, human), platformN, share, published)
  }

  method RankPlatformPicks(pending: seq<Listed>, human: Option<Listed>, platformN: nat, share: real,
                           published: set<string>)
    returns (picks: seq<Listed>)
    ensures picks == RankedPicks(pending, human, platformN, share, published)
  {
    hide PicksOf;
    var seen: set<string> := {};
    var eligible: seq<Listed> := [];
    for i := 0 to |pending|
      invariant eligible + EligibleFrom(pending[i..], human, seen) == Eligible(pending, human)
    {
      var r := pending[i];
      if human.Some? && r.key.id == human.value.key.id {
        continue;
      }
      if r.row.service != "" {
        if (human.Some? && r.row.service == human.value.row.service) || r.row.service in seen {
          continue;
        }
        seen := seen + {r.row.service};
      }
      AppendMoves(eligible, r, EligibleFrom(pending[i + 1..], human, seen));
      eligible := eligible + [r];
    }
    assert pending[|pending|..] == [];
    assert eligible + [] == eligible;
    picks := PicksOf(eligible, platformN, share, published);
  }

  // ---------- Counting picks in a prefix ----------

  function Hits(rows: seq<Listed>, ids: set<Id>): nat {
    if rows == [] then 0
    else Hits(rows[..|rows| - 1], ids) + if rows[|rows| - 1].key.id in ids then 1 else 0
  }

  lemma HitsStep(rows: seq<Listed>, ids: set<Id>, p: nat)
    requires p < |rows|
    ensures Hits(rows[..p + 1], ids) == Hits(rows[..p], ids) + if rows[p].key.id in ids then 1 else 0
  {
    assert rows[..p + 1][..p] == rows[..p];
  }

  lemma {:induction false} HitsBounded(rows: seq<Listed>, ids: set<Id>)
    ensures Hits(rows, ids) <= |rows|
  {
    if rows != [] {
      HitsBounded(rows[..|rows| - 1], ids);
    }
  }

  lemma {:induction false} HitsOfUnion(rows: seq<Listed>, a: set<Id>, b: set<Id>)
    requires a !! b
    ensures Hits(rows, a + b) == Hits(rows, a) + Hits(rows, b)
  {
    if rows != [] {
      HitsOfUnion(rows[..|rows| - 1], a, b);
    }
  }

  lemma {:induction false} HitsOfAll(rows: seq<Listed>, ids: set<Id>)
    requires IdsOf(rows) <= ids
    ensures Hits(rows, ids) == |rows|
  {
    if rows != [] {
      HitsOfAll(rows[..|rows| - 1], ids);
    }
  }

  /** Rows from p on contribute no more hits than there are such rows. */
  lemma {:induction false} HitsMonotone(rows: seq<Listed>, ids: set<Id>, p: nat)
    requires p <= |rows|
    ensures Hits(rows[..p], ids) <= Hits(rows, ids) <= Hits(rows[..p], ids) + |rows| - p
    decreases |rows|
  {
    if p < |rows| {
      var shorter := rows[..|rows| - 1];
      HitsMonotone(shorter, ids, p);
      assert shorter[..p] == rows[..p];
    } else {
      assert rows[..p] == rows;
    }
  }

  lemma {:induction false} HitsIsCardinality(rows: seq<Listed>, ids: set<Id>)
    requires DistinctIds(rows) && ids <= IdsOf(rows)
    ensures Hits(rows, ids) == |ids|
  {
    if rows != [] {
      var shorter, last := rows[..|rows| - 1], rows[|rows| - 1];
      assert last.key.id !in IdsOf(shorter);
      forall x | x in ids - {last.key.id}
        ensures x in IdsOf(shorter)
      {
        var r :| r in rows && r.key.id == x;
        assert r in shorter;
      }
      HitsIsCardinality(shorter, ids - {last.key.id});
      HitsIgnore(shorter, ids, last.key.id);
    }
  }

  lemma {:induction false} HitsIgnore(rows: seq<Listed>, ids: set<Id>, x: Id)
    requires x !in IdsOf(rows)
    ensures Hits(rows, ids - {x}) == Hits(rows, ids)
  {
    if rows != [] {
      HitsIgnore(rows[..|rows| - 1], ids, x);
    }
  }

  // ---------- Taking the first few of a pool ----------

  lemma {:induction false} OnlyCounts(rows: seq<Listed>, ids: set<Id>)
    ensures |Only(rows, ids)| == Hits(rows, ids)
    ensures forall r :: r in Only(rows, ids) <==> r in rows && r.key.id in ids
  {
    if rows != [] {
      OnlyCounts(rows[..|rows| - 1], ids);
      assert rows == rows[..|rows| - 1] + [rows[|rows| - 1]];
    }
  }

  /** Row p, if kept, is kept at the position counted by the kept rows before it. */
  lemma {:induction false} OnlyRank(rows: seq<Listed>, ids: set<Id>, p: nat)
    requires p < |rows| && rows[p].key.id in ids
    ensures Hits(rows[..p], ids) < |Only(rows, ids)|
    ensures Only(rows, ids)[Hits(rows[..p], ids)] == rows[p]
    decreases |rows|
  {
    var shorter := rows[..|rows| - 1];
    OnlyCounts(shorter, ids);
    if p < |rows| - 1 {
      OnlyRank(shorter, ids, p);
      assert shorter[..p] == rows[..p];
    } else {
      assert rows[..p] == shorter;
    }
  }

  lemma {:induction false} OnlyDistinct(rows: seq<Listed>, ids: set<Id>)
    requires DistinctIds(rows)
    ensures DistinctIds(Only(rows, ids))
  {
    if rows != [] {
      var shorter, last := rows[..|rows| - 1], rows[|rows| - 1];
      OnlyDistinct(shorter, ids);
      OnlyCounts(shorter, ids);
    }
  }

  /** A kept row is among the first n kept exactly when fewer than n were kept before it. */
  lemma TakenIffEarly(rows: seq<Listed>, ids: set<Id>, n: nat, p: nat)
    requires DistinctIds(rows) && p < |rows|
    ensures rows[p].key.id in IdsOf(Take(Only(rows, ids), n))
            <==> rows[p].key.id in ids && Hits(rows[..p], ids) < n
  {
    var kept := Only(rows, ids);
    OnlyCounts(rows, ids);
    OnlyDistinct(rows, ids);
    if rows[p].key.id in ids {
      OnlyRank(rows, ids, p);
      var q := Hits(rows[..p], ids);
      assert kept[q] == rows[p];
      if q < n {
        assert Take(kept, n)[q] == rows[p];
      }
    }
  }

  function Min(a: int, b: int): int {
    if a < b then a else b
  }

  lemma MinBounds(a: int, b: int)
    ensures Min(a, b) <= a && Min(a, b) <= b && (Min(a, b) == a || Min(a, b) == b)
  {
  }

  /** Within any prefix, the first n of a pool cover min(n, the pool's rows there). */
  lemma {:induction false} TakeHits(rows: seq<Listed>, ids: set<Id>, n: nat, p: nat)
    requires DistinctIds(rows) && p <= |rows|
    ensures Hits(rows[..p], IdsOf(Take(Only(rows, ids), n))) == Min(n, Hits(rows[..p], ids))
  {
    if p > 0 {
      TakeHits(rows, ids, n, p - 1);
      HitsStep(rows, ids, p - 1);
      HitsStep(rows, IdsOf(Take(Only(rows, ids), n)), p - 1);
      TakenIffEarly(rows, ids, n, p - 1);
    }
  }

  // ---------- The two pools ----------

  function PoolIds(rows: seq<Listed>, published: set<string>, wantNew: bool): set<Id> {
    set r | r in rows && InNewPool(r, published) == wantNew :: r.key.id
  }

  lemma {:induction false} PoolIsOnly(rows: seq<Listed>, whole: seq<Listed>, published: set<string>, wantNew: bool)
    requires DistinctIds(whole) && rows <= whole
    ensures Pool(rows, published, wantNew) == Only(rows, PoolIds(whole, published, wantNew))
  {
    if rows != [] {
      var shorter, last := rows[..|rows| - 1], rows[|rows| - 1];
      PoolIsOnly(shorter, whole, published, wantNew);
      assert last == whole[|rows| - 1];
      if last.key.id in PoolIds(whole, published, wantNew) {
        var r :| r in whole && InNewPool(r, published) == wantNew && r.key.id == last.key.id;
        assert r == last;
      }
    }
  }

  lemma PoolsPartition(rows: seq<Listed>, published: set<string>)
    requires DistinctIds(rows)
    ensures PoolIds(rows, published, true) !! PoolIds(rows, published, false)
    ensures PoolIds(rows, published, true) + PoolIds(rows, published, false) == IdsOf(rows)
  {
  }

  /** For a share in [0,1] the two floors are non-negative and never exceed the slots,
      the epsilons notwithstanding. */
  lemma FloorsFit(platformN: nat, share: real)
    requires 0.0 <= share <= 1.0
    ensures 0 <= NewFloor(platformN, share) && 0 <= UpdateFloor(platformN, share)
    ensures NewFloor(platformN, share) + UpdateFloor(platformN, share) <= platformN
    ensures NewFloor(platformN, share) + UpdateFloor(platformN, share) >= platformN - 1
  {
    var a := platformN as real * share;
    assert platformN as real * (1.0 - share) == platformN as real - a;
    assert 0.0 <= a <= platformN as real;
  }

  // ---------- What is picked ----------

  ghost function Needed(rows: seq<Listed>, platformN: nat, share: real, published: set<string>): int {
    platformN - |FloorIds(rows, platformN, share, published)|
  }

  ghost function LeftoverIds(rows: seq<Listed>, platformN: nat, share: real, published: set<string>): set<Id> {
    IdsOf(rows) - FloorIds(rows, platformN, share, published)
  }

  lemma {:induction false} HitsOfSubset(rows: seq<Listed>, a: set<Id>, b: set<Id>)
    requires a <= b
    ensures Hits(rows, a) <= Hits(rows, b)
  {
    if rows != [] {
      HitsOfSubset(rows[..|rows| - 1], a, b);
    }
  }

  lemma TakenAreKept(rows: seq<Listed>, ids: set<Id>, n: nat)
    ensures IdsOf(Take(Only(rows, ids), n)) <= ids * IdsOf(rows)
  {
  }

  /** Within any prefix the floors take the first rows of each pool. */
  lemma FloorHits(rows: seq<Listed>, platformN: nat, share: real, published: set<string>, p: nat)
    requires DistinctIds(rows) && 0.0 <= share <= 1.0 && p <= |rows|
    ensures Hits(rows[..p], FloorIds(rows, platformN, share, published))
            == Min(NewFloor(platformN, share), Hits(rows[..p], PoolIds(rows, published, true)))
               + Min(UpdateFloor(platformN, share), Hits(rows[..p], PoolIds(rows, published, false)))
    ensures FloorIds(rows, platformN, share, published) <= IdsOf(rows)
  {
    FloorsFit(platformN, share);
    var nf, uf := NewFloor(platformN, share), UpdateFloor(platformN, share);
    var newIds, updateIds := PoolIds(rows, published, true), PoolIds(rows, published, false);
    PoolIsOnly(rows, rows, published, true);
    PoolIsOnly(rows, rows, published, false);
    PoolsPartition(rows, published);
    TakenAreKept(rows, newIds, nf);
    TakenAreKept(rows, updateIds, uf);
    TakeHits(rows, newIds, nf, p);
    TakeHits(rows, updateIds, uf, p);
    HitsOfUnion(rows[..p], IdsOf(Take(Only(rows, newIds), nf)), IdsOf(Take(Only(rows, updateIds), uf)));
  }

  /** The slots the floors leave open go to the first rows the floors did not take. */
  lemma ChosenHits(rows: seq<Listed>, platformN: nat, share: real, published: set<string>, p: nat)
    requires DistinctIds(rows) && 0.0 <= share <= 1.0 && p <= |rows|
    ensures Needed(rows, platformN, share, published) >= 0
    ensures ChosenIds(rows, platformN, share, published) <= IdsOf(rows)
    ensures Hits(rows[..p], ChosenIds(rows, platformN, share, published))
            == Hits(rows[..p], FloorIds(rows, platformN, share, published))
               + Min(Needed(rows, platformN, share, published),
                     Hits(rows[..p], LeftoverIds(rows, platformN, share, published)))
  {
    hide Hits, Only, FloorIds, NewFloor, UpdateFloor, PoolIds, DistinctIds, IdsOf;
    var floors := FloorIds(rows, platformN, share, published);
    var left := LeftoverIds(rows, platformN, share, published);
    var needed := Needed(rows, platformN, share, published);
    FloorHits(rows, platformN, share, published, |rows|);
    assert rows[..|rows|] == rows;
    FloorsFit(platformN, share);
    HitsIsCardinality(rows, floors);
    assert needed >= 0 by {
      MinBounds(NewFloor(platformN, share), Hits(rows, PoolIds(rows, published, true)));
      MinBounds(UpdateFloor(platformN, share), Hits(rows, PoolIds(rows, published, false)));
    }
    var taken := IdsOf(Take(Only(rows, left), needed));
    TakenAreKept(rows, left, needed);
    TakeHits(rows, left, needed, p);
    HitsOfUnion(rows[..p], floors, taken);
    if needed == 0 {
      NoneTaken(Only(rows, left));
      assert floors + taken == floors;
    }
  }

  lemma NoneTaken(rows: seq<Listed>)
    ensures IdsOf(Take(rows, 0)) == {}
  {
  }

  lemma {:induction false} OnlyAll(rows: seq<Listed>, ids: set<Id>)
    ensures IdsOf(Only(rows, ids)) == ids * IdsOf(rows)
  {
    OnlyCounts(rows, ids);
    forall x | x in ids * IdsOf(rows)
      ensures x in IdsOf(Only(rows, ids))
    {
      var r :| r in rows && r.key.id == x;
      assert r in Only(rows, ids);
    }
  }

  /** Exactly min(platformN, |eligible|) artifacts are picked, in the eligible order. */
  lemma PicksAreChosen(rows: seq<Listed>, platformN: nat, share: real, published: set<string>)
    requires DistinctIds(rows) && 0.0 <= share <= 1.0
    ensures var picks := PicksOf(rows, platformN, share, published);
            && picks == Only(rows, ChosenIds(rows, platformN, share, published))
            && IdsOf(picks) == ChosenIds(rows, platformN, share, published)
            && |picks| == |IdsOf(picks)| == Min(platformN, |rows|)
            && IdsOf(picks) <= IdsOf(rows)
  {
    hide Hits, Only, FloorIds, ChosenIds, NewFloor, UpdateFloor, PoolIds;
    var chosen := ChosenIds(rows, platformN, share, published);
    var floors := FloorIds(rows, platformN, share, published);
    var left := LeftoverIds(rows, platformN, share, published);
    assert rows[..|rows|] == rows;
    FloorHits(rows, platformN, share, published, |rows|);
    ChosenHits(rows, platformN, share, published, |rows|);
    HitsIsCardinality(rows, floors);
    HitsIsCardinality(rows, chosen);
    HitsOfUnion(rows, floors, left);
    assert floors + left == IdsOf(rows);
    HitsOfAll(rows, IdsOf(rows));
    OnlyCounts(rows, chosen);
    OnlyAll(rows, chosen);
  }

  lemma TakeTakes(rows: seq<Listed>, n: int)
    ensures forall r :: r in Take(rows, n) ==> r in rows
    ensures n >= 0 ==> |Take(rows, n)| == Min(n, |rows|)
  {
  }

  lemma FloorsAreListed(rows: seq<Listed>, platformN: nat, share: real, published: set<string>)
    requires DistinctIds(rows)
    ensures FloorIds(rows, platformN, share, published) <= IdsOf(rows)
  {
    hide Take, NewFloor, UpdateFloor, InNewPool;
    PoolIsOnly(rows, rows, published, true);
    PoolIsOnly(rows, rows, published, false);
    OnlyCounts(rows, PoolIds(rows, published, true));
    OnlyCounts(rows, PoolIds(rows, published, false));
    TakeTakes(Pool(rows, published, true), NewFloor(platformN, share));
    TakeTakes(Pool(rows, published, false), UpdateFloor(platformN, share));
  }

  lemma ListedCount(rows: seq<Listed>)
    requires DistinctIds(rows)
    ensures |IdsOf(rows)| == |rows|
  {
    HitsIsCardinality(rows, IdsOf(rows));
    HitsOfAll(rows, IdsOf(rows));
  }

  lemma ChosenCount(rows: seq<Listed>, platformN: nat, share: real, published: set<string>)
    requires DistinctIds(rows)
    ensures var chosen := ChosenIds(rows, platformN, share, published);
            && chosen <= IdsOf(rows)
            && |chosen| <= |rows|
            && Min(platformN, |chosen|) == Min(platformN, |rows|)
  {
    hide Hits, Only, Take, FloorIds, IdsOf, DistinctIds;
    var floors := FloorIds(rows, platformN, share, published);
    var left := IdsOf(rows) - floors;
    var needed := platformN - |floors|;
    FloorsAreListed(rows, platformN, share, published);
    ListedCount(rows);
    SubsetIsSmaller(floors, IdsOf(rows));
    if needed > 0 {
      var taken := IdsOf(Take(Only(rows, left), needed));
      TakenAreKept(rows, left, needed);
      TakeHits(rows, left, needed, |rows|);
      assert rows[..|rows|] == rows;
      HitsIsCardinality(rows, left);
      HitsIsCardinality(rows, taken);
      assert |floors + taken| == |floors| + |taken|;
    }
  }

  lemma SubsetIsSmaller<T>(a: set<T>, b: set<T>)
    requires a <= b
    ensures |a| <= |b| && |b - a| == |b| - |a|
  {
    assert b == a + (b - a);
  }

  /** Whatever the share, exactly min(platformN, |eligible|) artifacts are picked. */
  lemma PicksCount(rows: seq<Listed>, platformN: nat, share: real, published: set<string>)
    requires DistinctIds(rows)
    ensures |PicksOf(rows, platformN, share, published)| == Min(platformN, |rows|)
  {
    hide Hits, Only, Take, ChosenIds;
    var chosen := ChosenIds(rows, platformN, share, published);
    ChosenCount(rows, platformN, share, published);
    OnlyCounts(rows, chosen);
    HitsIsCardinality(rows, chosen);
    TakeTakes(Only(rows, chosen), platformN);
  }

  // ---------- Optimality ----------

  /** The platform has published nothing for the row's venue or, where it has no venue, its
      service; a row that names neither never counts as new. */
  ghost predicate NeverCovered(r: Listed, published: set<string>) {
    var name := Lower(Strip(if r.row.venue == "" then r.row.service else r.row.venue));
    name != "" && name !in published
  }

  ghost function NewcomerIds(rows: seq<Listed>, published: set<string>): set<Id> {
    set r | r in rows && NeverCovered(r, published) :: r.key.id
  }

  ghost function CoveredIds(rows: seq<Listed>, published: set<string>): set<Id> {
    set r | r in rows && !NeverCovered(r, published) :: r.key.id
  }

  /** The whole number of slots in a share of them, a billionth forgiven. */
  ghost function SlotsIn(slots: real): int {
    (slots + 0.000000001).Floor
  }

  /** A set of artifacts that gives each pool its floor, as far as the pool reaches. */
  ghost predicate MeetsFloors(rows: seq<Listed>, platformN: nat, share: real, published: set<string>, ids: set<Id>) {
    var newcomers, covered := NewcomerIds(rows, published), CoveredIds(rows, published);
    && |ids * newcomers| >= Min(SlotsIn(platformN as real * share), |newcomers|)
    && |ids * covered| >= Min(SlotsIn(platformN as real * (1.0 - share)), |covered|)
  }

  /** The pools and floors of the code are these. */
  lemma FloorsAreMet(rows: seq<Listed>, platformN: nat, share: real, published: set<string>, ids: set<Id>)
    requires 0.0 <= share <= 1.0
    ensures var newIds, updateIds := PoolIds(rows, published, true), PoolIds(rows, published, false);
            MeetsFloors(rows, platformN, share, published, ids)
            <==> && |ids * newIds| >= Min(NewFloor(platformN, share), |newIds|)
                 && |ids * updateIds| >= Min(UpdateFloor(platformN, share), |updateIds|)
  {
    PoolsAreTold(rows, published);
    FloorsAreTold(platformN, share);
    hide PoolIds, NewcomerIds, CoveredIds, NewFloor, UpdateFloor, SlotsIn, Min;
  }

  lemma PoolsAreTold(rows: seq<Listed>, published: set<string>)
    ensures PoolIds(rows, published, true) == NewcomerIds(rows, published)
    ensures PoolIds(rows, published, false) == CoveredIds(rows, published)
  {
    forall r: Listed
      ensures InNewPool(r, published) <==> NeverCovered(r, published)
    {
    }
    hide InNewPool, NeverCovered;
  }

  lemma FloorsAreTold(platformN: nat, share: real)
    requires 0.0 <= share <= 1.0
    ensures NewFloor(platformN, share) == SlotsIn(platformN as real * share)
    ensures UpdateFloor(platformN, share) == SlotsIn(platformN as real * (1.0 - share))
  {
    NeverNegative(platformN as real, share);
    NeverNegative(platformN as real, 1.0 - share);
    var newSlots, updateSlots := platformN as real * share, platformN as real * (1.0 - share);
    Forgiven(newSlots);
    Forgiven(updateSlots);
    assert NewFloor(platformN, share) == Truncate(newSlots + EPSILON);
    assert UpdateFloor(platformN, share) == Truncate(updateSlots + EPSILON);
  }

  lemma Forgiven(slots: real)
    requires slots >= 0.0
    ensures Truncate(slots + EPSILON) == SlotsIn(slots)
  {
  }

  lemma NeverNegative(x: real, y: real)
    requires x >= 0.0 && y >= 0.0
    ensures x * y >= 0.0
  {
  }

  /** A competing choice: as many eligible artifacts, meeting the same floors. */
  ghost predicate IsCandidate(rows: seq<Listed>, platformN: nat, share: real, published: set<string>, ids: set<Id>) {
    && ids <= IdsOf(rows)
    && |ids| == Min(platformN, |rows|)
    && MeetsFloors(rows, platformN, share, published, ids)
  }

  /** The picks themselves give each pool its floor. */
  lemma PicksMeetFloors(rows: seq<Listed>, platformN: nat, share: real, published: set<string>)
    requires DistinctIds(rows) && 0.0 <= share <= 1.0
    ensures IsCandidate(rows, platformN, share, published, IdsOf(PicksOf(rows, platformN, share, published)))
  {
    PicksAreChosen(rows, platformN, share, published);
    var chosen := ChosenIds(rows, platformN, share, published);
    PoolTaken(rows, platformN, share, published, true);
    PoolTaken(rows, platformN, share, published, false);
    FloorsAreMet(rows, platformN, share, published, chosen);
  }

  lemma PoolTaken(rows: seq<Listed>, platformN: nat, share: real, published: set<string>, wantNew: bool)
    requires DistinctIds(rows) && 0.0 <= share <= 1.0
    ensures var pool := PoolIds(rows, published, wantNew);
            |ChosenIds(rows, platformN, share, published) * pool|
            >= Min(if wantNew then NewFloor(platformN, share) else UpdateFloor(platformN, share), |pool|)
  {
    FloorsFit(platformN, share);
    var pool := PoolIds(rows, published, wantNew);
    var floor := if wantNew then NewFloor(platformN, share) else UpdateFloor(platformN, share);
    var chosen := ChosenIds(rows, platformN, share, published);
    var taken := IdsOf(Take(Only(rows, pool), floor));
    PoolIsOnly(rows, rows, published, wantNew);
    TakenAreKept(rows, pool, floor);
    TakeHits(rows, pool, floor, |rows|);
    assert rows[..|rows|] == rows;
    HitsIsCardinality(rows, pool);
    HitsIsCardinality(rows, chosen * pool * IdsOf(rows));
    assert taken <= chosen * pool;
    assert chosen * pool * IdsOf(rows) == chosen * pool;
    HitsOfSubset(rows, taken, chosen * pool);
  }

  lemma CandidatePoolTail(rows: seq<Listed>, ids: set<Id>, pool: set<Id>, floor: nat, p: nat)
    requires DistinctIds(rows) && p <= |rows| && pool <= IdsOf(rows)
    requires |ids * pool| >= Min(floor, |pool|)
    ensures Hits(rows, ids * pool) - Hits(rows[..p], ids * pool)
            >= Min(floor, Hits(rows, pool)) - Min(floor, Hits(rows[..p], pool))
  {
    HitsIsCardinality(rows, pool);
    HitsIsCardinality(rows, ids * pool);
    HitsOfSubset(rows[..p], ids * pool, pool);
    HitsMonotone(rows, ids * pool, p);
  }

  /** No candidate is ahead of the picks in any prefix of the priority order. */
  lemma PicksDominate(rows: seq<Listed>, platformN: nat, share: real, published: set<string>, ids: set<Id>, p: nat)
    requires DistinctIds(rows) && 0.0 <= share <= 1.0 && p <= |rows|
    requires IsCandidate(rows, platformN, share, published, ids)
    ensures Hits(rows[..p], ids) <= Hits(rows[..p], IdsOf(PicksOf(rows, platformN, share, published)))
  {
    hide Hits, ChosenIds, LeftoverIds, Needed, PicksOf, IdsOf, DistinctIds, IsCandidate;
    PicksAreChosen(rows, platformN, share, published);
    if Hits(rows[..p], LeftoverIds(rows, platformN, share, published)) <= Needed(rows, platformN, share, published) {
      OpenSlotsDominate(rows, platformN, share, published, ids, p);
    } else {
      TailsDominate(rows, platformN, share, published, ids, p);
    }
  }

  /** While there are open slots every row of the prefix is picked. */
  lemma OpenSlotsDominate(rows: seq<Listed>, platformN: nat, share: real, published: set<string>, ids: set<Id>, p: nat)
    requires DistinctIds(rows) && 0.0 <= share <= 1.0 && p <= |rows|
    requires Hits(rows[..p], LeftoverIds(rows, platformN, share, published)) <= Needed(rows, platformN, share, published)
    ensures Hits(rows[..p], ids) <= Hits(rows[..p], ChosenIds(rows, platformN, share, published))
  {
    hide Hits, FloorIds, ChosenIds, LeftoverIds, Needed, NewFloor, UpdateFloor, PoolIds, IdsOf, DistinctIds;
    var floors := FloorIds(rows, platformN, share, published);
    var left := LeftoverIds(rows, platformN, share, published);
    ChosenHits(rows, platformN, share, published, p);
    LeftoverIsTheRest(rows, platformN, share, published);
    HitsOfUnion(rows[..p], floors, left);
    PrefixIsListed(rows, p);
    HitsOfAll(rows[..p], IdsOf(rows));
    HitsBounded(rows[..p], ids);
  }

  lemma LeftoverIsTheRest(rows: seq<Listed>, platformN: nat, share: real, published: set<string>)
    requires DistinctIds(rows) && 0.0 <= share <= 1.0
    ensures var floors, left := FloorIds(rows, platformN, share, published), LeftoverIds(rows, platformN, share, published);
            floors !! left && floors + left == IdsOf(rows)
  {
    hide Hits, FloorIds, NewFloor, UpdateFloor, PoolIds, IdsOf;
    FloorHits(rows, platformN, share, published, 0);
  }

  lemma PrefixIsListed(rows: seq<Listed>, p: nat)
    requires p <= |rows|
    ensures IdsOf(rows[..p]) <= IdsOf(rows)
  {
  }

  /** Once the open slots are used up, both choices have the same number of picks left,
      and the floors force at least as many of a candidate's beyond the prefix. */
  lemma TailsDominate(rows: seq<Listed>, platformN: nat, share: real, published: set<string>, ids: set<Id>, p: nat)
    requires DistinctIds(rows) && 0.0 <= share <= 1.0 && p <= |rows|
    requires IsCandidate(rows, platformN, share, published, ids)
    requires Hits(rows[..p], LeftoverIds(rows, platformN, share, published)) > Needed(rows, platformN, share, published)
    ensures Hits(rows[..p], ids) <= Hits(rows[..p], ChosenIds(rows, platformN, share, published))
  {
    PicksAreChosen(rows, platformN, share, published);
    ChosenHits(rows, platformN, share, published, p);
    ChosenHits(rows, platformN, share, published, |rows|);
    FloorHits(rows, platformN, share, published, p);
    FloorHits(rows, platformN, share, published, |rows|);
    FloorsFit(platformN, share);
    PoolsPartition(rows, published);
    HitsMonotone(rows, LeftoverIds(rows, platformN, share, published), p);
    FloorsAreMet(rows, platformN, share, published, ids);
    hide Hits, FloorIds, ChosenIds, LeftoverIds, PicksOf, NewFloor, UpdateFloor, PoolIds, IdsOf, MeetsFloors;
    var newIds, updateIds := PoolIds(rows, published, true), PoolIds(rows, published, false);
    assert rows[..|rows|] == rows;
    CandidatePoolTail(rows, ids, newIds, NewFloor(platformN, share), p);
    CandidatePoolTail(rows, ids, updateIds, UpdateFloor(platformN, share), p);
    CandidateSplit(rows, ids, newIds, updateIds, p);
    HitsIsCardinality(rows, ids);
    HitsIsCardinality(rows, ChosenIds(rows, platformN, share, published));
  }

  lemma CandidateSplit(rows: seq<Listed>, ids: set<Id>, a: set<Id>, b: set<Id>, p: nat)
    requires a !! b && ids <= a + b && p <= |rows|
    ensures Hits(rows, ids) == Hits(rows, ids * a) + Hits(rows, ids * b)
    ensures Hits(rows[..p], ids) == Hits(rows[..p], ids * a) + Hits(rows[..p], ids * b)
  {
    assert ids * a + ids * b == ids;
    HitsOfUnion(rows, ids * a, ids * b);
    HitsOfUnion(rows[..p], ids * a, ids * b);
  }

  ghost function TotalPriority(rows: seq<Listed>, ids: set<Id>): real {
    if rows == [] then 0.0
    else
      var last := rows[|rows| - 1];
      TotalPriority(rows[..|rows| - 1], ids) + if last.key.id in ids then last.key.priority else 0.0
  }

  function Scale(n: int, x: real): real {
    n as real * x
  }

  lemma ScaleUnits(x: real)
    ensures Scale(0, x) == 0.0 && Scale(1, x) == x && Scale(-1, x) == -x
  {
  }

  lemma LeadCarries(lead: int, gain: int, x: real, y: real)
    requires lead >= 0 && x >= y
    ensures Scale(lead, x) + Scale(gain, y) >= Scale(lead + gain, y)
  {
  }

  /** Being ahead in every prefix of a descending list is being ahead in total, by at
      least the last weight per surplus pick. */
  lemma {:induction false} AheadInTotal(rows: seq<Listed>, a: set<Id>, b: set<Id>)
    requires SortedListing(rows) && rows != []
    requires forall p :: 0 <= p <= |rows| ==> Hits(rows[..p], b) <= Hits(rows[..p], a)
    ensures TotalPriority(rows, a) - TotalPriority(rows, b)
            >= Scale(Hits(rows, a) - Hits(rows, b), rows[|rows| - 1].key.priority)
  {
    hide Scale;
    var shorter, last := rows[..|rows| - 1], rows[|rows| - 1];
    ScaleUnits(last.key.priority);
    if shorter != [] {
      AheadInTotalStep(rows, a, b);
      AheadInTotal(shorter, a, b);
      hide SortedListing, Before;
      var gain := (if last.key.id in a then 1 else 0) - if last.key.id in b then 1 else 0;
      LeadCarries(Hits(shorter, a) - Hits(shorter, b), gain, shorter[|shorter| - 1].key.priority, last.key.priority);
    }
  }

  lemma AheadInTotalStep(rows: seq<Listed>, a: set<Id>, b: set<Id>)
    requires SortedListing(rows) && |rows| > 1
    requires forall p :: 0 <= p <= |rows| ==> Hits(rows[..p], b) <= Hits(rows[..p], a)
    ensures var shorter := rows[..|rows| - 1];
            && SortedListing(shorter)
            && (forall p :: 0 <= p <= |shorter| ==> Hits(shorter[..p], b) <= Hits(shorter[..p], a))
            && Hits(shorter, b) <= Hits(shorter, a)
            && shorter[|shorter| - 1].key.priority >= rows[|rows| - 1].key.priority
  {
    hide Hits;
    var shorter := rows[..|rows| - 1];
    forall p | 0 <= p <= |shorter|
      ensures Hits(shorter[..p], b) <= Hits(shorter[..p], a)
    {
      assert shorter[..p] == rows[..p];
    }
    assert shorter[..|shorter|] == shorter;
    assert Before(shorter[|shorter| - 1].key, rows[|rows| - 1].key);
  }

  /** The picks maximise total priority among all candidates. */
  lemma PicksMaximisePriority(rows: seq<Listed>, platformN: nat, share: real, published: set<string>, ids: set<Id>)
    requires DistinctIds(rows) && SortedListing(rows) && 0.0 <= share <= 1.0
    requires IsCandidate(rows, platformN, share, published, ids)
    ensures TotalPriority(rows, ids) <= TotalPriority(rows, IdsOf(PicksOf(rows, platformN, share, published)))
  {
    hide Hits, PicksOf, SortedListing, MeetsFloors, TotalPriority, Before, Scale, Min;
    var chosen := IdsOf(PicksOf(rows, platformN, share, published));
    if rows == [] {
      TotalOfNone(ids);
      TotalOfNone(chosen);
    } else {
      forall p | 0 <= p <= |rows|
        ensures Hits(rows[..p], ids) <= Hits(rows[..p], chosen)
      {
        PicksDominate(rows, platformN, share, published, ids, p);
      }
      SameCount(rows, platformN, share, published, ids);
      hide IdsOf;
      AheadInTotal(rows, chosen, ids);
      ScaleUnits(rows[|rows| - 1].key.priority);
    }
  }

  lemma SameCount(rows: seq<Listed>, platformN: nat, share: real, published: set<string>, ids: set<Id>)
    requires DistinctIds(rows) && 0.0 <= share <= 1.0
    requires IsCandidate(rows, platformN, share, published, ids)
    ensures Hits(rows, ids) == Hits(rows, IdsOf(PicksOf(rows, platformN, share, published)))
  {
    PicksAreChosen(rows, platformN, share, published);
    HitsIsCardinality(rows, ids);
    HitsIsCardinality(rows, IdsOf(PicksOf(rows, platformN, share, published)));
  }

  lemma TotalOfNone(ids: set<Id>)
    ensures TotalPriority([], ids) == 0.0
  {
  }

  // ---------- Eligibility ----------

  ghost predicate DistinctServices(rows: seq<Listed>) {
    forall i, j :: 0 <= i < j < |rows| && rows[i].row.service != "" ==> rows[i].row.service != rows[j].row.service
  }

  /** The loop keeps only rows it has no reason to skip. */
  lemma {:induction false} EligibleAreListed(pending: seq<Listed>, human: Option<Listed>, seen: set<string>)
    ensures forall r :: r in EligibleFrom(pending, human, seen) ==> r in pending && !Skipped(r, human, seen)
  {
    if pending != [] {
      EligibleAreListed(pending[1..], human, seen);
      EligibleAreListed(pending[1..], human, Seen(seen, pending[0]));
    }
  }

  lemma {:induction false} EligibleKeepsOrder(pending: seq<Listed>, human: Option<Listed>, seen: set<string>)
    requires SortedListing(pending) && DistinctIds(pending)
    ensures SortedListing(EligibleFrom(pending, human, seen)) && DistinctIds(EligibleFrom(pending, human, seen))
  {
    if pending != [] {
      var rest := pending[1..];
      EligibleKeepsOrder(rest, human, seen);
      EligibleKeepsOrder(rest, human, Seen(seen, pending[0]));
      EligibleAreListed(rest, human, Seen(seen, pending[0]));
      forall r | r in rest
        ensures Before(pending[0].key, r.key) && pending[0].key.id != r.key.id
      {
        var i :| 0 <= i < |rest| && rest[i] == r;
        assert r == pending[i + 1];
      }
    }
  }

  lemma {:induction false} EligibleServices(pending: seq<Listed>, human: Option<Listed>, seen: set<string>)
    ensures DistinctServices(EligibleFrom(pending, human, seen))
  {
    if pending != [] {
      EligibleServices(pending[1..], human, seen);
      EligibleServices(pending[1..], human, Seen(seen, pending[0]));
      EligibleAreListed(pending[1..], human, Seen(seen, pending[0]));
      var tail := EligibleFrom(pending[1..], human, Seen(seen, pending[0]));
      forall j | 0 <= j < |tail|
        ensures pending[0].row.service != "" ==> tail[j].row.service != pending[0].row.service
      {
        assert tail[j] in tail;
      }
    }
  }

  /** Row p of the listing may fill a slot: it is not the human pick, not of its service, and
      no row ahead of it has its service. */
  ghost predicate MayFill(pending: seq<Listed>, human: Option<Listed>, p: nat)
    requires p < |pending|
  {
    var r := pending[p];
    && (human.Some? ==> r.key.id != human.value.key.id)
    && (r.row.service != "" ==>
          && (human.Some? ==> r.row.service != human.value.row.service)
          && forall q :: 0 <= q < p ==> pending[q].row.service != r.row.service)
  }

  /** The human pick stands in the listing as it was picked. */
  ghost predicate PickedFrom(pending: seq<Listed>, human: Option<Listed>) {
    human.Some? ==> forall r :: r in pending && r.key.id == human.value.key.id ==> r == human.value
  }

  lemma {:induction false} EligibleIff(pending: seq<Listed>, human: Option<Listed>, seen: set<string>, p: nat)
    requires DistinctIds(pending) && PickedFrom(pending, human) && p < |pending|
    ensures pending[p] in EligibleFrom(pending, human, seen)
            <==> MayFill(pending, human, p) && (pending[p].row.service != "" ==> pending[p].row.service !in seen)
  {
    hide DistinctIds, PickedFrom;
    var head, rest := pending[0], pending[1..];
    ListedApart(pending, human);
    if p == 0 {
      EligibleAreListed(rest, human, seen);
      EligibleAreListed(rest, human, Seen(seen, head));
    } else {
      assert rest[p - 1] == pending[p];
      EligibleIff(rest, human, seen, p - 1);
      EligibleIff(rest, human, Seen(seen, head), p - 1);
      MayFillLater(pending, human, p);
    }
  }

  lemma ListedApart(pending: seq<Listed>, human: Option<Listed>)
    requires DistinctIds(pending) && PickedFrom(pending, human) && pending != []
    ensures DistinctIds(pending[1..]) && PickedFrom(pending[1..], human)
    ensures pending[0] !in pending[1..]
    ensures human.Some? && pending[0].key.id == human.value.key.id ==> pending[0] == human.value
    ensures forall p :: 0 < p < |pending| ==> pending[p] != pending[0]
  {
    assert pending[0] in pending;
  }

  lemma MayFillLater(pending: seq<Listed>, human: Option<Listed>, p: nat)
    requires 0 < p < |pending|
    ensures MayFill(pending, human, p)
            <==> && MayFill(pending[1..], human, p - 1)
                 && (pending[p].row.service != "" ==> pending[0].row.service != pending[p].row.service)
  {
    var rest := pending[1..];
    if MayFill(pending, human, p) {
      forall q | 0 <= q < p - 1
        ensures rest[q] == pending[q + 1]
      {
      }
    }
    if MayFill(rest, human, p - 1) && pending[0].row.service != pending[p].row.service {
      forall q | 0 <= q < p
        ensures pending[p].row.service != "" ==> pending[q].row.service != pending[p].row.service
      {
        assert q > 0 ==> rest[q - 1] == pending[q];
      }
    }
  }

  /** Which rows of a listing compete for the slots. */
  lemma EligibleExactly(pending: seq<Listed>, human: Option<Listed>)
    requires SortedListing(pending) && DistinctIds(pending) && PickedFrom(pending, human)
    ensures var eligible := Eligible(pending, human);
            && SortedListing(eligible) && DistinctIds(eligible)
            && (forall r :: r in eligible ==> r in pending)
            && (forall p :: 0 <= p < |pending| ==> (pending[p] in eligible <==> MayFill(pending, human, p)))
  {
    EligibleKeepsOrder(pending, human, {});
    EligibleAreListed(pending, human, {});
    forall p | 0 <= p < |pending|
      ensures pending[p] in Eligible(pending, human) <==> MayFill(pending, human, p)
    {
      EligibleIff(pending, human, {}, p);
    }
  }

  /** The whole ranking over a pending listing: a sorted, duplicate-free selection of
      rows that are not the human pick and not of its service, at most one per named
      service; exactly min(platformN, |eligible|) of them; each pool served up to its
      floor; and no candidate with more total priority. */
  lemma RankingIsOptimal(pending: seq<Listed>, human: Option<Listed>, platformN: nat, share: real,
                         published: set<string>, ids: set<Id>)
    requires SortedListing(pending) && DistinctIds(pending) && 0.0 <= share <= 1.0
    requires PickedFrom(pending, human)
    ensures var eligible := Eligible(pending, human);
            var picks := RankedPicks(pending, human, platformN, share, published);
            && |picks| == Min(platformN, |eligible|)
            && SortedListing(picks) && DistinctIds(picks) && DistinctServices(picks)
            && (forall r :: r in picks ==> exists p :: 0 <= p < |pending| && pending[p] == r && MayFill(pending, human, p))
            && IsCandidate(eligible, platformN, share, published, IdsOf(picks))
            && (IsCandidate(eligible, platformN, share, published, ids) ==>
                  TotalPriority(eligible, ids) <= TotalPriority(eligible, IdsOf(picks)))
  {
    hide MayFill, IsCandidate, TotalPriority, ChosenIds, EligibleFrom, Only;
    var eligible := Eligible(pending, human);
    EligibleExactly(pending, human);
    EligibleServices(pending, human, {});
    PicksAreChosen(eligible, platformN, share, published);
    PicksMeetFloors(eligible, platformN, share, published);
    OnlyKeepsOrder(eligible, ChosenIds(eligible, platformN, share, published));
    if IsCandidate(eligible, platformN, share, published, ids) {
      PicksMaximisePriority(eligible, platformN, share, published, ids);
    }
    forall r | r in RankedPicks(pending, human, platformN, share, published)
      ensures exists p :: 0 <= p < |pending| && pending[p] == r && MayFill(pending, human, p)
    {
      assert r in eligible;
      var p :| 0 <= p < |pending| && pending[p] == r;
    }
  }

  lemma {:induction false} OnlyKeepsOrder(rows: seq<Listed>, ids: set<Id>)
    requires SortedListing(rows) && DistinctIds(rows) && DistinctServices(rows)
    ensures SortedListing(Only(rows, ids)) && DistinctIds(Only(rows, ids)) && DistinctServices(Only(rows, ids))
    ensures forall r :: r in Only(rows, ids) ==> r in rows
  {
    OnlyCounts(rows, ids);
    if rows != [] {
      var shorter := rows[..|rows| - 1];
      OnlyKeepsOrder(shorter, ids);
      OnlyCounts(shorter, ids);
    }
  }
}
