/** The score component that rewards being passed over, and what a sweep leaves behind. */
module ArtifactPriority {
  import opened Wrappers
  import opened ArtifactTables
  import opened ArtifactHistory
  import opened ArtifactStore

  function EffectiveCap(cap: int): int {
    if cap < 1 then 1 else cap
  }

  /** Python's round(x), ties to even. */
  function RoundToEven(x: real): int {
    var rest := x - x.Floor as real;
    if rest < 0.5 || (rest == 0.5 && x.Floor % 2 == 0) then x.Floor else x.Floor + 1
  }

  /** The steps of a score that is kept to four places. */
  const PLACES: real := 10000.0

  function AtMostOne(ratio: real): real {
    if ratio > 1.0 then 1.0 else ratio
  }

  function Scaled(ratio: real, maxScore: real): real {
    AtMostOne(ratio) * maxScore * PLACES
  }

  /** How many ten-thousandths a trail of the given length scores. */
  function TenThousandths(count: nat, cap: int, maxScore: real): int {
    if count == 0 then 0
    else RoundToEven(Scaled(count as real / EffectiveCap(cap) as real, maxScore))
  }

  /** `skip_count_score`: linear in the length of the provenance trail up to a cap, rounded
      to four places. */
  function SkipCountScore(content: Option<Content>, cap: int, maxScore: real): real {
    TenThousandths(if content.Some? then |content.value.metadata.segments| else 0, cap, maxScore) as real / PLACES
  }

  /** Part of the maximum the length is of the cap, all of it past the cap. */
  ghost function ExactScore(n: nat, cap: int, maxScore: real): real {
    var most := if cap > 1 then cap else 1;
    if n >= most then maxScore else n as real / most as real * maxScore
  }

  /** The nearest whole number, of two the even one. */
  ghost predicate IsNearestEven(n: int, x: real) {
    && n as real - 0.5 <= x <= n as real + 0.5
    && (x == n as real + 0.5 || x == n as real - 0.5 ==> n % 2 == 0)
  }

  ghost predicate IsRounded(score: real, inPlaces: real) {
    exists n :: IsNearestEven(n, inPlaces) && score == n as real / 10000.0
  }

  /** The score is that part of the maximum to the nearest ten-thousandth. */
  lemma ScoreTold(content: Option<Content>, cap: int, maxScore: real)
    ensures var n := if content.None? then 0 else |content.value.metadata.segments|;
            IsRounded(SkipCountScore(content, cap, maxScore), ExactScore(n, cap, maxScore) * 10000.0)
  {
    hide RoundToEven, Scaled, ExactScore, IsNearestEven;
    var n := if content.None? then 0 else |content.value.metadata.segments|;
    var units := TenThousandths(n, cap, maxScore);
    ScaledTold(n, cap, maxScore);
    RoundedToEven(ExactScore(n, cap, maxScore) * PLACES);
    assert SkipCountScore(content, cap, maxScore) == units as real / 10000.0;
    assert IsNearestEven(units, ExactScore(n, cap, maxScore) * 10000.0);
  }

  lemma ScaledTold(n: nat, cap: int, maxScore: real)
    ensures Scaled(n as real / EffectiveCap(cap) as real, maxScore) == ExactScore(n, cap, maxScore) * PLACES
    ensures n == 0 ==> ExactScore(n, cap, maxScore) * PLACES == 0.0
  {
    var c := EffectiveCap(cap) as real;
    RatioTimes(n as real, c, maxScore);
    var ratio := n as real / c;
    assert ratio > 1.0 ==> n as real > c;
    assert n as real > c ==> ratio > 1.0;
    if n as real == c {
      assert ratio * maxScore == maxScore;
    }
  }

  lemma RoundedToEven(x: real)
    ensures IsNearestEven(RoundToEven(x), x)
  {
  }

  lemma RoundedIsNearest(x: real)
    ensures RoundToEven(x) as real - 0.5 <= x <= RoundToEven(x) as real + 0.5
    ensures x.Floor as real == x ==> RoundToEven(x) == x.Floor
  {
  }

  lemma RoundingKeepsOrder(x: real, y: real)
    requires x <= y
    ensures RoundToEven(x) <= RoundToEven(y)
  {
  }

  /** Rounding never brings together what is more than one apart. */
  lemma RoundingSeparates(x: real, y: real)
    requires x + 1.0 < y
    ensures RoundToEven(x) < RoundToEven(y)
  {
  }

  /** What one more segment adds within the cap, in ten-thousandths before rounding. */
  function Unit(cap: int, maxScore: real): real {
    maxScore * PLACES / EffectiveCap(cap) as real
  }

  function Times(n: nat, unit: real): real {
    n as real * unit
  }

  lemma RatioTimes(n: real, c: real, m: real)
    requires c > 0.0
    ensures n / c * m == n * (m / c)
    ensures c * (m / c) == m
    ensures n <= c <==> n / c <= 1.0
  {
    assert n / c * c == n;
    assert m / c * c == m;
    var q, u := n / c, m / c;
    assert q * (u * c) == (q * c) * u;
    assert n - c == (q - 1.0) * c;
    if q > 1.0 {
      PositiveProduct(q - 1.0, c);
    } else if q < 1.0 {
      PositiveProduct(1.0 - q, c);
    }
  }

  lemma PositiveProduct(x: real, y: real)
    requires x > 0.0 && y > 0.0
    ensures x * y > 0.0
  {
  }

  lemma ScaledInUnits(n: nat, cap: int, maxScore: real)
    ensures var scaled := Scaled(n as real / EffectiveCap(cap) as real, maxScore);
            && (n <= EffectiveCap(cap) ==> scaled == Times(n, Unit(cap, maxScore)))
            && (n >= EffectiveCap(cap) ==> scaled == maxScore * PLACES)
    ensures Times(EffectiveCap(cap), Unit(cap, maxScore)) == maxScore * PLACES
  {
    var c := EffectiveCap(cap) as real;
    RatioTimes(n as real, c, maxScore * PLACES);
    var ratio := n as real / c;
    assert ratio * maxScore * PLACES == ratio * (maxScore * PLACES);
  }

  lemma NoUnits(unit: real)
    ensures RoundToEven(Times(0, unit)) == 0
  {
    assert Times(0, unit) == 0.0;
  }

  lemma CountedInUnits(n: nat, cap: int, maxScore: real)
    ensures n <= EffectiveCap(cap) ==> TenThousandths(n, cap, maxScore) == RoundToEven(Times(n, Unit(cap, maxScore)))
    ensures n >= EffectiveCap(cap) ==> TenThousandths(n, cap, maxScore) == RoundToEven(maxScore * PLACES)
  {
    hide RoundToEven, Scaled, Unit, Times;
    ScaledInUnits(n, cap, maxScore);
    NoUnits(Unit(cap, maxScore));
  }

  lemma TimesSplits(m: nat, n: nat, unit: real)
    ensures Times(m + n, unit) == Times(m, unit) + Times(n, unit)
    ensures Times(1, unit) == unit && Times(n, 1.0) == n as real
    ensures Times(n, 1.0 - unit) == n as real - Times(n, unit)
  {
    assert (m + n) as real == m as real + n as real;
  }

  lemma TimesIsUp(n: nat, unit: real)
    requires unit >= 0.0
    ensures Times(n, unit) >= 0.0
    ensures n > 0 && unit > 0.0 ==> Times(n, unit) > 0.0
  {
  }

  lemma UnitsInOrder(m: nat, n: nat, unit: real)
    requires m <= n && unit >= 0.0
    ensures Times(m, unit) <= Times(n, unit)
    ensures n == m + 1 ==> Times(n, unit) == Times(m, unit) + unit
  {
    hide Times;
    TimesSplits(m, n - m, unit);
    TimesIsUp(n - m, unit);
    TimesSplits(0, 1, unit);
  }

  lemma UnitIsUp(cap: int, maxScore: real)
    requires maxScore >= 0.0
    ensures Unit(cap, maxScore) >= 0.0
  {
  }

  /** The score lies between 0 and the rounded maximum, and a longer trail never lowers it. */
  lemma SkipCountInRange(m: nat, n: nat, cap: int, maxScore: real)
    requires maxScore >= 0.0 && m <= n
    ensures 0 <= TenThousandths(m, cap, maxScore) <= TenThousandths(n, cap, maxScore) <= RoundToEven(maxScore * PLACES)
  {
    hide RoundToEven, Scaled, Unit, TenThousandths, Times;
    var c, unit := EffectiveCap(cap), Unit(cap, maxScore);
    UnitIsUp(cap, maxScore);
    ScaledInUnits(0, cap, maxScore);
    CountedInUnits(m, cap, maxScore);
    CountedInUnits(n, cap, maxScore);
    NoUnits(unit);
    if m <= c {
      UnitsInOrder(0, m, unit);
      UnitsInOrder(m, c, unit);
      RoundingKeepsOrder(Times(0, unit), Times(m, unit));
      RoundingKeepsOrder(Times(m, unit), Times(c, unit));
      if n <= c {
        UnitsInOrder(m, n, unit);
        UnitsInOrder(n, c, unit);
        RoundingKeepsOrder(Times(m, unit), Times(n, unit));
        RoundingKeepsOrder(Times(n, unit), Times(c, unit));
      }
    } else {
      UnitsInOrder(0, c, unit);
      RoundingKeepsOrder(Times(0, unit), Times(c, unit));
    }
  }

  ghost predicate RisesUpToCap(cap: int, maxScore: real) {
    forall n: nat :: n < EffectiveCap(cap) ==> TenThousandths(n, cap, maxScore) < TenThousandths(n + 1, cap, maxScore)
  }

  lemma {:induction false} RisenSoFar(n: nat, cap: int, maxScore: real)
    requires RisesUpToCap(cap, maxScore) && n <= EffectiveCap(cap)
    ensures TenThousandths(n, cap, maxScore) >= n
    decreases n
  {
    if n > 0 {
      RisenSoFar(n - 1, cap, maxScore);
    }
  }

  /** With units of at most one the score is the length of the trail itself. */
  lemma SmallUnits(n: nat, cap: int, maxScore: real)
    requires RoundToEven(maxScore * PLACES) >= EffectiveCap(cap) && Unit(cap, maxScore) <= 1.0
    requires n <= EffectiveCap(cap)
    ensures TenThousandths(n, cap, maxScore) == n
  {
    hide Scaled, Unit, TenThousandths, Times;
    var c, unit := EffectiveCap(cap), Unit(cap, maxScore);
    ScaledInUnits(n, cap, maxScore);
    CountedInUnits(n, cap, maxScore);
    RoundedIsNearest(maxScore * PLACES);
    SmallTimes(n, c, unit);
    RoundedIsNearest(Times(n, unit));
    if n == c {
      RoundingKeepsOrder(maxScore * PLACES, c as real);
    }
  }

  /** Units just below one lose less than a half over the whole cap. */
  lemma SmallTimes(n: nat, c: nat, unit: real)
    requires n <= c && unit <= 1.0 && Times(c, unit) >= c as real - 0.5
    ensures Times(n, unit) <= n as real
    ensures n < c ==> Times(n, unit) > n as real - 0.5
  {
    hide Times;
    var short := 1.0 - unit;
    TimesSplits(0, c, unit);
    TimesSplits(0, n, unit);
    TimesSplits(n, c - n, short);
    TimesIsUp(n, short);
    TimesIsUp(c - n, short);
  }

  lemma LargeUnits(n: nat, cap: int, maxScore: real)
    requires Unit(cap, maxScore) > 1.0 && n < EffectiveCap(cap)
    ensures TenThousandths(n, cap, maxScore) < TenThousandths(n + 1, cap, maxScore)
  {
    hide RoundToEven, Scaled, Unit, TenThousandths, Times;
    var unit := Unit(cap, maxScore);
    CountedInUnits(n, cap, maxScore);
    CountedInUnits(n + 1, cap, maxScore);
    UnitsInOrder(n, n + 1, unit);
    RoundingSeparates(Times(n, unit), Times(n + 1, unit));
  }

  /** Each of the first `cap` segments raises the rounded score exactly when the rounded
      maximum has a ten-thousandth for each of them. */
  lemma RisesUpToCapIff(cap: int, maxScore: real)
    ensures RisesUpToCap(cap, maxScore) <==> RoundToEven(maxScore * PLACES) >= EffectiveCap(cap)
  {
    hide RoundToEven, Scaled, Unit, TenThousandths;
    var c := EffectiveCap(cap);
    if RisesUpToCap(cap, maxScore) {
      RisenSoFar(c, cap, maxScore);
      CountedInUnits(c, cap, maxScore);
    }
    if RoundToEven(maxScore * PLACES) >= c {
      forall n: nat | n < c
        ensures TenThousandths(n, cap, maxScore) < TenThousandths(n + 1, cap, maxScore)
      {
        if Unit(cap, maxScore) > 1.0 {
          LargeUnits(n, cap, maxScore);
        } else {
          SmallUnits(n, cap, maxScore);
          SmallUnits(n + 1, cap, maxScore);
        }
      }
    }
  }

  // ---------- Neglect ----------

  /** How often a chain of updates has been passed over. */
  function Ignored(updates: seq<Update>): nat
    requires updates != []
  {
    |updates[0].req.metadata.segments| + |updates| - 1
  }

  lemma TrailLength(updates: seq<Update>, rules: MergeRules)
    requires updates != []
    ensures |Accumulated(updates, rules).metadata.segments| == Ignored(updates)
  {
    HistoryIsKept(updates, rules);
  }

  ghost predicate Raises(updates: seq<Update>, u: Update, rules: MergeRules, cap: int, maxScore: real)
    requires updates != []
  {
    SkipCountScore(Some(Accumulated(updates + [u], rules)), cap, maxScore)
    > SkipCountScore(Some(Accumulated(updates, rules)), cap, maxScore)
  }

  lemma RaisesByCount(updates: seq<Update>, u: Update, rules: MergeRules, cap: int, maxScore: real)
    requires updates != []
    ensures Raises(updates, u, rules, cap, maxScore)
            <==> TenThousandths(Ignored(updates), cap, maxScore) < TenThousandths(Ignored(updates) + 1, cap, maxScore)
  {
    hide Accumulated, TenThousandths;
    TrailLength(updates, rules);
    TrailLength(updates + [u], rules);
  }

  /** Past the cap one more ignored update raises nothing; below it every one raises the
      score if the rounded maximum has a ten-thousandth for each segment up to the cap. */
  lemma NeglectRaisesIff(updates: seq<Update>, u: Update, rules: MergeRules, cap: int, maxScore: real)
    requires updates != []
    ensures Raises(updates, u, rules, cap, maxScore) ==> Ignored(updates) < EffectiveCap(cap)
    ensures RoundToEven(maxScore * PLACES) >= EffectiveCap(cap) ==>
              (Raises(updates, u, rules, cap, maxScore) <==> Ignored(updates) < EffectiveCap(cap))
  {
    hide Raises, RoundToEven, TenThousandths;
    RaisesByCount(updates, u, rules, cap, maxScore);
    RisesUpToCapIff(cap, maxScore);
    CountedInUnits(Ignored(updates), cap, maxScore);
    CountedInUnits(Ignored(updates) + 1, cap, maxScore);
  }

  /** Every further cycle below the cap raises the score. */
  ghost predicate EveryCycleRaises(rules: MergeRules, cap: int, maxScore: real) {
    forall updates: seq<Update>, u: Update :: updates != [] && Ignored(updates) < EffectiveCap(cap) ==>
      Raises(updates, u, rules, cap, maxScore)
  }

  const PLAIN_UPDATE: Update := Update(Request("", "", "", "", "", "", Metadata(map[], []), None), 0)

  lemma EveryCycleRaisesIff(rules: MergeRules, cap: int, maxScore: real)
    ensures EveryCycleRaises(rules, cap, maxScore) <==> RoundToEven(maxScore * PLACES) >= EffectiveCap(cap)
  {
    hide Raises, RoundToEven, TenThousandths;
    RisesUpToCapIff(cap, maxScore);
    if EveryCycleRaises(rules, cap, maxScore) {
      forall n: nat | n < EffectiveCap(cap)
        ensures TenThousandths(n, cap, maxScore) < TenThousandths(n + 1, cap, maxScore)
      {
        var updates := seq(n + 1, _ => PLAIN_UPDATE);
        assert Ignored(updates) == n;
        RaisesByCount(updates, PLAIN_UPDATE, rules, cap, maxScore);
      }
    } else {
      var updates: seq<Update>, u: Update :| updates != [] && Ignored(updates) < EffectiveCap(cap)
                                             && !Raises(updates, u, rules, cap, maxScore);
      RaisesByCount(updates, u, rules, cap, maxScore);
    }
  }

  /** A cap of 100000 and the default maximum: the second ignored update scores as the first. */
  lemma SecondCycleRaisesNothing()
    ensures TenThousandths(1, 100000, 6.0) == TenThousandths(2, 100000, 6.0) == 1
    ensures !Raises([PLAIN_UPDATE, PLAIN_UPDATE], PLAIN_UPDATE, ShippedRules(20000), 100000, 6.0)
  {
    CountedInUnits(1, 100000, 6.0);
    CountedInUnits(2, 100000, 6.0);
    assert Unit(100000, 6.0) == 0.6;
    RaisesByCount([PLAIN_UPDATE, PLAIN_UPDATE], PLAIN_UPDATE, ShippedRules(20000), 100000, 6.0);
  }

  // ---------- The sweep ----------

  /** Under the row limit a sweep gives every pending artifact the score of its own columns
      and content, and changes no other artifact. */
  lemma SweepRescoresAllPending(artifacts: Artifacts, contents: map<Id, Content>,
                                score: (Artifact, Option<Content>) -> real, now: Instant)
    requires WithinLimit(artifacts)
    ensures var after := Swept(artifacts, contents, score, now);
            && after.Keys == artifacts.Keys
            && forall x :: x in artifacts ==>
                 if IsPending(artifacts, x)
                 then after[x] == artifacts[x].(priority := score(artifacts[x].(computedAt := None), ContentOf(contents, x)),
                                                computedAt := Some(now))
                 else after[x] == artifacts[x]
  {
    PendingListFacts(artifacts);
    forall x | IsPending(artifacts, x)
      ensures x in IdsOf(PendingList(artifacts))
    {
      PendingListComplete(artifacts, x);
    }
    hide PendingList, WithinLimit, ContentOf;
  }
}
