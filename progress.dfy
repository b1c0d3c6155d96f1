/**
 * Career progression: per-module progress records and the bookkeeping of
 * `unlockNextLevel` (stars per level merged by maximum, unlock index raised,
 * totals recomputed from scratch).
 *
 * `starsPerLevel` is a record keyed by level index; it is modelled as a map.
 * `SumValues` is the sum of its values in no particular order (the source's
 * `Object.values(...).reduce`), and `SumStars` computes it with a loop.
 */
module Progress {
  import opened Levels

  datatype ModuleProgress = ModuleProgress(
    levelsCompleted: int,
    starsEarned: int,
    perfectLevels: int,
    unlockedIndex: int,
    starsPerLevel: map<nat, int>)

  datatype CareerProgress = CareerProgress(
    earnedBadges: seq<string>,
    totalStars: int,
    moduleProgress: map<GameModule, ModuleProgress>)

  function Max(a: int, b: int): (r: int)
    ensures r >= a && r >= b && (r == a || r == b)
  {
    if a < b then b else a
  }

  /** `createEmptyModuleProgress`. */
  const EmptyModuleProgress: ModuleProgress := ModuleProgress(0, 0, 0, 0, map[])

  /** Every module has a progress record. */
  predicate Complete(table: map<GameModule, ModuleProgress>) {
    forall m: GameModule :: m in table
  }

  /** A table with the four modules' records is complete. */
  lemma FourEntriesComplete(table: map<GameModule, ModuleProgress>)
    requires Abstract in table && Drone in table && Bridge in table && Robotics in table
    ensures Complete(table)
  {
    forall m: GameModule
      ensures m in table
    {
      match m
      case Abstract =>
      case Drone =>
      case Bridge =>
      case Robotics =>
    }
  }

  /** The sum of `starsEarned` over the four modules. */
  function TotalStars(table: map<GameModule, ModuleProgress>): int
    requires Complete(table)
  {
    table[Abstract].starsEarned + table[Drone].starsEarned + table[Bridge].starsEarned + table[Robotics].starsEarned
  }

  /** `createInitialCareerProgress`: no badges, no stars, every module empty. */
  function InitialCareer(): (c: CareerProgress)
    ensures Complete(c.moduleProgress)
    ensures c.moduleProgress[Abstract] == c.moduleProgress[Drone] == EmptyModuleProgress
    ensures c.moduleProgress[Bridge] == c.moduleProgress[Robotics] == EmptyModuleProgress
    ensures c.totalStars == TotalStars(c.moduleProgress) == 0
  {
    var table := map[Abstract := EmptyModuleProgress, Drone := EmptyModuleProgress,
                     Bridge := EmptyModuleProgress, Robotics := EmptyModuleProgress];
    FourEntriesComplete(table);
    CareerProgress([], 0, table)
  }

  /** `starsPerLevel[index] || 0`. */
  function StarsAt(spl: map<nat, int>, index: nat): int {
    if index in spl then spl[index] else 0
  }

  /** The sum of the values of a stars record. */
  ghost function SumValues(spl: map<nat, int>): int
    decreases |spl|
  {
    if |spl| == 0 then 0
    else
      var k := SomeKey(spl);
      spl[k] + SumValues(spl - {k})
  }

  /** An arbitrary key of a non-empty record. */
  ghost function SomeKey(spl: map<nat, int>): (k: nat)
    requires |spl| > 0
    ensures k in spl
  {
    var k: nat :| k in spl; k
  }

  /** The sum can be taken apart at any key, whichever key the definition happens to pick. */
  lemma {:induction false} SumValuesPick(spl: map<nat, int>, k: nat)
    requires k in spl
    ensures SumValues(spl) == spl[k] + SumValues(spl - {k})
    decreases |spl|
  {
    var j: nat := SomeKey(spl);
    if j != k {
      assert spl - {j} - {k} == spl - {k} - {j};
      SumValuesPick(spl - {j}, k);
      SumValuesPick(spl - {k}, j);
      assert (spl - {j})[k] == spl[k] && (spl - {k})[j] == spl[j];
    }
  }

  /** Writing one entry changes the sum by the difference at that entry. */
  lemma SumValuesUpdate(spl: map<nat, int>, k: nat, v: int)
    ensures SumValues(spl[k := v]) == SumValues(spl) - StarsAt(spl, k) + v
  {
    SumValuesPick(spl[k := v], k);
    if k in spl {
      SumValuesPick(spl, k);
      assert spl[k := v] - {k} == spl - {k};
    } else {
      assert spl[k := v] - {k} == spl;
    }
  }

  /** `Object.values(starsPerLevel).reduce((a, b) => a + b, 0)`. */
  method SumStars(spl: map<nat, int>) returns (total: int)
    ensures total == SumValues(spl)
  {
    total := 0;
    var rest: map<nat, int> := spl;
    while rest != map[]
      invariant total + SumValues(rest) == SumValues(spl)
      decreases |rest|
    {
      var k: nat :| k in rest;
      SumValuesPick(rest, k);
      total := total + rest[k];
      rest := rest - {k};
    }
  }

  /** The number of levels with exactly three stars. */
  function CountPerfect(spl: map<nat, int>): nat {
    |set k: nat | k in spl && spl[k] == 3|
  }

  /** The totals of a progress record agree with its stars record. */
  ghost predicate Consistent(mp: ModuleProgress) {
    && mp.levelsCompleted == |mp.starsPerLevel|
    && mp.starsEarned == SumValues(mp.starsPerLevel)
    && mp.unlockedIndex >= 0
  }

  /** The perfect-level count agrees with the stars record, and no level holds more than three stars. */
  predicate PerfectConsistent(mp: ModuleProgress) {
    && mp.perfectLevels == CountPerfect(mp.starsPerLevel)
    && forall k :: k in mp.starsPerLevel ==> mp.starsPerLevel[k] <= 3
  }

  /**
   * The module-progress part of `unlockNextLevel(stars)` played on level
   * `index`: merge the stars by maximum, raise the unlock index to at least
   * `index + 1`, recompute the star total and the level count, and recount
   * perfect levels only when `stars` is 3.
   */
  ghost function Awarded(mp: ModuleProgress, index: nat, stars: int): ModuleProgress {
    var spl := mp.starsPerLevel[index := Max(StarsAt(mp.starsPerLevel, index), stars)];
    ModuleProgress(
      |spl|,
      SumValues(spl),
      if stars == 3 then CountPerfect(spl) else mp.perfectLevels,
      Max(mp.unlockedIndex, index + 1),
      spl)
  }

  /** The module-progress computation of `unlockNextLevel`, with its reduce loop. */
  method Award(mp: ModuleProgress, index: nat, stars: int) returns (r: ModuleProgress)
    ensures r == Awarded(mp, index, stars)
  {
    var spl := mp.starsPerLevel[index := Max(StarsAt(mp.starsPerLevel, index), stars)];
    var earned := SumStars(spl);
    var perfect := mp.perfectLevels;
    if stars == 3 {
      perfect := CountPerfect(spl);
    }
    r := ModuleProgress(|spl|, earned, perfect, Max(mp.unlockedIndex, index + 1), spl);
  }

  /**
   * Awarding is monotone: the unlock index never falls and passes `index`,
   * the played level's stars become the larger of old and new, every other
   * level keeps its stars, and the played level is now recorded.
   */
  lemma AwardedMonotone(mp: ModuleProgress, index: nat, stars: int)
    ensures var r := Awarded(mp, index, stars);
      && r.unlockedIndex >= mp.unlockedIndex
      && r.unlockedIndex > index
      && StarsAt(r.starsPerLevel, index) == Max(StarsAt(mp.starsPerLevel, index), stars)
      && (forall k: nat :: StarsAt(r.starsPerLevel, k) >= StarsAt(mp.starsPerLevel, k))
      && (forall k: nat :: k != index ==> StarsAt(r.starsPerLevel, k) == StarsAt(mp.starsPerLevel, k))
      && r.starsPerLevel.Keys == mp.starsPerLevel.Keys + {index}
  {
  }

  /**
   * Recomputing from scratch agrees with counting incrementally: the star
   * total grows by exactly the improvement on the played level, and the level
   * count grows by one exactly when the level was not recorded before.
   */
  lemma AwardedTotals(mp: ModuleProgress, index: nat, stars: int)
    requires Consistent(mp)
    ensures var r := Awarded(mp, index, stars);
      && Consistent(r)
      && r.starsEarned == mp.starsEarned + Max(StarsAt(mp.starsPerLevel, index), stars) - StarsAt(mp.starsPerLevel, index)
      && r.starsEarned >= mp.starsEarned
      && r.levelsCompleted == mp.levelsCompleted + (if index in mp.starsPerLevel then 0 else 1)
  {
    var spl := mp.starsPerLevel;
    SumValuesUpdate(spl, index, Max(StarsAt(spl, index), stars));
    if index !in spl {
      assert |spl[index := Max(StarsAt(spl, index), stars)]| == |spl| + 1;
    }
  }

  /**
   * The perfect-level count stays right through awards of at most three
   * stars: with 3 it is recounted, and with fewer no level reaches or leaves
   * exactly three stars.
   */
  lemma AwardedPerfect(mp: ModuleProgress, index: nat, stars: int)
    requires PerfectConsistent(mp) && stars <= 3
    ensures PerfectConsistent(Awarded(mp, index, stars))
  {
    var spl := mp.starsPerLevel;
    var spl' := Awarded(mp, index, stars).starsPerLevel;
    if stars != 3 {
      forall k | k in spl'
        ensures spl'[k] == 3 <==> k in spl && spl[k] == 3
      {
        if k == index {
          assert spl'[k] == Max(StarsAt(spl, index), stars);
        }
      }
      var before := set k: nat | k in spl && spl[k] == 3;
      var after := set k: nat | k in spl' && spl'[k] == 3;
      assert after == before;
      assert CountPerfect(spl') == |after|;
      assert CountPerfect(spl) == |before|;
    }
  }

  /**
   * The perfect-level count goes stale when a level is awarded more than
   * three stars: a perfect level is overwritten, yet the count, which is only
   * recomputed for exactly three, still counts it.
   */
  lemma AwardedPerfectStale()
    ensures var mp := ModuleProgress(1, 3, 1, 1, map[0 := 3]);
      && PerfectConsistent(mp)
      && Awarded(mp, 0, 4).perfectLevels == 1
      && CountPerfect(Awarded(mp, 0, 4).starsPerLevel) == 0
  {
    var mp := ModuleProgress(1, 3, 1, 1, map[0 := 3]);
    assert (set k: nat | k in mp.starsPerLevel && mp.starsPerLevel[k] == 3) == {0};
    var spl' := Awarded(mp, 0, 4).starsPerLevel;
    assert spl' == map[0 := 4];
    assert (set k: nat | k in spl' && spl'[k] == 3) == {};
  }

  /**
   * Replacing one module's record in a complete table and recomputing the
   * career total: the total moves by that module's change, and every other
   * module's record is untouched.
   */
  lemma ReplaceEntryTotals(table: map<GameModule, ModuleProgress>, m: GameModule, mp: ModuleProgress)
    requires Complete(table)
    ensures Complete(table[m := mp])
    ensures TotalStars(table[m := mp]) == TotalStars(table) - table[m].starsEarned + mp.starsEarned
    ensures forall other: GameModule :: other != m ==> table[m := mp][other] == table[other]
  {
  }
}
