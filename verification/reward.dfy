/**
 * The reward engine: from three uniform draws r1, r2, r3 in [0, 1) it picks a
 * rarity class by walking the cumulative rarity table, then a species of that
 * class, then the catch's size and gold value.
 */
module Reward {
  import opened Catalog

  /** A resolved catch: the species, its size rounded to one decimal, its gold value. */
  datatype Catch = Catch(fish: Species, size: real, value: int)

  /**
   * The position of the first table row, at or after `from`, whose cumulative
   * rate reaches `r1` (inclusively); `|table|` when no row does.
   */
  function FirstReachingIndex(table: seq<RarityEntry>, r1: real, from: nat): (k: nat)
    requires from <= |table|
    ensures from <= k <= |table|
    ensures k < |table| ==> r1 <= CumulativeRate(table, k + 1)
    ensures forall j :: from < j <= k ==> CumulativeRate(table, j) < r1
    decreases |table| - from
  {
    if from == |table| then |table|
    else if r1 <= CumulativeRate(table, from + 1) then from
    else FirstReachingIndex(table, r1, from + 1)
  }

  /**
   * The rarity the walk selects for draw `r1`: the class of the first row whose
   * cumulative rate is at least `r1`, and `Common` when there is none.
   */
  function PickRarity(table: seq<RarityEntry>, r1: real): Rarity {
    var k := FirstReachingIndex(table, r1, 0);
    if k < |table| then table[k].rarity else Common
  }

  /**
   * The rarity walk: accumulate the rates in table order and stop at the first
   * row whose running total is at least `r1`; the initial `Common` stays
   * selected if the walk runs off the end.
   */
  method SelectRarity(table: seq<RarityEntry>, r1: real) returns (selected: Rarity)
    ensures selected == PickRarity(table, r1)
  {
    var accumulated := 0.0;
    selected := Common;
    for i := 0 to |table|
      invariant accumulated == CumulativeRate(table, i)
      invariant FirstReachingIndex(table, r1, i) == FirstReachingIndex(table, r1, 0)
      invariant selected == Common
    {
      accumulated := accumulated + table[i].rate;
      if r1 <= accumulated {
        selected := table[i].rarity;
        break;
      }
    }
  }

  /** The selection is the first row that reaches `r1`, in table order. */
  lemma PickRarityIsFirstReaching(table: seq<RarityEntry>, r1: real, k: nat)
    requires k < |table|
    requires r1 <= CumulativeRate(table, k + 1)
    requires forall j :: 0 < j <= k ==> CumulativeRate(table, j) < r1
    ensures PickRarity(table, r1) == table[k].rarity
  {
  }

  /** When no cumulative rate reaches `r1` the selection stays `Common`, not the last class. */
  lemma PickRarityFallback(table: seq<RarityEntry>, r1: real)
    requires forall j :: 0 < j <= |table| ==> CumulativeRate(table, j) < r1
    ensures PickRarity(table, r1) == Common
  {
  }

  /**
   * On the game's table the walk maps draws to the bands (-inf, 0.5], (0.5, 0.8],
   * (0.8, 0.95], (0.95, 1]; every draw up to 1 reaches some row, so the
   * `Common` fallback never decides.
   */
  lemma RarityBands(r1: real)
    requires r1 <= 1.0
    ensures FirstReachingIndex(RarityConfig, r1, 0) < |RarityConfig|
    ensures PickRarity(RarityConfig, r1) ==
      if r1 <= 0.5 then Common
      else if r1 <= 0.8 then Uncommon
      else if r1 <= 0.95 then Rare
      else Legendary
  {
    assert CumulativeRate(RarityConfig, 1) == 0.5;
    assert CumulativeRate(RarityConfig, 2) == 0.8;
    assert CumulativeRate(RarityConfig, 3) == 0.95;
    assert CumulativeRate(RarityConfig, 4) == 1.0;
  }

  /** Boundary draws: the comparison is inclusive, so 0.5 is common and 0.95 is rare. */
  lemma RarityExamples()
    ensures PickRarity(RarityConfig, 0.2) == Common
    ensures PickRarity(RarityConfig, 0.5) == Common
    ensures PickRarity(RarityConfig, 0.95) == Rare
    ensures PickRarity(RarityConfig, 0.97) == Legendary
  {
    RarityBands(0.2);
    RarityBands(0.5);
    RarityBands(0.95);
    RarityBands(0.97);
  }

  /** The index `floor(r2 * n)` into a pool of `n` species. */
  function PickIndex(r2: real, n: nat): (k: nat)
    requires 0.0 <= r2 < 1.0
    requires n > 0
    ensures k < n
  {
    assert 0.0 <= r2 * n as real < n as real;
    (r2 * n as real).Floor
  }

  /**
   * Draw r2 picks index k exactly when it falls in the band [k/n, (k+1)/n):
   * every index owns a band of width 1/n, so the pick is uniform over the pool.
   */
  lemma PickIndexBand(r2: real, n: nat, k: nat)
    requires 0.0 <= r2 < 1.0
    requires n > 0 && k < n
    ensures PickIndex(r2, n) == k <==> k as real / n as real <= r2 < (k + 1) as real / n as real
  {
    var x := r2 * n as real;
    assert k as real / n as real <= r2 <==> k as real <= x;
    assert r2 < (k + 1) as real / n as real <==> x < (k + 1) as real;
  }

  /** The lower end k/n of index k's band is a draw in [0, 1) that picks k. */
  lemma BandStartPicks(n: nat, k: nat)
    requires k < n
    ensures 0.0 <= k as real / n as real < 1.0
    ensures PickIndex(k as real / n as real, n) == k
  {
    var r2 := k as real / n as real;
    assert r2 * n as real == k as real;
    assert r2 < 1.0;
    PickIndexBand(r2, n, k);
  }

  /** The raw (unrounded) size `minSize + r3 * (maxSize - minSize)`. */
  function DrawSize(fish: Species, r3: real): real {
    fish.minSize + r3 * (fish.maxSize - fish.minSize)
  }

  /** The gold value `floor(price * size / minSize)`. */
  function CatchValue(fish: Species, size: real): int
    requires fish.minSize > 0.0
  {
    (fish.price as real * (size / fish.minSize)).Floor
  }

  /** `x` rounded to one decimal, halves rounded up (the displayed weight). */
  function RoundToTenth(x: real): real {
    (x * 10.0 + 0.5).Floor as real / 10.0
  }

  /** For r3 in [0, 1) the raw size lies in [minSize, maxSize), and is minSize at r3 = 0. */
  lemma SizeInRange(fish: Species, r3: real)
    requires fish.minSize < fish.maxSize
    requires 0.0 <= r3 < 1.0
    ensures fish.minSize <= DrawSize(fish, r3) < fish.maxSize
    ensures r3 == 0.0 ==> DrawSize(fish, r3) == fish.minSize
  {
    var span := fish.maxSize - fish.minSize;
    assert 0.0 <= r3 * span;
    assert span - r3 * span == (1.0 - r3) * span;
    assert (1.0 - r3) * span > 0.0;
    assert DrawSize(fish, r3) == fish.minSize + r3 * span;
  }

  /**
   * The floor makes the value flat just above minSize: a 1.05 kg catch of the
   * 1.0-3.0 kg species priced 10 (draw r3 = 0.025) is still worth exactly 10.
   */
  lemma ValueFlatNearMinimum()
    ensures DrawSize(FishDatabase[0], 0.025) == 1.05 > FishDatabase[0].minSize
    ensures CatchValue(FishDatabase[0], 1.05) == FishDatabase[0].price
  {
    assert (10.0 * (1.05 / 1.0)).Floor == 10;
  }

  /** A catch is worth at least its species' price: the size is never below minSize. */
  lemma ValueAtLeastPrice(fish: Species, size: real)
    requires 0.0 < fish.minSize <= size
    ensures CatchValue(fish, size) >= fish.price
  {
    var ratio := size / fish.minSize;
    assert ratio >= 1.0;
    assert fish.price as real * ratio >= fish.price as real * 1.0;
  }

  /** A catch of exactly minSize (draw r3 = 0) is worth exactly the price. */
  lemma ValueAtMinimum(fish: Species)
    requires fish.minSize > 0.0
    ensures CatchValue(fish, DrawSize(fish, 0.0)) == fish.price
  {
    assert DrawSize(fish, 0.0) == fish.minSize;
    assert DrawSize(fish, 0.0) / fish.minSize == 1.0;
  }

  /** For a fixed species the value does not decrease as the size grows. */
  lemma ValueMonotone(fish: Species, small: real, large: real)
    requires 0.0 < fish.minSize
    requires small <= large
    ensures CatchValue(fish, small) <= CatchValue(fish, large)
  {
    var p := fish.price as real;
    assert small / fish.minSize <= large / fish.minSize;
    assert p * (small / fish.minSize) <= p * (large / fish.minSize);
  }

  /** Rounding to tenths stays within the closed range when both ends are whole tenths. */
  lemma RoundedInRange(lo: real, hi: real, x: real)
    requires IsTenths(lo) && IsTenths(hi)
    requires lo <= x <= hi
    ensures lo <= RoundToTenth(x) <= hi
    ensures -0.05 < RoundToTenth(x) - x <= 0.05
  {
    var n := (x * 10.0 + 0.5).Floor;
    assert (lo * 10.0).Floor <= n;
    assert n <= (hi * 10.0).Floor;
    assert (lo * 10.0).Floor as real / 10.0 == lo;
    assert (hi * 10.0).Floor as real / 10.0 == hi;
  }

  /** Worked example: a 1.0-3.0 kg species priced 10 with r3 = 0.5 weighs 2.0 and is worth 20. */
  lemma CarpExample()
    ensures DrawSize(FishDatabase[0], 0.5) == 2.0
    ensures RoundToTenth(DrawSize(FishDatabase[0], 0.5)) == 2.0
    ensures CatchValue(FishDatabase[0], DrawSize(FishDatabase[0], 0.5)) == 20
  {
    assert (2.0 * 10.0 + 0.5).Floor == 20;
  }

  /** A catch the engine can produce: a catalog species, a size within its range, worth at least its price. */
  predicate WellFormedCatch(c: Catch) {
    c.fish in FishDatabase &&
    c.fish.minSize <= c.size <= c.fish.maxSize &&
    c.value >= c.fish.price
  }

  /** The species pool for draw `r1`. */
  function PoolFor(r1: real): (pool: seq<Species>)
    ensures |pool| >= 1
    ensures forall s :: s in pool ==> s in FishDatabase && s.rarity == PickRarity(RarityConfig, r1)
  {
    EveryRarityStocked(PickRarity(RarityConfig, r1));
    OfRarity(FishDatabase, PickRarity(RarityConfig, r1))
  }

  /** The species drawn by r1 (rarity) and r2 (position in the pool): a catalog species of the selected rarity. */
  function SpeciesFor(r1: real, r2: real): (fish: Species)
    requires 0.0 <= r2 < 1.0
    ensures fish in FishDatabase
    ensures fish.rarity == PickRarity(RarityConfig, r1)
  {
    var pool := PoolFor(r1);
    pool[PickIndex(r2, |pool|)]
  }

  /** Every member of a pool owns a draw r2 in [0, 1) that picks it: the start of its band. */
  lemma DrawPicking(pool: seq<Species>, fish: Species) returns (r2: real)
    requires fish in pool
    ensures 0.0 <= r2 < 1.0
    ensures pool[PickIndex(r2, |pool|)] == fish
  {
    var k :| 0 <= k < |pool| && pool[k] == fish;
    r2 := k as real / |pool| as real;
    BandStartPicks(|pool|, k);
  }

  /** Every catalog species of the class the walk selects is picked by some draw r2 in [0, 1). */
  lemma EverySpeciesPickable(r1: real, fish: Species)
    requires fish in FishDatabase && fish.rarity == PickRarity(RarityConfig, r1)
    ensures exists r2 :: 0.0 <= r2 < 1.0 && SpeciesFor(r1, r2) == fish
  {
    var r2 := DrawPicking(PoolFor(r1), fish);
    assert SpeciesFor(r1, r2) == fish;
  }

  /**
   * The catch of catalog species `fish` with size draw r3: the size rounded to
   * one decimal stays within the species' range and the value, taken from the
   * unrounded size, is at least the price.
   */
  function CatchOf(fish: Species, r3: real): (c: Catch)
    requires fish in FishDatabase
    requires 0.0 <= r3 < 1.0
    ensures c.fish == fish
    ensures WellFormedCatch(c)
  {
    CatalogSpeciesWellFormed(fish);
    var size := DrawSize(fish, r3);
    SizeInRange(fish, r3);
    ValueAtLeastPrice(fish, size);
    RoundedInRange(fish.minSize, fish.maxSize, size);
    Catch(fish, RoundToTenth(size), CatchValue(fish, size))
  }

  /** The catch produced by draws r1, r2, r3: a well-formed catch of the selected rarity. */
  function CatchFor(r1: real, r2: real, r3: real): (c: Catch)
    requires 0.0 <= r2 < 1.0
    requires 0.0 <= r3 < 1.0
    ensures WellFormedCatch(c)
    ensures c.fish.rarity == PickRarity(RarityConfig, r1)
  {
    CatchOf(SpeciesFor(r1, r2), r3)
  }

  /**
   * The reward engine run on draws r1, r2, r3: the rarity walk, the species
   * pick from the filtered pool, then size and value. It produces the catch
   * `CatchFor` describes.
   */
  method ResolveCatch(r1: real, r2: real, r3: real) returns (caught: Catch)
    requires 0.0 <= r2 < 1.0
    requires 0.0 <= r3 < 1.0
    ensures caught == CatchFor(r1, r2, r3)
  {
    var rarity := SelectRarity(RarityConfig, r1);
    var pool := OfRarity(FishDatabase, rarity);
    assert pool == PoolFor(r1);
    var fish := pool[PickIndex(r2, |pool|)];
    assert fish == SpeciesFor(r1, r2);
    caught := CatchOf(fish, r3);
  }
}
