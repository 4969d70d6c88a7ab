/**
 * The static game catalog: the eight catchable species and the rarity
 * table with its selection rates. Both are read-only reference data.
 */
module Catalog {

  /** The four rarity classes, in the order the rarity table lists them. */
  datatype Rarity = Common | Uncommon | Rare | Legendary

  /** Fresh- or saltwater; informational only. */
  datatype Water = Freshwater | Saltwater

  /** One catalog species. Sizes are in kilograms, the price in gold. */
  datatype Species = Species(
    id: nat,
    name: string,
    water: Water,
    rarity: Rarity,
    minSize: real,
    maxSize: real,
    price: nat,
    emoji: string)

  /** The species catalog, in declaration order. */
  const FishDatabase: seq<Species> := [
    Species(1, "鲤鱼", Freshwater, Common, 1.0, 3.0, 10, "🐟"),
    Species(2, "黑鲈", Freshwater, Common, 0.8, 2.5, 15, "🐟"),
    Species(3, "鳜鱼", Freshwater, Uncommon, 0.5, 2.0, 25, "🐠"),
    Species(4, "鲶鱼", Freshwater, Uncommon, 1.5, 4.0, 20, "🐡"),
    Species(5, "海鲈", Saltwater, Rare, 2.0, 6.0, 50, "🦈"),
    Species(6, "金枪鱼", Saltwater, Rare, 5.0, 15.0, 100, "🐟"),
    Species(7, "鲨鱼", Saltwater, Legendary, 10.0, 30.0, 500, "🦈"),
    Species(8, "龙鱼", Freshwater, Legendary, 2.0, 8.0, 300, "🐉")
  ]

  /** One row of the rarity table: the class, its display name and its rate. */
  datatype RarityEntry = RarityEntry(rarity: Rarity, name: string, rate: real)

  /** The rarity table, in the order the selection walk visits it. */
  const RarityConfig: seq<RarityEntry> := [
    RarityEntry(Common, "普通", 0.5),
    RarityEntry(Uncommon, "稀有", 0.3),
    RarityEntry(Rare, "珍稀", 0.15),
    RarityEntry(Legendary, "传说", 0.05)
  ]

  /** True when `x` is a whole number of tenths (how the catalog writes sizes). */
  predicate IsTenths(x: real) {
    (x * 10.0).Floor as real == x * 10.0
  }

  /** A usable species: a positive, non-empty size range in tenths and a positive price. */
  predicate WellFormedSpecies(s: Species) {
    0.0 < s.minSize < s.maxSize && IsTenths(s.minSize) && IsTenths(s.maxSize) && s.price > 0
  }

  /** Every species is usable and no two species share an id. */
  predicate WellFormedCatalog(db: seq<Species>) {
    (forall i :: 0 <= i < |db| ==> WellFormedSpecies(db[i])) &&
    (forall i, j :: 0 <= i < j < |db| ==> db[i].id != db[j].id)
  }

  /** Sum of the rates of the first `k` rows of the table. */
  function CumulativeRate(table: seq<RarityEntry>, k: nat): real
    requires k <= |table|
  {
    if k == 0 then 0.0 else CumulativeRate(table, k - 1) + table[k - 1].rate
  }

  /**
   * The species of rarity `r`, in catalog order (the catalog's filter by
   * rarity). Exactly the species of `db` that have rarity `r` are kept.
   */
  function OfRarity(db: seq<Species>, r: Rarity): (pool: seq<Species>)
    ensures |pool| <= |db|
    ensures forall s :: s in pool ==> s in db && s.rarity == r
    ensures forall s :: s in db && s.rarity == r ==> s in pool
  {
    if db == [] then []
    else (if db[0].rarity == r then [db[0]] else []) + OfRarity(db[1..], r)
  }

  /** Every catalog species has a positive size range in whole tenths and a positive price. */
  lemma SpeciesAreWellFormed()
    ensures forall i :: 0 <= i < |FishDatabase| ==> WellFormedSpecies(FishDatabase[i])
  {
    forall i | 0 <= i < |FishDatabase|
      ensures WellFormedSpecies(FishDatabase[i])
    {
      var s := FishDatabase[i];
      assert (s.minSize * 10.0).Floor as real == s.minSize * 10.0;
      assert (s.maxSize * 10.0).Floor as real == s.maxSize * 10.0;
    }
  }

  /** Catalog ids are the positions 1 to 8, so they are distinct. */
  lemma IdsArePositions()
    ensures forall i :: 0 <= i < |FishDatabase| ==> FishDatabase[i].id == i + 1
  {
    forall i | 0 <= i < |FishDatabase|
      ensures FishDatabase[i].id == i + 1
    {
      assert i in {0, 1, 2, 3, 4, 5, 6, 7};
    }
  }

  /** The rates of the rarity table sum to one. */
  lemma RatesSumToOne()
    ensures CumulativeRate(RarityConfig, |RarityConfig|) == 1.0
  {
    assert CumulativeRate(RarityConfig, 2) == 0.8;
    assert CumulativeRate(RarityConfig, 3) == 0.95;
  }

  /** Any species taken from the catalog is usable. */
  lemma CatalogSpeciesWellFormed(s: Species)
    requires s in FishDatabase
    ensures WellFormedSpecies(s)
  {
    SpeciesAreWellFormed();
  }

  /** The catalog's configuration promises: usable species and distinct ids. */
  lemma CatalogIsWellFormed()
    ensures WellFormedCatalog(FishDatabase)
    ensures forall s :: s in FishDatabase ==> WellFormedSpecies(s)
  {
    SpeciesAreWellFormed();
    IdsArePositions();
  }

  /**
   * Filtering distributes over concatenation: the pool of `a + b` is the pool
   * of `a` followed by the pool of `b`, so the filter keeps the input's order.
   */
  lemma {:induction false} OfRarityAppend(a: seq<Species>, b: seq<Species>, r: Rarity)
    ensures OfRarity(a + b, r) == OfRarity(a, r) + OfRarity(b, r)
  {
    if a == [] {
      assert a + b == b;
    } else {
      assert (a + b)[1..] == a[1..] + b;
      OfRarityAppend(a[1..], b, r);
    }
  }

  /** A sequence with no species of rarity `r` has an empty pool. */
  lemma NoneOfRarity(db: seq<Species>, r: Rarity)
    requires forall i :: 0 <= i < |db| ==> db[i].rarity != r
    ensures OfRarity(db, r) == []
  {
    var pool := OfRarity(db, r);
    assert forall i :: 0 <= i < |pool| ==> pool[i] in pool;
  }

  /** A sequence whose species all have rarity `r` is its own pool. */
  lemma {:induction false} AllOfRarity(db: seq<Species>, r: Rarity)
    requires forall i :: 0 <= i < |db| ==> db[i].rarity == r
    ensures OfRarity(db, r) == db
  {
    if db != [] {
      AllOfRarity(db[1..], r);
    }
  }

  /**
   * When the species of rarity `r` form one contiguous run, the pool is that
   * run, in order.
   */
  lemma PoolOfRun(before: seq<Species>, run: seq<Species>, after: seq<Species>, r: Rarity)
    requires forall i :: 0 <= i < |before| ==> before[i].rarity != r
    requires forall i :: 0 <= i < |run| ==> run[i].rarity == r
    requires forall i :: 0 <= i < |after| ==> after[i].rarity != r
    ensures OfRarity(before + run + after, r) == run
  {
    OfRarityAppend(before + run, after, r);
    OfRarityAppend(before, run, r);
    NoneOfRarity(before, r);
    NoneOfRarity(after, r);
    AllOfRarity(run, r);
    assert [] + run + [] == run;
  }

  /** When the species of rarity `r` are exactly those at positions lo to hi - 1, the pool is that slice. */
  lemma PoolOfSlice(db: seq<Species>, lo: nat, hi: nat, r: Rarity)
    requires lo <= hi <= |db|
    requires forall i :: 0 <= i < |db| ==> (db[i].rarity == r <==> lo <= i < hi)
    ensures OfRarity(db, r) == db[lo..hi]
  {
    assert db == db[..lo] + db[lo..hi] + db[hi..];
    PoolOfRun(db[..lo], db[lo..hi], db[hi..], r);
  }

  /** The position of the first species of class `r` when each class holds two species. */
  function ClassStart(r: Rarity): nat {
    match r
    case Common => 0
    case Uncommon => 2
    case Rare => 4
    case Legendary => 6
  }

  /**
   * In an eight-species sequence laid out two per class in class order, the
   * pool of class `r` is its pair, in order.
   */
  lemma PairedPool(db: seq<Species>, r: Rarity)
    requires |db| == 8
    requires db[0].rarity == Common && db[1].rarity == Common
    requires db[2].rarity == Uncommon && db[3].rarity == Uncommon
    requires db[4].rarity == Rare && db[5].rarity == Rare
    requires db[6].rarity == Legendary && db[7].rarity == Legendary
    ensures OfRarity(db, r) == db[ClassStart(r)..ClassStart(r) + 2]
  {
    forall i | 0 <= i < |db|
      ensures db[i].rarity == r <==> ClassStart(r) <= i < ClassStart(r) + 2
    {
      if i == 0 {} else if i == 1 {} else if i == 2 {} else if i == 3 {}
      else if i == 4 {} else if i == 5 {} else if i == 6 {} else {}
    }
    PoolOfSlice(db, ClassStart(r), ClassStart(r) + 2, r);
  }

  /**
   * The catalog's pool of class `r` is that class's two species, in catalog
   * order: ids 1-2 are common, 3-4 uncommon, 5-6 rare and 7-8 legendary.
   */
  lemma CatalogPools(r: Rarity)
    ensures OfRarity(FishDatabase, r) == FishDatabase[ClassStart(r)..ClassStart(r) + 2]
  {
    PairedPool(FishDatabase, r);
  }

  /** Every rarity class has at least one species, so the filtered pool is never empty. */
  lemma EveryRarityStocked(r: Rarity)
    ensures |OfRarity(FishDatabase, r)| >= 1
  {
    var sample := match r
      case Common => FishDatabase[0]
      case Uncommon => FishDatabase[2]
      case Rare => FishDatabase[4]
      case Legendary => FishDatabase[6];
    assert sample in FishDatabase && sample.rarity == r;
  }
}
