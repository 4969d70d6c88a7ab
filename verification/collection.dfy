/**
 * The collection screen's derived figures over the catch history: whether a
 * species has been caught, the weight shown on its card, and the "collected"
 * count with its percentage.
 */
module Collection {
  import opened Options
  import opened Catalog
  import opened Reward

  /** Whether some catch in the history is of species `id` (the history's `some`). */
  function IsCaught(history: seq<Catch>, id: nat): (caught: bool)
    ensures caught <==> exists i :: 0 <= i < |history| && history[i].fish.id == id
  {
    if history == [] then false
    else history[0].fish.id == id || IsCaught(history[1..], id)
  }

  /** The earliest catch of species `id` in the history (the history's `find`). */
  function FirstCatch(history: seq<Catch>, id: nat): (found: Option<Catch>)
    ensures found.Some? <==> IsCaught(history, id)
    ensures found.Some? ==> found.value in history && found.value.fish.id == id
  {
    if history == [] then None
    else if history[0].fish.id == id then Some(history[0])
    else FirstCatch(history[1..], id)
  }

  /** The catch `FirstCatch` finds is the one at the first position holding that species. */
  lemma {:induction false} FirstCatchIsEarliest(history: seq<Catch>, id: nat, k: nat)
    requires k < |history| && history[k].fish.id == id
    requires forall j :: 0 <= j < k ==> history[j].fish.id != id
    ensures FirstCatch(history, id) == Some(history[k])
  {
    if k > 0 {
      FirstCatchIsEarliest(history[1..], id, k - 1);
    }
  }

  /** One card of the collection grid: locked, or the species with the weight of its first catch. */
  datatype Card = Locked | Revealed(fish: Species, size: real)

  /** The card the grid shows for catalog species `fish`. */
  function CardFor(history: seq<Catch>, fish: Species): (card: Card)
    ensures card.Revealed? <==> IsCaught(history, fish.id)
    ensures card.Revealed? ==> card.fish == fish && card.size == FirstCatch(history, fish.id).value.size
  {
    match FirstCatch(history, fish.id)
    case Some(c) => Revealed(fish, c.size)
    case None => Locked
  }

  /** JavaScript's `Math.round` on a real: the nearest integer, halves rounded up. */
  function JsRound(x: real): (n: int)
    ensures x - 0.5 < n as real <= x + 0.5
  {
    (x + 0.5).Floor
  }

  /** The "collected" figure as the screen computes it: the number of catches in the history. */
  function CollectedCount(history: seq<Catch>): nat {
    |history|
  }

  /** The collection percentage as the screen computes it: `round(count / 8 * 100)`. */
  function CollectionPercent(count: nat): int {
    JsRound(count as real / |FishDatabase| as real * 100.0)
  }

  /**
   * As written, the figure counts catches, not species: nine catches of the
   * first species show "9/8" collected and a progress of 113%.
   */
  lemma CollectedCountOvershoots()
    ensures var h := seq(9, _ => Catch(FishDatabase[0], 1.0, 10));
      CollectedCount(h) == 9 > |FishDatabase| && CollectionPercent(CollectedCount(h)) == 113
  {
    assert (9.0 / 8.0 * 100.0 + 0.5).Floor == 113;
  }

  /** The set of species ids in a sequence of species. */
  function IdsOf(fish: seq<Species>): (ids: set<nat>)
    ensures |ids| <= |fish|
    ensures forall i :: 0 <= i < |fish| ==> fish[i].id in ids
    ensures forall id :: id in ids ==> exists i :: 0 <= i < |fish| && fish[i].id == id
  {
    if fish == [] then {}
    else IdsOf(fish[..|fish| - 1]) + {fish[|fish| - 1].id}
  }

  /** The species of each catch, in history order. */
  function SpeciesOf(history: seq<Catch>): (fish: seq<Species>)
    ensures |fish| == |history|
    ensures forall i :: 0 <= i < |history| ==> fish[i] == history[i].fish
  {
    seq(|history|, i requires 0 <= i < |history| => history[i].fish)
  }

  /**
   * The intended "collected" figure: how many distinct catalog species occur in
   * the history. It never exceeds the catalog size nor the number of catches.
   */
  function DistinctCollected(history: seq<Catch>): (n: nat)
    ensures n <= |FishDatabase| && n <= |history|
  {
    var both := IdsOf(FishDatabase) * IdsOf(SpeciesOf(history));
    assert both <= IdsOf(FishDatabase) && both <= IdsOf(SpeciesOf(history));
    SubsetSmaller(both, IdsOf(FishDatabase));
    SubsetSmaller(both, IdsOf(SpeciesOf(history)));
    |both|
  }

  /** A subset is no larger than its superset. */
  lemma SubsetSmaller(a: set<nat>, b: set<nat>)
    requires a <= b
    ensures |a| <= |b|
  {
    assert b == a + (b - a);
  }

  /** A catalog species counts towards the intended figure exactly when it has been caught. */
  lemma DistinctCollectedCounts(history: seq<Catch>, fish: Species)
    requires fish in FishDatabase
    ensures fish.id in IdsOf(FishDatabase) * IdsOf(SpeciesOf(history)) <==> IsCaught(history, fish.id)
  {
    var k :| 0 <= k < |FishDatabase| && FishDatabase[k] == fish;
    assert FishDatabase[k].id in IdsOf(FishDatabase);
    if IsCaught(history, fish.id) {
      var i :| 0 <= i < |history| && history[i].fish.id == fish.id;
      assert SpeciesOf(history)[i].id == fish.id;
    }
  }

  /** With the intended figure the percentage never passes 100. */
  lemma DistinctPercentBounded(history: seq<Catch>)
    ensures 0 <= CollectionPercent(DistinctCollected(history)) <= 100
  {
    var n := DistinctCollected(history);
    assert n as real / 8.0 * 100.0 <= 100.0;
  }
}
