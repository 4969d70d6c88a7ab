# Fishing reward engine and progression ledger

A Dafny model of the logic inside the single-screen fishing game `App.js`:

- the **catalog**: eight species, each with a rarity class, a size range, a price and a glyph, plus the rarity table with the rates 0.5 / 0.3 / 0.15 / 0.05;
- the **reward engine**: the cumulative rarity walk, the species pick from the filtered catalog, and the catch's size and gold value;
- the **progression ledger**: gold, experience and level after a catch, with the level-up bonus;
- the **fishing state machine**: the single-flight start guard, resolution and dismissal of the catch display;
- the **derived screen figures**: experience progress, "caught" flags, card weights, and the collection count with its percentage.

The three `Math.random()` draws are explicit parameters `r1`, `r2` and `r3`. Rates, sizes and ratios are exact Dafny `real`s. Integers are unbounded, and none of the source's integer expressions come near a width limit.

Modules, one per component:

| file | module | contents |
|---|---|---|
| `catalog.dfy` | `Catalog` | species, rarity table, well-formedness, filter by rarity |
| `reward.dfy` | `Reward` | rarity walk (`SelectRarity`, a loop), species/size/value functions, `ResolveCatch` |
| `progression.dfy` | `Progression` | `ApplyCatch`, level-up event and bonus, replay of a history |
| `collection.dfy` | `Collection` | `some`/`find` over the history, grid cards, collected count and percentage |
| `game.dfy` | `Game` | class `FishingGame`, whose fields the source keeps as component state |
| `options.dfy` | `Options` | `Option` datatype |

`FishingGame.Valid()` is the state invariant every event keeps:
- every recorded catch is a catalog species with a size inside its range and a value of at least its price;
- the player record equals `Replay` of the history's values from a new player (level 1, 0 experience, 100 gold), so replaying the same catches always gives the same ledger;
- the displayed catch is the latest one in the history;
- a catch is never on display while an attempt is in flight.

Edge cases of the code that the model keeps:
- The walk starts from `'common'` (App.js:79) and keeps it when no cumulative rate reaches the draw (`PickRarityFallback`). `RarityBands` shows that on this table every draw up to 1 reaches a row.
- The comparison is inclusive (`random <= accumulated`): a draw equal to a cumulative rate selects that row's class, so 0.5 is common and 0.95 is rare (`RarityExamples`).
- A catch of exactly `minSize` is worth exactly the price (`ValueAtMinimum`). The `floor` keeps the value at the price a little above `minSize` too: a 1.05 kg catch of the 1.0-3.0 kg species priced 10 is worth `floor(10.5) = 10` (`ValueFlatNearMinimum`).
- The level-up bonus is added one second after the resolution. The model adds it atomically, in the same event.

## Model

| member | source | states |
|---|---|---|
| `Catalog.FishDatabase` | App.js:8-17 | constant, no contract: the eight species with their exact data; `SpeciesAreWellFormed`, `IdsArePositions` and `CatalogPools` state its properties |
| `Catalog.RarityConfig` | App.js:19-24 | constant, no contract: the four classes in walk order with rates 0.5, 0.3, 0.15, 0.05; `RatesSumToOne` and `Reward.RarityBands` state its properties |
| `Catalog.OfRarity` | App.js:90 | the filtered pool holds exactly the species of the given rarity, each drawn from the catalog, and is no longer than the catalog |
| `Catalog.OfRarityAppend` | App.js:90 | filtering distributes over concatenation, so the pool keeps the input order |
| `Catalog.PoolOfRun` | App.js:90 | when the species of a class form one contiguous run, the pool is exactly that run, in order |
| `Catalog.CatalogPools` | App.js:8-17 | each class's pool is its two catalog species in catalog order: ids 1-2 common, 3-4 uncommon, 5-6 rare, 7-8 legendary |
| `Catalog.SpeciesAreWellFormed` | App.js:8-17 | every species has 0 < minSize < maxSize, both whole tenths, and a positive price |
| `Catalog.IdsArePositions` | App.js:8-17 | species ids are 1 to 8 in catalog order, hence distinct |
| `Catalog.CatalogSpeciesWellFormed` | App.js:8-17 | any species taken from the catalog is usable |
| `Catalog.CatalogIsWellFormed` | App.js:8-17 | the catalog is usable as a whole: usable species, pairwise distinct ids |
| `Catalog.RatesSumToOne` | App.js:19-24 | the four rates sum to exactly 1 |
| `Catalog.EveryRarityStocked` | App.js:8-17 | every rarity class has at least one species, so the filtered pool is never empty |
| `Reward.FirstReachingIndex` | App.js:81-86 | the result is the first row at or after `from` whose cumulative rate is `>= r1`, or the table length when none is |
| `Reward.PickRarity` | App.js:77-87 | no contract: the class of the first row whose cumulative rate reaches `r1`, else `Common`; `SelectRarity`, `PickRarityIsFirstReaching`, `PickRarityFallback` and `RarityBands` state its properties |
| `Reward.SelectRarity` | App.js:77-87 | the loop returns the rarity of the first row whose running total reaches `r1`, or `Common` when none does |
| `Reward.PickRarityIsFirstReaching` | App.js:81-86 | if row k is the first whose cumulative rate is `>= r1`, row k's class is selected |
| `Reward.PickRarityFallback` | App.js:79-87 | if no cumulative rate reaches `r1`, the selection stays `Common`, not the last class |
| `Reward.RarityBands` | App.js:77-87 | on the game's table, draws map to common (<= 0.5), uncommon (<= 0.8), rare (<= 0.95) and legendary, and for r1 <= 1 the walk always finds a row |
| `Reward.RarityExamples` | App.js:83 | 0.2 and 0.5 give common, 0.95 gives rare, 0.97 gives legendary |
| `Reward.PickIndex` | App.js:91 | for r2 in [0,1) and a non-empty pool, `floor(r2 * n)` is a valid index |
| `Reward.PickIndexBand` | App.js:91 | draw r2 picks index k exactly when k/n <= r2 < (k+1)/n: every index owns a band of width 1/n, so the pick is uniform |
| `Reward.BandStartPicks` | App.js:91 | the band start k/n is a draw in [0, 1) that picks index k |
| `Reward.DrawPicking` | App.js:91 | every member of a pool is picked by some draw in [0, 1) |
| `Reward.DrawSize` | App.js:94 | no contract: `minSize + r3 * (maxSize - minSize)`; `SizeInRange` states its range |
| `Reward.CatchValue` | App.js:95 | no contract: `floor(price * size / minSize)`; `ValueAtLeastPrice`, `ValueAtMinimum`, `ValueFlatNearMinimum` and `ValueMonotone` state its properties |
| `Reward.RoundToTenth` | App.js:99 | no contract: the size rounded to one decimal, halves up; `RoundedInRange` states its properties |
| `Reward.SizeInRange` | App.js:94 | for r3 in [0,1) the raw size lies in [minSize, maxSize), and is minSize at r3 = 0 |
| `Reward.ValueAtLeastPrice` | App.js:95 | a size of at least minSize is worth at least the price |
| `Reward.ValueAtMinimum` | App.js:94-95 | with r3 = 0 the value is exactly the price |
| `Reward.ValueFlatNearMinimum` | App.js:94-95 | the floor keeps the value at the price slightly above minSize: r3 = 0.025 gives 1.05 kg, worth 10 |
| `Reward.ValueMonotone` | App.js:95 | for a fixed species the value does not decrease as the size grows |
| `Reward.RoundedInRange` | App.js:99 | rounding to one decimal keeps a size within a range whose ends are whole tenths, moving it by at most 0.05 |
| `Reward.CarpExample` | App.js:94-99 | a 1.0-3.0 kg species priced 10 with r3 = 0.5 weighs 2.0 and is worth 20 |
| `Reward.PoolFor` | App.js:90 | the pool for draw r1 is non-empty and holds only catalog species of the selected rarity |
| `Reward.SpeciesFor` | App.js:90-91 | the picked species is a catalog species of the selected rarity |
| `Reward.EverySpeciesPickable` | App.js:90-91 | every catalog species of the class the walk selects is picked by some draw r2 in [0, 1) |
| `Reward.CatchOf` | App.js:94-102 | the catch keeps the species, its rounded size lies within the species' range, and its value is at least the price |
| `Reward.CatchFor` | App.js:76-102 | the catch for r1, r2, r3 is well formed and its species has the rarity the walk selects for r1 |
| `Reward.ResolveCatch` | App.js:76-102 | the engine as the source sequences it (the `SelectRarity` loop, then the filter, index, size and value steps, which are the same functions `CatchFor` uses) produces exactly `CatchFor(r1, r2, r3)`; what it adds is that the loop agrees with `PickRarity` |
| `Progression.ExperienceGain` | App.js:110 | the gain g for a value v is floor(v/5): 5g <= v < 5g + 5 |
| `Progression.LevelFor` | App.js:111 | the level L for experience e is floor(e/100) + 1: (L-1)*100 <= e < L*100 |
| `Progression.LevelUpEvent` | App.js:123 | no contract: the new level when it exceeds the old one, else none; `LevelUpPaysOnce` states its properties |
| `Progression.Bonus` | App.js:130-133 | no contract: ten gold per level of the new level, nothing without an event; `LevelUpPaysOnce` states its properties |
| `Progression.ApplyCatch` | App.js:110-118 | after a catch, level == floor(experience/100) + 1; experience never decreases; from a consistent record the level never decreases; gold grows by at least the value |
| `Progression.LevelUpPaysOnce` | App.js:123-133 | a level-up event is raised iff the new level exceeds the old one; it carries the new level; gold grows by the value plus one bonus of newLevel*10 exactly when it is raised |
| `Progression.FirstCatchExample` | App.js:110-118 | new player plus value 20: experience 4, level 1, gold 120, no level-up |
| `Progression.LevelUpExample` | App.js:110-133 | experience 96 plus value 30: experience 102, level 2, level-up to 2 with bonus 20 |
| `Progression.MultiLevelExample` | App.js:123-133 | a jump from level 1 to level 3 pays only the level-3 bonus of 30 |
| `Progression.ExperienceProgress` | App.js:168-170 | the displayed progress `experience % 100` lies in [0, 100) |
| `Progression.ProgressWithinLevel` | App.js:168 | with a consistent record, experience = (level - 1) * 100 + progress |
| `Progression.ReplayLedger` | App.js:110-120 | replaying a history gives experience equal to the total gain, level equal to total/100 + 1, and gold of at least 100 plus the total value |
| `Collection.IsCaught` | App.js:305 | a species counts as caught iff some history entry has its id |
| `Collection.FirstCatch` | App.js:306 | `find` returns a catch iff the species is caught, and the catch it returns is in the history and has that id |
| `Collection.FirstCatchIsEarliest` | App.js:306 | `find` returns the entry at the first position holding that id |
| `Collection.CardFor` | App.js:304-316 | a card is revealed iff the species is caught, and it then shows the weight of the first matching catch |
| `Collection.JsRound` | App.js:299 | `Math.round` gives the integer within half a unit, with halves rounded up |
| `Collection.CollectedCount` | App.js:296 | no contract: the "collected" figure as written, the number of catches; `CollectedCountOvershoots` states its behaviour |
| `Collection.CollectionPercent` | App.js:299 | no contract: `Math.round(count / 8 * 100)`; `CollectedCountOvershoots` and `DistinctPercentBounded` state its behaviour |
| `Collection.CollectedCountOvershoots` | App.js:296-299 | as written, nine catches of one species show "9/8" collected and 113% |
| `Collection.IdsOf` | App.js:296 | the id set of a species sequence has at most as many elements as the sequence and holds exactly its ids |
| `Collection.DistinctCollected` | App.js:296 | the intended collected count (distinct catalog species caught) is at most 8 and at most the number of catches |
| `Collection.DistinctCollectedCounts` | App.js:296-305 | a catalog species counts towards the intended figure iff it has been caught |
| `Collection.DistinctPercentBounded` | App.js:299 | with the intended count the percentage lies in [0, 100] |
| `Game.ReplayAppend` | App.js:113-120 | appending a catch to the history applies that catch to the replayed ledger |
| `Game.FishingGame.constructor` | App.js:28-39 | a new game is idle, shows nothing, has a new player (level 1, 0 experience, 100 gold) and an empty history |
| `Game.FishingGame.StartFishing` | App.js:55-61 | a start while fishing changes nothing; otherwise the game is fishing and the catch display is hidden; the ledger, history and current catch are unchanged |
| `Game.FishingGame.Resolve` | App.js:75-135 | exactly one catch, `CatchFor(r1, r2, r3)`, is appended and displayed; fishing ends; the ledger becomes `ApplyCatch` of the old one; the level-up event is raised iff the level rose; experience and level do not decrease; the invariant is kept |
| `Game.FishingGame.Record` | App.js:104-120 | records a well-formed catch: appends and displays it, ends the attempt, applies it to the ledger, keeps the invariant |
| `Game.FishingGame.Credit` | App.js:110-133 | the ledger becomes `ApplyCatch(old, value)`, the returned event is `LevelUpEvent(old, value)`, and nothing else changes |
| `Game.FishingGame.DismissCatch` | App.js:269 | the catch display is hidden and nothing else changes |
| `Game.FishingGame.Progress` | App.js:168-170 | the progress bar's value for the current player lies in [0, 100) |

## Left out

- Timers: the 1-second phase message, the randomised "biting" message, the per-second `fishingTimer`, and the random resolution delay (App.js:42-52, 60-72, 75, 137). Resolution is one discrete event, `Resolve`. It requires an attempt in flight, because the source schedules it only from a start.
- The "biting" message guard (App.js:69). It reads the `isFishing` value captured at start, so it is cosmetic and never fires.
- Phase message strings (`fishingMessage`), `Alert.alert`, `Modal` and all rendering, styles, navigation (`gameState`) and the shop (App.js:141-380, 383-748). The shop only chooses a button style from `gold >= price`.
- `diamonds`: never changed. Rarity colours: display only.
- `Math.random`: the draws are parameters. `r2` and `r3` are required to lie in [0, 1). `r1` is unconstrained.
- Floating point: all arithmetic is on exact reals. In JavaScript doubles the third cumulative rate is 0.9500000000000001, so the rare/legendary boundary shifts by about 1e-16. The double nearest 0.95 still selects rare.
- `toFixed(1)` is modelled as exact rounding to the nearest tenth, halves up (`RoundToTenth`). It does not reproduce binary-representation effects.
- The catch timestamp (`catchTime`, App.js:101): host clock.
- The one-second delay before the level-up bonus (App.js:124-134): the bonus is applied in the same event. The source computes the new experience and level from the `player` captured when the attempt started, and adds both gold amounts through `prev` (App.js:110-118, 130-133). A start within a second of a level-up captures gold from before the bonus, but that gold is never read. The bonus changes only gold, and no other event changes experience or level, so the captured experience and level equal those at resolution. The model reads the current record.

## Findings

| source | as written | input that shows it | evidently intended | confidence | as-written member | corrected member |
|---|---|---|---|---|---|---|
| App.js:296-299 | "collected N/8 species" and its percentage use `caughtFish.length`, the number of catches | nine catches of species 1 (鲤鱼): shows "9/8" and 113% | number of distinct catalog species caught (at most 8, at most 100%) | high, not executed | `Collection.CollectedCountOvershoots` | `Collection.DistinctCollected` |
