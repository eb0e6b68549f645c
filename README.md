# Blast furnace refining model

A Dafny model of the blast furnace of `ship.go`, the one piece of the
space-cargo game that does real work. A `BlastFurnace` holds seven integer
counters: the feedstocks hematite (Fe2O3), magnetite (Fe3O4), coke, charcoal
and oxygen, and the running totals carbon dioxide and iron. `Refine` runs the
feedstocks through a fixed chain of reactions, each stage limited by `Min`:

1. carbon is extracted from coke (95% pure) and charcoal (75% pure);
2. 2C + O2 -> 2CO;
3. 3Fe2O3 + CO -> 2Fe3O4 + CO2;
4. Fe3O4 + CO -> 3FeO + CO2, drawing on stored and newly made magnetite;
5. FeO + CO -> Fe + CO2.

It then subtracts what was used from the stored feedstocks and adds the iron
and CO2 made to the running totals. Iron oxide and CO left over are thrown
away.

Everything is in `ship.dfy`, module `Ship`:

- `Counters` is the furnace's state as a value, `Reaction` what one pass of
  the chain computes (each stage's limiting factor, the amounts used and
  made, and the leftovers that are discarded).
- The stage functions `Carbon`, `CarbonMonoxideFactor`, `UsedCokeCarbon`,
  `MagnetiteFactor`, `IronOxideFactor` and `IronFactor` give each stage's
  extent from a snapshot. `Reactions` assembles them. `Step` is one whole
  call: the chain, then the commit. `Run` is `n` calls in a row. It is split
  with `RunAfterCall` only to keep the proofs about it cheap.
- The class `BlastFurnace` has the seven fields. Its method `Refine` is
  imperative, as in the source: it snapshots the feedstocks, updates the
  running CO and CO2 balances stage by stage, and overwrites the fields.
  Its contract is that the new state is `Step` of the old one, and that it
  keeps the counters non-negative and never lowers iron or CO2.

Purity conversions. The source writes `int64(float64(x)*0.95)`,
`int64(float64(x)*0.75)`, `int64(float64(y)/0.95)` and
`int64(float64(y)/0.75)`. The model uses the integer floors `x*95/100`,
`x*75/100`, `y*100/95` and `y*100/75`. This is an assumption: the two agree
for non-negative counters below 2^47. 0.75 is exact in binary. 0.95 is off by
less than 5e-17 relative, which below 2^47 is too little to carry a product
or quotient across an integer boundary. Above about 2^48 they can differ by
one unit: for 520709523054566 carbon, `int64(float64(y)/0.95)` gives
548115287425859, while `y*100/95` gives 548115287425858.

Two consequences of the code worth knowing:

- `remainingCarbon` is `carbon - usedCarbon` (ship.go:93), which is always
  at least the charcoal-derived carbon. So every call charges the whole
  charcoal stock, converted to carbon and back, even when no CO can form
  (`CharcoalAlwaysCharged`, `NoOxygen`, `CharcoalBurntWithoutOxygen`). With
  no usable carbon at all (`NoCarbon`), nothing changes.
- In a pass over 300 hematite, 100 coke and 100 oxygen, 94 carbon is
  charged back as 98 coke, which leaves 2 (`HematiteCokeOxygenTrace`).

## Model

| member | source | states |
|---|---|---|
| `Ship.Min` | ship.go:132-137 | the result is at most each argument and equal to one of them |
| `Ship.CokeCarbon` | ship.go:79 | the carbon taken from coke is the largest whole amount not above 95% of the coke |
| `Ship.CharcoalCarbon` | ship.go:80 | the carbon taken from charcoal is the largest whole amount not above 75% of the charcoal |
| `Ship.CokeFor` | ship.go:90 | the coke charged for some carbon is the largest whole mass whose 95% does not exceed that carbon |
| `Ship.CharcoalFor` | ship.go:94 | the charcoal charged for some carbon is the largest whole mass whose 75% does not exceed that carbon |
| `Ship.Reactions` | ship.go:79-116 | reference definition of the reaction chain on a snapshot, with no contract of its own; `Stoichiometry`, `CarbonMonoxideBudget`, `FactorsBounded`, `ConsumptionBounded` and `IronBounded` state its properties |
| `Ship.Step` | ship.go:69-130 | reference definition of one whole call with its commit, with no contract of its own; `Refine` is proved equal to it, and the step lemmas below state its properties |
| `Ship.BlastFurnace.constructor` | ship.go:51-65 | a furnace holds exactly the seven given counters |
| `Ship.BlastFurnace.Refine` | ship.go:69-130 | the new counters are `Step` of the old ones; non-negative counters stay non-negative; with non-negative feedstocks iron and CO2 do not decrease |
| `Ship.CokeRoundTrip` | ship.go:79-91 | coke converted to carbon and charged back as coke loses at most one unit and never exceeds the stock |
| `Ship.CharcoalRoundTrip` | ship.go:80-95 | the same for charcoal: at most one unit lost, never more than the stock |
| `Ship.CharcoalAlwaysCharged` | ship.go:89-94 | the charcoal used is always the whole stock converted to carbon and back, whatever the carbon demand |
| `Ship.CharcoalIndependent` | ship.go:89-94 | two snapshots with the same charcoal are charged the same charcoal, whatever their oxygen and coke |
| `Ship.FactorsBounded` | ship.go:84-116 | from non-negative feedstocks each stage's factor is non-negative and within its reactants; the three CO-consuming stages together use at most the CO made |
| `Ship.ConsumptionBounded` | ship.go:79-125 | every amount used is non-negative and at most its stock: oxygen at most 2·(oxygen/2), hematite at most 3·(hematite/3), coke at most the coke charged back for all its carbon, charcoal at most the charcoal, magnetite at most stored plus made |
| `Ship.Stoichiometry` | ship.go:84-122 | oxygen used is the CO made, 2·min(carbon/2, oxygen/2); hematite used is 3 times the magnetite factor min(hematite/3, CO); magnetite made is twice it; magnetite used is the wustite factor, at most stored plus made; stored magnetite becomes old + 2·magnetite factor − wustite factor |
| `Ship.CarbonMonoxideBudget` | ship.go:98-116 | the CO2 made is the sum of the three later factors; CO2 made plus CO discarded is exactly the CO made, so CO2 made is at most the oxygen used |
| `Ship.IronBounded` | ship.go:105-116 | iron made is non-negative, at most three times the wustite factor and at most the CO2 made; the discarded iron oxide is non-negative |
| `Ship.IronAtomsBalance` | ship.go:97-128 | iron atoms in hematite, magnetite and iron after a step equal those before minus the iron oxide thrown away |
| `Ship.StepPreservesNonNegative` | ship.go:118-129 | non-negative counters stay non-negative after a step |
| `Ship.OutputsMonotone` | ship.go:127-128 | iron and CO2 grow by exactly what the pass made and never decrease |
| `Ship.NoOxygen` | ship.go:84-98 | with fewer than two oxygen every counter is unchanged except charcoal, which loses its whole stock converted to carbon and back |
| `Ship.NoCarbon` | ship.go:79-99 | with no usable carbon no counter changes |
| `Ship.EmptyFurnaceUnchanged` | ship.go:79-129 | with all five feedstocks at zero no counter changes |
| `Ship.HematiteCokeOxygenTrace` | ship.go:79-129 | 300 hematite, 100 coke and 100 oxygen become 18 hematite, 188 magnetite, 2 coke, 6 oxygen, 94 CO2 and no iron |
| `Ship.CharcoalBurntWithoutOxygen` | ship.go:89-95 | 4 charcoal and nothing else: the charcoal is used up although no CO can form |
| `Ship.RunPreservesNonNegative` | ship.go:69-130 | after any number of calls from non-negative counters every counter is non-negative and iron and CO2 have not decreased |
| `Ship.StepFeedstocksNonIncreasing` | ship.go:119-125 | from non-negative feedstocks one call never raises the hematite, coke, charcoal or oxygen stock |
| `Ship.StepCarbonDioxideWithinOxygen` | ship.go:84-128 | one call adds no more CO2 than the oxygen it takes away |
| `Ship.StepIronAtomsNonIncreasing` | ship.go:97-128 | from non-negative feedstocks one call never raises the iron atoms held in hematite, magnetite and iron |
| `Ship.RunFeedstocksNonIncreasing` | ship.go:69-130 | over any number of calls from non-negative counters the hematite, coke, charcoal and oxygen stocks only fall |
| `Ship.RunCarbonDioxideWithinOxygen` | ship.go:69-130 | over any number of calls the CO2 accumulated is at most the oxygen consumed |
| `Ship.RunIronAtomsNonIncreasing` | ship.go:69-130 | over any number of calls no iron atom is created: 2·hematite + 3·magnetite + iron never rises |
| `Ship.RunEmptyFurnaceUnchanged` | ship.go:69-130 | an empty furnace is unchanged by any number of calls |

## Left out

- The mutex around the snapshot and the commit (ship.go:64, 71-77, 119-129). Locking serves concurrency. The model runs `Refine` as one sequential update whose snapshot equals the current fields. Two racing calls that snapshot the same state and both commit are not modelled.
- int64 overflow of the counters and running totals (ship.go:120-128): the model uses unbounded integers.
- Exact float64 rounding of the purity conversions (ship.go:79-80, 90, 94). The model uses integer floors, which match the code only for counters below 2^47, as stated above.
- Negative counters. Go's integer division and float-to-int conversion truncate toward zero, while the model's `/` floors; for coke = -1, Go's `int64(-0.95)` is 0 but `CokeCarbon(-1)` is -1. The model matches the code only on non-negative counters. Lemmas without that precondition (`CharcoalAlwaysCharged`, `Stoichiometry`, `CarbonMonoxideBudget`, `IronAtomsBalance`, `StepCarbonDioxideWithinOxygen`, and `Refine`'s first ensures) are facts about the model alone.
- The `Vessel` interface and the `Storage`, `Station`, `Ship` and `Cargo` types (ship.go:5-49). They are stubs without behaviour.
- orbit.go is not part of this model. It is a floating-point orbit simulation with rendering and keyboard input.
