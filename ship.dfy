/** A model of the blast furnace of ship.go: seven integer counters and the
    `Refine` step that runs coke, charcoal, oxygen, hematite and magnetite
    through a fixed chain of reactions, each stage limited by `Min`:

      carbon extraction   coke (95% carbon), charcoal (75% carbon)
      2 C + O2            -> 2 CO
      3 Fe2O3 + CO        -> 2 Fe3O4 + CO2
      Fe3O4 + CO          -> 3 FeO + CO2
      FeO + CO            -> Fe + CO2

    Iron oxide (FeO) and carbon monoxide left over at the end of a step are
    thrown away.  `Reactions` is the reaction chain on a snapshot, `Step` the
    whole update, and `BlastFurnace.Refine` the imperative method that
    overwrites the seven fields in place.
 */
module Ship {

  /** The smaller of two integers. */
  function Min(x: int, y: int): (r: int)
    ensures r <= x && r <= y
    ensures r == x || r == y
  {
    if x < y then x else y
  }

  // Purity conversions.  The source multiplies or divides by the float64
  // constants 0.95 and 0.75 and truncates toward zero; for non-negative
  // magnitudes below 2^47 that is the floor of the exact rational product
  // used here (above about 2^48 the float64 result can be one unit higher).  Go's integer `/` also truncates toward zero, which is
  // Dafny's `/` on the non-negative counters this model is about.

  /** Carbon extracted from `coke` units of coke (95% pure): the largest
      whole amount not above 95% of the coke. */
  function CokeCarbon(coke: int): (carbon: int)
    ensures 100 * carbon <= 95 * coke < 100 * (carbon + 1)
  {
    coke * 95 / 100
  }

  /** Coke mass charged for `carbon` units of coke-derived carbon: the
      largest whole mass whose 95% does not exceed the carbon. */
  function CokeFor(carbon: int): (coke: int)
    ensures 95 * coke <= 100 * carbon < 95 * (coke + 1)
  {
    carbon * 100 / 95
  }

  /** Carbon extracted from `charcoal` units of charcoal (75% pure): the
      largest whole amount not above 75% of the charcoal. */
  function CharcoalCarbon(charcoal: int): (carbon: int)
    ensures 100 * carbon <= 75 * charcoal < 100 * (carbon + 1)
  {
    charcoal * 75 / 100
  }

  /** Charcoal mass charged for `carbon` units of charcoal-derived carbon:
      the largest whole mass whose 75% does not exceed the carbon. */
  function CharcoalFor(carbon: int): (charcoal: int)
    ensures 75 * charcoal <= 100 * carbon < 75 * (charcoal + 1)
  {
    carbon * 100 / 75
  }

  /** The seven counters of a furnace: five feedstocks, two running totals. */
  datatype Counters = Counters(
    hematite: int,       // Fe2O3
    magnetite: int,      // Fe3O4
    coke: int,
    charcoal: int,
    oxygen: int,
    carbonDioxide: int,
    iron: int)

  predicate FeedstockNonNegative(c: Counters) {
    c.hematite >= 0 && c.magnetite >= 0 && c.coke >= 0 && c.charcoal >= 0 && c.oxygen >= 0
  }

  predicate NonNegative(c: Counters) {
    FeedstockNonNegative(c) && c.carbonDioxide >= 0 && c.iron >= 0
  }

  /** Everything one pass of the reaction chain computes from a snapshot:
      the limiting factor of each stage, what is used and produced, and the
      iron oxide and carbon monoxide that are left over and discarded. */
  datatype Reaction = Reaction(
    carbon: int,                // usable carbon from coke and charcoal
    carbonMonoxideFactor: int,  // extent of 2C + O2 -> 2CO
    usedOxygen: int,
    usedCoke: int,
    usedCharcoal: int,
    magnetiteFactor: int,       // extent of 3Fe2O3 + CO -> 2Fe3O4 + CO2
    usedHematite: int,
    producedMagnetite: int,
    ironOxideFactor: int,       // extent of Fe3O4 + CO -> 3FeO + CO2
    usedMagnetite: int,
    ironOxide: int,             // FeO produced
    iron: int,                  // extent of FeO + CO -> Fe + CO2
    carbonDioxide: int,
    leftoverCarbonMonoxide: int)

  /** The CO produced in a pass: two per unit of the first stage's factor. */
  function CarbonMonoxideMade(r: Reaction): int { 2 * r.carbonMonoxideFactor }

  /** The iron oxide made and not reduced to iron in a pass. */
  function LeftoverIronOxide(r: Reaction): int { r.ironOxide - r.iron }

  // The stages of the chain, each on a snapshot of the feedstocks.

  /** Usable carbon from coke and charcoal. */
  function Carbon(s: Counters): int {
    CokeCarbon(s.coke) + CharcoalCarbon(s.charcoal)
  }

  /** Extent of 2C + O2 -> 2CO: limited by carbon and by oxygen, in pairs. */
  function CarbonMonoxideFactor(s: Counters): int {
    Min(Carbon(s) / 2, s.oxygen / 2)
  }

  /** Coke-derived carbon burnt: coke is drawn on first. */
  function UsedCokeCarbon(s: Counters): int {
    Min(CokeCarbon(s.coke), 2 * CarbonMonoxideFactor(s))
  }

  /** Extent of 3Fe2O3 + CO -> 2Fe3O4 + CO2: limited by hematite, in
      threes, and by the CO made. */
  function MagnetiteFactor(s: Counters): int {
    Min(s.hematite / 3, 2 * CarbonMonoxideFactor(s))
  }

  /** Extent of Fe3O4 + CO -> 3FeO + CO2: limited by the stored and the
      newly made magnetite together, and by the CO still unused. */
  function IronOxideFactor(s: Counters): int {
    Min(2 * MagnetiteFactor(s) + s.magnetite, 2 * CarbonMonoxideFactor(s) - MagnetiteFactor(s))
  }

  /** Extent of FeO + CO -> Fe + CO2: limited by the iron oxide made and by
      the CO still unused. */
  function IronFactor(s: Counters): int {
    Min(3 * IronOxideFactor(s), 2 * CarbonMonoxideFactor(s) - MagnetiteFactor(s) - IronOxideFactor(s))
  }

  /** The reaction chain on a snapshot of the feedstocks (the running totals
      are not read). */
  function Reactions(s: Counters): Reaction {
    var coFactor, mFactor, oFactor, ironFactor :=
      CarbonMonoxideFactor(s), MagnetiteFactor(s), IronOxideFactor(s), IronFactor(s);
    Reaction(
      Carbon(s), coFactor, 2 * coFactor,
      CokeFor(UsedCokeCarbon(s)),
      CharcoalFor(Min(CharcoalCarbon(s.charcoal), Carbon(s) - UsedCokeCarbon(s))),
      mFactor, 3 * mFactor, 2 * mFactor,
      oFactor, oFactor, 3 * oFactor,
      ironFactor, mFactor + oFactor + ironFactor,
      2 * coFactor - mFactor - oFactor - ironFactor)
  }

  /** One call of `Refine`, with the snapshot equal to the current counters:
      the reaction chain, then the commit of what it used and produced. */
  function Step(c: Counters): Counters {
    var r := Reactions(c);
    Counters(
      c.hematite - r.usedHematite,
      c.magnetite + r.producedMagnetite - r.usedMagnetite,
      c.coke - r.usedCoke,
      c.charcoal - r.usedCharcoal,
      c.oxygen - r.usedOxygen,
      c.carbonDioxide + r.carbonDioxide,
      c.iron + r.iron)
  }

  /** `n` successive calls of `Refine`. */
  function Run(c: Counters, n: nat): Counters
    decreases n, 1
  {
    if n == 0 then c else RunAfterCall(c, n - 1)
  }

  /** One call of `Refine` from `c`, then `m` more.  Split from `Run` only
      to keep the proofs about repeated calls cheap: each unfolding of the
      pair then exposes a single `Step`. */
  function RunAfterCall(c: Counters, m: nat): Counters
    decreases m, 2
  {
    Run(Step(c), m)
  }

  class BlastFurnace {
    var hematite: int
    var magnetite: int
    var coke: int
    var charcoal: int
    var oxygen: int
    var carbonDioxide: int
    var iron: int

    /** The seven counters as a value. */
    function State(): Counters
      reads this
    {
      Counters(hematite, magnetite, coke, charcoal, oxygen, carbonDioxide, iron)
    }

    constructor (init: Counters)
      ensures State() == init
    {
      hematite, magnetite, coke, charcoal := init.hematite, init.magnetite, init.coke, init.charcoal;
      oxygen, carbonDioxide, iron := init.oxygen, init.carbonDioxide, init.iron;
    }

    /** Refines as much iron as the feedstocks allow, throwing away the
        iron oxide and carbon monoxide that are left over. */
    method Refine()
      modifies this
      ensures State() == Step(old(State()))
      ensures old(NonNegative(State())) ==> NonNegative(State())
      ensures old(FeedstockNonNegative(State())) ==>
                iron >= old(iron) && carbonDioxide >= old(carbonDioxide)
    {
      ghost var before := State();
      // snapshot of the feedstocks
      var snapHematite, snapMagnetite := hematite, magnetite;
      var snapCoke, snapCharcoal, snapOxygen := coke, charcoal, oxygen;

      var cokeCarbon := CokeCarbon(snapCoke);
      var charcoalCarbon := CharcoalCarbon(snapCharcoal);
      var carbon := cokeCarbon + charcoalCarbon;
      assert carbon == Carbon(before);

      // 2C + O2 -> 2CO
      var carbonMonoxideFactor := Min(carbon / 2, snapOxygen / 2);
      var carbonMonoxide := carbonMonoxideFactor * 2;
      var usedOxygen := carbonMonoxideFactor * 2;
      var usedCarbon := Min(cokeCarbon, carbonMonoxideFactor * 2);
      assert carbonMonoxideFactor == CarbonMonoxideFactor(before);
      assert usedCarbon == UsedCokeCarbon(before);
      var usedCoke := CokeFor(usedCarbon);
      var remainingCarbon := carbon - usedCarbon;
      var usedCharcoal := CharcoalFor(Min(charcoalCarbon, remainingCarbon));

      // 3Fe2O3 + CO -> 2Fe3O4 + CO2
      var magnetiteFactor := Min(snapHematite / 3, carbonMonoxide);
      assert magnetiteFactor == MagnetiteFactor(before);
      carbonMonoxide := carbonMonoxide - magnetiteFactor;
      var producedMagnetite := 2 * magnetiteFactor;
      var carbonDioxideMade := magnetiteFactor;
      var usedHematite := magnetiteFactor * 3;

      // Fe3O4 + CO -> 3FeO + CO2
      var ironOxideFactor := Min(producedMagnetite + snapMagnetite, carbonMonoxide);
      assert ironOxideFactor == IronOxideFactor(before);
      carbonMonoxide := carbonMonoxide - ironOxideFactor;
      var ironOxide := ironOxideFactor * 3;
      carbonDioxideMade := carbonDioxideMade + ironOxideFactor;
      var usedMagnetite := ironOxideFactor;

      // FeO + CO -> Fe + CO2
      var ironFactor := Min(ironOxide, carbonMonoxide);
      assert ironFactor == IronFactor(before);
      var ironMade := ironFactor;
      carbonDioxideMade := carbonDioxideMade + ironFactor;

      assert Reactions(before) == Reaction(
        carbon, carbonMonoxideFactor, usedOxygen, usedCoke, usedCharcoal,
        magnetiteFactor, usedHematite, producedMagnetite,
        ironOxideFactor, usedMagnetite, ironOxide,
        ironMade, carbonDioxideMade, carbonMonoxide - ironFactor);

      // commit
      hematite := hematite - usedHematite;
      magnetite := magnetite + producedMagnetite - usedMagnetite;
      coke := coke - usedCoke;
      charcoal := charcoal - usedCharcoal;
      oxygen := oxygen - usedOxygen;
      iron := iron + ironMade;
      carbonDioxide := carbonDioxide + carbonDioxideMade;

      assert State() == Step(before);
      assert NonNegative(before) ==> NonNegative(Step(before)) by {
        if NonNegative(before) { StepPreservesNonNegative(before); }
      }
      assert FeedstockNonNegative(before) ==>
          Step(before).iron >= before.iron && Step(before).carbonDioxide >= before.carbonDioxide by {
        if FeedstockNonNegative(before) { OutputsMonotone(before); }
      }
    }
  }

  // ---------------------------------------------------------------------
  // Purity conversions

  /** The coke charged for carbon is monotone in the carbon. */
  lemma {:induction false} CokeForMonotone(a: int, b: int)
    requires 0 <= a <= b
    ensures 0 <= CokeFor(a) <= CokeFor(b)
  {
  }

  /** Coke burnt to carbon and charged back loses at most one unit: the
      rounding loss the source flags on both conversions is bounded. */
  lemma {:induction false} CokeRoundTrip(coke: int)
    requires coke >= 0
    ensures coke - 1 <= CokeFor(CokeCarbon(coke)) <= coke
  {
    var y := CokeCarbon(coke);
    // 95 * coke and 100 * y are multiples of 5, so the remainder is at most 95
    var r := coke * 95 - y * 100;
    assert 0 <= r < 100;
    assert r == 5 * (coke * 19 - y * 20);
    assert y * 100 >= (coke - 1) * 95;
  }

  /** The same bound for charcoal. */
  lemma {:induction false} CharcoalRoundTrip(charcoal: int)
    requires charcoal >= 0
    ensures charcoal - 1 <= CharcoalFor(CharcoalCarbon(charcoal)) <= charcoal
  {
    var y := CharcoalCarbon(charcoal);
    // 75 * charcoal and 100 * y are multiples of 25, so the remainder is at most 75
    var r := charcoal * 75 - y * 100;
    assert 0 <= r < 100;
    assert r == 25 * (charcoal * 3 - y * 4);
    assert y * 100 >= (charcoal - 1) * 75;
  }

  // ---------------------------------------------------------------------
  // Properties of one pass

  /** The charcoal charged does not depend on the carbon demand: coke-derived
      carbon is taken first, and what is left of the carbon always covers all
      the charcoal-derived carbon, so every call charges the whole charcoal
      stock as converted to carbon and back, whatever oxygen and coke hold. */
  lemma CharcoalAlwaysCharged(s: Counters)
    ensures Reactions(s).usedCharcoal == CharcoalFor(CharcoalCarbon(s.charcoal))
  {
  }

  /** Hence two snapshots with the same charcoal are charged the same. */
  lemma CharcoalIndependent(s: Counters, t: Counters)
    requires s.charcoal == t.charcoal
    ensures Reactions(s).usedCharcoal == Reactions(t).usedCharcoal
  {
    CharcoalAlwaysCharged(s);
    CharcoalAlwaysCharged(t);
  }

  /** Every amount used or produced is non-negative and bounded by its stock. */
  lemma ConsumptionBounded(s: Counters)
    requires FeedstockNonNegative(s)
    ensures var r := Reactions(s);
      && 0 <= r.usedOxygen <= 2 * (s.oxygen / 2) <= s.oxygen
      && 0 <= r.usedHematite <= 3 * (s.hematite / 3) <= s.hematite
      && 0 <= r.usedCoke <= CokeFor(CokeCarbon(s.coke)) <= s.coke
      && 0 <= r.usedCharcoal <= s.charcoal
      && 0 <= r.usedMagnetite <= s.magnetite + r.producedMagnetite
      && 0 <= r.producedMagnetite && 0 <= r.iron && 0 <= r.carbonDioxide
  {
    FactorsBounded(s);
    CokeForMonotone(UsedCokeCarbon(s), CokeCarbon(s.coke));
    CokeRoundTrip(s.coke);
    CharcoalAlwaysCharged(s);
    CharcoalRoundTrip(s.charcoal);
  }

  /** From non-negative feedstocks every stage runs a non-negative extent,
      within what its reactants allow. */
  lemma FactorsBounded(s: Counters)
    requires FeedstockNonNegative(s)
    ensures 0 <= CarbonMonoxideFactor(s) <= s.oxygen / 2
    ensures 0 <= UsedCokeCarbon(s) <= CokeCarbon(s.coke)
    ensures 0 <= MagnetiteFactor(s) <= s.hematite / 3
    ensures MagnetiteFactor(s) <= 2 * CarbonMonoxideFactor(s)
    ensures 0 <= IronOxideFactor(s) <= 2 * MagnetiteFactor(s) + s.magnetite
    ensures MagnetiteFactor(s) + IronOxideFactor(s) <= 2 * CarbonMonoxideFactor(s)
    ensures 0 <= IronFactor(s) <= 3 * IronOxideFactor(s)
    ensures MagnetiteFactor(s) + IronOxideFactor(s) + IronFactor(s) <= 2 * CarbonMonoxideFactor(s)
  {
  }

  /** Stoichiometry of the stages: oxygen used is the CO made, hematite goes
      three to one into the magnetite stage, which makes two magnetite per
      unit, and each unit of the wustite stage takes one magnetite from the
      stored and new magnetite together and makes three iron oxide. */
  lemma Stoichiometry(s: Counters)
    ensures var r := Reactions(s);
      && r.carbonMonoxideFactor == Min(r.carbon / 2, s.oxygen / 2)
      && r.usedOxygen == CarbonMonoxideMade(r)
      && r.magnetiteFactor == Min(s.hematite / 3, CarbonMonoxideMade(r))
      && r.usedHematite == 3 * r.magnetiteFactor
      && r.producedMagnetite == 2 * r.magnetiteFactor
      && r.usedMagnetite == r.ironOxideFactor
      && r.ironOxideFactor <= s.magnetite + r.producedMagnetite
      && r.ironOxide == 3 * r.ironOxideFactor
      && Step(s).magnetite == s.magnetite + 2 * r.magnetiteFactor - r.ironOxideFactor
  {
  }

  /** The CO budget: each unit of CO2 uses one unit of CO, and the CO2 made
      plus the CO thrown away is exactly the CO made, which is the oxygen
      used. */
  lemma CarbonMonoxideBudget(s: Counters)
    ensures var r := Reactions(s);
      && r.carbonDioxide == r.magnetiteFactor + r.ironOxideFactor + r.iron
      && r.leftoverCarbonMonoxide >= 0
      && r.carbonDioxide + r.leftoverCarbonMonoxide == CarbonMonoxideMade(r)
      && r.carbonDioxide <= r.usedOxygen
  {
  }

  /** Iron is made only from iron oxide: at most three units per unit of the
      wustite stage, and never more than the CO2 made. */
  lemma IronBounded(s: Counters)
    requires FeedstockNonNegative(s)
    ensures var r := Reactions(s);
      && 0 <= r.iron <= 3 * r.ironOxideFactor
      && r.iron <= r.carbonDioxide
      && LeftoverIronOxide(r) >= 0
  {
  }

  /** Iron atoms (two per hematite, three per magnetite, one per iron) are
      conserved by a step except for the iron oxide thrown away: the leftover
      wustite is stored nowhere. */
  lemma IronAtomsBalance(c: Counters)
    ensures var d := Step(c); var r := Reactions(c);
      2 * d.hematite + 3 * d.magnetite + d.iron
        == 2 * c.hematite + 3 * c.magnetite + c.iron - LeftoverIronOxide(r)
  {
  }

  /** From non-negative counters a step leaves every counter non-negative. */
  lemma StepPreservesNonNegative(c: Counters)
    requires NonNegative(c)
    ensures NonNegative(Step(c))
  {
    ConsumptionBounded(c);
  }

  /** Iron and carbon dioxide never decrease, and grow by exactly what the
      reaction pass made. */
  lemma OutputsMonotone(c: Counters)
    requires FeedstockNonNegative(c)
    ensures Step(c).iron == c.iron + Reactions(c).iron >= c.iron
    ensures Step(c).carbonDioxide == c.carbonDioxide + Reactions(c).carbonDioxide >= c.carbonDioxide
  {
    ConsumptionBounded(c);
  }

  /** Without oxygen (fewer than two units) no CO is formed, so nothing
      changes except that the charcoal is still charged. */
  lemma NoOxygen(c: Counters)
    requires FeedstockNonNegative(c) && c.oxygen < 2
    ensures Step(c) == c.(charcoal := c.charcoal - CharcoalFor(CharcoalCarbon(c.charcoal)))
  {
    FactorsBounded(c);
    assert CarbonMonoxideFactor(c) == 0;
    assert MagnetiteFactor(c) == 0 && IronOxideFactor(c) == 0 && IronFactor(c) == 0;
    assert UsedCokeCarbon(c) == 0 && CokeFor(0) == 0;
    CharcoalAlwaysCharged(c);
  }

  /** Without usable carbon nothing changes at all. */
  lemma NoCarbon(c: Counters)
    requires FeedstockNonNegative(c) && Carbon(c) == 0
    ensures Step(c) == c
  {
    FactorsBounded(c);
    assert CarbonMonoxideFactor(c) == 0;
    assert MagnetiteFactor(c) == 0 && IronOxideFactor(c) == 0 && IronFactor(c) == 0;
    assert UsedCokeCarbon(c) == 0 && CokeFor(0) == 0;
    assert CharcoalCarbon(c.charcoal) == 0 && CharcoalFor(0) == 0;
    CharcoalAlwaysCharged(c);
  }

  /** With all five feedstocks at zero nothing changes. */
  lemma EmptyFurnaceUnchanged(c: Counters)
    requires c.hematite == 0 && c.magnetite == 0 && c.coke == 0 && c.charcoal == 0 && c.oxygen == 0
    ensures Step(c) == c
  {
    NoCarbon(c);
  }

  /** 300 hematite, 100 coke and 100 oxygen: 95 carbon, 47 units of the CO
      stage, 94 of the magnetite stage, which uses all the CO. */
  lemma HematiteCokeOxygenTrace()
    ensures Step(Counters(300, 0, 100, 0, 100, 0, 0)) == Counters(18, 188, 2, 0, 6, 94, 0)
  {
    assert CokeCarbon(100) == 95 && CharcoalCarbon(0) == 0;
    assert CokeFor(94) == 98 && CharcoalFor(0) == 0;
    var c := Counters(300, 0, 100, 0, 100, 0, 0);
    assert CarbonMonoxideFactor(c) == 47;
    assert UsedCokeCarbon(c) == 94;
    assert MagnetiteFactor(c) == 94;
    assert IronOxideFactor(c) == 0;
    assert IronFactor(c) == 0;
  }

  /** Charcoal is burnt even with no oxygen: 4 charcoal give 3 carbon, which
      is charged back as 4 charcoal. */
  lemma CharcoalBurntWithoutOxygen(c: Counters)
    requires c == Counters(0, 0, 0, 4, 0, 0, 0)
    ensures Step(c) == Counters(0, 0, 0, 0, 0, 0, 0)
  {
    assert CharcoalFor(CharcoalCarbon(4)) == 4;
    NoOxygen(c);
  }

  // ---------------------------------------------------------------------
  // Repeated calls

  /** After any number of calls every counter is still non-negative, and
      iron and carbon dioxide have not decreased. */
  lemma {:induction false} RunPreservesNonNegative(c: Counters, n: nat)
    requires NonNegative(c)
    ensures NonNegative(Run(c, n))
    ensures Run(c, n).iron >= c.iron && Run(c, n).carbonDioxide >= c.carbonDioxide
    decreases n
  {
    if n > 0 {
      var next := Step(c);
      StepPreservesNonNegative(c);
      OutputsMonotone(c);
      RunPreservesNonNegative(next, n - 1);
      assert Run(c, n) == Run(next, n - 1);
    }
  }

  /** Iron atoms bound in hematite (two each), magnetite (three each) and
      iron (one each). */
  function IronAtoms(c: Counters): int {
    2 * c.hematite + 3 * c.magnetite + c.iron
  }

  /** One call only draws down the hematite, coke, charcoal and oxygen
      stocks. */
  lemma StepFeedstocksNonIncreasing(c: Counters)
    requires FeedstockNonNegative(c)
    ensures var d := Step(c);
      d.hematite <= c.hematite && d.coke <= c.coke && d.charcoal <= c.charcoal && d.oxygen <= c.oxygen
  {
    ConsumptionBounded(c);
  }

  /** One call makes no more carbon dioxide than the oxygen it consumes. */
  lemma StepCarbonDioxideWithinOxygen(c: Counters)
    ensures Step(c).carbonDioxide - c.carbonDioxide <= c.oxygen - Step(c).oxygen
  {
    CarbonMonoxideBudget(c);
    Stoichiometry(c);
  }

  /** One call creates no iron atom. */
  lemma StepIronAtomsNonIncreasing(c: Counters)
    requires FeedstockNonNegative(c)
    ensures IronAtoms(Step(c)) <= IronAtoms(c)
  {
    IronAtomsBalance(c);
    IronBounded(c);
  }

  /** Repeated calls only ever draw down the hematite, coke, charcoal and
      oxygen stocks. */
  lemma {:induction false} RunFeedstocksNonIncreasing(c: Counters, n: nat)
    requires NonNegative(c)
    ensures var d := Run(c, n);
      d.hematite <= c.hematite && d.coke <= c.coke && d.charcoal <= c.charcoal && d.oxygen <= c.oxygen
    decreases n
  {
    if n > 0 {
      var next := Step(c);
      StepFeedstocksNonIncreasing(c);
      StepPreservesNonNegative(c);
      RunFeedstocksNonIncreasing(next, n - 1);
      assert Run(c, n) == Run(next, n - 1);
    }
  }

  /** Over any number of calls the carbon dioxide produced never exceeds
      the oxygen consumed: every CO2 comes from a CO, every CO from oxygen. */
  lemma {:induction false} RunCarbonDioxideWithinOxygen(c: Counters, n: nat)
    requires NonNegative(c)
    ensures Run(c, n).carbonDioxide - c.carbonDioxide <= c.oxygen - Run(c, n).oxygen
    decreases n
  {
    if n > 0 {
      var next := Step(c);
      StepCarbonDioxideWithinOxygen(c);
      StepPreservesNonNegative(c);
      RunCarbonDioxideWithinOxygen(next, n - 1);
      assert Run(c, n) == Run(next, n - 1);
    }
  }

  /** Over any number of calls no iron atom is created: those in hematite,
      magnetite and iron can only fall, by the iron oxide thrown away. */
  lemma {:induction false} RunIronAtomsNonIncreasing(c: Counters, n: nat)
    requires NonNegative(c)
    ensures IronAtoms(Run(c, n)) <= IronAtoms(c)
    decreases n
  {
    if n > 0 {
      var next := Step(c);
      StepIronAtomsNonIncreasing(c);
      StepPreservesNonNegative(c);
      RunIronAtomsNonIncreasing(next, n - 1);
      assert Run(c, n) == Run(next, n - 1);
    }
  }

  /** An empty furnace stays exactly as it is however often it is run. */
  lemma {:induction false} RunEmptyFurnaceUnchanged(c: Counters, n: nat)
    requires c.hematite == 0 && c.magnetite == 0 && c.coke == 0 && c.charcoal == 0 && c.oxygen == 0
    ensures Run(c, n) == c
    decreases n
  {
    if n > 0 {
      EmptyFurnaceUnchanged(c);
      RunEmptyFurnaceUnchanged(Step(c), n - 1);
      assert Run(c, n) == Run(Step(c), n - 1);
    }
  }
}
