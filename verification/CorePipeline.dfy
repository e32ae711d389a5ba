/**
 How a core shares its pipeline out: `Core::Core` and the peak branch of `Core::computeEnergy` spread the
 pipeline's area and power evenly over the five units of an out-of-order core or the four of an in-order one.
 */
module CorePipeline {
  import opened Power

  /** A unit's own area and peak power, if it exists. */
  datatype Unit = Unit(present: bool, area: real, power: Power)

  datatype Params = Params(
    outOfOrder: bool, numPipelines: nat, pipeArea: real, pipePower: Power,
    ifuDuty: real, lsuDuty: real, aluDuty: real,
    privateL2: bool, l2ClockRatio: real)
  {
    function Units(): real { if outOfOrder then 5.0 else 4.0 }
    /** What one unit gets of all pipelines. */
    function PerUnit(): real { numPipelines as real / Units() }
    function WholeArea(): real { pipeArea * numPipelines as real }
    function AreaShare(): real { WholeArea() / Units() }
  }

  function Even(p: Params, duty: real): Mask {
    Mask(Product(p.PerUnit(), duty), p.PerUnit(), p.PerUnit(), p.PerUnit())
  }

  const NO_MASK := Mask(0.0, 0.0, 0.0, 0.0)

  /** The mask a unit is given, none if it does not exist. */
  function UnitMask(u: Unit, p: Params, duty: real): Mask {
    if u.present then Even(p, duty) else NO_MASK
  }

  /** A unit with its part of the pipeline's power. */
  function Powered(u: Unit, p: Params, duty: real): Unit {
    if u.present then u.(power := Add(u.power, Scale(p.pipePower, Even(p, duty)))) else u
  }

  function OwnPower(u: Unit): Power { if u.present then u.power else ZERO }

  function OwnArea(u: Unit): real { if u.present then u.area else 0.0 }

  class Core {
    const params: Params
    var ifu: Unit
    var lsu: Unit
    var exu: Unit
    var mmu: Unit
    var rnu: Unit
    var undiffCore: Unit
    var l2cache: Unit
    var area: real
    var power: Power

    constructor (params: Params, ifu: Unit, lsu: Unit, exu: Unit, mmu: Unit, rnu: Unit, undiffCore: Unit, l2cache: Unit)
      ensures this.params == params && this.ifu == ifu && this.lsu == lsu && this.exu == exu && this.mmu == mmu
      ensures this.rnu == rnu && this.undiffCore == undiffCore && this.l2cache == l2cache
      ensures area == 0.0 && power == ZERO
    {
      this.params, this.ifu, this.lsu, this.exu, this.mmu := params, ifu, lsu, exu, mmu;
      this.rnu, this.undiffCore, this.l2cache := rnu, undiffCore, l2cache;
      area, power := 0.0, ZERO;
    }

    /** The number of units that receive a share. */
    function Sharers(): nat
      reads this
    {
      (if ifu.present then 1 else 0) + (if lsu.present then 1 else 0) + (if exu.present then 1 else 0)
      + (if mmu.present then 1 else 0) + (if params.outOfOrder && rnu.present then 1 else 0)
    }

    /** All units the core type has are there. */
    predicate Complete()
      reads this
    {
      ifu.present && lsu.present && exu.present && mmu.present && (params.outOfOrder ==> rnu.present)
    }

    /** The units' own areas, without any pipeline. */
    function OwnAreas(): real
      reads this
    {
      OwnArea(ifu) + OwnArea(lsu) + OwnArea(exu) + OwnArea(mmu)
      + (if params.outOfOrder then OwnArea(rnu) else 0.0) + OwnArea(undiffCore)
      + (if params.privateL2 then l2cache.area else 0.0)
    }

    /** Gives a unit its share and adds the unit to the core. */
    method GiveArea(u: Unit, share: real) returns (u': Unit)
      modifies this`area
      ensures u' == GrownUnit(u, share) && area == old(area) + OwnArea(u')
    {
      u' := u;
      if u.present {
        u' := u.(area := u.area + share);
        area := area + u'.area;
      }
    }

    method AddAreas()
      requires area == 0.0
      modifies this`area, this`ifu, this`lsu, this`exu, this`mmu, this`rnu
      ensures area == old(OwnAreas()) + Product(old(Sharers()) as real, params.AreaShare())
      ensures area == old(OwnAreas()) + params.pipeArea * params.numPipelines as real <==>
                old(Complete()) || params.pipeArea * params.numPipelines as real == 0.0
      ensures var x := params.AreaShare();
              && ifu == GrownUnit(old(ifu), x) && lsu == GrownUnit(old(lsu), x) && exu == GrownUnit(old(exu), x)
              && mmu == GrownUnit(old(mmu), x) && rnu == if params.outOfOrder then GrownUnit(old(rnu), x) else old(rnu)
    {
      hide Product, Params.AreaShare, Params.WholeArea, OwnArea, GrownUnit, Given, PowerMask;
      PipelineHeldOnce(this);
      WholeAreaMeans(params);
      var share := params.AreaShare();
      GivenSum(this, share);
      GrownArea(ifu, share);
      GrownArea(lsu, share);
      GrownArea(exu, share);
      GrownArea(mmu, share);
      GrownArea(rnu, share);
      if params.outOfOrder {
        rnu := GrownUnit(rnu, share);
      }
      ifu := GiveArea(ifu, share);
      lsu := GiveArea(lsu, share);
      exu := GiveArea(exu, share);
      mmu := GiveArea(mmu, share);
      area := area + (if params.outOfOrder then OwnArea(rnu) else 0.0);
      area := area + OwnArea(undiffCore);
      area := area + (if params.privateL2 then l2cache.area else 0.0);
    }

    /** The pipeline masks of all units, added up; the memory unit is half idle with the load-store unit. */
    function PowerMask(): Mask
      reads this
    {
      var m := if params.outOfOrder then UnitMask(rnu, params, 1.0) else NO_MASK;
      var m := AddMask(m, UnitMask(ifu, params, params.ifuDuty));
      var m := AddMask(m, UnitMask(lsu, params, params.lsuDuty));
      var m := AddMask(m, UnitMask(exu, params, params.aluDuty));
      AddMask(m, UnitMask(mmu, params, 0.5 + 0.5 * params.lsuDuty))
    }

    function L2Power(): Power
      reads this
    {
      if params.privateL2 then Scale(l2cache.power, Mask(params.l2ClockRatio, 1.0, 1.0, 1.0)) else ZERO
    }

    /** The units' own peak power, without any pipeline. */
    function OwnPowers(): Power
      reads this
    {
      var p := if params.outOfOrder then OwnPower(rnu) else ZERO;
      var p := Add(Add(Add(Add(p, OwnPower(ifu)), OwnPower(lsu)), OwnPower(exu)), OwnPower(mmu));
      Add(Add(p, undiffCore.power), L2Power())
    }

    /** Gives a unit its share of the pipeline's power and adds the unit to the core. */
    method GivePower(u: Unit, duty: real, ghost own: Power, ghost m: Mask) returns (u': Unit)
      requires power == Add(own, Scale(params.pipePower, m))
      modifies this`power
      ensures u' == Powered(u, params, duty)
      ensures power == Add(Add(own, OwnPower(u)), Scale(params.pipePower, AddMask(m, UnitMask(u, params, duty))))
    {
      hide Add, Scale, Even;
      u' := u;
      if u.present {
        u' := u.(power := Add(u.power, Scale(params.pipePower, Even(params, duty))));
        power := Add(power, u'.power);
        Regroup(own, u.power, Scale(params.pipePower, m), Scale(params.pipePower, Even(params, duty)));
        ScaleSplits(params.pipePower, m, Even(params, duty));
      } else {
        AddLaws(own, ZERO, ZERO);
        AddMaskNone(m);
      }
    }

    /** The peak power of a core: its units' own and the pipeline's, by the sum of the masks. */
    method AddPeakPower()
      requires power == ZERO
      modifies this`power, this`ifu, this`lsu, this`exu, this`mmu, this`rnu
      ensures power == Add(old(OwnPowers()), Scale(params.pipePower, old(PowerMask())))
      ensures var own, pipe := old(OwnPowers()).readOp, params.pipePower.readOp;
              && (power.readOp.leakage == own.leakage + Product(pipe.leakage, params.numPipelines as real) <==>
                    old(Complete()) || params.numPipelines == 0 || pipe.leakage == 0.0)
              && (power.readOp.gateLeakage == own.gateLeakage + Product(pipe.gateLeakage, params.numPipelines as real) <==>
                    old(Complete()) || params.numPipelines == 0 || pipe.gateLeakage == 0.0)
      ensures var p := params;
              && ifu == Powered(old(ifu), p, p.ifuDuty) && lsu == Powered(old(lsu), p, p.lsuDuty)
              && exu == Powered(old(exu), p, p.aluDuty) && mmu == Powered(old(mmu), p, 0.5 + 0.5 * p.lsuDuty)
              && rnu == if p.outOfOrder then Powered(old(rnu), p, 1.0) else old(rnu)
    {
      hide Add, Scale, Even, AddMask, UnitMask, OwnPower, Powered, Product;
      LeakageHeldOnce(this, OwnPowers());
      ghost var own, m := ZERO, NO_MASK;
      NoShare(params.pipePower);
      if params.outOfOrder {
        ghost var o, n := OwnPower(rnu), UnitMask(rnu, params, 1.0);
        rnu := GivePower(rnu, 1.0, own, m);
        AddLaws(o, ZERO, ZERO);
        AddMaskNone(n);
        own, m := o, n;
      }
      ghost var a := ifu;
      ifu := GivePower(ifu, params.ifuDuty, own, m);
      own, m := Add(own, OwnPower(a)), AddMask(m, UnitMask(a, params, params.ifuDuty));
      a := lsu;
      lsu := GivePower(lsu, params.lsuDuty, own, m);
      own, m := Add(own, OwnPower(a)), AddMask(m, UnitMask(a, params, params.lsuDuty));
      a := exu;
      exu := GivePower(exu, params.aluDuty, own, m);
      own, m := Add(own, OwnPower(a)), AddMask(m, UnitMask(a, params, params.aluDuty));
      a := mmu;
      mmu := GivePower(mmu, 0.5 + 0.5 * params.lsuDuty, own, m);
      own, m := Add(own, OwnPower(a)), AddMask(m, UnitMask(a, params, 0.5 + 0.5 * params.lsuDuty));
      power := Add(power, undiffCore.power);
      Swap(own, Scale(params.pipePower, m), undiffCore.power);
      power := Add(power, L2Power());
      Swap(Add(own, undiffCore.power), Scale(params.pipePower, m), L2Power());
    }
  }

  lemma Swap(a: Power, b: Power, c: Power)
    ensures Add(Add(a, b), c) == Add(Add(a, c), b)
  {
  }

  lemma Regroup(a: Power, b: Power, x: Power, y: Power)
    ensures Add(Add(a, x), Add(b, y)) == Add(Add(a, b), Add(x, y))
  {
  }

  lemma AddMaskNone(m: Mask)
    ensures AddMask(m, NO_MASK) == m && AddMask(NO_MASK, m) == m
  {
  }

  lemma NoShare(x: Power)
    ensures Scale(x, NO_MASK) == ZERO && Add(ZERO, ZERO) == ZERO
  {
  }

  function GrownUnit(u: Unit, share: real): Unit {
    if u.present then u.(area := u.area + share) else u
  }

  function Given(u: Unit, share: real): real { if u.present then share else 0.0 }

  lemma GrownArea(u: Unit, share: real)
    ensures OwnArea(GrownUnit(u, share)) == OwnArea(u) + Given(u, share)
  {
  }

  lemma GivenSum(c: Core, share: real)
    ensures Product(c.Sharers() as real, share) ==
            Given(c.ifu, share) + Given(c.lsu, share) + Given(c.exu, share) + Given(c.mmu, share)
            + (if c.params.outOfOrder then Given(c.rnu, share) else 0.0)
  {
    SmallMultiple(c.Sharers(), share);
    hide Product;
  }

  lemma SmallMultiple(n: nat, x: real)
    requires n <= 5
    ensures Product(n as real, x) ==
            if n == 0 then 0.0 else if n == 1 then x else if n == 2 then x + x else if n == 3 then x + x + x
            else if n == 4 then x + x + x + x else x + x + x + x + x
  {
  }

  /** The shares are the whole pipeline exactly when every unit is there, or there is nothing to share. */
  lemma SharedExactlyOnce(whole: real, sharers: nat, units: real)
    requires units > 0.0
    ensures Product(sharers as real, whole / units) == whole <==> sharers as real == units || whole == 0.0
  {
    var x := whole / units;
    assert x * units == whole;
    assert sharers as real * x - whole == (sharers as real - units) * x;
  }

  lemma MaskLeakage(c: Core)
    ensures var m := c.PowerMask(); var x := Product(c.Sharers() as real, c.params.PerUnit());
            m.leakage == x && m.gateLeakage == x && m.shortCircuit == x
  {
    hide Product, Given, UnitMask, Params.PerUnit, Core.Sharers;
    var p := c.params;
    GivenSum(c, p.PerUnit());
    MaskGiven(c.rnu, p, 1.0);
    MaskGiven(c.ifu, p, p.ifuDuty);
    MaskGiven(c.lsu, p, p.lsuDuty);
    MaskGiven(c.exu, p, p.aluDuty);
    MaskGiven(c.mmu, p, 0.5 + 0.5 * p.lsuDuty);
  }

  lemma MaskGiven(u: Unit, p: Params, duty: real)
    ensures var m := UnitMask(u, p, duty); var x := Given(u, p.PerUnit());
            m.leakage == x && m.gateLeakage == x && m.shortCircuit == x
    ensures Fraction(duty) ==> 0.0 <= UnitMask(u, p, duty).dynamic <= p.PerUnit()
  {
    hide Product;
    assert p.PerUnit() >= 0.0;
    if Fraction(duty) {
      PartOf(p.PerUnit(), duty);
    }
  }

  lemma CompleteMeans(c: Core)
    ensures c.Complete() <==> c.Sharers() as real == c.params.Units()
  {
  }

  /** A core's area and peak leakage hold the pipelines exactly once if and only if no unit is missing. */
  lemma PipelineHeldOnce(c: Core)
    ensures Product(c.Sharers() as real, c.params.AreaShare()) == c.params.WholeArea() <==>
              c.Complete() || c.params.WholeArea() == 0.0
    ensures c.PowerMask().leakage == c.params.numPipelines as real <==> c.Complete() || c.params.numPipelines == 0
  {
    hide Product, Core.PowerMask, Core.Sharers, Core.Complete, Params.WholeArea;
    CompleteMeans(c);
    MaskLeakage(c);
    SharedExactlyOnce(c.params.WholeArea(), c.Sharers(), c.params.Units());
    SharedExactlyOnce(c.params.numPipelines as real, c.Sharers(), c.params.Units());
  }

  lemma WholeAreaMeans(p: Params)
    ensures p.WholeArea() == p.pipeArea * p.numPipelines as real
  {
  }

  lemma SameProduct(x: real, y: real, z: real)
    ensures Product(x, y) == Product(x, z) <==> x == 0.0 || y == z
  {
    assert x * y - x * z == x * (y - z);
  }

  lemma LeakageHeldOnce(c: Core, own: Power)
    ensures var power, pipe := Add(own, Scale(c.params.pipePower, c.PowerMask())), c.params.pipePower.readOp;
            var n := c.params.numPipelines;
            && (power.readOp.leakage == own.readOp.leakage + Product(pipe.leakage, n as real) <==>
                  c.Complete() || n == 0 || pipe.leakage == 0.0)
            && (power.readOp.gateLeakage == own.readOp.gateLeakage + Product(pipe.gateLeakage, n as real) <==>
                  c.Complete() || n == 0 || pipe.gateLeakage == 0.0)
  {
    hide Product, Core.PowerMask, Core.Complete;
    var pipe, m, k := c.params.pipePower.readOp, c.PowerMask(), c.params.numPipelines as real;
    PipelineHeldOnce(c);
    MaskLeakage(c);
    SameProduct(pipe.leakage, m.leakage, k);
    SameProduct(pipe.gateLeakage, m.gateLeakage, k);
  }

  /**
   A complete core's dynamic share: of the five or four equal parts of all pipelines, fetch, load-store and
   execution get theirs by their duty cycles, memory management by the mean of one and the load-store unit's,
   renaming in full.
   */
  lemma DynamicShare(c: Core)
    requires c.Complete()
    ensures var p := c.params; var part := p.numPipelines as real / if p.outOfOrder then 5.0 else 4.0;
            c.PowerMask().dynamic == (if p.outOfOrder then part else 0.0) + Product(part, p.ifuDuty)
                                     + Product(part, p.lsuDuty) + Product(part, p.aluDuty)
                                     + Product(part, (1.0 + p.lsuDuty) / 2.0)
  {
    var p := c.params;
    ProductUnit(p.PerUnit());
    hide Product;
    assert 0.5 + 0.5 * p.lsuDuty == (1.0 + p.lsuDuty) / 2.0;
  }

  /** The second-level cache's energy is per cycle of its own clock; only its dynamic power depends on that. */
  lemma L2Clocked(c: Core)
    requires c.params.privateL2
    ensures c.L2Power().readOp == c.l2cache.power.readOp.(
              dynamic := Product(c.l2cache.power.readOp.dynamic, c.params.l2ClockRatio))
  {
  }

  ghost predicate Fraction(x: real) { 0.0 <= x <= 1.0 }

  /** With duty cycles between 0 and 1 no more than the pipelines' whole dynamic power is shared out. */
  lemma DynamicBounded(c: Core)
    requires Fraction(c.params.ifuDuty) && Fraction(c.params.lsuDuty) && Fraction(c.params.aluDuty)
    ensures 0.0 <= c.PowerMask().dynamic <= c.params.numPipelines as real
  {
    hide Product, UnitMask, Params.PerUnit, Given;
    var p := c.params;
    WholeIsAll(p);
    MaskGiven(c.rnu, p, 1.0);
    MaskGiven(c.ifu, p, p.ifuDuty);
    MaskGiven(c.lsu, p, p.lsuDuty);
    MaskGiven(c.exu, p, p.aluDuty);
    MaskGiven(c.mmu, p, 0.5 + 0.5 * p.lsuDuty);
  }

  lemma WholeIsAll(p: Params)
    ensures p.PerUnit() >= 0.0
    ensures p.numPipelines as real ==
            p.PerUnit() + p.PerUnit() + p.PerUnit() + p.PerUnit() + (if p.outOfOrder then p.PerUnit() else 0.0)
  {
  }

  lemma PartOf(x: real, duty: real)
    requires x >= 0.0 && Fraction(duty)
    ensures 0.0 <= Product(x, duty) <= x
  {
    assert x * duty <= x * 1.0;
  }
}
