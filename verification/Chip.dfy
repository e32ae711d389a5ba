/**
 The chip-level aggregation of `Processor::Processor`: every group of components adds its area, peak and
 runtime power to a subtotal of its own and to the chip, either unit by unit or by one representative.
 */
module Chip {
  import opened Power

  /** What a component knows about itself; `perTime` is one over its execution time. */
  datatype Unit = Unit(area: real, power: Power, rtPower: Power, clockRate: real, perTime: real)

  datatype Tally = Tally(area: real, power: Power, rtPower: Power)

  const NOTHING := Tally(0.0, ZERO, ZERO)

  function Plus(a: Tally, b: Tally): Tally {
    Tally(a.area + b.area, Add(a.power, b.power), Add(a.rtPower, b.rtPower))
  }

  lemma PlusLaws(a: Tally, b: Tally, c: Tally)
    ensures Plus(Plus(a, b), c) == Plus(a, Plus(b, c)) && Plus(a, b) == Plus(b, a)
    ensures Plus(a, NOTHING) == a && Plus(NOTHING, a) == a
  {
    AddLaws(a.power, b.power, c.power);
    AddLaws(a.rtPower, b.rtPower, c.rtPower);
  }

  /** One unit of a heterogeneous group: energies per cycle and per run, turned into power. */
  function Share(u: Unit): Tally {
    Tally(u.area, Scale(u.power, Mask(u.clockRate, 1.0, 1.0, 1.0)), Scale(u.rtPower, Mask(u.perTime, 1.0, 1.0, 1.0)))
  }

  /** The mask of a quantity per cycle, for k units clocked at c. */
  function Times(c: real, k: real): Mask { Mask(Product(c, k), k, k, k) }

  /** The representative of n units.  Its runtime statistics are already those of all n. */
  function HomogeneousShare(u: Unit, n: nat): Tally {
    var k := n as real;
    Tally(Product(u.area, k), Scale(u.power, Times(u.clockRate, k)), Scale(u.rtPower, Mask(u.perTime, k, k, k)))
  }

  /** A unit's figures as they are, in which the first-level directories enter the chip's power. */
  function RawShare(u: Unit): Tally {
    Tally(u.area, u.power, u.rtPower)
  }

  datatype Group = Group(homogeneous: bool, number: nat, unit: nat -> Unit) {
    /** The number of instances built. */
    function Instances(): nat {
      if homogeneous then (if number == 0 then 0 else 1) else number
    }
  }

  function SumShares(g: Group, n: nat): Tally {
    if n == 0 then NOTHING else Plus(SumShares(g, n - 1), Share(g.unit(n - 1)))
  }

  function SumRaw(g: Group, n: nat): Tally {
    if n == 0 then NOTHING else Plus(SumRaw(g, n - 1), RawShare(g.unit(n - 1)))
  }

  function Subtotal(g: Group): Tally {
    if g.homogeneous then (if g.number == 0 then NOTHING else HomogeneousShare(g.unit(0), g.number))
    else SumShares(g, g.number)
  }

  /** What a group of first-level directories adds to the chip. */
  function DirectoryContribution(g: Group): Tally {
    if g.homogeneous then Subtotal(g) else SumRaw(g, g.number)
  }

  // ----- The shortcut for homogeneous groups -----

  /** k equal units, added up. */
  function Repeated(u: Unit, k: real): Tally {
    Tally(Product(u.area, k), Scale(u.power, Times(u.clockRate, k)), Scale(u.rtPower, Times(u.perTime, k)))
  }

  lemma {:induction false} RepeatedShare(g: Group, u: Unit, n: nat)
    requires forall i :: 0 <= i < n ==> g.unit(i) == u
    ensures SumShares(g, n) == Repeated(u, n as real)
  {
    if n == 0 {
      ScaleZero(u.power, u.clockRate);
      ScaleZero(u.rtPower, u.perTime);
      ProductUnit(u.area);
    } else {
      hide Share, Plus, Repeated;
      var m := (n - 1) as real;
      RepeatedShare(g, u, n - 1);
      assert SumShares(g, n - 1) == Repeated(u, m);
      assert g.unit(n - 1) == u;
      OneMoreShare(u, m, n as real);
    }
  }

  lemma OneMoreShare(u: Unit, m: real, k: real)
    requires k == m + 1.0
    ensures Plus(Repeated(u, m), Share(u)) == Repeated(u, k)
  {
    hide Scale, Add, Times, Product;
    OneMore(u.power, u.clockRate, m, k);
    OneMore(u.rtPower, u.perTime, m, k);
    Distribute(u.area, m, 1.0);
    ProductUnit(u.area);
  }

  lemma OneMore(x: Power, c: real, m: real, k: real)
    requires k == m + 1.0
    ensures Scale(x, Times(c, k)) == Add(Scale(x, Times(c, m)), Scale(x, Mask(c, 1.0, 1.0, 1.0)))
  {
    hide Scale, Add, Product;
    Distribute(c, m, 1.0);
    ProductUnit(c);
    assert AddMask(Times(c, m), Mask(c, 1.0, 1.0, 1.0)) == Times(c, k);
    ScaleSplits(x, Times(c, m), Mask(c, 1.0, 1.0, 1.0));
  }

  lemma ScaleZero(x: Power, c: real)
    ensures Scale(x, Times(c, 0.0)) == ZERO
  {
  }

  /**
   For n identical units the representative stands for the unit-by-unit loop in area and peak power.  In
   runtime power the loop's dynamic figures are n times the representative's, all others are the same.
   */
  lemma ShortcutRefinesLoop(unit: nat -> Unit, n: nat)
    requires forall i :: 0 <= i < n ==> unit(i) == unit(0)
    ensures var homo, hetero := Subtotal(Group(true, n, unit)), Subtotal(Group(false, n, unit));
            && homo.area == hetero.area && homo.power == hetero.power
            && hetero.rtPower == Scale(homo.rtPower, Mask(n as real, 1.0, 1.0, 1.0))
  {
    var u, k := unit(0), n as real;
    RepeatedShare(Group(false, n, unit), u, n);
    if n == 0 {
      ScaleZero(u.rtPower, u.perTime);
    } else {
      hide Scale, Product;
      ScaleTwice(u.rtPower, Mask(u.perTime, k, k, k), Mask(k, 1.0, 1.0, 1.0));
      ProductUnit(k);
    }
  }

  // ----- Controllers: one model instance stands for all -----

  /** A kind of controller; absent if any of its counts is zero. */
  datatype Controller = Controller(present: bool, number: nat, unit: Unit)

  function FlashShare(u: Unit, n: nat): Tally {
    var k := n as real;
    Tally(Product(u.area, k), Scale(u.power, Mask(k, k, k, k)), Scale(u.rtPower, Mask(k, k, k, k)))
  }

  /** Network and bus interfaces turn runtime energy into power by the clock, too. */
  function InterfaceShare(u: Unit, n: nat): Tally {
    var k := n as real;
    Tally(Product(u.area, k), Scale(u.power, Times(u.clockRate, k)), Scale(u.rtPower, Times(u.clockRate, k)))
  }

  /** Flash controllers' figures are powers already: n of them count as n unscaled units. */
  lemma {:induction false} FlashMeans(g: Group, u: Unit, n: nat)
    requires forall i :: 0 <= i < n ==> g.unit(i) == u
    ensures FlashShare(u, n) == SumRaw(g, n)
  {
    if n == 0 {
      ScaleNone(u.power);
      ScaleNone(u.rtPower);
      ProductUnit(u.area);
      hide Product, Scale;
    } else {
      FlashMeans(g, u, n - 1);
      RawOneMore(u, n - 1);
      hide FlashShare, Plus;
    }
  }

  lemma RawOneMore(u: Unit, n: nat)
    ensures Plus(FlashShare(u, n), RawShare(u)) == FlashShare(u, n + 1)
  {
    var k := n as real;
    var m, one := Mask(k, k, k, k), Mask(1.0, 1.0, 1.0, 1.0);
    ScaleSplits(u.power, m, one);
    ScaleSplits(u.rtPower, m, one);
    ScaleOne(u.power);
    ScaleOne(u.rtPower);
    Distribute(u.area, k, 1.0);
    ProductUnit(u.area);
    hide Product, Scale, Add;
    assert (n + 1) as real == k + 1.0 && AddMask(m, one) == Mask(k + 1.0, k + 1.0, k + 1.0, k + 1.0);
  }

  lemma ScaleOne(x: Power)
    ensures Scale(x, Mask(1.0, 1.0, 1.0, 1.0)) == x
  {
  }

  lemma ScaleNone(x: Power)
    ensures Scale(x, Mask(0.0, 0.0, 0.0, 0.0)) == ZERO
  {
  }

  /** Interfaces count as n heterogeneous units that turn runtime energy into power by their clock. */
  lemma InterfaceMeans(g: Group, u: Unit, n: nat)
    requires forall i :: 0 <= i < n ==> g.unit(i) == u.(perTime := u.clockRate)
    ensures InterfaceShare(u, n) == SumShares(g, n)
  {
    hide Product, Scale;
    RepeatedShare(g, u.(perTime := u.clockRate), n);
  }

  // ----- Networks on chip -----

  /** One network: what it is built from, with the wire's area and the energies as given functions. */
  datatype NocSpec = NocSpec(
    isRouter: bool, hasGlobalLink: bool, inputPorts: int, outputPorts: int, horizontal: nat, vertical: nat,
    coverage: real, routerArea: real, wireArea: real -> real, energy: real -> Unit)
  {
    function Nodes(): nat { horizontal * vertical }
    /** All ports but the local ones need links. */
    function LinkedPorts(): int { if isRouter then (inputPorts - 1) + (outputPorts - 1) else 1 }
    /** Needs the chip's side: a bus always does, a router for its global links. */
    predicate Wired() { !isRouter || hasGlobalLink }
    /** What any real network meets. */
    ghost predicate Sound() {
      coverage > 0.0 && routerArea >= 0.0 && LinkedPorts() >= 0 && forall l :: l > 0.0 ==> wireArea(l) >= 0.0
    }
    /** The length of one link on a chip of the given side; neighbours share links. */
    function LinkLength(side: real): real
      requires horizontal + vertical >= 2
    {
      var l := side / ((horizontal + vertical) / 2) as real;
      if Nodes() > 1 then l / 2.0 else l
    }
  }

  class Noc {
    const spec: NocSpec
    var area: real
    var linkPerRouter: real
    var linkLength: real

    constructor (spec: NocSpec, side: real)
      requires !spec.isRouter ==> spec.horizontal + spec.vertical >= 2
      ensures this.spec == spec
      ensures spec.isRouter ==>
                area == Product(spec.routerArea, spec.Nodes() as real) && linkPerRouter == 0.0 && linkLength == 0.0
      ensures !spec.isRouter ==>
                && linkLength == spec.LinkLength(side)
                && linkPerRouter == Product(spec.wireArea(linkLength), spec.LinkedPorts() as real)
                && area == Product(linkPerRouter, spec.Nodes() as real)
    {
      hide Product;
      this.spec := spec;
      area, linkPerRouter, linkLength := 0.0, 0.0, 0.0;
      new;
      if spec.isRouter {
        area := area + Product(spec.routerArea, spec.Nodes() as real);
      } else {
        InitLinkBus(side);
      }
    }

    /** Adds the links, in proportion to the chip's side, to this network's area. */
    method InitLinkBus(side: real)
      requires spec.horizontal + spec.vertical >= 2
      modifies this
      ensures linkLength == spec.LinkLength(side)
      ensures linkPerRouter ==
              old(linkPerRouter) + Product(spec.wireArea(spec.LinkLength(side)), spec.LinkedPorts() as real)
      ensures area == old(area) + Product(linkPerRouter, spec.Nodes() as real)
    {
      linkLength := spec.LinkLength(side);
      linkPerRouter := linkPerRouter + Product(spec.wireArea(linkLength), spec.LinkedPorts() as real);
      area := area + Product(linkPerRouter, spec.Nodes() as real);
    }
  }

  /** All that is asked of the square root. */
  ghost predicate Root(sqrt: real -> real) {
    forall x :: x > 0.0 ==> sqrt(x) > 0.0
  }

  lemma ProductSign(x: real, y: real)
    ensures x > 0.0 && y > 0.0 ==> Product(x, y) > 0.0
    ensures x >= 0.0 && y >= 0.0 ==> Product(x, y) >= 0.0
  {
  }

  lemma LengthPositive(spec: NocSpec, side: real)
    requires spec.horizontal + spec.vertical >= 2 && side > 0.0
    ensures spec.LinkLength(side) > 0.0
  {
    assert ((spec.horizontal + spec.vertical) / 2) as real >= 1.0;
  }

  /**
   The links of a row and of a column of nodes span the side between them: as many lengths as the mean number
   of nodes make up the side, or half of it where neighbours share their links.
   */
  lemma LinkLengthMeans(spec: NocSpec, side: real)
    requires spec.horizontal + spec.vertical >= 2
    ensures var mean := ((spec.horizontal + spec.vertical) / 2) as real; var l := spec.LinkLength(side);
            Product(l, mean) == if spec.horizontal * spec.vertical > 1 then side / 2.0 else side
  {
    var mean := ((spec.horizontal + spec.vertical) / 2) as real;
    assert mean >= 1.0;
    assert side / mean * mean == side;
  }

  /** A square mesh of n by n routers, n at least two, has links of the 2n-th part of the side. */
  lemma MeshLinks(spec: NocSpec, side: real, n: nat)
    requires spec.horizontal == n && spec.vertical == n && n >= 2
    ensures Product(spec.LinkLength(side), (2 * n) as real) == side && spec.Nodes() == n * n
  {
    assert n * n > 1;
    var l := side / n as real;
    assert l * n as real == side && (n + n) / 2 == n && spec.LinkLength(side) == l / 2.0;
    assert l / 2.0 * (2 * n) as real == l * n as real;
  }

  /** Of a router's ports, one input and one output are local. */
  lemma LinkedPortsMeans(spec: NocSpec)
    ensures spec.isRouter ==> spec.LinkedPorts() + 2 == spec.inputPorts + spec.outputPorts
    ensures !spec.isRouter ==> spec.LinkedPorts() == 1
  {
  }

  /** A sound network's wires take no negative area. */
  lemma LinksGrow(spec: NocSpec, side: real)
    requires spec.Sound() && spec.horizontal + spec.vertical >= 2 && side > 0.0
    ensures var per := Product(spec.wireArea(spec.LinkLength(side)), spec.LinkedPorts() as real);
            per >= 0.0 && Product(per, spec.Nodes() as real) >= 0.0
    ensures Wires(spec, side) >= 0.0
  {
    hide Product, NocSpec.LinkLength;
    LengthPositive(spec, side);
    var per := Product(spec.wireArea(spec.LinkLength(side)), spec.LinkedPorts() as real);
    ProductSign(spec.wireArea(spec.LinkLength(side)), spec.LinkedPorts() as real);
    ProductSign(per, spec.Nodes() as real);
  }

  datatype NocPlan = NocPlan(homogeneous: bool, number: nat, spec: nat -> NocSpec) {
    function Instances(): nat {
      if homogeneous then (if number == 0 then 0 else 1) else number
    }
    ghost predicate Valid() {
      forall i :: 0 <= i < Instances() && spec(i).Wired() ==> spec(i).horizontal + spec(i).vertical >= 2
    }
    ghost predicate Sound() {
      forall i :: 0 <= i < Instances() ==> spec(i).Sound()
    }
    /** Some network needs a side, and a chip of this area gives it none. */
    ghost predicate Stalled(sqrt: real -> real, area: real) {
      exists i :: 0 <= i < Instances() && spec(i).Wired() && !(sqrt(Product(area, spec(i).coverage)) > 0.0)
    }
    /** How often an instance counts. */
    function Weight(): real { if homogeneous then number as real else 1.0 }
  }

  function SumReals(xs: seq<real>): real {
    if xs == [] then 0.0 else SumReals(xs[..|xs| - 1]) + xs[|xs| - 1]
  }

  /** Each instance's own area, as often as it counts. */
  function Weighted(plan: NocPlan, areas: seq<real>): real { Product(SumReals(areas), plan.Weight()) }

  lemma WeightedAppend(plan: NocPlan, areas: seq<real>, x: real)
    ensures Weighted(plan, areas + [x]) == Weighted(plan, areas) + Product(x, plan.Weight())
    ensures Weighted(plan, []) == 0.0
  {
    var ys := areas + [x];
    assert ys[..|ys| - 1] == areas;
    DistributeLeft(SumReals(areas), x, plan.Weight());
    hide Product;
  }

  // ----- Where networks are laid -----

  /** The area of a network's wires on a chip of the given side. */
  function Wires(spec: NocSpec, side: real): real
    requires spec.horizontal + spec.vertical >= 2
  {
    Product(Product(spec.wireArea(spec.LinkLength(side)), spec.LinkedPorts() as real), spec.Nodes() as real)
  }

  /** A plan for the networks of a chip whose area without them is `start`. */
  datatype Site = Site(plan: NocPlan, sqrt: real -> real, start: real) {
    function Side(j: nat, area: real): real { sqrt(Product(area, plan.spec(j).coverage)) }

    /** The chip a bus is built on: the networks before it are there, none of the global links. */
    function BusSide(bases: seq<real>, j: nat): real
      requires j <= |bases|
    {
      Side(j, start + Weighted(plan, bases[..j]))
    }

    /** The chip global links are laid on: all routers and buses are there, and the links of the networks before. */
    function LinkSide(bases: seq<real>, links: seq<real>, j: nat): real
      requires j <= |links|
    {
      Side(j, start + Weighted(plan, bases) + Weighted(plan, links[..j]))
    }

    /** Routers by their nodes, buses by their wires. */
    ghost predicate BasesLaid(bases: seq<real>)
      requires plan.Valid()
    {
      && |bases| <= plan.Instances()
      && forall j :: 0 <= j < |bases| ==>
           var spec := plan.spec(j);
           bases[j] == if spec.isRouter then Product(spec.routerArea, spec.Nodes() as real)
                       else Wires(spec, BusSide(bases, j))
    }

    /** Routers that have global links get them, nothing else does. */
    ghost predicate LinksLaid(bases: seq<real>, links: seq<real>)
      requires plan.Valid()
    {
      && |links| <= plan.Instances()
      && forall j :: 0 <= j < |links| ==>
           var spec := plan.spec(j);
           links[j] == if spec.isRouter && spec.hasGlobalLink then Wires(spec, LinkSide(bases, links, j)) else 0.0
    }

    /** Network n is the j-th, without global links. */
    ghost predicate IsBase(n: Noc, bases: seq<real>, j: nat)
      requires plan.Valid() && j < |bases| <= plan.Instances()
      reads n
    {
      && n.spec == plan.spec(j) && n.area == bases[j]
      && (n.spec.isRouter ==> n.linkPerRouter == 0.0 && n.linkLength == 0.0)
      && (!n.spec.isRouter ==> n.linkLength == n.spec.LinkLength(BusSide(bases, j)))
    }

    /** Network n is the j-th, finished. */
    ghost predicate IsDone(n: Noc, bases: seq<real>, links: seq<real>, j: nat)
      requires plan.Valid() && j < |bases| <= plan.Instances() && j < |links|
      reads n
    {
      && n.spec == plan.spec(j) && n.area == bases[j] + links[j]
      && n.linkLength == if !n.spec.isRouter then n.spec.LinkLength(BusSide(bases, j))
                         else if n.spec.hasGlobalLink then n.spec.LinkLength(LinkSide(bases, links, j)) else 0.0
    }

    ghost predicate Built(nocs: seq<Noc>, bases: seq<real>)
      requires plan.Valid()
      reads nocs
    {
      && |nocs| == |bases| && BasesLaid(bases) && Different(nocs)
      && forall j :: 0 <= j < |nocs| ==> IsBase(nocs[j], bases, j)
    }

    /** The first networks have their links, the others not yet. */
    ghost predicate Linking(nocs: seq<Noc>, bases: seq<real>, links: seq<real>)
      requires plan.Valid()
      reads nocs
    {
      && |links| <= |nocs| == |bases| == plan.Instances() && BasesLaid(bases) && LinksLaid(bases, links) && Different(nocs)
      && (forall j :: 0 <= j < |links| ==> IsDone(nocs[j], bases, links, j))
      && (forall j :: |links| <= j < |nocs| ==> IsBase(nocs[j], bases, j))
    }

    /** All networks are as planned. */
    ghost predicate Finished(nocs: seq<Noc>, bases: seq<real>, links: seq<real>)
      requires plan.Valid()
      reads nocs
    {
      && |links| == |nocs| == |bases| == plan.Instances() && BasesLaid(bases) && LinksLaid(bases, links)
      && forall j :: 0 <= j < |nocs| ==> IsDone(nocs[j], bases, links, j)
    }
  }

  ghost predicate Different(nocs: seq<Noc>) {
    forall j, k :: 0 <= j < k < |nocs| ==> nocs[j] != nocs[k]
  }

  lemma NoneBuilt(site: Site)
    requires site.plan.Valid()
    ensures site.Built([], [])
  {
  }

  lemma {:induction false} OneMoreBase(site: Site, bases: seq<real>, x: real)
    requires site.plan.Valid() && site.BasesLaid(bases) && |bases| < site.plan.Instances()
    requires var spec := site.plan.spec(|bases|);
             x == if spec.isRouter then Product(spec.routerArea, spec.Nodes() as real)
                  else Wires(spec, site.BusSide(bases, |bases|))
    ensures site.BasesLaid(bases + [x])
  {
    hide Wires, Product, Weighted;
    var more := bases + [x];
    forall j | 0 <= j <= |bases| ensures more[..j] == bases[..j] { }
    assert forall j :: 0 <= j <= |bases| ==> site.BusSide(more, j) == site.BusSide(bases, j);
  }

  lemma OneMoreBuilt(site: Site, nocs: seq<Noc>, bases: seq<real>, n: Noc)
    requires site.plan.Valid() && site.Built(nocs, bases) && |nocs| < site.plan.Instances() && n !in nocs
    requires site.BasesLaid(bases + [n.area]) && site.IsBase(n, bases + [n.area], |bases|)
    ensures site.Built(nocs + [n], bases + [n.area])
  {
    hide Weighted, NocSpec.LinkLength, Site.BasesLaid;
    var all, more := nocs + [n], bases + [n.area];
    forall j | 0 <= j < |nocs| ensures all[j] == nocs[j] && nocs[j] in nocs && site.BusSide(more, j) == site.BusSide(bases, j) {
      assert more[..j] == bases[..j];
    }
    forall j | 0 <= j < |all| ensures site.IsBase(all[j], more, j) {
      if j < |nocs| {
        assert site.IsBase(nocs[j], bases, j);
      }
    }
  }

  lemma NoneLinked(site: Site, nocs: seq<Noc>, bases: seq<real>)
    requires site.plan.Valid() && site.Built(nocs, bases) && |nocs| == site.plan.Instances()
    ensures site.Linking(nocs, bases, [])
  {
    hide Site.BasesLaid, Site.IsBase;
  }

  lemma OneMoreLink(site: Site, bases: seq<real>, links: seq<real>, x: real)
    requires site.plan.Valid() && site.LinksLaid(bases, links) && |links| < site.plan.Instances()
    requires var spec := site.plan.spec(|links|);
             x == if spec.isRouter && spec.hasGlobalLink then Wires(spec, site.LinkSide(bases, links, |links|)) else 0.0
    ensures site.LinksLaid(bases, links + [x])
    ensures forall j :: 0 <= j <= |links| ==> site.LinkSide(bases, links + [x], j) == site.LinkSide(bases, links, j)
  {
    hide Wires, Weighted;
    var more := links + [x];
    forall j | 0 <= j <= |links| ensures more[..j] == links[..j] { }
    assert forall j :: 0 <= j <= |links| ==> site.LinkSide(bases, more, j) == site.LinkSide(bases, links, j);
  }

  lemma AllLinked(site: Site, nocs: seq<Noc>, bases: seq<real>, links: seq<real>)
    requires site.plan.Valid() && site.Linking(nocs, bases, links) && |links| == |nocs|
    ensures site.Finished(nocs, bases, links)
  {
    hide Site.BasesLaid, Site.LinksLaid, Site.IsDone, Site.IsBase;
  }

  /** The next network's links are there; the others are as they were. */
  lemma OneMoreLinked(site: Site, nocs: seq<Noc>, bases: seq<real>, links: seq<real>, x: real)
    requires site.plan.Valid() && |links| < |nocs| == |bases| == site.plan.Instances()
    requires site.BasesLaid(bases) && site.LinksLaid(bases, links + [x]) && Different(nocs)
    requires forall j :: 0 <= j <= |links| ==> site.LinkSide(bases, links + [x], j) == site.LinkSide(bases, links, j)
    requires forall j :: 0 <= j < |links| ==> site.IsDone(nocs[j], bases, links, j)
    requires site.IsDone(nocs[|links|], bases, links + [x], |links|)
    requires forall j :: |links| < j < |nocs| ==> site.IsBase(nocs[j], bases, j)
    ensures site.Linking(nocs, bases, links + [x])
  {
    hide Weighted, NocSpec.LinkLength, Site.BasesLaid, Site.LinksLaid, Site.BusSide, Site.LinkSide, Site.IsBase;
    forall j | 0 <= j < |links + [x]| ensures site.IsDone(nocs[j], bases, links + [x], j) {
      if j < |links| {
        assert site.IsDone(nocs[j], bases, links, j);
      }
    }
  }

  const NO_UNIT := Unit(0.0, ZERO, ZERO, 0.0, 0.0)

  /** The networks as a group of units with their energies. */
  function NocGroup(plan: NocPlan, us: seq<Unit>): Group {
    Group(plan.homogeneous, plan.number, i => if 0 <= i < |us| then us[i] else NO_UNIT)
  }

  ghost function Energies(nocs: seq<Noc>): (us: seq<Unit>)
    reads nocs
    ensures |us| == |nocs| && forall j :: 0 <= j < |us| ==> us[j] == nocs[j].spec.energy(nocs[j].linkLength)
  {
    if nocs == [] then []
    else
      var last := nocs[|nocs| - 1];
      Energies(nocs[..|nocs| - 1]) + [last.spec.energy(last.linkLength)]
  }

  /** What the first i networks have contributed. */
  function Gathered(g: Group, i: nat): Tally {
    if g.homogeneous then (if i == 0 then NOTHING else HomogeneousShare(g.unit(0), g.number)) else SumShares(g, i)
  }

  lemma GatherAll(plan: NocPlan, us: seq<Unit>)
    ensures var g := NocGroup(plan, us);
            Gathered(g, 0) == NOTHING && Gathered(g, plan.Instances()) == Subtotal(g)
  {
    hide HomogeneousShare, SumShares;
    var g := NocGroup(plan, us);
    assert Gathered(g, 0) == NOTHING by {
      assert SumShares(g, 0) == NOTHING by { NoShares(g); }
    }
  }

  lemma NoShares(g: Group)
    ensures SumShares(g, 0) == NOTHING
  {
  }

  lemma GatherNext(plan: NocPlan, us: seq<Unit>, i: nat)
    requires i < |us| && i < plan.Instances()
    ensures var g := NocGroup(plan, us);
            if plan.homogeneous then i == 0 && Gathered(g, 1) == HomogeneousShare(us[0], plan.number)
            else Gathered(g, i + 1) == Plus(Gathered(g, i), Share(us[i]))
  {
    hide HomogeneousShare, Plus, Share;
    assert NocGroup(plan, us).unit(i) == us[i];
  }

  /** Adds power only. */
  function PlusPower(a: Tally, b: Tally): Tally {
    a.(power := Add(a.power, b.power), rtPower := Add(a.rtPower, b.rtPower))
  }

  lemma PlusPowerLaws(a: Tally, b: Tally, c: Tally)
    ensures PlusPower(PlusPower(a, b), c) == PlusPower(a, Plus(b, c))
    ensures PlusPower(a, NOTHING) == a
    ensures b.power == ZERO && b.rtPower == ZERO ==> PlusPower(a, PlusPower(b, c)) == PlusPower(a, c)
  {
    AddLaws(a.power, b.power, c.power);
    AddLaws(a.rtPower, b.rtPower, c.rtPower);
    AddLaws(c.power, b.power, ZERO);
    AddLaws(c.rtPower, b.rtPower, ZERO);
    AddLaws(a.power, ZERO, ZERO);
    AddLaws(a.rtPower, ZERO, ZERO);
    hide Add;
  }

  lemma SideGiven(spec: NocSpec, sqrt: real -> real, area: real)
    requires spec.Sound() && Root(sqrt) && area > 0.0
    ensures sqrt(Product(area, spec.coverage)) > 0.0
  {
    hide Product;
    ProductSign(area, spec.coverage);
  }

  lemma NotLighter(x: real, plan: NocPlan)
    requires x >= 0.0
    ensures Product(x, plan.Weight()) >= 0.0
  {
  }

  lemma NewNocGrows(spec: NocSpec, side: real, area: real, plan: NocPlan)
    requires spec.Sound() && (!spec.isRouter ==> spec.horizontal + spec.vertical >= 2 && side > 0.0)
    requires area == if spec.isRouter then Product(spec.routerArea, spec.Nodes() as real)
                     else Product(Product(spec.wireArea(spec.LinkLength(side)), spec.LinkedPorts() as real),
                                  spec.Nodes() as real)
    ensures Product(area, plan.Weight()) >= 0.0
  {
    hide Product, NocSpec.LinkLength;
    if spec.isRouter {
      ProductSign(spec.routerArea, spec.Nodes() as real);
    } else {
      LinksGrow(spec, side);
    }
    NotLighter(area, plan);
  }

  /** A network just built has the area its place in the plan gives it. */
  lemma NewBase(site: Site, nocs: seq<Noc>, bases: seq<real>, n: Noc, side: real)
    requires site.plan.Valid() && site.Built(nocs, bases) && |nocs| < site.plan.Instances()
    requires n.spec == site.plan.spec(|bases|) && side == site.BusSide(bases, |bases|)
    requires n.spec.isRouter ==>
               n.area == Product(n.spec.routerArea, n.spec.Nodes() as real) && n.linkPerRouter == 0.0 && n.linkLength == 0.0
    requires !n.spec.isRouter ==>
               && n.spec.horizontal + n.spec.vertical >= 2 && n.linkLength == n.spec.LinkLength(side)
               && n.area == Product(Product(n.spec.wireArea(n.linkLength), n.spec.LinkedPorts() as real), n.spec.Nodes() as real)
    ensures site.BasesLaid(bases + [n.area]) && site.IsBase(n, bases + [n.area], |bases|)
  {
    hide Product, Weighted, NocSpec.LinkLength, NocSpec.Nodes, NocSpec.LinkedPorts;
    OneMoreBase(site, bases, n.area);
    assert (bases + [n.area])[..|bases|] == bases[..|bases|];
  }

  lemma NextUnlinked(site: Site, nocs: seq<Noc>, bases: seq<real>, links: seq<real>)
    requires site.plan.Valid() && site.Linking(nocs, bases, links) && |links| < |nocs|
    ensures nocs[|links|].spec == site.plan.spec(|links|)
  {
    assert site.IsBase(nocs[|links|], bases, |links|);
  }

  lemma NoLinkNeeded(site: Site, nocs: seq<Noc>, bases: seq<real>, links: seq<real>)
    requires site.plan.Valid() && site.Linking(nocs, bases, links) && |links| < |nocs|
    requires !(nocs[|links|].spec.isRouter && nocs[|links|].spec.hasGlobalLink)
    ensures site.Linking(nocs, bases, links + [0.0])
  {
    hide Product, Weighted, NocSpec.LinkLength, Site.BasesLaid, Site.LinksLaid, Site.BusSide, Site.LinkSide;
    assert site.IsBase(nocs[|links|], bases, |links|);
    OneMoreLink(site, bases, links, 0.0);
    OneMoreLinked(site, nocs, bases, links, 0.0);
  }

  lemma NoWeight(plan: NocPlan)
    ensures Product(0.0, plan.Weight()) == 0.0
  {
  }

  lemma AreaThenPower(start: Tally, a: real, t: Tally)
    ensures PlusPower(start.(area := start.area + a), t) == Plus(start, PlusPower(NOTHING.(area := a), t))
  {
    AddLaws(t.power, ZERO, ZERO);
    AddLaws(t.rtPower, ZERO, ZERO);
    hide Add;
  }

  datatype Plan = Plan(
    cores: Group, l2s: Group, l3s: Group, l1Dirs: Group, l2Dirs: Group, privateL2: bool,
    mc: Controller, flash: Controller, niu: Controller, pcie: Controller, nocs: NocPlan)
  {
    predicate Mismatched() { privateL2 && cores.Instances() != l2s.Instances() }
    /** The chip without its networks. */
    function BeforeNocs(): Tally {
      var units := Plus(Plus(Plus(Subtotal(cores), if privateL2 then NOTHING else Subtotal(l2s)), Subtotal(l3s)),
                        Subtotal(l2Dirs));
      Plus(Plus(Plus(Plus(Plus(units, DirectoryContribution(l1Dirs)), McShare(mc)), FlashControllerShare(flash)),
                IoShare(niu)), IoShare(pcie))
    }
  }

  /** A controller that is absent contributes nothing. */
  function IfPresent(c: Controller, share: Tally): Tally {
    if c.present then share else NOTHING
  }

  function McShare(c: Controller): Tally { IfPresent(c, HomogeneousShare(c.unit, c.number)) }
  function FlashControllerShare(c: Controller): Tally { IfPresent(c, FlashShare(c.unit, c.number)) }
  function IoShare(c: Controller): Tally { IfPresent(c, InterfaceShare(c.unit, c.number)) }

  class Processor {
    var total: Tally
    var core: Tally
    var l2: Tally
    var l3: Tally
    var l1dir: Tally
    var l2dir: Tally
    var mcs: Tally
    var flashcontrollers: Tally
    var nius: Tally
    var pcies: Tally
    var noc: Tally
    var nocs: seq<Noc>

    constructor ()
      ensures total == core == l2 == l3 == l1dir == l2dir == NOTHING
      ensures mcs == flashcontrollers == nius == pcies == noc == NOTHING && nocs == []
    {
      total, core, l2, l3, l1dir, l2dir := NOTHING, NOTHING, NOTHING, NOTHING, NOTHING, NOTHING;
      mcs, flashcontrollers, nius, pcies, noc, nocs := NOTHING, NOTHING, NOTHING, NOTHING, NOTHING, [];
    }

    /** One group's loop.  With `raw` set, units enter the chip's power without being scaled. */
    method AddGroup(g: Group, raw: bool) returns (group: Tally)
      modifies this`total
      ensures group == Subtotal(g)
      ensures total == Plus(old(total), if raw then DirectoryContribution(g) else Subtotal(g))
    {
      hide Plus, Share, RawShare, HomogeneousShare;
      group := NOTHING;
      var i := 0;
      PlusLaws(total, NOTHING, NOTHING);
      while i < g.Instances()
        invariant 0 <= i <= g.Instances()
        invariant g.homogeneous ==> group == if i == 0 then NOTHING else HomogeneousShare(g.unit(0), g.number)
        invariant !g.homogeneous ==> group == SumShares(g, i)
        invariant total == Plus(old(total), if raw && !g.homogeneous then SumRaw(g, i) else group)
      {
        var u := g.unit(i);
        if g.homogeneous {
          PlusLaws(HomogeneousShare(u, g.number), NOTHING, NOTHING);
          PlusLaws(old(total), NOTHING, NOTHING);
          group := Plus(group, HomogeneousShare(u, g.number));
          total := Plus(total, group);
        } else {
          PlusLaws(old(total), group, Share(u));
          PlusLaws(old(total), SumRaw(g, i), RawShare(u));
          group := Plus(group, Share(u));
          total := Plus(total, if raw then RawShare(u) else Share(u));
        }
        i := i + 1;
      }
    }
  
    /** The area of a newly built network enters the subtotal and, through it, the chip. */
    method TallyArea(plan: NocPlan, x: real)
      requires plan.homogeneous ==> noc.area == 0.0
      modifies this`total, this`noc
      ensures noc == old(noc).(area := old(noc).area + Product(x, plan.Weight()))
      ensures total == old(total).(area := old(total).area + Product(x, plan.Weight()))
    {
      if plan.homogeneous {
        noc := noc.(area := noc.area + Product(x, plan.number as real));
        total := total.(area := total.area + noc.area);
      } else {
        ProductUnit(x);
        noc := noc.(area := noc.area + x);
        total := total.(area := total.area + x);
      }
    }

    /** The area of later links enters both. */
    method TallyLinks(plan: NocPlan, x: real)
      modifies this`total, this`noc
      ensures noc == old(noc).(area := old(noc).area + Product(x, plan.Weight()))
      ensures total == old(total).(area := old(total).area + Product(x, plan.Weight()))
    {
      if plan.homogeneous {
        noc := noc.(area := noc.area + Product(x, plan.number as real));
        total := total.(area := total.area + Product(x, plan.number as real));
      } else {
        ProductUnit(x);
        noc := noc.(area := noc.area + x);
        total := total.(area := total.area + x);
      }
    }

    /** The routers' and buses' areas; a bus is as long as the chip so far.  Fails where the source asserts. */
    method AddNocAreas(plan: NocPlan, sqrt: real -> real) returns (ok: bool, ghost bases: seq<real>)
      requires plan.Valid() && noc == NOTHING && nocs == []
      modifies this`total, this`noc, this`nocs
      ensures noc == NOTHING.(area := Weighted(plan, bases))
      ensures total == old(total).(area := old(total).area + Weighted(plan, bases))
      ensures Site(plan, sqrt, old(total).area).Built(nocs, bases) && fresh(set n | n in nocs)
      ensures ok ==> |nocs| == plan.Instances()
      ensures !ok ==> plan.Stalled(sqrt, total.area)
      ensures old(total).area > 0.0 && Root(sqrt) && plan.Sound() ==> ok && total.area > 0.0
    {
      hide Product, Weighted, NocSpec.LinkLength, NocSpec.Nodes, NocSpec.LinkedPorts, NocSpec.Sound, Root, Wires;
      hide NocPlan.Weight, Site.Built, Site.BasesLaid;
      ghost var sound := old(total).area > 0.0 && Root(sqrt) && plan.Sound();
      ghost var site := Site(plan, sqrt, old(total).area);
      bases := [];
      NoneBuilt(site);
      WeightedAppend(plan, [], 0.0);
      var i := 0;
      while i < plan.Instances()
        invariant 0 <= i == |nocs| == |bases| <= plan.Instances()
        invariant noc == NOTHING.(area := Weighted(plan, bases))
        invariant total == old(total).(area := old(total).area + Weighted(plan, bases))
        invariant site.Built(nocs, bases) && fresh(set n | n in nocs)
        invariant sound ==> total.area > 0.0
      {
        var spec := plan.spec(i);
        var side := sqrt(Product(total.area, spec.coverage));
        assert bases[..i] == bases && side == site.BusSide(bases, i);
        if sound {
          SideGiven(spec, sqrt, total.area);
        }
        if !spec.isRouter && !(side > 0.0) {
          return false, bases;
        }
        var n := new Noc(spec, side);
        if sound {
          NewNocGrows(spec, side, n.area, plan);
        }
        NewBase(site, nocs, bases, n, side);
        OneMoreBuilt(site, nocs, bases, n);
        nocs := nocs + [n];
        WeightedAppend(plan, bases, n.area);
        TallyArea(plan, n.area);
        bases := bases + [n.area];
        i := i + 1;
      }
      ok := true;
    }

    /** Lays the i-th network's global links, if it is a router that has any. */
    method LinkUp(ghost site: Site, ghost bases: seq<real>, ghost links: seq<real>, i: nat, side: real)
      returns (x: real)
      requires site.plan.Valid() && site.Linking(nocs, bases, links) && i == |links| < |nocs|
      requires nocs[i].spec.isRouter && nocs[i].spec.hasGlobalLink && side == site.LinkSide(bases, links, i)
      modifies nocs[i]
      ensures site.Linking(nocs, bases, links + [x]) && x == Wires(site.plan.spec(i), side)
    {
      hide Product, Weighted, NocSpec.LinkLength, NocSpec.Nodes, NocSpec.LinkedPorts;
      hide Site.BasesLaid, Site.LinksLaid, Site.BusSide, Site.LinkSide;
      var n := nocs[i];
      assert site.IsBase(n, bases, i);
      assert forall j :: 0 <= j < |nocs| && j != i ==> nocs[j] != n;
      n.InitLinkBus(side);
      x := Product(n.linkPerRouter, n.spec.Nodes() as real);
      OneMoreLink(site, bases, links, x);
      assert site.IsDone(n, bases, links + [x], i);
      OneMoreLinked(site, nocs, bases, links, x);
    }

    /** The global links of routed networks, whose length the whole chip's area decides. */
    method AddNocLinks(plan: NocPlan, sqrt: real -> real, ghost start: real, ghost bases: seq<real>)
      returns (ok: bool, ghost links: seq<real>)
      requires plan.Valid() && |nocs| == plan.Instances() && Site(plan, sqrt, start).Built(nocs, bases)
      requires noc.area == Weighted(plan, bases) && total.area == start + Weighted(plan, bases)
      modifies this`total, this`noc, nocs
      ensures noc == old(noc).(area := Weighted(plan, bases) + Weighted(plan, links))
      ensures total == old(total).(area := start + Weighted(plan, bases) + Weighted(plan, links))
      ensures ok ==> Site(plan, sqrt, start).Finished(nocs, bases, links)
      ensures !ok ==> plan.Stalled(sqrt, total.area)
      ensures old(total).area > 0.0 && Root(sqrt) && plan.Sound() ==> ok
    {
      hide Product, Weighted, NocSpec.LinkLength, NocSpec.Nodes, NocSpec.LinkedPorts, NocSpec.Sound, Root, Wires;
      hide NocPlan.Weight, Site.Built, Site.Linking, Site.Finished;
      ghost var sound := old(total).area > 0.0 && Root(sqrt) && plan.Sound();
      ghost var site := Site(plan, sqrt, start);
      links := [];
      NoneLinked(site, nocs, bases);
      WeightedAppend(plan, [], 0.0);
      var i := 0;
      while i < |nocs|
        invariant 0 <= i == |links| <= |nocs| == plan.Instances()
        invariant noc == old(noc).(area := Weighted(plan, bases) + Weighted(plan, links))
        invariant total == old(total).(area := start + Weighted(plan, bases) + Weighted(plan, links))
        invariant site.Linking(nocs, bases, links)
        invariant sound ==> total.area > 0.0
      {
        var n := nocs[i];
        NextUnlinked(site, nocs, bases, links);
        assert links[..i] == links;
        ghost var x := 0.0;
        if n.spec.hasGlobalLink && n.spec.isRouter {
          if sound {
            SideGiven(n.spec, sqrt, total.area);
          }
          var side := sqrt(Product(total.area, n.spec.coverage));
          if !(side > 0.0) {
            return false, links;
          }
          var area := LinkUp(site, bases, links, i, side);
          if sound {
            LinksGrow(n.spec, side);
            NotLighter(area, plan);
          }
          TallyLinks(plan, area);
          x := area;
        } else {
          NoLinkNeeded(site, nocs, bases, links);
          NoWeight(plan);
        }
        WeightedAppend(plan, links, x);
        links := links + [x];
        i := i + 1;
      }
      AllLinked(site, nocs, bases, links);
      ok := true;
    }

    /** The networks' power, computed last. */
    method AddNocPower(plan: NocPlan)
      requires |nocs| == plan.Instances() && noc.power == ZERO && noc.rtPower == ZERO
      modifies this`total, this`noc
      ensures var t := Subtotal(NocGroup(plan, Energies(nocs)));
              noc == PlusPower(old(noc), t) && total == PlusPower(old(total), t)
    {
      hide PlusPower, Plus, HomogeneousShare, Share, Subtotal, Gathered, NocGroup, Energies;
      ghost var us := Energies(nocs);
      ghost var g := NocGroup(plan, us);
      GatherAll(plan, us);
      PlusPowerLaws(total, NOTHING, NOTHING);
      PlusPowerLaws(noc, NOTHING, NOTHING);
      var i := 0;
      while i < |nocs|
        invariant 0 <= i <= |nocs|
        invariant noc == PlusPower(old(noc), Gathered(g, i)) && total == PlusPower(old(total), Gathered(g, i))
      {
        var u := nocs[i].spec.energy(nocs[i].linkLength);
        GatherNext(plan, us, i);
        if plan.homogeneous {
          noc := PlusPower(noc, HomogeneousShare(u, plan.number));
          PlusPowerLaws(total, old(noc), HomogeneousShare(u, plan.number));
          total := PlusPower(total, noc);
        } else {
          PlusPowerLaws(old(noc), Gathered(g, i), Share(u));
          PlusPowerLaws(old(total), Gathered(g, i), Share(u));
          noc := PlusPower(noc, Share(u));
          total := PlusPower(total, Share(u));
        }
        i := i + 1;
      }
    }

    /** All networks: the chip gains what the subtotal holds, which is the finished networks' own areas. */
    method AddNocs(plan: NocPlan, sqrt: real -> real) returns (ok: bool)
      requires plan.Valid() && noc == NOTHING && nocs == []
      modifies this`total, this`noc, this`nocs
      ensures !ok ==> plan.Stalled(sqrt, total.area)
      ensures old(total).area > 0.0 && Root(sqrt) && plan.Sound() ==> ok
      ensures ok ==> total == Plus(old(total), noc) && |nocs| == plan.Instances()
      ensures ok ==> exists bases, links ::
                Site(plan, sqrt, old(total).area).Finished(nocs, bases, links) &&
                noc.area == Weighted(plan, bases) + Weighted(plan, links)
      ensures ok ==> noc == PlusPower(NOTHING.(area := noc.area), Subtotal(NocGroup(plan, Energies(nocs))))
    {
      hide Subtotal, Weighted, PlusPower, Plus, Energies, NocGroup, Root, NocPlan.Valid, NocPlan.Instances;
      hide NocPlan.Sound, NocPlan.Stalled, Site.Built, Site.Finished;
      ghost var bases, links;
      ok, bases := AddNocAreas(plan, sqrt);
      if !ok {
        return;
      }
      ok, links := AddNocLinks(plan, sqrt, old(total).area, bases);
      if !ok {
        return;
      }
      ghost var a := Weighted(plan, bases) + Weighted(plan, links);
      assert total == old(total).(area := old(total).area + a) && noc == NOTHING.(area := a);
      AddNocPower(plan);
      AreaThenPower(old(total), a, Subtotal(NocGroup(plan, Energies(nocs))));
      AreaKept(NOTHING.(area := a), Subtotal(NocGroup(plan, Energies(nocs))));
      assert Site(plan, sqrt, old(total).area).Finished(nocs, bases, links);
    }

    ghost predicate Empty()
      reads this
    {
      && total == core == l2 == l3 == l1dir == l2dir == NOTHING
      && mcs == flashcontrollers == nius == pcies == noc == NOTHING && nocs == []
    }

    /** Everything but the first-level directories. */
    ghost function Others(): Tally
      reads this
    {
      Plus(Plus(Plus(Plus(Plus(Plus(Plus(Plus(core, l2), l3), l2dir), mcs), flashcontrollers), nius), pcies), noc)
    }

    /** The sum of all subtotals. */
    ghost function Groups(): Tally
      reads this
    {
      Plus(Others(), l1dir)
    }

    method AddController(c: Controller, share: Tally) returns (group: Tally)
      modifies this`total
      ensures group == IfPresent(c, share) && total == Plus(old(total), group)
    {
      hide Plus;
      group := NOTHING;
      PlusLaws(total, NOTHING, NOTHING);
      if c.present {
        group := share;
        total := Plus(total, group);
      }
    }

    /** The groups of units; directories of the first level enter the chip unscaled. */
    method AddGroups(plan: Plan)
      requires Empty()
      modifies this`total, this`core, this`l2, this`l3, this`l1dir, this`l2dir
      ensures core == Subtotal(plan.cores) && l2 == (if plan.privateL2 then NOTHING else Subtotal(plan.l2s))
      ensures l3 == Subtotal(plan.l3s) && l1dir == Subtotal(plan.l1Dirs) && l2dir == Subtotal(plan.l2Dirs)
      ensures total == Plus(Plus(Plus(Plus(core, l2), l3), l2dir), DirectoryContribution(plan.l1Dirs))
    {
      hide Plus, Subtotal, DirectoryContribution;
      core := AddGroup(plan.cores, false);
      PlusLaws(core, NOTHING, NOTHING);
      if !plan.privateL2 {
        l2 := AddGroup(plan.l2s, false);
      }
      l3 := AddGroup(plan.l3s, false);
      l1dir := AddGroup(plan.l1Dirs, true);
      l2dir := AddGroup(plan.l2Dirs, false);
      MoveLast(Plus(Plus(core, l2), l3), DirectoryContribution(plan.l1Dirs), l2dir);
    }

    method AddControllers(plan: Plan)
      modifies this`total, this`mcs, this`flashcontrollers, this`nius, this`pcies
      ensures mcs == McShare(plan.mc) && flashcontrollers == FlashControllerShare(plan.flash)
      ensures nius == IoShare(plan.niu) && pcies == IoShare(plan.pcie)
      ensures total == Plus(Plus(Plus(Plus(old(total), mcs), flashcontrollers), nius), pcies)
    {
      hide Plus, IfPresent, HomogeneousShare, FlashShare, InterfaceShare;
      mcs := AddController(plan.mc, HomogeneousShare(plan.mc.unit, plan.mc.number));
      flashcontrollers := AddController(plan.flash, FlashShare(plan.flash.unit, plan.flash.number));
      nius := AddController(plan.niu, InterfaceShare(plan.niu.unit, plan.niu.number));
      pcies := AddController(plan.pcie, InterfaceShare(plan.pcie.unit, plan.pcie.number));
    }

    ghost predicate SubtotalsOf(plan: Plan)
      reads this
    {
      && core == Subtotal(plan.cores) && l2 == (if plan.privateL2 then NOTHING else Subtotal(plan.l2s))
      && l3 == Subtotal(plan.l3s) && l1dir == Subtotal(plan.l1Dirs) && l2dir == Subtotal(plan.l2Dirs)
      && mcs == McShare(plan.mc) && flashcontrollers == FlashControllerShare(plan.flash)
      && nius == IoShare(plan.niu) && pcies == IoShare(plan.pcie)
    }

    /**
     The construction.  It gives up on private L2s that do not match the cores, and where a network's
     assertion fails.  Otherwise area is conserved in every mix of groups, and power exactly when the
     first-level directories are balanced.
     */
    method Build(plan: Plan, sqrt: real -> real) returns (ok: bool)
      requires plan.nocs.Valid() && Empty()
      modifies this
      ensures plan.Mismatched() <==> plan.privateL2 && plan.cores.Instances() != plan.l2s.Instances()
      ensures plan.Mismatched() ==> !ok && Empty()
      ensures !ok ==> plan.Mismatched() || plan.nocs.Stalled(sqrt, total.area)
      ensures !plan.Mismatched() && plan.BeforeNocs().area > 0.0 && Root(sqrt) && plan.nocs.Sound() ==> ok
      ensures ok ==> SubtotalsOf(plan) && total.area == Groups().area
      ensures ok ==> total == Plus(Others(), DirectoryContribution(plan.l1Dirs))
      ensures ok ==> (total == Groups() <==> Balanced(plan.l1Dirs))
      ensures ok ==> exists bases, links ::
                && Site(plan.nocs, sqrt, plan.BeforeNocs().area).Finished(nocs, bases, links)
                && noc.area == Weighted(plan.nocs, bases) + Weighted(plan.nocs, links)
      ensures ok ==> |nocs| == plan.nocs.Instances() &&
                     noc == PlusPower(NOTHING.(area := noc.area), Subtotal(NocGroup(plan.nocs, Energies(nocs))))
    {
      hide Plus, Subtotal, DirectoryContribution, Site.Finished, Weighted, PlusPower, McShare, FlashControllerShare, IoShare;
      hide NocPlan.Sound, NocPlan.Stalled, Plan.Mismatched;
      hide Balanced, Root, Energies, NocGroup, NocPlan.Valid, NocPlan.Instances, Group.Instances;
      MismatchMeans(plan);
      if plan.Mismatched() {
        return false;
      }
      AddGroups(plan);
      AddControllers(plan);
      ok := AddNocs(plan.nocs, sqrt);
      if ok {
        Balance(Plus(Plus(Plus(core, l2), l3), l2dir), mcs, flashcontrollers, nius, pcies, noc, plan.l1Dirs);
        assert Groups() == Plus(Others(), Subtotal(plan.l1Dirs));
      }
    }
  }

  lemma MismatchMeans(plan: Plan)
    ensures plan.Mismatched() <==> plan.privateL2 && plan.cores.Instances() != plan.l2s.Instances()
  {
  }

  /** The chip's total, with the directories' contribution moved to the end, against the sum of subtotals. */
  lemma Balance(units: Tally, m: Tally, f: Tally, n: Tally, p: Tally, noc: Tally, g: Group)
    ensures var d := DirectoryContribution(g);
            var total := Plus(Plus(Plus(Plus(Plus(Plus(units, d), m), f), n), p), noc);
            var others := Plus(Plus(Plus(Plus(Plus(units, m), f), n), p), noc);
            && total == Plus(others, d)
            && total.area == Plus(others, Subtotal(g)).area
            && (total == Plus(others, Subtotal(g)) <==> Balanced(g))
  {
    hide Plus, DirectoryContribution, Subtotal, Balanced;
    var d := DirectoryContribution(g);
    var others := Plus(Plus(Plus(Plus(Plus(units, m), f), n), p), noc);
    MoveLast(units, d, m);
    MoveLast(Plus(units, m), d, f);
    MoveLast(Plus(Plus(units, m), f), d, n);
    MoveLast(Plus(Plus(Plus(units, m), f), n), d, p);
    MoveLast(Plus(Plus(Plus(Plus(units, m), f), n), p), d, noc);
    PlusCancels(others, d, Subtotal(g));
    DirectoryBalanced(g);
    DirectoryArea(g);
    PlusArea(others, d);
    PlusArea(others, Subtotal(g));
  }

  lemma MoveLast(a: Tally, d: Tally, x: Tally)
    ensures Plus(Plus(a, d), x) == Plus(Plus(a, x), d)
  {
    hide Plus;
    PlusLaws(a, d, x);
    PlusLaws(a, x, d);
    PlusLaws(d, x, a);
  }

  lemma PlusArea(a: Tally, b: Tally)
    ensures Plus(a, b).area == a.area + b.area
  {
  }

  lemma PlusCancels(a: Tally, x: Tally, y: Tally)
    ensures Plus(a, x) == Plus(a, y) <==> x == y
  {
    AddCancels(a.power, x.power, y.power);
    AddCancels(a.rtPower, x.rtPower, y.rtPower);
    hide Add;
  }

  lemma AddCancels(a: Power, x: Power, y: Power)
    ensures Add(a, x) == Add(a, y) <==> x == y
  {
  }

  // ----- The first-level directories -----

  lemma {:induction false} RawArea(g: Group, n: nat)
    ensures SumRaw(g, n).area == SumShares(g, n).area
  {
    if n > 0 {
      RawArea(g, n - 1);
    }
  }

  lemma DirectoryArea(g: Group)
    ensures DirectoryContribution(g).area == Subtotal(g).area
  {
    RawArea(g, g.number);
  }

  ghost predicate SameFigures(x: Figures, y: Figures) {
    x == y.(dynamic := x.dynamic)
  }

  ghost predicate SameButDynamic(x: Power, y: Power) {
    SameFigures(x.readOp, y.readOp) && SameFigures(x.writeOp, y.writeOp) && SameFigures(x.searchOp, y.searchOp)
  }

  lemma AddSame(a: Power, b: Power, x: Power, y: Power)
    requires SameButDynamic(a, b) && SameButDynamic(x, y)
    ensures SameButDynamic(Add(a, x), Add(b, y))
  {
  }

  /** Unscaled directories are wrong in their dynamic figures only. */
  lemma {:induction false} RawDiffersInDynamic(g: Group, n: nat)
    ensures SameButDynamic(SumRaw(g, n).power, SumShares(g, n).power)
    ensures SameButDynamic(SumRaw(g, n).rtPower, SumShares(g, n).rtPower)
  {
    if n > 0 {
      hide SameButDynamic, Scale, Add;
      RawDiffersInDynamic(g, n - 1);
      var u := g.unit(n - 1);
      var raw, scaled := SumRaw(g, n - 1), SumShares(g, n - 1);
      ScaledButDynamic(u.power, u.clockRate);
      ScaledButDynamic(u.rtPower, u.perTime);
      AddSame(raw.power, scaled.power, u.power, Share(u).power);
      AddSame(raw.rtPower, scaled.rtPower, u.rtPower, Share(u).rtPower);
    }
  }

  lemma ScaledButDynamic(x: Power, c: real)
    ensures var y := Scale(x, Mask(c, 1.0, 1.0, 1.0));
            SameButDynamic(x, y) && y.readOp.dynamic == Product(x.readOp.dynamic, c)
  {
  }

  /** The figures in which unscaled directories can be wrong. */
  datatype Gauge = PeakRead | PeakWrite | PeakSearch | RunRead | RunWrite | RunSearch

  function Dynamic(power: Power, rtPower: Power, d: Gauge): real {
    match d
    case PeakRead => power.readOp.dynamic
    case PeakWrite => power.writeOp.dynamic
    case PeakSearch => power.searchOp.dynamic
    case RunRead => rtPower.readOp.dynamic
    case RunWrite => rtPower.writeOp.dynamic
    case RunSearch => rtPower.searchOp.dynamic
  }

  function Rate(u: Unit, d: Gauge): real {
    if d.PeakRead? || d.PeakWrite? || d.PeakSearch? then u.clockRate else u.perTime
  }

  /** What scaling the first n units' energies would add to them. */
  function Surplus(g: Group, n: nat, d: Gauge): real {
    if n == 0 then 0.0
    else
      var u := g.unit(n - 1);
      var energy := Dynamic(u.power, u.rtPower, d);
      Surplus(g, n - 1, d) + (Product(energy, Rate(u, d)) - energy)
  }

  /** What a user can check of the directories: they are homogeneous, or scaling would change no sum. */
  ghost predicate Balanced(g: Group) {
    g.homogeneous || forall d :: Surplus(g, g.number, d) == 0.0
  }

  lemma {:induction false} SurplusMissing(g: Group, n: nat, d: Gauge)
    ensures var raw, scaled := SumRaw(g, n), SumShares(g, n);
            Dynamic(scaled.power, scaled.rtPower, d) == Dynamic(raw.power, raw.rtPower, d) + Surplus(g, n, d)
  {
    if n > 0 {
      hide Product;
      SurplusMissing(g, n - 1, d);
    }
  }

  lemma SameTally(a: Tally, b: Tally)
    requires a.area == b.area && SameButDynamic(a.power, b.power) && SameButDynamic(a.rtPower, b.rtPower)
    ensures a == b <==> forall d :: Dynamic(a.power, a.rtPower, d) == Dynamic(b.power, b.rtPower, d)
  {
    if forall d :: Dynamic(a.power, a.rtPower, d) == Dynamic(b.power, b.rtPower, d) {
      assert Dynamic(a.power, a.rtPower, PeakRead) == Dynamic(b.power, b.rtPower, PeakRead);
      assert Dynamic(a.power, a.rtPower, PeakWrite) == Dynamic(b.power, b.rtPower, PeakWrite);
      assert Dynamic(a.power, a.rtPower, PeakSearch) == Dynamic(b.power, b.rtPower, PeakSearch);
      assert Dynamic(a.power, a.rtPower, RunRead) == Dynamic(b.power, b.rtPower, RunRead);
      assert Dynamic(a.power, a.rtPower, RunWrite) == Dynamic(b.power, b.rtPower, RunWrite);
      assert Dynamic(a.power, a.rtPower, RunSearch) == Dynamic(b.power, b.rtPower, RunSearch);
    }
  }

  /** The directories contribute to the chip what they contribute to their subtotal exactly when balanced. */
  lemma DirectoryBalanced(g: Group)
    ensures DirectoryContribution(g) == Subtotal(g) <==> Balanced(g)
  {
    if !g.homogeneous {
      hide SumRaw, SumShares, Dynamic, Surplus, SameButDynamic;
      var raw, scaled := SumRaw(g, g.number), SumShares(g, g.number);
      RawArea(g, g.number);
      RawDiffersInDynamic(g, g.number);
      SameTally(raw, scaled);
      forall d: Gauge
        ensures Dynamic(scaled.power, scaled.rtPower, d) ==
                Dynamic(raw.power, raw.rtPower, d) + Surplus(g, g.number, d)
      {
        SurplusMissing(g, g.number, d);
      }
    }
  }

  /** A single directory that burns energy and is not clocked at one hertz breaks the balance. */
  lemma DirectoryUnbalanced(u: Unit)
    ensures var g := Group(false, 1, _ => u);
            u.power.readOp.dynamic != 0.0 && u.clockRate != 1.0 ==> DirectoryContribution(g) != Subtotal(g)
  {
    var g := Group(false, 1, _ => u);
    assert SumShares(g, 1) == Plus(SumShares(g, 0), Share(u)) && SumRaw(g, 1) == Plus(SumRaw(g, 0), RawShare(u));
    PlusLaws(Share(u), NOTHING, NOTHING);
    PlusLaws(RawShare(u), NOTHING, NOTHING);
    ScaledButDynamic(u.power, u.clockRate);
    NotUnit(u.power.readOp.dynamic, u.clockRate);
    hide Plus, Scale, Product;
  }

  lemma NotUnit(x: real, c: real)
    ensures x != 0.0 && c != 1.0 ==> Product(x, c) != x
  {
    assert x * c - x == x * (c - 1.0);
  }

  lemma AreaKept(a: Tally, b: Tally)
    ensures PlusPower(a, b).area == a.area
  {
  }
}
