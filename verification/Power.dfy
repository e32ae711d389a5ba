/** Power figures as McPAT keeps them, and their sum and scaling. */
module Power {
  /** One operation's figures; `dynamic` to `powerGatedLong` in the order of the source's class. */
  datatype Figures = Figures(
    dynamic: real, leakage: real, gateLeakage: real, shortCircuit: real,
    longerChannel: real, powerGated: real, powerGatedLong: real)

  datatype Power = Power(readOp: Figures, writeOp: Figures, searchOp: Figures)

  /** A product mask: for dynamic, leakage, gate leakage and short-circuit power. */
  datatype Mask = Mask(dynamic: real, leakage: real, gateLeakage: real, shortCircuit: real)

  function Product(x: real, y: real): real { x * y }

  function AddFigures(x: Figures, y: Figures): Figures {
    Figures(x.dynamic + y.dynamic, x.leakage + y.leakage, x.gateLeakage + y.gateLeakage,
            x.shortCircuit + y.shortCircuit, x.longerChannel + y.longerChannel,
            x.powerGated + y.powerGated, x.powerGatedLong + y.powerGatedLong)
  }

  /** All kinds of leakage but the gate's scale alike. */
  function ScaleFigures(x: Figures, m: Mask): Figures {
    Figures(Product(x.dynamic, m.dynamic), Product(x.leakage, m.leakage), Product(x.gateLeakage, m.gateLeakage),
            Product(x.shortCircuit, m.shortCircuit), Product(x.longerChannel, m.leakage),
            Product(x.powerGated, m.leakage), Product(x.powerGatedLong, m.leakage))
  }

  function Add(x: Power, y: Power): Power {
    Power(AddFigures(x.readOp, y.readOp), AddFigures(x.writeOp, y.writeOp), AddFigures(x.searchOp, y.searchOp))
  }

  function Scale(x: Power, m: Mask): Power {
    Power(ScaleFigures(x.readOp, m), ScaleFigures(x.writeOp, m), ScaleFigures(x.searchOp, m))
  }

  const ZERO_FIGURES := Figures(0.0, 0.0, 0.0, 0.0, 0.0, 0.0, 0.0)
  const ZERO := Power(ZERO_FIGURES, ZERO_FIGURES, ZERO_FIGURES)

  function AddMask(m: Mask, n: Mask): Mask {
    Mask(m.dynamic + n.dynamic, m.leakage + n.leakage, m.gateLeakage + n.gateLeakage, m.shortCircuit + n.shortCircuit)
  }

  lemma AddLaws(x: Power, y: Power, z: Power)
    ensures Add(Add(x, y), z) == Add(x, Add(y, z)) && Add(x, y) == Add(y, x) && Add(x, ZERO) == x
  {
  }

  /** Scaling is linear in the mask, so scaling by a count is adding that often. */
  lemma ScaleSplits(x: Power, m: Mask, n: Mask)
    ensures Scale(x, AddMask(m, n)) == Add(Scale(x, m), Scale(x, n))
  {
    ScaleFiguresSplits(x.readOp, m, n);
    ScaleFiguresSplits(x.writeOp, m, n);
    ScaleFiguresSplits(x.searchOp, m, n);
    hide ScaleFigures, AddFigures;
  }

  lemma ScaleFiguresSplits(x: Figures, m: Mask, n: Mask)
    ensures ScaleFigures(x, AddMask(m, n)) == AddFigures(ScaleFigures(x, m), ScaleFigures(x, n))
  {
    hide Product;
    Distribute(x.dynamic, m.dynamic, n.dynamic);
    Distribute(x.leakage, m.leakage, n.leakage);
    Distribute(x.gateLeakage, m.gateLeakage, n.gateLeakage);
    Distribute(x.shortCircuit, m.shortCircuit, n.shortCircuit);
    Distribute(x.longerChannel, m.leakage, n.leakage);
    Distribute(x.powerGated, m.leakage, n.leakage);
    Distribute(x.powerGatedLong, m.leakage, n.leakage);
  }

  lemma Distribute(x: real, a: real, b: real)
    ensures Product(x, a + b) == Product(x, a) + Product(x, b)
  {
  }

  function MulMask(m: Mask, n: Mask): Mask {
    Mask(Product(m.dynamic, n.dynamic), Product(m.leakage, n.leakage),
         Product(m.gateLeakage, n.gateLeakage), Product(m.shortCircuit, n.shortCircuit))
  }

  lemma ScaleTwice(x: Power, m: Mask, n: Mask)
    ensures Scale(Scale(x, m), n) == Scale(x, MulMask(m, n))
  {
    ScaleFiguresTwice(x.readOp, m, n);
    ScaleFiguresTwice(x.writeOp, m, n);
    ScaleFiguresTwice(x.searchOp, m, n);
    hide ScaleFigures;
  }

  lemma ScaleFiguresTwice(x: Figures, m: Mask, n: Mask)
    ensures ScaleFigures(ScaleFigures(x, m), n) == ScaleFigures(x, MulMask(m, n))
  {
    hide Product;
    Associate(x.dynamic, m.dynamic, n.dynamic);
    Associate(x.leakage, m.leakage, n.leakage);
    Associate(x.gateLeakage, m.gateLeakage, n.gateLeakage);
    Associate(x.shortCircuit, m.shortCircuit, n.shortCircuit);
    Associate(x.longerChannel, m.leakage, n.leakage);
    Associate(x.powerGated, m.leakage, n.leakage);
    Associate(x.powerGatedLong, m.leakage, n.leakage);
  }

  /** Each part of a mask reaches its own figures: the second all leakage but the gate's. */
  lemma ScaleFigureParts(x: Figures)
    ensures ScaleFigures(x, Mask(1.0, 0.0, 0.0, 0.0)) == ZERO_FIGURES.(dynamic := x.dynamic)
    ensures ScaleFigures(x, Mask(0.0, 0.0, 1.0, 0.0)) == ZERO_FIGURES.(gateLeakage := x.gateLeakage)
    ensures ScaleFigures(x, Mask(0.0, 0.0, 0.0, 1.0)) == ZERO_FIGURES.(shortCircuit := x.shortCircuit)
    ensures ScaleFigures(x, Mask(0.0, 1.0, 0.0, 0.0)) ==
            x.(dynamic := 0.0, gateLeakage := 0.0, shortCircuit := 0.0)
  {
  }

  lemma DistributeLeft(a: real, b: real, x: real)
    ensures Product(a + b, x) == Product(a, x) + Product(b, x)
    ensures Product(0.0, x) == 0.0
  {
  }

  lemma ProductUnit(x: real)
    ensures Product(x, 1.0) == x && Product(x, 0.0) == 0.0
  {
  }

  lemma Associate(x: real, a: real, b: real)
    ensures Product(Product(x, a), b) == Product(x, Product(a, b))
  {
  }
}
