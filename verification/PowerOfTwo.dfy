/**
 * The size checks of the simulation script: the test x & (x - 1) on unbounded
 * two's-complement integers, and which sizes the options let through.
 */
module PowerOfTwo {
  import opened Wrappers

  function Size(x: int): nat { if x < 0 then -x - 1 else x }

  /** Bitwise and: every integer has an endless run of zeros or of ones on the left. */
  function And(x: int, y: int): int
    decreases Size(x) + Size(y)
  {
    if Size(x) == 0 && Size(y) == 0 then (if x == -1 && y == -1 then -1 else 0)
    else 2 * And(x / 2, y / 2) + (if x % 2 == 1 && y % 2 == 1 then 1 else 0)
  }

  function Bit(x: int, k: nat): int
    decreases k
  {
    if k == 0 then x % 2 else Bit(x / 2, k - 1)
  }

  function Pow2(k: nat): nat { if k == 0 then 1 else 2 * Pow2(k - 1) }

  ghost predicate IsPow2(x: int) { exists k: nat :: x == Pow2(k) }

  lemma {:induction false} AndBits(x: int, y: int, k: nat)
    ensures Bit(And(x, y), k) == 1 <==> Bit(x, k) == 1 && Bit(y, k) == 1
    decreases Size(x) + Size(y), k
  {
    if Size(x) == 0 && Size(y) == 0 {
      if k > 0 {
        AndBits(x, y, k - 1);
      }
    } else if k > 0 {
      AndBits(x / 2, y / 2, k - 1);
    }
  }

  lemma {:induction false} AndSelf(x: int)
    ensures And(x, x) == x
    decreases Size(x)
  {
    if Size(x) > 0 {
      AndSelf(x / 2);
    }
  }

  lemma {:induction false} AndNegative(x: int, y: int)
    requires x < 0 && y < 0
    ensures And(x, y) < 0
    decreases Size(x) + Size(y)
  {
    if Size(x) > 0 || Size(y) > 0 {
      AndNegative(x / 2, y / 2);
    }
  }

  lemma {:induction false} PowPositive(k: nat)
    ensures Pow2(k) >= 1
  {
    if k > 0 {
      PowPositive(k - 1);
    }
  }

  lemma PowHalf(m: int)
    requires m > 0
    ensures IsPow2(2 * m) <==> IsPow2(m)
    ensures !IsPow2(2 * m + 1)
  {
    if IsPow2(m) {
      var k: nat :| m == Pow2(k);
      assert 2 * m == Pow2(k + 1);
    }
    forall k: nat
      ensures 2 * m + 1 != Pow2(k)
      ensures 2 * m == Pow2(k) ==> IsPow2(m)
    {
      if k > 0 {
        assert Pow2(k) == 2 * Pow2(k - 1);
        assert 2 * m == Pow2(k) ==> m == Pow2(k - 1);
      }
    }
  }

  lemma {:induction false} PositiveTest(x: int)
    requires x > 0
    ensures And(x, x - 1) == 0 <==> IsPow2(x)
    decreases x
  {
    if x == 1 {
      assert 1 == Pow2(0) && And(0, 0) == 0;
    } else {
      var m := x / 2;
      PowHalf(m);
      if x % 2 == 0 {
        assert (x - 1) / 2 == m - 1;
        PositiveTest(m);
      } else {
        assert (x - 1) / 2 == m;
        AndSelf(m);
      }
    }
  }

  /** Over all integers the bit test passes the powers of two, and zero with them. */
  lemma BitTest(x: int)
    ensures And(x, x - 1) == 0 <==> x == 0 || IsPow2(x)
  {
    if x > 0 {
      PositiveTest(x);
    } else {
      forall k: nat
        ensures Pow2(k) != x
      {
        PowPositive(k);
      }
      if x < 0 {
        AndNegative(x, x - 1);
      } else {
        assert And(0, -1) == 0;
      }
    }
  }

  datatype Setting = Default | Refused | Passed(size: int)

  /** The global predictor and the L2 cache: any given size is checked. */
  function Strict(arg: Option<int>): Setting {
    match arg
    case None => Default
    case Some(x) => if And(x, x - 1) != 0 || x <= 0 then Refused else Passed(x)
  }

  /** The local predictor: a zero counts as not given. */
  function Loose(arg: Option<int>): Setting {
    match arg
    case None => Default
    case Some(x) => if x == 0 then Default else if And(x, x - 1) != 0 then Refused else Passed(x)
  }

  /** The branch target buffer, the return address stack and the L1 caches: a minimum first. */
  function AtLeast(arg: Option<int>, least: int): Setting {
    match arg
    case None => Default
    case Some(x) => if x < least then Refused else if And(x, x - 1) != 0 then Refused else Passed(x)
  }

  lemma StrictTest(x: int)
    ensures And(x, x - 1) != 0 || x <= 0 <==> !IsPow2(x)
  {
    BitTest(x);
    forall k: nat
      ensures Pow2(k) > 0
    {
      PowPositive(k);
    }
  }

  lemma OptionsPass(x: int, least: int)
    requires least > 0
    ensures Strict(Some(x)) == if IsPow2(x) then Passed(x) else Refused
    ensures AtLeast(Some(x), least) == if x >= least && IsPow2(x) then Passed(x) else Refused
    ensures Loose(Some(x)) == if x == 0 then Default else if IsPow2(x) then Passed(x) else Refused
  {
    hide And, IsPow2;
    BitTest(x);
    StrictTest(x);
  }

  function BranchTargets(arg: Option<int>): Setting { AtLeast(arg, BTB_MINIMUM) }

  function ReturnStack(arg: Option<int>): Setting { AtLeast(arg, RAS_MINIMUM) }

  function L1Size(arg: Option<int>): Setting { AtLeast(arg, L1_MINIMUM) }

  /** Exactly the powers of two from the minimum on. */
  lemma MinimumsPass(x: int)
    ensures BranchTargets(Some(x)) == if x >= 128 && IsPow2(x) then Passed(x) else Refused
    ensures ReturnStack(Some(x)) == if x >= 16 && IsPow2(x) then Passed(x) else Refused
    ensures L1Size(Some(x)) == if x >= 2 && IsPow2(x) then Passed(x) else Refused
    ensures BranchTargets(None) == Default && ReturnStack(None) == Default && L1Size(None) == Default
    ensures Strict(None) == Default && Loose(None) == Default
  {
    hide And, IsPow2;
    OptionsPass(x, BTB_MINIMUM);
    OptionsPass(x, RAS_MINIMUM);
    OptionsPass(x, L1_MINIMUM);
  }

  const L1_MINIMUM := 2
  const RAS_MINIMUM := 16
  const BTB_MINIMUM := 128

  ghost predicate GoodSizes(values: seq<int>) {
    && |values| == 4
    && (forall i | 0 <= i < 4 :: IsPow2(values[i]))
    && values[2] >= 128
    && values[3] >= 16
  }

  /** The four sizes given in one option: the loop refuses at the first bad one. */
  method CheckSizes(values: seq<int>) returns (ok: bool)
    ensures ok <==> GoodSizes(values)
  {
    hide And, IsPow2;
    if |values| != 4 {
      return false;
    }
    var i := 0;
    while i < 4
      invariant 0 <= i <= 4
      invariant forall j | 0 <= j < i :: IsPow2(values[j])
      invariant i > 2 ==> values[2] >= BTB_MINIMUM
      invariant i > 3 ==> values[3] >= RAS_MINIMUM
    {
      var size := values[i];
      StrictTest(size);
      if And(size, size - 1) != 0 || size <= 0 {
        return false;
      }
      if i == 3 && values[3] < RAS_MINIMUM {
        return false;
      }
      if i == 2 && values[2] < BTB_MINIMUM {
        return false;
      }
      i := i + 1;
    }
    return true;
  }
}
