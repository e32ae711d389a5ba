/** The 4-ary arbiter tree of the selection logic: how many arbiters a window of entries takes. */
module Arbiter {

  function Quarter(n: int): int { (n + 3) / 4 }

  /** The arbiters of all levels but the last, added to the one of the last. */
  function Count(n: int): int
    decreases n
  {
    if n <= 4 then 1 else Quarter(n) + Count(Quarter(n))
  }

  function Levels(n: int): nat
    decreases n
  {
    if n <= 4 then 0 else 1 + Levels(Quarter(n))
  }

  function Pow4(k: nat): nat { if k == 0 then 1 else 4 * Pow4(k - 1) }

  class SelectionLogic {
    var winEntries: int

    constructor (winEntries: int)
      ensures this.winEntries == winEntries
    {
      this.winEntries := winEntries;
    }

    /** The counting loop; it uses up the window size. */
    method CountArbiters() returns (numArbiter: int)
      modifies this
      ensures numArbiter == Count(old(winEntries))
      ensures winEntries <= 4
    {
      numArbiter := 1;
      while winEntries > 4
        invariant numArbiter + Count(winEntries) == 1 + Count(old(winEntries))
        decreases winEntries
      {
        winEntries := Quarter(winEntries);
        numArbiter := numArbiter + winEntries;
      }
    }
  }

  /** n inputs are brought down to one by 4-input arbiters only if there are at least (n - 1) / 3 of them. */
  lemma {:induction false} EnoughArbiters(n: int)
    requires n >= 1
    ensures n - 1 <= 3 * Count(n)
    decreases n
  {
    if n > 4 {
      EnoughArbiters(Quarter(n));
    }
  }

  /** The rounding wastes at most one arbiter a level. */
  lemma {:induction false} FewArbiters(n: int)
    requires n > 4
    ensures 3 * Count(n) <= n + 1 + 3 * Levels(n)
    decreases n
  {
    var m := Quarter(n);
    if m > 4 {
      FewArbiters(m);
    }
  }

  lemma {:induction false} TreeHeight(n: int)
    requires n >= 1
    ensures n <= Pow4(Levels(n) + 1) && (n > 4 ==> Pow4(Levels(n)) < n)
    decreases n
  {
    if n > 4 {
      TreeHeight(Quarter(n));
      if Quarter(n) <= 4 {
        assert Levels(Quarter(n)) == 0 && Pow4(1) == 4 * Pow4(0) && Pow4(2) == 4 * Pow4(1);
      }
    } else {
      assert Pow4(1) == 4 * Pow4(0);
    }
  }

  ghost predicate IsPow4(n: int) { exists k: nat :: k > 0 && n == Pow4(k) }

  lemma Pow4Step(n: int, k: nat)
    requires k > 0
    ensures n == Pow4(k) ==> n % 4 == 0 && n / 4 == Pow4(k - 1) && (n <= 4 <==> k == 1)
    ensures n == Pow4(k - 1) ==> 4 * n == Pow4(k)
  {
    var q := Pow4(k - 1);
    assert Pow4(k) == 4 * q && (k > 1 ==> q == 4 * Pow4(k - 2));
    Pow4Positive(k - 1);
    if k > 1 {
      Pow4Positive(k - 2);
    }
    hide Pow4;
    assert 4 * q / 4 == q && 4 * q % 4 == 0;
  }

  lemma Pow4Quarter(n: int)
    requires n >= 1
    ensures n <= 4 ==> (IsPow4(n) <==> n == 4)
    ensures n > 4 ==> (IsPow4(n) <==> n % 4 == 0 && IsPow4(n / 4))
  {
    assert Pow4(0) == 1 && Pow4(1) == 4;
    hide Pow4;
    if k: nat :| k > 0 && n == Pow4(k) {
      Pow4Step(n, k);
      assert n > 4 ==> k - 1 > 0 && n / 4 == Pow4(k - 1);
    }
    if k: nat :| n % 4 == 0 && k > 0 && n / 4 == Pow4(k) {
      Pow4Step(n / 4, k + 1);
      assert n == Pow4(k + 1);
    }
  }

  /** The bound is met exactly by the full trees, whose size is a power of four. */
  lemma {:induction false} FullTrees(n: int)
    requires n >= 1
    ensures 3 * Count(n) == n - 1 <==> IsPow4(n)
    decreases n
  {
    hide IsPow4;
    Pow4Quarter(n);
    if n > 4 {
      var m := Quarter(n);
      FullTrees(m);
      EnoughArbiters(m);
      assert Count(n) == m + Count(m);
    }
  }

  lemma {:induction false} Pow4Positive(k: nat)
    ensures Pow4(k) >= 1
  {
    if k > 0 {
      Pow4Positive(k - 1);
    }
  }
}
