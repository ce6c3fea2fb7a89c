/** The size of a JSON text that states its own size: `_serialized_bytes` of
    memories/context_packages.py. */
module PackageSize {
  import D = DecimalNotation

  /** How many decimal digits a number has. */
  function Digits(n: nat): (d: nat)
    ensures d >= 1
  {
    |D.Digits(n)|
  }

  lemma {:induction false} DigitsMonotone(a: nat, b: nat)
    requires a <= b
    ensures Digits(a) <= Digits(b)
  {
    if a >= 10 {
      DigitsMonotone(a / 10, b / 10);
    }
  }

  lemma {:induction false} DigitsStep(n: nat)
    ensures Digits(n + 1) <= Digits(n) + 1
  {
    if n >= 10 {
      DigitsStep(n / 10);
      DigitsMonotone((n + 1) / 10, n / 10 + 1);
    }
  }

  lemma {:induction false} DigitsGrowth(n: nat, k: nat)
    ensures Digits(n + k) <= Digits(n) + k
  {
    if k > 0 {
      DigitsGrowth(n, k - 1);
      DigitsStep(n + k - 1);
    }
  }

  /** Adding no more than its own digit count gains a number at most one digit, and right after a
      gain there is room for one more. */
  lemma {:induction false} DigitsJump(n: nat, k: nat)
    requires k <= Digits(n)
    ensures Digits(n + k) <= Digits(n) + 1
    ensures Digits(n + k) == Digits(n) + 1 ==> Digits(n + k + 1) == Digits(n + k)
  {
    if n >= 10 {
      var j := (n + k) / 10 - n / 10;
      assert j <= k / 10 + 1;
      DigitsJump(n / 10, j);
      assert (n + k + 1) / 10 == n / 10 + j || (n + k + 1) / 10 == n / 10 + j + 1;
    }
  }

  /** The text without the digits of its own size has `base` bytes. */
  predicate Fits(base: nat, size: nat) {
    size == base + Digits(size)
  }

  predicate IsLeastSize(base: nat, size: nat) {
    Fits(base, size) && forall s :: Fits(base, s) ==> size <= s
  }

  /** Three rewrites from zero. */
  function Size(base: nat): nat {
    base + Digits(base + Digits(base + 1))
  }

  /** Main result: the third rewrite is always a fixed point, and the least one. */
  lemma SizeIsLeast(base: nat)
    ensures IsLeastSize(base, Size(base))
  {
    var s1 := base + 1;
    DigitsJump(s1, Digits(s1) - 1);
    DigitsMonotone(s1, base + Digits(s1));
    forall s: nat | Fits(base, s)
      ensures Size(base) <= s
    {
      DigitsMonotone(s1, s);
      DigitsMonotone(base + Digits(s1), s);
    }
  }

  lemma SizeMonotone(a: nat, b: nat)
    requires a <= b
    ensures Size(a) <= Size(b)
  {
    DigitsMonotone(a + 1, b + 1);
    DigitsMonotone(a + Digits(a + 1), b + Digits(b + 1));
  }

  /** Fixed points are not unique: with 97 other bytes both 99 and 100 describe themselves. */
  lemma TwoSizes()
    ensures Fits(97, 99) && Fits(97, 100) && Size(97) == 99
  {}

  datatype Sized = Converged(size: nat) | DidNotConverge

  /** `_serialized_bytes` from the start value every caller passes: four rounds are enough. */
  method SerializedBytes(base: nat) returns (r: Sized)
    ensures r == Converged(Size(base)) && IsLeastSize(base, r.size)
  {
    SizeIsLeast(base);
    var size := 0;
    for round := 0 to 4
      invariant round <= 3
      invariant size == if round == 0 then 0 else if round == 1 then base + 1
                        else if round == 2 then base + Digits(base + 1) else Size(base)
    {
      var next := base + Digits(size);
      if next == size {
        LeastAtFixedPoint(base, size, round);
        return Converged(size);
      }
      size := next;
    }
    assert false;
    return DidNotConverge;
  }

  lemma LeastAtFixedPoint(base: nat, size: nat, round: nat)
    requires Fits(base, size)
    requires round == 1 ==> size == base + 1
    requires round == 2 ==> size == base + Digits(base + 1)
    requires round >= 3 ==> size == Size(base)
    requires round == 0 ==> size == 0
    ensures size == Size(base)
  {}
}
