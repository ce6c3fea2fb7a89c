/** Python's order on `bytes` and, by code points, on strings. */
module Lexicographic {
  type Codes = seq<int>

  predicate Before(a: Codes, b: Codes) {
    b != [] && (a == [] || a[0] < b[0] || (a[0] == b[0] && Before(a[1..], b[1..])))
  }

  lemma {:induction false} BeforeTotal(a: Codes, b: Codes)
    ensures a == b || Before(a, b) || Before(b, a)
  {
    if a != [] && b != [] && a[0] == b[0] {
      BeforeTotal(a[1..], b[1..]);
      assert a == [a[0]] + a[1..] && b == [b[0]] + b[1..];
    }
  }

  lemma {:induction false} BeforeIsOneWay(a: Codes, b: Codes)
    requires Before(a, b)
    ensures !Before(b, a) && a != b
  {
    if a != [] && a[0] == b[0] {
      BeforeIsOneWay(a[1..], b[1..]);
    }
  }

  lemma {:induction false} BeforeChains(a: Codes, b: Codes, c: Codes)
    requires Before(a, b) && Before(b, c)
    ensures Before(a, c)
  {
    if a != [] && a[0] == b[0] && b[0] == c[0] {
      BeforeChains(a[1..], b[1..], c[1..]);
    }
  }

  /** The first difference decides: a smaller code, or an end where the other goes on. */
  predicate FirstDifferenceAt(a: Codes, b: Codes, k: nat) {
    k <= |a| && k < |b| && a[..k] == b[..k] && (k == |a| || a[k] < b[k])
  }

  lemma SharedStart(a: Codes, b: Codes, k: nat)
    requires k > 0 && FirstDifferenceAt(a, b, k)
    ensures a != [] && b != [] && a[0] == b[0]
  {
    assert a[..k][0] == b[..k][0];
  }

  lemma {:induction false} DifferenceOf(a: Codes, b: Codes) returns (k: nat)
    requires Before(a, b)
    ensures FirstDifferenceAt(a, b, k)
  {
    k := 0;
    if a != [] && a[0] == b[0] {
      var m := DifferenceOf(a[1..], b[1..]);
      assert a[..m + 1] == [a[0]] + a[1..][..m] && b[..m + 1] == [b[0]] + b[1..][..m];
      k := m + 1;
    }
  }

  lemma {:induction false} DifferenceDecides(a: Codes, b: Codes, k: nat)
    requires FirstDifferenceAt(a, b, k)
    ensures Before(a, b)
  {
    if k > 0 {
      SharedStart(a, b, k);
      assert a[1..][..k - 1] == a[..k][1..] && b[1..][..k - 1] == b[..k][1..];
      DifferenceDecides(a[1..], b[1..], k - 1);
    }
  }

  lemma BeforeAtFirstDifference(a: Codes, b: Codes)
    ensures Before(a, b) <==> exists k: nat :: FirstDifferenceAt(a, b, k)
  {
    hide Before, FirstDifferenceAt;
    if Before(a, b) {
      var k := DifferenceOf(a, b);
    }
    if k: nat :| FirstDifferenceAt(a, b, k) {
      DifferenceDecides(a, b, k);
    }
  }
}
