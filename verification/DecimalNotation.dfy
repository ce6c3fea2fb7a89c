/** Decimal notation as digit values, which bytes and characters spell out. */
module DecimalNotation {
  type digit = d: int | 0 <= d <= 9

  function Digits(n: nat): (r: seq<digit>)
    ensures r != []
  {
    if n < 10 then [n] else Digits(n / 10) + [n % 10]
  }

  function Number(digits: seq<digit>): nat {
    if digits == [] then 0
    else
      var n := |digits| - 1;
      10 * Number(digits[..n]) + digits[n]
  }

  lemma {:induction false} NumberOfDigits(n: nat)
    ensures Number(Digits(n)) == n
  {
    if n >= 10 {
      NumberOfDigits(n / 10);
      assert Digits(n)[..|Digits(n)| - 1] == Digits(n / 10);
    } else {
      assert Digits(n)[..0] == [];
    }
  }

  /** Each further digit makes the number ten times as large and adds itself. */
  lemma NumberContinues(digits: seq<digit>, last: digit)
    ensures Number(digits + [last]) == 10 * Number(digits) + last
  {
    assert (digits + [last])[..|digits|] == digits;
  }
}
