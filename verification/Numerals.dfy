/** Numbers written out in octal or decimal, and read back. */
module Numerals {

  type Base = b: nat | b == 8 || b == 10 witness 10

  function Times(v: nat, base: Base): nat { if base == 8 then v * 8 else v * 10 }

  function Quotient(n: nat, base: Base): (q: nat)
    ensures n >= base ==> q < n
  {
    if base == 8 then n / 8 else n / 10
  }

  function Rest(n: nat, base: Base): (d: nat)
    ensures d < base && Times(Quotient(n, base), base) + d == n
  {
    if base == 8 then n % 8 else n % 10
  }

  function Digits(n: nat, base: Base): (ds: seq<nat>)
    ensures ds != [] && forall i | 0 <= i < |ds| :: ds[i] < base
  {
    if n < base then [n] else Digits(Quotient(n, base), base) + [Rest(n, base)]
  }

  function Value(ds: seq<nat>, base: Base): nat {
    if ds == [] then 0 else Times(Value(ds[..|ds| - 1], base), base) + ds[|ds| - 1]
  }

  lemma {:induction false} DigitsReadBack(n: nat, base: Base)
    ensures Value(Digits(n, base), base) == n
  {
    var ds := Digits(n, base);
    if n < base {
      assert ds[..0] == [];
    } else {
      DigitsReadBack(Quotient(n, base), base);
      assert ds[..|ds| - 1] == Digits(Quotient(n, base), base);
    }
  }
}
