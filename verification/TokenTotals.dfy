/** The four token counts of an answer, and their sums. */
module TokenTotals {

  datatype Totals = Totals(input: nat, output: nat, cacheCreation: nat, cacheRead: nat)

  const ZERO := Totals(0, 0, 0, 0)

  function Plus(a: Totals, b: Totals): Totals {
    Totals(a.input + b.input, a.output + b.output, a.cacheCreation + b.cacheCreation, a.cacheRead + b.cacheRead)
  }

  lemma PlusZero(a: Totals, b: Totals)
    ensures Plus(a, b) == a <==> b == ZERO
    ensures Plus(a, b) == ZERO <==> a == ZERO && b == ZERO
  {
    var c := Plus(a, b);
    assert c == a <==>
           && c.input == a.input && c.output == a.output
           && c.cacheCreation == a.cacheCreation && c.cacheRead == a.cacheRead;
    assert b == ZERO <==> b.input == 0 && b.output == 0 && b.cacheCreation == 0 && b.cacheRead == 0;
  }
}
