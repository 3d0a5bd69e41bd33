/** The two round-up strategies, on integer paise.

    Ceiling: `Math.ceil(amount) - amount` (src/lib/api.ts).
    Flat: `Math.floor((Math.random() * 5 + 5) * 100) / 100` rupees
    (src/lib/wallet.ts, backend/routes/wallet.js, the payment webhook and the
    round-up form); the draw of Math.random() is the parameter u in [0, 1). */
module RoundUp {
  import opened Common

  /** The amount rounded up to a whole rupee (Math.ceil on the rupee value). */
  function CeilRupee(a: Paise): (c: Paise)
    ensures c % 100 == 0
    ensures a <= c < a + 100
  {
    if a % 100 == 0 then a else a - a % 100 + 100
  }

  /** Ceiling strategy: the change needed to reach the next whole rupee. */
  function CeilingRoundUp(a: Paise): (r: Paise)
    ensures 0 <= r < 100
    ensures (a + r) % 100 == 0
    ensures r == 0 <==> a % 100 == 0
  {
    CeilRupee(a) - a
  }

  /** Reference characterisation: the ceiling round-up is the only amount in
      [0, 1) rupee that completes the purchase to a whole rupee. */
  lemma CeilingRoundUpUnique(a: Paise, r: Paise)
    requires 0 <= r < 100 && (a + r) % 100 == 0
    ensures r == CeilingRoundUp(a)
  {
    var c := CeilingRoundUp(a);
    assert (a + c) % 100 == 0;
    assert ((a + r) - (a + c)) % 100 == 0;
  }

  /** Flat strategy: a random whole number of paise from 5.00 to 9.99 rupees,
      independent of any purchase amount. */
  function FlatRoundUp(u: real): (r: Paise)
    requires 0.0 <= u < 1.0
    ensures 500 <= r <= 999
  {
    ((u * 5.0 + 5.0) * 100.0).Floor
  }

  /** Every amount from 5.00 to 9.99 rupees can be drawn, so the bounds of
      FlatRoundUp are exact. */
  lemma FlatRoundUpOnto(p: int)
    requires 500 <= p <= 999
    ensures FlatRoundUp((p - 500) as real / 500.0) == p
  {
    var u := (p - 500) as real / 500.0;
    assert (u * 5.0 + 5.0) * 100.0 == p as real;
  }
}
