/** 64-bit width and the few facts about products and quotients that the solver needs told. */
module Arithmetic {

  const U64: nat := 0x1_0000_0000_0000_0000
  const HALF: nat := 0x8000_0000_0000_0000

  function Min(a: int, b: int): int { if a < b then a else b }
  function Max(a: int, b: int): int { if a < b then b else a }

  lemma MulLe(x: nat, y: nat, z: nat)
    requires x <= y
    ensures x * z <= y * z
  {
  }

  lemma MulLt(x: nat, y: nat, z: nat)
    requires x < y && z > 0
    ensures x * z < y * z
  {
  }

  lemma CancelFactor(x: nat, y: nat, z: nat)
    requires z > 0 && x * z <= y * z
    ensures x <= y
  {
  }

  lemma Distribute(x: int, y: int, z: int)
    ensures (x + y) * z == x * z + y * z
  {
  }

  /** A rounded-down quotient against an integer is a product against the dividend. */
  lemma DivBelow(a: nat, b: nat, q: nat)
    requires b > 0
    ensures q <= a / b <==> q * b <= a
  {
    if q * b <= a {
      if a / b < q {
        MulLe(a / b + 1, q, b);
      }
    } else if q <= a / b {
      MulLe(q, a / b, b);
    }
  }

  lemma DivBounds(p: nat, b: nat)
    requires b > 0
    ensures var q := p / b;
            q * b <= p < (q + 1) * b && q <= p
  {
    var q := p / b;
    DivBelow(p, b, q);
    DivBelow(p, b, q + 1);
    MulLe(1, b, q);
  }

  lemma ModSmall(p: nat)
    requires p < U64
    ensures p % U64 == p
  {
  }
}
