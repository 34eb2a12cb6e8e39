/** Choosing the unit for a human-readable byte count. */
module ByteFormat {

  const UNIT: int := 1024
  const MAX_INT64: int := 0x7FFF_FFFF_FFFF_FFFF

  function UnitPower(n: nat): int
  {
    if n == 0 then 1 else UNIT * UnitPower(n - 1)
  }

  /** For every 64-bit size of at least one unit the divisor is the power the suffix stands for, the
      quotient lies in [1, 1024), the suffix index is valid and the divisor fits 64 bits. */
  method Scale(bytes: int) returns (div: int, exp: nat)
    requires UNIT <= bytes <= MAX_INT64
    ensures div == UnitPower(exp + 1) && div <= bytes < UNIT * div
    ensures exp <= 5 && div <= MAX_INT64
  {
    div, exp := UNIT, 0;
    assert UnitPower(1) == UNIT * UnitPower(0);
    var n := bytes / UNIT;
    while n >= UNIT
      invariant div == UnitPower(exp + 1) && div > 0 && n >= 1
      invariant n * div <= bytes < (n + 1) * div
      decreases n
    {
      NextUnit(n, div, bytes);
      div := div * UNIT;
      exp := exp + 1;
      n := n / UNIT;
    }
    Bracket(n, div, bytes);
    PowerFits(exp + 1, bytes);
  }

  lemma NextUnit(n: int, div: int, bytes: int)
    requires n >= UNIT && div > 0 && n * div <= bytes < (n + 1) * div
    ensures (n / UNIT) * (div * UNIT) <= bytes < (n / UNIT + 1) * (div * UNIT)
  {
    var q := n / UNIT;
    assert q * UNIT <= n && n + 1 <= (q + 1) * UNIT;
    Monotone(q * UNIT, n, div);
    Monotone(n + 1, (q + 1) * UNIT, div);
    Reorder(q, div);
    Reorder(q + 1, div);
  }

  lemma Monotone(a: int, b: int, d: int)
    requires a <= b && d > 0
    ensures a * d <= b * d
  {
  }

  lemma Reorder(a: int, d: int)
    ensures (a * UNIT) * d == a * (d * UNIT)
  {
  }

  lemma Bracket(n: int, div: int, bytes: int)
    requires 1 <= n < UNIT && div > 0 && n * div <= bytes < (n + 1) * div
    ensures div <= bytes < UNIT * div
  {
    Monotone(1, n, div);
    Monotone(n + 1, UNIT, div);
  }

  lemma PowerFits(k: nat, bytes: int)
    requires bytes <= MAX_INT64
    ensures UnitPower(k) <= bytes ==> k <= 6
  {
    assert UnitPower(7) == UNIT * UNIT * UNIT * UNIT * UNIT * UNIT * UNIT > MAX_INT64;
    if k >= 7 {
      PowerGrows(7, k);
    }
  }

  lemma {:induction false} PowerGrows(a: nat, b: nat)
    requires a <= b
    ensures UnitPower(a) <= UnitPower(b) && UnitPower(a) >= 1
    decreases b
  {
    if b > 0 && a < b {
      PowerGrows(a, b - 1);
    } else if b > 0 {
      PowerGrows(a - 1, b - 1);
    }
  }
}
