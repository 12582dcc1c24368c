/** The loop of manifest.FormatBytes over 64-bit integers (internal/manifest/readme.go). */
module SizeText {

  // Every value of this type is checked to stay inside the machine range.
  newtype int64 = x: int | -0x8000_0000_0000_0000 <= x < 0x8000_0000_0000_0000

  const UNIT: int64 := 1024
  const UNIT_NAMES := "KMGTPE"

  /** How a count is shown: unknown, plain bytes, or n divided by div in the named unit. */
  datatype Shown = Unknown | Plain(n: int64) | Scaled(div: int64, unit: char)

  function Pow1024(e: nat): nat {
    if e == 0 then 1 else 1024 * Pow1024(e - 1)
  }

  /** The unit shown is the largest one that fits: 1024^(exp+1) <= n < 1024^(exp+2), never out of range. */
  method FormatBytes(n: int64) returns (shown: Shown)
    ensures n < 0 <==> shown == Unknown
    ensures 0 <= n < UNIT <==> shown == Plain(n)
    ensures n >= UNIT ==>
              exists exp: nat ::
                && exp < |UNIT_NAMES|
                && shown.Scaled? && shown.unit == UNIT_NAMES[exp]
                && shown.div as int == Pow1024(exp + 1) <= n as int < Pow1024(exp + 2)
  {
    if n < 0 {
      return Unknown;
    }
    if n < UNIT {
      return Plain(n);
    }
    var div, exp := UNIT, 0;
    var m := n / UNIT;
    while m >= UNIT
      invariant 0 <= exp <= 5 && div > 0 && Scale(n as int, m as int, div as int, exp)
      decreases m
    {
      ghost var m0, d0 := m as int, div as int;
      NextScale(n as int, m0, d0, exp);
      div := div * UNIT;
      m := m / UNIT;
      exp := exp + 1;
    }
    LastScale(n as int, m as int, div as int, exp);
    return Scaled(div, UNIT_NAMES[exp]);
  }

  /** m is n divided by div, rounded down, and div is the power of 1024 of the unit exp. */
  ghost predicate Scale(n: int, m: int, div: nat, exp: nat) {
    div == Pow1024(exp + 1) && m >= 1 && m * div <= n < (m + 1) * div
  }

  /** One more unit stays below 2^63, and there are units left. */
  lemma NextScale(n: int, m: int, div: nat, exp: nat)
    requires Scale(n, m, div, exp) && m >= 1024 && exp <= 5 && n < 0x8000_0000_0000_0000
    ensures 1024 * div <= n && exp < 5 && Scale(n, m / 1024, div * 1024, exp + 1)
  {
    PowersOf1024();
    Times(1024, m, div);
    Floor(m / 1024, m % 1024, div, n);
    assert Pow1024(exp + 2) == 1024 * Pow1024(exp + 1);
  }

  lemma Times(a: int, b: int, d: nat)
    requires a <= b
    ensures a * d <= b * d
  {
  }

  lemma LastScale(n: int, m: int, div: nat, exp: nat)
    requires Scale(n, m, div, exp) && m < 1024
    ensures div == Pow1024(exp + 1) <= n < Pow1024(exp + 2)
  {
    Times(1, m, div);
    Times(m + 1, 1024, div);
    assert Pow1024(exp + 2) == 1024 * Pow1024(exp + 1);
  }

  /** Dividing twice, once by d and once by 1024, is dividing once by 1024 * d. */
  lemma Floor(q: int, r: int, d: int, n: int)
    requires 0 <= r < 1024 && d > 0
    requires (1024 * q + r) * d <= n < (1024 * q + r + 1) * d
    ensures q * (1024 * d) <= n < (q + 1) * (1024 * d)
  {
    assert (1024 * q + r) * d == q * (1024 * d) + r * d;
    assert 0 <= r * d && (r + 1) * d <= 1024 * d;
  }

  lemma PowersOf1024()
    ensures Pow1024(1) == 1024 && Pow1024(2) == 0x10_0000 && Pow1024(3) == 0x4000_0000
    ensures Pow1024(4) == 0x100_0000_0000 && Pow1024(5) == 0x4_0000_0000_0000
    ensures Pow1024(6) == 0x1000_0000_0000_0000 && Pow1024(7) == 0x40_0000_0000_0000_0000
  {
    assert Pow1024(2) == 1024 * Pow1024(1);
    assert Pow1024(4) == 1024 * Pow1024(3);
    assert Pow1024(6) == 1024 * Pow1024(5);
  }
}
