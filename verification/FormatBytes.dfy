/** The unit scaling of the sync summary, in the source's 64-bit integers. */
module FormatBytes {

  newtype int64 = x: int | -0x8000_0000_0000_0000 <= x < 0x8000_0000_0000_0000

  function Pow1024(e: nat): nat {
    if e == 0 then 1 else 1024 * Pow1024(e - 1)
  }

  /** What a KiB, MiB, GiB, TiB, PiB and EiB is. */
  const UNITS := [
    1024, 1_048_576, 1_073_741_824, 1_099_511_627_776, 1_125_899_906_842_624, 1_152_921_504_606_846_976]

  lemma UnitsListed(exp: int)
    requires 0 <= exp < 6
    ensures Pow1024(exp + 1) == UNITS[exp]
  {
    assert Pow1024(2) == 1_048_576;
    assert Pow1024(4) == 1_048_576 * Pow1024(2);
    assert Pow1024(6) == 1_048_576 * Pow1024(4);
  }

  /** `n` is the count in units of `div`, rounded down. */
  predicate Counts(b: int, div: int, n: int) {
    0 < div && n * div <= b < (n + 1) * div
  }

  /** Dividing the rounded count by 1024 is counting in units 1024 times as large. */
  lemma CoarserUnit(b: int, div: int, n: int)
    requires Counts(b, div, n) && n >= 1024
    ensures Counts(b, 1024 * div, n / 1024) && 1024 * div <= b
  {
    var p := n / 1024;
    assert 1024 * p <= n <= 1024 * p + 1023;
    assert (1024 * p) * div <= n * div by { Scale2(1024 * p, n, div); }
    assert (n + 1) * div <= (1024 * p + 1024) * div by { Scale2(n + 1, 1024 * p + 1024, div); }
    assert (1024 * p) * div == p * (1024 * div);
    assert (1024 * p + 1024) * div == (p + 1) * (1024 * div);
    Scale2(1024, n, div);
  }

  lemma Scale2(x: int, y: int, div: int)
    requires x <= y && 0 < div
    ensures x * div <= y * div
  {
  }

  /** The loop of `FormatBytes`: for every count of at least one unit it ends, without
      overflow, at the largest power of 1024 not above the count, and the unit index stays
      within "KMGTPE". Smaller counts are printed as they are. */
  method Scale(b: int64) returns (scaled: bool, div: int64, exp: int)
    ensures scaled <==> b >= 1024
    ensures scaled ==> 0 <= exp < |"KMGTPE"|
    ensures scaled ==> div as int == Pow1024(exp + 1)
    ensures scaled ==> div <= b && (b as int) < 1024 * div as int
    ensures scaled ==> div as int == UNITS[exp]
  {
    div, exp := 1024, 0;
    if b < 1024 { return false, 1, 0; }
    var n := b / 1024;
    while n >= 1024
      invariant 0 <= exp <= 5
      invariant div as int == Pow1024(exp + 1) && div <= b
      invariant Counts(b as int, div as int, n as int)
    {
      CoarserUnit(b as int, div as int, n as int);
      TopUnit(exp);
      div := div * 1024;
      exp := exp + 1;
      n := n / 1024;
    }
    Scale2(n as int + 1, 1024, div as int);
    UnitsListed(exp);
    return true, div, exp;
  }

  /** Past the sixth unit no 64-bit count is left. */
  lemma TopUnit(exp: nat)
    requires exp <= 5
    ensures 1024 * Pow1024(exp + 1) <= 0x7fff_ffff_ffff_ffff ==> exp < 5
  {
    assert Pow1024(2) == 1048576;
    assert Pow1024(4) == 1024 * 1024 * Pow1024(2);
    assert Pow1024(6) == 1024 * 1024 * Pow1024(4);
  }
}
