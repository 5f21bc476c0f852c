/**
 * `formatTraffic` of monitor.go: a byte count is shown in B, KB, MB or GB,
 * chosen by strict comparisons with 1024, 1024^2 and 1024^3.  The byte
 * branch prints the exact signed decimal count (Go's `%d`); the other
 * branches print the count divided by the unit's size with two decimals.
 */
module Traffic {

  /** Go's int64. */
  type Int64 = x: int | -0x8000_0000_0000_0000 <= x < 0x8000_0000_0000_0000

  const KiB: int := 1024
  const MiB: int := 1024 * 1024
  const GiB: int := 1024 * 1024 * 1024

  datatype Unit = B | KB | MB | GB

  /** The number of bytes in one unit. */
  function Scale(u: Unit): nat
  {
    match u
    case B => 1
    case KB => KiB
    case MB => MiB
    case GB => GiB
  }

  /** The unit formatTraffic picks: the first threshold the count stays strictly below. */
  function UnitFor(bytes: int): Unit
  {
    if bytes < KiB then B
    else if bytes < MiB then KB
    else if bytes < GiB then MB
    else GB
  }

  /**
   * What formatTraffic prints.  Exact is the whole text of the byte branch;
   * Scaled is the value printed with `%.2f` (taken as an exact real) and the
   * unit word after it.
   */
  datatype Formatted = Exact(text: string) | Scaled(amount: real, unit: Unit)

  // ---------------------------------------------------------------------
  // Go's %d
  // ---------------------------------------------------------------------

  function DigitChar(d: nat): (c: char)
    requires d < 10
    ensures '0' <= c <= '9' && c as int - '0' as int == d
  {
    ('0' as int + d) as char
  }

  /** A run of decimal digits with no leading zero unless it is "0". */
  predicate IsCanonicalDigits(t: string)
  {
    |t| >= 1 && (forall i :: 0 <= i < |t| ==> '0' <= t[i] <= '9') && (t[0] == '0' ==> t == "0")
  }

  /** Decimal digits of `n`, most significant first. */
  function NatDecimal(n: nat): (r: string)
    ensures IsCanonicalDigits(r)
    ensures r[0] == '0' ==> n == 0
  {
    if n < 10 then [DigitChar(n)] else NatDecimal(n / 10) + [DigitChar(n % 10)]
  }

  /** Go's `%d` of an integer: a minus sign for a negative value, then the digits of its magnitude. */
  function Decimal(n: int): (r: string)
    ensures |r| >= 1 && (r[0] == '-' <==> n < 0)
    ensures n >= 0 ==> IsCanonicalDigits(r)
    ensures n < 0 ==> IsCanonicalDigits(r[1..]) && r[1..] != "0"
  {
    if n < 0 then "-" + NatDecimal(-n) else NatDecimal(n)
  }

  /** Reference reading of a run of decimal digits. */
  function ParseNat(s: string): nat
  {
    if s == [] then 0
    else
      var c := s[|s| - 1];
      ParseNat(s[..|s| - 1]) * 10 + (if '0' <= c <= '9' then c as int - '0' as int else 0)
  }

  /** Reference reading of an optionally signed decimal number. */
  function ParseDecimal(s: string): int
  {
    if |s| > 0 && s[0] == '-' then -(ParseNat(s[1..]) as int) else ParseNat(s)
  }

  lemma {:induction false} NatDecimalRoundTrip(n: nat)
    ensures ParseNat(NatDecimal(n)) == n
  {
    if n >= 10 {
      var r := NatDecimal(n);
      assert r[..|r| - 1] == NatDecimal(n / 10);
      NatDecimalRoundTrip(n / 10);
    }
  }

  lemma ParseDecimalOfDecimal(n: int)
    ensures ParseDecimal(Decimal(n)) == n
  {
    if n < 0 {
      NatDecimalRoundTrip(-n);
      assert ("-" + NatDecimal(-n))[1..] == NatDecimal(-n);
    } else {
      NatDecimalRoundTrip(n);
    }
  }

  /** `%d` prints exactly the value: reading the text back gives the integer, so distinct integers print differently. */
  lemma DecimalRoundTrip(n: int)
    ensures ParseDecimal(Decimal(n)) == n
    ensures forall m :: Decimal(m) == Decimal(n) ==> m == n
  {
    ParseDecimalOfDecimal(n);
    forall m | Decimal(m) == Decimal(n) ensures m == n {
      ParseDecimalOfDecimal(m);
    }
  }

  // ---------------------------------------------------------------------
  // formatTraffic
  // ---------------------------------------------------------------------

  /**
   * formatTraffic(bytes).  The byte branch, taken for every count below
   * 1024, negative counts included, prints the count that reads back as
   * `bytes` followed by " B"; the other branches print an amount that, times
   * the unit's size, is `bytes`, between 1 and 1024 except for GB.
   */
  function FormatTraffic(bytes: Int64): (r: Formatted)
    ensures r.Exact? <==> bytes < KiB
    ensures r.Exact? ==> r.text == Decimal(bytes) + " B"
    ensures r.Exact? ==> |r.text| >= 3 && r.text[|r.text| - 2..] == " B"
                         && ParseDecimal(r.text[..|r.text| - 2]) == bytes
    ensures r.Scaled? ==> r.unit == UnitFor(bytes) && r.amount * Scale(r.unit) as real == bytes as real
    ensures r.Scaled? ==> 1.0 <= r.amount && (r.unit != GB ==> r.amount < 1024.0)
  {
    if bytes < KiB then
      var d := Decimal(bytes);
      DecimalRoundTrip(bytes);
      assert (d + " B")[..|d|] == d;
      Exact(d + " B")
    else if bytes < MiB then Scaled(bytes as real / KiB as real, KB)
    else if bytes < GiB then Scaled(bytes as real / MiB as real, MB)
    else Scaled(bytes as real / GiB as real, GB)
  }

  /** Independent reference: how many times 1024 divides into the count, at most `cap` times. */
  function Magnitude(n: int, cap: nat): nat
    decreases cap
  {
    if n < KiB || cap == 0 then 0 else 1 + Magnitude(n / KiB, cap - 1)
  }

  function UnitAt(k: nat): Unit
  {
    if k == 0 then B else if k == 1 then KB else if k == 2 then MB else GB
  }

  /** The unit is the 1024-power of the count, capped at GB. */
  lemma UnitForIsMagnitude(bytes: int)
    ensures UnitFor(bytes) == UnitAt(Magnitude(bytes, 3))
  {
    if bytes >= KiB {
      var q := bytes / KiB;
      assert q < KiB <==> bytes < MiB;
      if q >= KiB {
        assert q / KiB < KiB <==> bytes < GiB;
      }
    }
  }

  /**
   * The thresholds are strict, so each boundary value 1024, 1024^2 and
   * 1024^3 goes to the larger unit.
   */
  lemma UnitThresholds(bytes: int)
    ensures UnitFor(bytes) == B <==> bytes < KiB
    ensures UnitFor(bytes) == KB <==> KiB <= bytes < MiB
    ensures UnitFor(bytes) == MB <==> MiB <= bytes < GiB
    ensures UnitFor(bytes) == GB <==> GiB <= bytes
    ensures UnitFor(KiB) == KB && UnitFor(MiB) == MB && UnitFor(GiB) == GB
  {
  }

  /** The unit the printed text ends with. */
  function UnitOf(r: Formatted): Unit
  {
    match r
    case Exact(_) => B
    case Scaled(_, u) => u
  }

  /** Whichever branch is taken, the unit shown is the one the thresholds pick. */
  lemma FormatTrafficUnit(bytes: Int64)
    ensures UnitOf(FormatTraffic(bytes)) == UnitFor(bytes)
  {
  }

  /** The byte branch on 0, 1023 and -5. */
  lemma FormatTrafficByteExamples()
    ensures FormatTraffic(0) == Exact("0 B")
    ensures FormatTraffic(1023) == Exact("1023 B")
    ensures FormatTraffic(-5) == Exact("-5 B")
  {
    assert NatDecimal(0) == "0";
    assert NatDecimal(5) == "5";
    assert NatDecimal(1) == "1";
    assert NatDecimal(10) == "10";
    assert NatDecimal(102) == "102";
    assert NatDecimal(1023) == "1023";
  }

  /** The boundaries go to the larger unit, each as 1.0 of it; 1536 is 1.5 KB. */
  lemma FormatTrafficScaledExamples()
    ensures FormatTraffic(1024) == Scaled(1.0, KB)
    ensures FormatTraffic(1536) == Scaled(1.5, KB)
    ensures FormatTraffic(MiB) == Scaled(1.0, MB)
    ensures FormatTraffic(GiB) == Scaled(1.0, GB)
  {
  }
}
