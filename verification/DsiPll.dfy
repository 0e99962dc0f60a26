/**
 Fractional-N arithmetic of the 20nm DSI PLL (dsi_20nm_pll_util.c): a VCO rate is
 split into an integer and a 20-bit fractional multiple of twice the reference
 clock, spread over five registers, and computed back from them.
 */
module DsiPll {
  const M := 0x10_0000  // 1 << 20
  const U64 := 0x1_0000_0000_0000_0000

  /** DIV_FRAC_START1..3 and DEC_START1..2. */
  datatype Regs = Regs(frac1: nat, frac2: nat, frac3: nat, dec1: nat, dec2: nat)

  /** A value passed as a signed 32-bit integer, such as the divisor of div_s64. */
  function S32(x: int): int { (x + 0x8000_0000) % 0x1_0000_0000 - 0x8000_0000 }

  /** The products vco << 20 and 2 * ref are within signed 64 bits. */
  predicate InRange(vco: int, ref: int) { 0 <= vco < 0x800_0000_0000 && 0 < ref < 0x4000_0000_0000_0000 }

  /** The narrowed divisor is not zero. */
  predicate Computable(vco: int, ref: int) { InRange(vco, ref) && S32(2 * ref) != 0 }

  // ---------- Division ----------

  /** Division of naturals, with the bounds that characterise it. */
  function Quot(a: nat, d: nat): (q: nat)
    requires d > 0
    ensures q * d <= a < q * d + d
  {
    QuotBounds(a, d);
    a / d
  }

  lemma QuotBounds(a: nat, d: nat)
    requires d > 0
    ensures a / d >= 0 && a / d * d <= a < a / d * d + d
  {
    if a / d < 0 { MulMono(a / d, -1, d); }
  }

  lemma MulMono(a: int, b: int, d: nat)
    requires a <= b
    ensures a * d <= b * d
  {
  }

  lemma QuotIs(a: nat, d: nat, q: nat)
    requires d > 0 && a == q * d
    ensures Quot(a, d) == q
  {
    var p := Quot(a, d);
    if p < q { MulMono(p + 1, q, d); }
  }

  /** div_s64 rounds towards zero. */
  function DivS64(a: nat, d: int): int
    requires d != 0
  {
    if d > 0 then Quot(a, d) else
      var q: int := Quot(a, -d);
      -q
  }

  // ---------- The two directions ----------

  /** vco in units of 2 * ref, with 20 fractional bits. */
  function Multiple(vco: nat, ref: nat): int
    requires Computable(vco, ref)
  {
    DivS64(vco * M, S32(2 * ref))
  }

  /** Integer and fractional part, both rounded towards zero. */
  function DecOf(m: int): int { if m >= 0 then m / M else -(-m / M) }

  function FracOf(m: int): int { if m >= 0 then m % M else -(-m % M) }

  /** Masks are remainders, shifts round down and, above a masked field, the marker
      bits are sums; this holds of negative values too. */
  function Pack(dec: int, frac: int): Regs {
    Regs(frac % 128 + 128, frac / 128 % 128 + 128, frac / 16384 % 64 + 64, dec % 128 + 128, dec / 128 % 2 + 2)
  }

  function RateCalc(vco: nat, ref: nat): Regs
    requires Computable(vco, ref)
  {
    var multiple := Multiple(vco, ref);
    Pack(DecOf(multiple), FracOf(multiple))
  }

  function Dec(r: Regs): nat { r.dec2 % 2 * 128 + r.dec1 % 128 }

  function Frac(r: Regs): nat { r.frac3 % 64 * 16384 + r.frac2 % 128 * 128 + r.frac1 % 128 }

  /** twice is 2 * ref_clk. */
  function Rate(twice: nat, dec: nat, frac: nat): nat { twice * dec + Quot(twice * frac, M) }

  /** The same in unsigned 64-bit arithmetic. */
  function Rate64(twice: nat, dec: nat, frac: nat): nat {
    (twice * dec % U64 + Quot(twice * frac % U64, M)) % U64
  }

  function GetRate(r: Regs, ref: nat): nat { Rate64(2 * ref, Dec(r), Frac(r)) }

  /** Nothing wraps for a reference that the divisor can hold. */
  lemma NoWrap(twice: nat, dec: nat, frac: nat)
    requires twice < 0x8000_0000 && dec < 256 && frac < M
    ensures Rate64(twice, dec, frac) == Rate(twice, dec, frac)
  {
    MulMono(dec, 255, twice);
    MulMono(frac, M, twice);
    SumFits(twice, twice * dec, twice * frac);
  }

  lemma SumFits(twice: nat, a: nat, b: nat)
    requires twice < 0x8000_0000 && a <= 255 * twice && b <= M * twice
    ensures (a % U64 + Quot(b % U64, M)) % U64 == a + Quot(b, M)
  {
    QuotBelow(b, M, twice);
    Small(a);
    Small(b);
    Small(a + Quot(b, M));
  }

  lemma QuotBelow(a: nat, d: nat, k: nat)
    requires d > 0 && a <= k * d
    ensures Quot(a, d) <= k
  {
    if Quot(a, d) > k { MulMono(k + 1, Quot(a, d), d); }
  }

  lemma Small(x: nat)
    requires x < U64
    ensures x % U64 == x
  {
  }

  // ---------- What the registers keep ----------

  /** The registers keep 20 fractional bits and 8 integer bits. */
  lemma PackReadsBack(dec: int, frac: int)
    ensures Frac(Pack(dec, frac)) == frac % M && Dec(Pack(dec, frac)) == dec % 256
  {
    Marked(frac, frac / 128, frac / 16384, dec, dec / 128);
    LowBits(frac);
    HighBits(frac);
    DecBits(dec);
  }

  /** Masking removes the marker bits. */
  lemma Marked(f1: int, f2: int, f3: int, d1: int, d2: int)
    ensures (f1 % 128 + 128) % 128 == f1 % 128 && (f2 % 128 + 128) % 128 == f2 % 128
    ensures (f3 % 64 + 64) % 64 == f3 % 64 && (d1 % 128 + 128) % 128 == d1 % 128 && (d2 % 2 + 2) % 2 == d2 % 2
  {
  }

  /** The bits above the masked fields are set: 7 in the first two fraction registers
      and the first integer one, 6 and 1 in the others; nothing is above them. */
  lemma PackMarks(dec: int, frac: int)
    ensures var r := Pack(dec, frac);
      r.frac1 / 128 == r.frac2 / 128 == r.frac3 / 64 == r.dec1 / 128 == r.dec2 / 2 == 1
  {
  }

  lemma LowBits(x: int)
    ensures x / 128 % 128 * 128 + x % 128 == x % 16384 && x / 128 / 128 == x / 16384
  {
    var q := x / 128;
    assert x == 16384 * (q / 128) + q % 128 * 128 + x % 128;
  }

  lemma HighBits(x: int)
    ensures x / 16384 % 64 * 16384 + x % 16384 == x % M
  {
    var q := x / 16384;
    assert x == M * (q / 64) + q % 64 * 16384 + x % 16384;
  }

  lemma DecBits(dec: int)
    ensures dec / 128 % 2 * 128 + dec % 128 == dec % 256
  {
    var q := dec / 128;
    assert dec == 256 * (q / 2) + q % 2 * 128 + dec % 128;
  }

  lemma GetRateOfCalc(vco: nat, ref: nat)
    requires Computable(vco, ref)
    ensures var m := Multiple(vco, ref);
      GetRate(RateCalc(vco, ref), ref) == Rate64(2 * ref, DecOf(m) % 256, FracOf(m) % M)
  {
    var m := Multiple(vco, ref);
    PackReadsBack(DecOf(m), FracOf(m));
  }

  // ---------- Round trip ----------

  /** Error of the round trip, scaled by 2^20 to stay in integers: less than
      2 * ref / 2^20 + 1, and never above the request. */
  ghost predicate Close(vco: nat, r: nat, ref: nat) { r <= vco && (vco - r) * M < 2 * ref + M }

  lemma Distribute(dec: nat, frac: nat, d: nat)
    ensures (dec * M + frac) * d == d * dec * M + d * frac
  {
  }

  /** With all integer bits kept, scaling back undershoots by less than the bound. */
  lemma UnclippedClose(vco: nat, d: nat, m: nat)
    requires m * d <= vco * M < m * d + d
    ensures var r := Rate(d, m / M, m % M); r <= vco && (vco - r) * M < d + M
  {
    Distribute(m / M, m % M, d);
    assert m == m / M * M + m % M;
  }

  /** Losing integer bits loses at least 256 times 2 * ref. */
  lemma ClippedFar(d: nat, dec: nat, frac: nat)
    requires dec >= 256
    ensures Rate(d, dec % 256, frac) + 256 * d <= Rate(d, dec, frac)
  {
    var k, e := dec / 256, dec % 256;
    assert d * dec == 256 * (d * k) + d * e by { assert dec == 256 * k + e; }
    MulMono(1, k, d);
    assert d * k >= d;
  }

  /** The integer part fits its register exactly below 512 times the reference. */
  lemma FitsIff(vco: nat, d: nat, m: nat)
    requires m * d <= vco * M < m * d + d
    ensures m / M < 256 <==> vco < 256 * d
  {
    if m / M < 256 {
      MulMono(m + 1, 256 * M, d);
      assert (m + 1) * d == m * d + d;
    } else {
      MulMono(256 * M, m, d);
    }
  }

  lemma ReadBackIff(vco: nat, d: nat, m: nat)
    requires d > 0 && m * d <= vco * M < m * d + d
    ensures var r := Rate(d, m / M % 256, m % M); r <= vco && (vco - r) * M < d + M <==> vco < 256 * d
  {
    UnclippedClose(vco, d, m);
    FitsIff(vco, d, m);
    if m / M >= 256 {
      ClippedFar(d, m / M, m % M);
    } else {
      assert m / M % 256 == m / M;
    }
  }

  /** Setting and reading back stays close exactly when the integer part fits, for
      every reference whose double the divisor can hold. */
  lemma RoundTripIff(vco: nat, ref: nat)
    requires InRange(vco, ref) && ref < 0x4000_0000
    ensures Computable(vco, ref)
    ensures Close(vco, GetRate(RateCalc(vco, ref), ref), ref) <==> vco < 512 * ref
  {
    NarrowIsSame(2 * ref);
    var m, d := Multiple(vco, ref), 2 * ref;
    MultipleBounds(vco, ref, d, m);
    GetRateOfCalc(vco, ref);
    Remainders(m);
    NoWrap(d, m / M % 256, m % M);
    ReadBackIff(vco, d, m);
  }

  lemma Remainders(m: nat)
    ensures DecOf(m) == m / M && FracOf(m) % M == m % M
  {
  }

  lemma NarrowIsSame(x: nat)
    requires x < 0x8000_0000
    ensures S32(x) == x
  {
  }

  lemma MultipleBounds(vco: nat, ref: nat, d: nat, m: int)
    requires Computable(vco, ref) && d == S32(2 * ref) > 0 && m == Multiple(vco, ref)
    ensures m >= 0 && m * d <= vco * M < m * d + d
  {
  }

  // ---------- References the divisor cannot hold ----------

  lemma NarrowBounds(x: nat)
    requires x >= 0x8000_0000
    ensures -0x8000_0000 <= S32(x) < 0x8000_0000 && S32(x) < x
  {
  }

  function Magnitude(d: int): nat { if d >= 0 then d else -d }

  /** How many divisors make a rate that comes back too high: one, or 255 where
      510 * ref would wrap. */
  function Divisors(ref: nat): nat { if S32(2 * ref) < 0 && ref >= 0x80_0000_0000_0000 then 255 else 1 }

  function WrongRate(ref: nat): nat { Divisors(ref) * Magnitude(S32(2 * ref)) }

  /** From 2^30 on the divisor is cut to 32 bits. A rate of k times its magnitude is
      taken for k times, or when it came out negative 256 - k times, twice the reference. */
  lemma WideReferenceFar(ref: nat)
    requires 0x4000_0000 <= ref < 0x4000_0000_0000_0000 && S32(2 * ref) != 0
    ensures var vco := WrongRate(ref);
      && Computable(vco, ref) && vco < 512 * ref
      && GetRate(RateCalc(vco, ref), ref) ==
         (if S32(2 * ref) < 0 && ref < 0x80_0000_0000_0000 then 510 * ref else 2 * ref)
      && !Close(vco, GetRate(RateCalc(vco, ref), ref), ref)
  {
    var d, k, vco := S32(2 * ref), Divisors(ref), WrongRate(ref);
    NarrowBounds(2 * ref);
    WideBounds(ref, d, k, vco);
    var times := if d > 0 then k else 256 - k;
    ReadsWhole(ref, d, k, vco, times);
    TooHigh(vco, 2 * ref * times, ref);
  }

  lemma TooHigh(vco: nat, r: nat, ref: nat)
    requires r > vco
    ensures !Close(vco, r, ref)
  {
  }

  lemma WideBounds(ref: nat, d: int, k: nat, vco: nat)
    requires 0x4000_0000 <= ref < 0x4000_0000_0000_0000
    requires -0x8000_0000 <= d < 0x8000_0000 && d < 2 * ref && d != 0
    requires k == (if d < 0 && ref >= 0x80_0000_0000_0000 then 255 else 1) && vco == k * Magnitude(d)
    ensures vco < 0x800_0000_0000 && vco < 512 * ref
    ensures var times := if d > 0 then k else 256 - k;
      && 2 * ref * times < U64 && vco < 2 * ref * times
      && 2 * ref * times == if d < 0 && k == 1 then 510 * ref else 2 * ref
  {
  }

  /** A rate of k divisors reads back as that many times the doubled reference. */
  lemma ReadsWhole(ref: nat, d: int, k: nat, vco: nat, times: nat)
    requires Computable(vco, ref) && d == S32(2 * ref) && vco == k * Magnitude(d) && (k == 1 || k == 255)
    requires times == (if d > 0 then k else 256 - k) && 2 * ref * times < U64
    ensures GetRate(RateCalc(vco, ref), ref) == 2 * ref * times
  {
    WholeMultiple(ref, d, k, vco);
    WholeParts(k);
    GetRateOfCalc(vco, ref);
    RateWhole(2 * ref, times);
  }

  lemma WholeMultiple(ref: nat, d: int, k: nat, vco: nat)
    requires Computable(vco, ref) && d == S32(2 * ref) && vco == k * Magnitude(d)
    ensures Multiple(vco, ref) == if d > 0 then k * M else -(k * M)
  {
    var n := Magnitude(d);
    assert vco * M == k * M * n;
    QuotIs(vco * M, n, k * M);
  }

  lemma WholeParts(k: nat)
    requires k == 1 || k == 255
    ensures DecOf(k * M) % 256 == k && FracOf(k * M) % M == 0
    ensures DecOf(-(k * M)) % 256 == 256 - k && FracOf(-(k * M)) % M == 0
  {
  }

  lemma RateWhole(twice: nat, dec: nat)
    requires twice * dec < U64
    ensures Rate64(twice, dec, 0) == twice * dec
  {
    QuotIs(twice * 0, M, 0);
    Small(twice * dec);
  }

  /** The promise for a reference: every rate below 512 times it can be set and comes
      back close. */
  ghost predicate Promised(ref: nat) {
    forall vco: nat :: vco < 512 * ref && InRange(vco, ref) ==>
      Computable(vco, ref) && Close(vco, GetRate(RateCalc(vco, ref), ref), ref)
  }

  /** The promise is kept exactly for references below 2^30. Above, where the double is
      a multiple of 2^32 the code divides by zero, and elsewhere some rate comes back
      too high. */
  lemma PromisedIff(ref: nat)
    requires 0 < ref < 0x4000_0000_0000_0000
    ensures Promised(ref) <==> ref < 0x4000_0000
  {
    if ref < 0x4000_0000 {
      forall vco: nat | vco < 512 * ref && InRange(vco, ref)
        ensures Computable(vco, ref) && Close(vco, GetRate(RateCalc(vco, ref), ref), ref)
      {
        RoundTripIff(vco, ref);
      }
    } else if S32(2 * ref) == 0 {
      assert InRange(0, ref) && !Computable(0, ref);
    } else {
      WideReferenceFar(ref);
    }
  }
}
