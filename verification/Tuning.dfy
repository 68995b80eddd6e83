/** The LMS6002D PLL arithmetic: band selection, the integer/fraction split of the VCO
    frequency, and the conversion back to Hz. */
module Tuning {
  import opened Bytes

  const REF: int := 38400000
  const FREQ_MIN: int := 237500000
  const FREQ_MAX: int := 3800000000
  const BAND_HIGH: int := 1500000000
  const FRAC: int := 0x80_0000
  const VCO_MIN: int := 3800000000
  const VCO_MAX: int := 7600000000

  datatype FreqRange = FreqRange(low: int, high: int, value: byte)

  /** SELVCO (4..7) in bits [5:3], FRANGE (4..7) in bits [2:0]. */
  const BANDS: seq<FreqRange> := [
    FreqRange(FREQ_MIN, 283437500, 39),     FreqRange(283437500, 338000000, 47),
    FreqRange(338000000, 405000000, 55),    FreqRange(405000000, 475000000, 63),
    FreqRange(475000000, 566875000, 38),    FreqRange(566875000, 676000000, 46),
    FreqRange(676000000, 810000000, 54),    FreqRange(810000000, 950000000, 62),
    FreqRange(950000000, 1133750000, 37),   FreqRange(1133750000, 1352000000, 45),
    FreqRange(1352000000, 1620000000, 53),  FreqRange(1620000000, 1900000000, 61),
    FreqRange(1900000000, 2267500000, 36),  FreqRange(2267500000, 2704000000, 44),
    FreqRange(2704000000, 3240000000, 52),  FreqRange(3240000000, FREQ_MAX, 60)
  ]

  /** `struct lms_freq`; the two defined flag bits as booleans. */
  datatype LmsFreq = LmsFreq(freqsel: byte, vcocap: byte, nint: int, nfrac: int,
                             lowBand: bool, forceVcocap: bool, xbGpio: byte, x: int)

  /** The VCO division ratio `1 << ((freqsel & 7) - 3)`. */
  function Ratio(freqsel: byte): (x: int)
    requires freqsel % 8 >= 3
    ensures x in {1, 2, 4, 8, 16}
  {
    match freqsel % 8
    case 3 => 1
    case 4 => 2
    case 5 => 4
    case 6 => 8
    case _ => 16
  }

  /** The frequency in range that is nearest to the request. */
  function Clamp(freq: int): (r: int)
    ensures FREQ_MIN <= r <= FREQ_MAX
    ensures forall f :: FREQ_MIN <= f <= FREQ_MAX ==> Distance(freq, r) <= Distance(freq, f)
  {
    if freq < FREQ_MIN then FREQ_MIN else if freq > FREQ_MAX then FREQ_MAX else freq
  }

  function Distance(a: int, b: int): int { if a <= b then b - a else a - b }

  predicate InBand(freq: int, i: int)
    requires 0 <= i < |BANDS|
  {
    BANDS[i].low <= freq <= BANDS[i].high
  }

  /** First band at or after i that holds the frequency; |BANDS| when there is none. */
  function FindBand(freq: int, i: nat): (k: nat)
    requires i <= |BANDS|
    ensures i <= k <= |BANDS|
    ensures k < |BANDS| ==> InBand(freq, k)
    ensures forall j :: i <= j < k ==> !InBand(freq, j)
    decreases |BANDS| - i
  {
    if i == |BANDS| || InBand(freq, i) then i else FindBand(freq, i + 1)
  }

  /** The ratio the band table assigns, by frequency alone. */
  function RatioFor(freq: int): int {
    if freq <= 475000000 then 16 else if freq <= 950000000 then 8 else if freq <= 1900000000 then 4 else 2
  }

  /** The oscillator whose range holds a VCO frequency: VCO4 up to 4.535 GHz, VCO3 up to 5.408, VCO2 up
      to 6.48 and VCO1 above. */
  function SelvcoFor(vco: int): int {
    if vco <= 4535000000 then 4 else if vco <= 5408000000 then 5 else if vco <= 6480000000 then 6 else 7
  }

  function Nint(x: int, freq: int): int { x * freq / REF }

  function Nfrac(x: int, freq: int): int { (FRAC * (x * freq - Nint(x, freq) * REF) + REF / 2) / REF }

  /** The VCOCAP estimate, linear from 15 to 55 over the band and rounded half up, in exact arithmetic:
      the nearest code to that line. */
  function EstimateVcocap(freq: int, low: int, high: int): (v: byte)
    requires low <= freq <= high && low < high
    ensures 15 <= v <= 55
    ensures OnLine(v, freq, low, high)
  {
    RoundedHalfUp(40 * (freq - low), high - low);
    15 + RoundHalfUp(40 * (freq - low), high - low)
  }

  /** v is within 1/2 of the line from 15 at low to 55 at high. */
  predicate OnLine(v: int, freq: int, low: int, high: int) {
    -(high - low) <= 2 * ((v - 15) * (high - low) - 40 * (freq - low)) <= high - low
  }

  /** The floor of n / d + 1/2. */
  function RoundHalfUp(n: nat, d: int): int
    requires d > 0
  {
    (2 * n + d) / (2 * d)
  }

  lemma RoundedHalfUp(n: nat, d: int)
    requires d > 0
    ensures var q := RoundHalfUp(n, d); -d <= 2 * (q * d - n) <= d && 0 <= q && (n <= 40 * d ==> q <= 40)
  {
    var q, m := RoundHalfUp(n, d), 2 * d;
    assert q * m <= 2 * n + d < q * m + m;
    assert q * m == 2 * (q * d);
    if q > 40 { assert q * m >= 41 * m; }
  }

  /** What `lms_calculate_tuning_params` leaves in its result for a frequency in range. */
  function TuningParams(freq: int): (f: LmsFreq)
    requires FREQ_MIN <= freq <= FREQ_MAX
  {
    BandFound(freq);
    var band := BANDS[FindBand(freq, 0)];
    var x := Ratio(band.value);
    LmsFreq(band.value, EstimateVcocap(freq, band.low, band.high), Nint(x, freq), Nfrac(x, freq),
            freq < BAND_HIGH, false, 0, x)
  }

  /** `lms_frequency_to_hz`. */
  function ToHz(f: LmsFreq): int
    requires f.x > 0
  {
    (REF * (f.nint * FRAC + f.nfrac) + f.x * FRAC / 2) / (f.x * FRAC)
  }

  /** The frequencies whose fraction rounds up to a full 2^23. */
  predicate RoundsUp(freq: int) {
    RatioFor(freq) == 2 && freq % 19200000 == 19199999
  }

  // ----- The code

  method CalculateTuningParams(requested: int) returns (ok: bool, f: LmsFreq)
    requires 0 <= requested < 0x1_0000_0000
    ensures ok && f == TuningParams(Clamp(requested))
  {
    var freq := requested;
    if freq < FREQ_MIN {
      freq := FREQ_MIN;
    } else if freq > FREQ_MAX {
      freq := FREQ_MAX;
    }
    var freqsel := BANDS[0].value;
    var i := 0;
    BandFound(freq);
    while i < |BANDS|
      invariant 0 <= i <= |BANDS|
      invariant FindBand(freq, i) == FindBand(freq, 0) < |BANDS|
    {
      if BANDS[i].low <= freq && freq <= BANDS[i].high {
        freqsel := BANDS[i].value;
        break;
      }
      i := i + 1;
    }
    var vcocap := EstimateVcocap(freq, BANDS[i].low, BANDS[i].high);
    var x := Ratio(freqsel);
    var nint := (x * freq) / REF;
    var temp := FRAC * (x * freq - nint * REF);
    var nfrac := (temp + REF / 2) / REF;
    return true, LmsFreq(freqsel, vcocap, nint, nfrac, freq < BAND_HIGH, false, 0, x);
  }

  // ----- Facts about the band table

  lemma BandsWellFormed(i: nat)
    requires i < |BANDS|
    ensures BANDS[i].low < BANDS[i].high
    ensures BANDS[i].value < 64 && BANDS[i].value % 8 >= 4
    ensures i + 1 < |BANDS| ==> BANDS[i + 1].low == BANDS[i].high
    ensures i + 1 == |BANDS| ==> BANDS[i].high == FREQ_MAX
    ensures VCO_MIN <= BANDS[i].low * Ratio(BANDS[i].value)
    ensures BANDS[i].high * Ratio(BANDS[i].value) <= VCO_MAX
    ensures Ratio(BANDS[i].value) == RatioFor(BANDS[i].high)
    ensures BANDS[i].value / 8 == SelvcoFor(BANDS[i].high * Ratio(BANDS[i].value))
    ensures i > 0 && BANDS[i].low * Ratio(BANDS[i].value) > VCO_MIN ==>
              BANDS[i - 1].value / 8 + 1 == BANDS[i].value / 8
              && SelvcoFor(BANDS[i].low * Ratio(BANDS[i].value)) == BANDS[i - 1].value / 8
              && SelvcoFor(BANDS[i].low * Ratio(BANDS[i].value) + 1) == BANDS[i].value / 8
  {
  }

  lemma {:induction false} BandFoundFrom(freq: int, i: nat)
    requires i < |BANDS|
    requires BANDS[i].low <= freq <= FREQ_MAX
    ensures FindBand(freq, i) < |BANDS|
    decreases |BANDS| - i
  {
    BandsWellFormed(i);
    if !InBand(freq, i) {
      BandFoundFrom(freq, i + 1);
    }
  }

  /** No in-range frequency misses the table, and the chosen band is usable. */
  lemma BandFound(freq: int)
    requires FREQ_MIN <= freq <= FREQ_MAX
    ensures FindBand(freq, 0) < |BANDS|
    ensures var b := BANDS[FindBand(freq, 0)]; b.low <= freq <= b.high && b.low < b.high && b.value % 8 >= 4 && b.value < 64
  {
    BandFoundFrom(freq, 0);
    BandsWellFormed(FindBand(freq, 0));
  }

  /** The band puts the VCO inside its 3.8..7.6 GHz range, with the ratio the frequency alone
      determines. */
  lemma BandRatio(freq: int)
    requires FREQ_MIN <= freq <= FREQ_MAX
    ensures var f := TuningParams(freq);
            f.x == RatioFor(freq) && VCO_MIN <= f.x * freq <= VCO_MAX && f.freqsel / 8 == SelvcoFor(f.x * freq)
  {
    BandFound(freq);
    var k := FindBand(freq, 0);
    if k > 0 { PreviousBandBelow(freq, k); }
    BandRatioAt(freq, k);
  }

  lemma BandRatioAt(freq: int, k: nat)
    requires k < |BANDS|
    requires InBand(freq, k) && (k > 0 ==> BANDS[k - 1].high < freq)
    ensures BANDS[k].value % 8 >= 4 && Ratio(BANDS[k].value) == RatioFor(freq)
    ensures VCO_MIN <= Ratio(BANDS[k].value) * freq <= VCO_MAX
    ensures BANDS[k].value / 8 == SelvcoFor(Ratio(BANDS[k].value) * freq)
  {
    BandsWellFormed(k);
    if k > 0 { BandsWellFormed(k - 1); }
    var b := BANDS[k];
    var x := Ratio(b.value);
    assert x * b.low <= x * freq <= x * b.high;
  }

  /** The first match rule: a frequency on a shared edge belongs to the lower band. */
  lemma {:induction false} PreviousBandBelow(freq: int, k: nat)
    requires 0 < k < |BANDS|
    requires FREQ_MIN <= freq
    requires forall j :: 0 <= j < k ==> !InBand(freq, j)
    ensures BANDS[k - 1].high < freq
  {
    BandsWellFormed(k - 1);
    if k > 1 {
      PreviousBandBelow(freq, k - 1);
      BandsWellFormed(k - 2);
    }
    assert !InBand(freq, k - 1);
  }

  /** The ends of the oscillators' ranges. */
  function VcoLow(selvco: int): int { if selvco <= 4 then 3800000000 else VcoHigh(selvco - 1) }

  function VcoHigh(selvco: int): int {
    if selvco <= 4 then 4535000000 else if selvco == 5 then 5408000000 else if selvco == 6 then 6480000000 else 7600000000
  }

  lemma BandIsVcoRange(i: nat)
    requires i < |BANDS|
    ensures BANDS[i].value % 8 >= 4
    ensures BANDS[i].low * Ratio(BANDS[i].value) == VcoLow(BANDS[i].value / 8)
    ensures BANDS[i].high * Ratio(BANDS[i].value) == VcoHigh(BANDS[i].value / 8)
  {
  }

  /** The VCOCAP estimate is the code nearest to the line from 15 to 55 over the range of the chosen
      oscillator. */
  lemma EstimateByVco(freq: int)
    requires FREQ_MIN <= freq <= FREQ_MAX
    ensures var f := TuningParams(freq);
            var selvco := SelvcoFor(f.x * freq);
            OnLine(f.vcocap, f.x * freq, VcoLow(selvco), VcoHigh(selvco))
  {
    BandFound(freq);
    BandRatio(freq);
    EstimateInBand(freq, FindBand(freq, 0));
  }

  lemma EstimateInBand(freq: int, k: nat)
    requires k < |BANDS| && InBand(freq, k) && BANDS[k].low < BANDS[k].high
    ensures BANDS[k].value % 8 >= 4
    ensures var b := BANDS[k];
            OnLine(EstimateVcocap(freq, b.low, b.high), Ratio(b.value) * freq, VcoLow(b.value / 8), VcoHigh(b.value / 8))
  {
    BandIsVcoRange(k);
    var b := BANDS[k];
    Scaled(Ratio(b.value), EstimateVcocap(freq, b.low, b.high), freq, b.low, b.high);
  }

  lemma Scaled(x: int, v: int, freq: int, low: int, high: int)
    requires x > 0 && OnLine(v, freq, low, high)
    ensures OnLine(v, x * freq, low * x, high * x)
  {
    var w, e := high - low, (v - 15) * (high - low) - 40 * (freq - low);
    Distributes(v - 15, x, freq, low, high);
    ScaledBounds(x, w, e);
  }

  lemma ScaledBounds(x: int, w: int, e: int)
    requires x > 0 && -w <= 2 * e <= w
    ensures -(w * x) <= 2 * (e * x) <= w * x
  {
    assert (w - 2 * e) * x >= 0 && (w + 2 * e) * x >= 0;
  }

  lemma Distributes(u: int, x: int, freq: int, low: int, high: int)
    ensures high * x - low * x == (high - low) * x
    ensures u * (high * x - low * x) - 40 * (x * freq - low * x) == (u * (high - low) - 40 * (freq - low)) * x
  {
    var w, d := high - low, freq - low;
    assert x * freq - low * x == d * x;
    calc {
      u * (w * x) - 40 * (d * x);
      (u * w) * x - (40 * d) * x;
      (u * w - 40 * d) * x;
    }
  }

  // ----- Facts about the split

  lemma QuotientBy(a: int, q: int, r: int)
    requires a == q * REF + r && 0 <= r < REF
    ensures a / REF == q
  {
  }

  /** The remainder of the VCO frequency is a multiple of the ratio. */
  lemma RemainderScales(x: int, m: int, freq: int)
    requires x > 0 && m > 0 && x * m == REF && freq >= 0
    ensures x * freq - Nint(x, freq) * REF == x * (freq % m)
  {
    var s, q := freq % m, freq / m;
    assert x * freq == q * REF + x * s by {
      assert freq == q * m + s;
      assert x * freq == x * (q * m) + x * s;
      assert x * (q * m) == q * (x * m);
    }
    assert 0 <= x * s < REF by {
      assert x * s < x * m;
    }
    QuotientBy(x * freq, q, x * s);
  }

  /** The fraction is the nearest one, and reaches 2^23 exactly on the RoundsUp set. */
  lemma SplitIsNearest(freq: int)
    requires FREQ_MIN <= freq <= FREQ_MAX
    ensures var f := TuningParams(freq);
            && 98 <= f.nint <= 197
            && 0 <= f.nfrac <= FRAC
            && (f.nfrac == FRAC <==> RoundsUp(freq))
            && -(REF / 2) <= REF * (f.nint * FRAC + f.nfrac) - FRAC * (f.x * freq) <= REF / 2
  {
    BandRatio(freq);
    var x := TuningParams(freq).x;
    var r := x * freq - Nint(x, freq) * REF;
    if x == 2 {
      RemainderScales(2, 19200000, freq);
    } else if x == 4 {
      RemainderScales(4, 9600000, freq);
    } else if x == 8 {
      RemainderScales(8, 4800000, freq);
    } else {
      RemainderScales(16, 2400000, freq);
    }
    NearestFraction(r);
    assert REF * (Nint(x, freq) * FRAC) == FRAC * (x * freq - r);
  }

  /** The ranges of the two halves, and when the fraction fits its 23 bits. */
  lemma SplitFits(freq: int)
    requires FREQ_MIN <= freq <= FREQ_MAX
    ensures 98 <= TuningParams(freq).nint <= 197
    ensures 0 <= TuningParams(freq).nfrac <= FRAC
    ensures TuningParams(freq).nfrac == FRAC <==> RoundsUp(freq)
  {
    SplitIsNearest(freq);
  }

  lemma NearestFraction(r: int)
    requires 0 <= r < REF
    ensures var n := (FRAC * r + REF / 2) / REF;
            && 0 <= n <= FRAC
            && (n == FRAC <==> REF - r <= 2)
            && -(REF / 2) <= REF * n - FRAC * r <= REF / 2
  {
  }

  /** Reading the split back is within 1 Hz, and exact up to 950 MHz. */
  lemma HzError(freq: int)
    requires FREQ_MIN <= freq <= FREQ_MAX
    ensures var hz := ToHz(TuningParams(freq));
            -1 <= hz - freq <= 1 && (freq <= 950000000 ==> hz == freq)
  {
    SplitIsNearest(freq);
    BandRatio(freq);
    HzWithin(TuningParams(freq), freq);
  }

  lemma HzWithin(f: LmsFreq, freq: int)
    requires f.x in {2, 4, 8, 16}
    requires -(REF / 2) <= REF * (f.nint * FRAC + f.nfrac) - FRAC * (f.x * freq) <= REF / 2
    ensures -1 <= ToHz(f) - freq <= 1 && (f.x >= 8 ==> ToHz(f) == freq)
  {
    var e := REF * (f.nint * FRAC + f.nfrac) - FRAC * (f.x * freq);
    RoundedQuotient(f.x, freq, e);
  }

  lemma RoundedQuotient(x: int, freq: int, e: int)
    requires x in {2, 4, 8, 16}
    requires -(REF / 2) <= e <= REF / 2
    ensures var q := (FRAC * (x * freq) + e + x * FRAC / 2) / (x * FRAC);
            -1 <= q - freq <= 1 && (x >= 8 ==> q == freq)
  {
    var d := x * FRAC;
    assert FRAC * (x * freq) == d * freq;
    if x == 2 { assert d == 16777216; }
    else if x == 4 { assert d == 33554432; }
    else if x == 8 { assert d == 67108864; }
    else { assert d == 134217728; }
  }

  /** Dropping bit 23 of the fraction, as the 23-bit register field does, is harmless exactly off
      the RoundsUp set; on it the readback is 19199999 Hz low. */
  lemma TruncatedFraction(freq: int)
    requires FREQ_MIN <= freq <= FREQ_MAX
    ensures var f := TuningParams(freq);
            var hz := ToHz(f.(nfrac := f.nfrac % FRAC));
            && (!RoundsUp(freq) ==> hz == ToHz(f))
            && (RoundsUp(freq) ==> hz == freq - 19199999)
  {
    SplitFits(freq);
    var f := TuningParams(freq);
    if RoundsUp(freq) {
      BandRatio(freq);
      RoundedUpReadback(f.(nfrac := 0), freq);
    } else {
      KeptFraction(f);
    }
  }

  lemma KeptFraction(f: LmsFreq)
    requires 0 <= f.nfrac < FRAC
    ensures f.(nfrac := f.nfrac % FRAC) == f
  {
  }

  lemma RoundedUpReadback(f: LmsFreq, freq: int)
    requires f.x == 2 && f.nfrac == 0 && f.nint == Nint(2, freq) && freq >= 0 && freq % 19200000 == 19199999
    ensures ToHz(f) == freq - 19199999
  {
    RemainderScales(2, 19200000, freq);
    HzWithoutFraction(f, freq);
  }

  lemma HzWithoutFraction(f: LmsFreq, freq: int)
    requires f.x == 2 && f.nfrac == 0
    requires 2 * freq - f.nint * REF == 38399998
    ensures ToHz(f) == freq - 19199999
  {
    assert REF * (f.nint * FRAC) == FRAC * (2 * (freq - 19199999));
    HalfQuotient(freq - 19199999);
  }

  lemma HalfQuotient(v: int)
    ensures (FRAC * (2 * v) + 2 * FRAC / 2) / (2 * FRAC) == v
  {
  }

  /** A frequency in the failing family. */
  lemma RoundsUpExample()
    ensures FREQ_MIN <= 1919999999 <= FREQ_MAX && RoundsUp(1919999999)
  {
  }
}
