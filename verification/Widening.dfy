/** Widening configuration bytes to GPIF words in place, and the bladeRF1 bit-scatter table. */
module Widening {
  import opened Bytes

  type word = w: int | 0 <= w < 0x1_0000

  type Lut = l: seq<word> | |l| == 256 witness seq(256, _ => 0)

  /** The little-endian 16-bit word number i of a byte buffer. */
  function WordAt(s: seq<byte>, i: nat): (w: word)
    requires 2 * i + 1 < |s|
  {
    s[2 * i] as int + 256 * s[2 * i + 1] as int
  }

  function Words(s: seq<byte>, n: nat): (w: seq<word>)
    requires 2 * n <= |s|
    ensures |w| == n
    ensures forall i :: 0 <= i < n ==> w[i] == WordAt(s, i)
  {
    if n == 0 then [] else Words(s, n - 1) + [WordAt(s, n - 1)]
  }

  /** Table lookup of a run of bytes. */
  function Lookup(lut: Lut, s: seq<byte>): (w: seq<word>)
    ensures |w| == |s|
    ensures forall i :: 0 <= i < |s| ==> w[i] == lut[s[i]]
  {
    if s == [] then [] else Lookup(lut, s[..|s| - 1]) + [lut[s[|s| - 1]]]
  }

  lemma {:induction false} LookupConcat(lut: Lut, a: seq<byte>, b: seq<byte>)
    ensures Lookup(lut, a + b) == Lookup(lut, a) + Lookup(lut, b)
  {
    if b == [] {
      assert a + b == a;
    } else {
      assert (a + b)[..|a + b| - 1] == a + b[..|b| - 1];
      LookupConcat(lut, a, b[..|b| - 1]);
    }
  }

  /** Replace each of the first `count` bytes by its table word, back to front in the same buffer.
      No byte is read after it was overwritten: word i is the table entry of the original byte i. */
  method WidenInPlace(buf: array<byte>, count: nat, lut: Lut)
    requires 2 * count <= buf.Length
    modifies buf
    ensures Words(buf[..], count) == Lookup(lut, old(buf[..count]))
    ensures forall j :: 2 * count <= j < buf.Length ==> buf[j] == old(buf[j])
  {
    ghost var src := buf[..];
    var i := count;
    while i > 0
      invariant 0 <= i <= count
      invariant forall j :: 0 <= j < 2 * i || 2 * count <= j < buf.Length ==> buf[j] == src[j]
      invariant forall j :: i <= j < count ==> Holds(buf[2 * j], buf[2 * j + 1], lut[src[j]])
    {
      i := i - 1;
      StoreWord(buf, i, lut[buf[i]]);
    }
    ghost var now := buf[..];
    forall j | 0 <= j < count ensures WordAt(now, j) == lut[src[j]] {
      assert Holds(buf[2 * j], buf[2 * j + 1], lut[src[j]]);
    }
    assert src[..count] == old(buf[..count]);
  }

  predicate Holds(lo: byte, hi: byte, w: word) { lo as int + 256 * hi as int == w }

  method StoreWord(buf: array<byte>, i: nat, w: word)
    requires 2 * i + 1 < buf.Length
    modifies buf
    ensures Holds(buf[2 * i], buf[2 * i + 1], w)
    ensures forall j :: 0 <= j < buf.Length && j != 2 * i && j != 2 * i + 1 ==> buf[j] == old(buf[j])
  {
    buf[2 * i], buf[2 * i + 1] := w % 256, w / 256;
  }

  // ----- The bladeRF1 table

  /** US_GPIF_2_FPP: bit `fpp` of the byte drives bit `gpif` of the word (both as weights). */
  function Line(b: byte, fpp: int, gpif: int): (v: int)
    requires fpp > 0
    ensures v == 0 || v == gpif
  {
    if b / fpp % 2 == 1 then gpif else 0
  }

  function Scatter(b: byte): (w: word) {
    Line(b, 1, 128) + Line(b, 2, 32768) + Line(b, 4, 64) + Line(b, 8, 4)
    + Line(b, 16, 2) + Line(b, 32, 8) + Line(b, 64, 512) + Line(b, 128, 2048)
  }

  /** The lowest n bits of a value, least significant first, and the value of a list of bits. */
  function BitsOf(w: nat, n: nat): seq<int> { if n == 0 then [] else [w % 2] + BitsOf(w / 2, n - 1) }

  function FromBits(l: seq<int>): int { if l == [] then 0 else l[0] + 2 * FromBits(l[1..]) }

  predicate AreBits(l: seq<int>) { forall i :: 0 <= i < |l| ==> l[i] == 0 || l[i] == 1 }

  lemma {:induction false} BitsRoundTrip(l: seq<int>)
    requires AreBits(l)
    ensures FromBits(l) >= 0 && BitsOf(FromBits(l), |l|) == l
  {
    if l != [] {
      BitsRoundTrip(l[1..]);
      Halved(l[0], FromBits(l[1..]));
    }
  }

  lemma Halved(e: int, rest: int)
    requires e == 0 || e == 1
    ensures (e + 2 * rest) % 2 == e && (e + 2 * rest) / 2 == rest
  {
  }

  lemma FromBits4(l: seq<int>)
    requires |l| >= 4
    ensures FromBits(l) == l[0] + 2 * l[1] + 4 * l[2] + 8 * l[3] + 16 * FromBits(l[4..])
  {
    var a, b, c := l[1..], l[2..], l[3..];
    assert a[1..] == b && b[1..] == c && c[1..] == l[4..];
    assert FromBits(c) == l[3] + 2 * FromBits(l[4..]);
    assert FromBits(b) == l[2] + 2 * FromBits(c);
    assert FromBits(a) == l[1] + 2 * FromBits(b);
  }

  lemma FromBits16(l: seq<int>)
    requires |l| == 16
    ensures FromBits(l) ==
              l[0] + 2 * l[1] + 4 * l[2] + 8 * l[3] + 16 * l[4] + 32 * l[5] + 64 * l[6] + 128 * l[7] + 256 * l[8] + 512 * l[9]
              + 1024 * l[10] + 2048 * l[11] + 4096 * l[12] + 8192 * l[13] + 16384 * l[14] + 32768 * l[15]
  {
    var a, b, c := l[4..], l[8..], l[12..];
    assert a[4..] == b && b[4..] == c && c[4..] == [];
    FromBits4(l);
    FromBits4(a);
    FromBits4(b);
    FromBits4(c);
  }

  function Bit(b: byte, weight: int): int
    requires weight > 0
  {
    b / weight % 2
  }

  lemma LineIs(b: byte, fpp: int, gpif: int) returns (e: int)
    requires fpp > 0
    ensures e == Bit(b, fpp) && (e == 0 || e == 1) && Line(b, fpp, gpif) == gpif * e
  {
    e := Bit(b, fpp);
  }

  /** The bits of a byte, least significant first. */
  function ByteBits(b: byte): (e: seq<int>)
    ensures |e| == 8
  {
    [Bit(b, 1), Bit(b, 2), Bit(b, 4), Bit(b, 8), Bit(b, 16), Bit(b, 32), Bit(b, 64), Bit(b, 128)]
  }

  /** The sixteen lines of a word, from bit 0: bits 4, 3, 5, 2, 0, 6, 7 and 1 of the byte on lines 1, 2,
      3, 6, 7, 9, 11 and 15, and zeros. */
  function Arranged(e: seq<int>): (l: seq<int>)
    requires |e| == 8
    ensures |l| == 16
  {
    [0, e[4], e[3], e[5], 0, 0, e[2], e[0], 0, e[6], 0, e[7], 0, 0, 0, e[1]]
  }

  /** The word of a byte has the byte's bits on those lines. */
  lemma ScatterBits(b: byte)
    ensures BitsOf(Scatter(b), |Arranged(ByteBits(b))|) == Arranged(ByteBits(b))
  {
    var e := LinesSum(b);
    ArrangedWord(Scatter(b), e);
  }

  lemma LinesSum(b: byte) returns (e: seq<int>)
    ensures e == ByteBits(b) && AreBits(e)
    ensures Scatter(b) == 128 * e[0] + 32768 * e[1] + 64 * e[2] + 4 * e[3] + 2 * e[4] + 8 * e[5] + 512 * e[6] + 2048 * e[7]
  {
    var e0 := LineIs(b, 1, 128);
    var e1 := LineIs(b, 2, 32768);
    var e2 := LineIs(b, 4, 64);
    var e3 := LineIs(b, 8, 4);
    var e4 := LineIs(b, 16, 2);
    var e5 := LineIs(b, 32, 8);
    var e6 := LineIs(b, 64, 512);
    var e7 := LineIs(b, 128, 2048);
    e := [e0, e1, e2, e3, e4, e5, e6, e7];
  }

  lemma ArrangedWord(w: nat, e: seq<int>)
    requires |e| == 8 && AreBits(e)
    requires w == 128 * e[0] + 32768 * e[1] + 64 * e[2] + 4 * e[3] + 2 * e[4] + 8 * e[5] + 512 * e[6] + 2048 * e[7]
    ensures BitsOf(w, |Arranged(e)|) == Arranged(e)
  {
    var l := Arranged(e);
    assert AreBits(l);
    WordOfLines(w, l);
  }

  lemma WordOfLines(w: nat, l: seq<int>)
    requires |l| == 16 && AreBits(l)
    requires l[0] == l[4] == l[5] == l[8] == l[10] == l[12] == l[13] == l[14] == 0
    requires w == 128 * l[7] + 32768 * l[15] + 64 * l[6] + 4 * l[2] + 2 * l[1] + 8 * l[3] + 512 * l[9] + 2048 * l[11]
    ensures BitsOf(w, |l|) == l
  {
    FromBits16(l);
    BitsRoundTrip(l);
  }

  predicate IsScatterLut(lut: Lut) { forall i :: 0 <= i < 256 ==> lut[i] == Scatter(i) }

  /** `NuandFpgaConfigSwFlipLut_bladeRF1`. */
  method FillFlipLut() returns (lut: Lut)
    ensures IsScatterLut(lut)
  {
    var table := new word[256];
    for i := 0 to 256
      invariant forall j :: 0 <= j < i ==> table[j] == Scatter(j)
    {
      var tmpw := 0;
      tmpw := tmpw + Line(i, 1, 128);
      tmpw := tmpw + Line(i, 2, 32768);
      tmpw := tmpw + Line(i, 4, 64);
      tmpw := tmpw + Line(i, 8, 4);
      tmpw := tmpw + Line(i, 16, 2);
      tmpw := tmpw + Line(i, 32, 8);
      tmpw := tmpw + Line(i, 64, 512);
      tmpw := tmpw + Line(i, 128, 2048);
      assert tmpw == Scatter(i);
      table[i] := tmpw;
    }
    lut := table[..];
  }

  /** A byte is determined by its bits: halving it step by step. */
  lemma SameHalves(a: int, b: int)
    requires a % 2 == b % 2 && a / 2 == b / 2
    ensures a == b
  {
  }

  lemma Halving(b: byte)
    ensures b / 2 / 2 == b / 4 && b / 4 / 2 == b / 8 && b / 8 / 2 == b / 16 && b / 16 / 2 == b / 32
    ensures b / 32 / 2 == b / 64 && b / 64 / 2 == b / 128 && b / 128 / 2 == 0
  {
  }

  /** The table loses nothing: it is injective. */
  lemma ScatterInjective(a: byte, b: byte)
    ensures Scatter(a) == Scatter(b) ==> a == b
  {
    if Scatter(a) == Scatter(b) {
      ScatterBits(a);
      ScatterBits(b);
      SameArrangement(ByteBits(a), ByteBits(b));
      SameByteBits(a, b);
    }
  }

  lemma SameArrangement(e: seq<int>, f: seq<int>)
    requires |e| == |f| == 8 && Arranged(e) == Arranged(f)
    ensures e == f
  {
    var l, k := Arranged(e), Arranged(f);
    assert l[7] == k[7] && l[15] == k[15] && l[6] == k[6] && l[2] == k[2] && l[1] == k[1] && l[3] == k[3] && l[9] == k[9] && l[11] == k[11];
  }

  lemma SameByteBits(a: byte, b: byte)
    requires ByteBits(a) == ByteBits(b)
    ensures a == b
  {
    var e, f := ByteBits(a), ByteBits(b);
    assert e[0] == f[0] && e[1] == f[1] && e[2] == f[2] && e[3] == f[3] && e[4] == f[4] && e[5] == f[5] && e[6] == f[6] && e[7] == f[7];
    SameBits(a, b);
  }

  lemma SameBits(a: byte, b: byte)
    requires a / 1 % 2 == b / 1 % 2 && a / 2 % 2 == b / 2 % 2 && a / 4 % 2 == b / 4 % 2 && a / 8 % 2 == b / 8 % 2
    requires a / 16 % 2 == b / 16 % 2 && a / 32 % 2 == b / 32 % 2 && a / 64 % 2 == b / 64 % 2 && a / 128 % 2 == b / 128 % 2
    ensures a == b
  {
    Halving(a);
    Halving(b);
    SameHalves(a / 128, b / 128);
    SameHalves(a / 64, b / 64);
    SameHalves(a / 32, b / 32);
    SameHalves(a / 16, b / 16);
    SameHalves(a / 8, b / 8);
    SameHalves(a / 4, b / 4);
    SameHalves(a / 2, b / 2);
    SameHalves(a, b);
  }

  /** With the scatter table the original bytes are recoverable from the words sent. */
  lemma LookupRecovers(lut: Lut, s: seq<byte>, t: seq<byte>)
    requires IsScatterLut(lut) && Lookup(lut, s) == Lookup(lut, t)
    ensures s == t
  {
    assert |s| == |Lookup(lut, s)| == |t|;
    forall i | 0 <= i < |s| ensures s[i] == t[i] {
      assert Lookup(lut, s)[i] == lut[s[i]] && Lookup(lut, t)[i] == lut[t[i]];
      ScatterInjective(s[i], t[i]);
    }
  }
}
