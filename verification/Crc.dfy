/** The CRC-16 of the flash metadata records (`zcrc`): polynomial x^16 + x^12 + x^5 + 1, as in
    section 2 of ITU-T V.41, initial value zero, most significant bit first.

    Unsigned words are lists of bits, least significant first, so that the C operators `^`, `<< 1`
    and the test of a bit are what they are on bits, truncated to the width of the word. */
module Crc {

  type Word = w: seq<bool> | |w| == 16 witness seq(16, _ => false)
  type Octet = o: seq<bool> | |o| == 8 witness seq(8, _ => false)

  const ZERO: Word := ZERO8 + ZERO8
  const ZERO8: Octet := [false, false, false, false, false, false, false, false]

  /** 0x1021: bits 0, 5 and 12. */
  const POLY: Word := [true, false, false, false, false, true, false, false, false, false, false, false, true, false, false, false]

  function Xor(a: Word, b: Word): (c: Word)
    ensures forall i :: 0 <= i < 16 ==> c[i] == (a[i] != b[i])
  {
    seq(16, i requires 0 <= i < 16 => a[i] != b[i])
  }

  function Xor8(a: Octet, b: Octet): (c: Octet)
    ensures forall i :: 0 <= i < 8 ==> c[i] == (a[i] != b[i])
  {
    seq(8, i requires 0 <= i < 8 => a[i] != b[i])
  }

  /** `w << 1` in 16 bits. */
  function Shl(w: Word): Word { [false] + w[..15] }

  /** A byte in the high or the low half of a word. */
  function High(b: Octet): Word { ZERO8 + b }

  function Low(b: Octet): Word { b + ZERO8 }

  // ----- Specification

  /** One bit through the shift register: multiplication by x modulo the polynomial. */
  function Step(s: Word): Word { if s[15] then Xor(Shl(s), POLY) else Shl(s) }

  function Steps(s: Word, n: nat): Word
    decreases n
  {
    if n == 0 then s else Steps(Step(s), n - 1)
  }

  /** One byte: a step for each of its bits. */
  function Feed(s: Word, b: Octet): Word { Steps(Xor(s, High(b)), |b|) }

  function CrcFrom(s: Word, m: seq<Octet>): Word
    decreases |m|
  {
    if m == [] then s else CrcFrom(Feed(s, m[0]), m[1..])
  }

  function Crc(m: seq<Octet>): Word { CrcFrom(ZERO, m) }

  function XorSeq(a: seq<Octet>, b: seq<Octet>): (c: seq<Octet>)
    requires |a| == |b|
    ensures |c| == |a|
    ensures forall i :: 0 <= i < |a| ==> c[i] == Xor8(a[i], b[i])
  {
    if a == [] then [] else [Xor8(a[0], b[0])] + XorSeq(a[1..], b[1..])
  }

  // ----- The code

  /** The inner loop: shifts, with the polynomial subtracted when a bit falls out. */
  method ShiftBits(start: Word, n: nat) returns (ret: Word)
    ensures ret == Steps(start, n)
  {
    ret := start;
    for b := 0 to n
      invariant Steps(ret, n - b) == Steps(start, n)
    {
      ghost var before := ret;
      var msb := ret[15];
      ret := Shl(ret);
      if msb {
        ret := Xor(ret, POLY);
      }
      assert ret == Step(before);
    }
  }

  method Zcrc(data: array<Octet>) returns (ret: Word)
    ensures ret == Crc(data[..])
  {
    ret := ZERO;
    for i := 0 to data.Length
      invariant CrcFrom(ret, data[i..]) == Crc(data[..])
    {
      assert data[i..][1..] == data[i + 1..];
      ret := Xor(ret, High(data[i]));
      ret := ShiftBits(ret, 8);
    }
    assert data[data.Length..] == [];
  }

  // ----- Facts about one step

  lemma StepBits(s: Word)
    ensures forall i :: 0 <= i < 16 ==> Step(s)[i] == ((i > 0 && s[i - 1]) != (s[15] && POLY[i]))
  {
  }

  /** The step is linear. */
  lemma StepLinear(s: Word, t: Word)
    ensures Step(Xor(s, t)) == Xor(Step(s), Step(t))
  {
    StepBits(s);
    StepBits(t);
    StepBits(Xor(s, t));
  }

  lemma StepZero()
    ensures Step(ZERO) == ZERO
  {
    StepBits(ZERO);
  }

  /** The polynomial has a constant term, so a step never clears a set register. */
  lemma StepKernel(s: Word)
    requires Step(s) == ZERO
    ensures s == ZERO
  {
    StepBits(s);
    assert POLY[0] && !Step(s)[0];
    assert !s[15];
    forall i | 0 <= i < 15 ensures !s[i] {
      assert Step(s)[i + 1] == s[i];
    }
  }

  // ----- Linearity

  lemma {:induction false} StepsLinear(s: Word, t: Word, n: nat)
    ensures Steps(Xor(s, t), n) == Xor(Steps(s, n), Steps(t, n))
    decreases n
  {
    if n > 0 {
      StepLinear(s, t);
      StepsLinear(Step(s), Step(t), n - 1);
    }
  }

  lemma XorMedial(a: Word, b: Word, c: Word, d: Word)
    ensures Xor(Xor(a, b), Xor(c, d)) == Xor(Xor(a, c), Xor(b, d))
  {
  }

  lemma HighXor(a: Octet, b: Octet)
    ensures High(Xor8(a, b)) == Xor(High(a), High(b))
  {
  }

  lemma FeedLinear(s: Word, t: Word, a: Octet, b: Octet)
    ensures Feed(Xor(s, t), Xor8(a, b)) == Xor(Feed(s, a), Feed(t, b))
  {
    HighXor(a, b);
    XorMedial(s, t, High(a), High(b));
    StepsLinear(Xor(s, High(a)), Xor(t, High(b)), 8);
  }

  lemma {:induction false} CrcFromLinear(s: Word, t: Word, a: seq<Octet>, b: seq<Octet>)
    requires |a| == |b|
    ensures CrcFrom(Xor(s, t), XorSeq(a, b)) == Xor(CrcFrom(s, a), CrcFrom(t, b))
    decreases |a|
  {
    if |a| > 0 {
      FeedLinear(s, t, a[0], b[0]);
      CrcFromLinear(Feed(s, a[0]), Feed(t, b[0]), a[1..], b[1..]);
    }
  }

  lemma XorZero()
    ensures Xor(ZERO, ZERO) == ZERO
  {
  }

  /** The CRC of a bytewise XOR is the XOR of the CRCs. */
  lemma Linear(a: seq<Octet>, b: seq<Octet>)
    requires |a| == |b|
    ensures Crc(XorSeq(a, b)) == Xor(Crc(a), Crc(b))
  {
    XorZero();
    CrcFromLinear(ZERO, ZERO, a, b);
  }

  // ----- Self-check

  lemma {:induction false} CrcFromConcat(s: Word, a: seq<Octet>, b: seq<Octet>)
    ensures CrcFrom(s, a + b) == CrcFrom(CrcFrom(s, a), b)
    decreases |a|
  {
    if a == [] {
      assert a + b == b;
    } else {
      assert (a + b)[1..] == a[1..] + b;
      CrcFromConcat(Feed(s, a[0]), a[1..], b);
    }
  }

  lemma CrcFromTwo(s: Word, x: Octet, y: Octet)
    ensures CrcFrom(s, [x, y]) == Feed(Feed(s, x), y)
  {
    assert [x, y][1..] == [y] && [y][1..] == [];
    assert CrcFrom(s, [x, y]) == CrcFrom(Feed(s, x), [y]);
  }

  lemma {:induction false} StepsZero(n: nat)
    ensures Steps(ZERO, n) == ZERO
  {
    if n > 0 {
      StepZero();
      StepsZero(n - 1);
    }
  }

  /** n shifts of a word whose top n bits are clear only move the bits up. */
  lemma {:induction false} StepsMoveUp(s: Word, n: nat)
    requires n <= 16 && forall i :: 16 - n <= i < 16 ==> !s[i]
    ensures forall i :: 0 <= i < 16 ==> Steps(s, n)[i] == (i >= n && s[i - n])
    decreases n
  {
    if n > 0 {
      var t := Shl(s);
      assert Step(s) == t;
      ShlBits(s);
      StepsMoveUp(t, n - 1);
      var u := Steps(t, n - 1);
      forall i | 0 <= i < 16 ensures u[i] == (i >= n && s[i - n]) {
        assert i >= n - 1 ==> t[i - (n - 1)] == (i - (n - 1) > 0 && s[i - (n - 1) - 1]);
      }
    }
  }

  lemma ShlBits(s: Word)
    ensures forall i :: 0 <= i < 16 ==> Shl(s)[i] == (i > 0 && s[i - 1])
  {
  }

  lemma LowMovesUp(b: Octet)
    ensures Steps(Low(b), 8) == High(b)
  {
    StepsMoveUp(Low(b), 8);
  }

  lemma XorCancels(a: Word, b: Word)
    ensures Xor(Xor(a, b), a) == b && Xor(a, a) == ZERO
    ensures Xor(ZERO, a) == a && Xor(a, ZERO) == a
    ensures Xor(a, b) == ZERO <==> a == b
  {
    assert Xor(Xor(a, b), a) == b;
    if Xor(a, b) == ZERO {
      forall i | 0 <= i < 16 ensures a[i] == b[i] {
        assert !ZERO[i] && Xor(a, b)[i] == ZERO[i];
      }
    }
  }

  /** Feeding a register its own two bytes, high one first, clears it. */
  lemma OwnBytesClear(s: Word)
    ensures CrcFrom(s, [s[8..], s[..8]]) == ZERO
  {
    var x, y := s[8..], s[..8];
    assert s == Xor(High(x), Low(y));
    XorCancels(High(x), Low(y));
    LowMovesUp(y);
    assert Feed(s, x) == High(y);
    XorCancels(High(y), ZERO);
    StepsZero(8);
    CrcFromTwo(s, x, y);
  }

  /** A record followed by its CRC, high byte first, has CRC zero. */
  lemma SelfCheck(m: seq<Octet>)
    ensures Crc(m + [Crc(m)[8..], Crc(m)[..8]]) == ZERO
  {
    CrcFromConcat(ZERO, m, [Crc(m)[8..], Crc(m)[..8]]);
    OwnBytesClear(Crc(m));
  }

  // ----- Error detection

  lemma {:induction false} StepsKernel(s: Word, n: nat)
    requires Steps(s, n) == ZERO
    ensures s == ZERO
    decreases n
  {
    if n > 0 {
      StepsKernel(Step(s), n - 1);
      StepKernel(s);
    }
  }

  lemma {:induction false} StepsCompose(s: Word, m: nat, n: nat)
    ensures Steps(Steps(s, m), n) == Steps(s, m + n)
    decreases m
  {
    if m > 0 { StepsCompose(Step(s), m - 1, n); }
  }

  predicate AllZero(m: seq<Octet>) { forall i :: 0 <= i < |m| ==> m[i] == ZERO8 }

  /** Zero bytes keep a clear register clear and a set one set. */
  lemma {:induction false} CrcFromZeros(s: Word, m: seq<Octet>)
    requires AllZero(m)
    ensures CrcFrom(s, m) == ZERO <==> s == ZERO
    decreases |m|
  {
    if m != [] {
      assert High(m[0]) == ZERO;
      XorCancels(s, s);
      StepsZero(8);
      if Steps(s, 8) == ZERO { StepsKernel(s, 8); }
      CrcFromZeros(Feed(s, m[0]), m[1..]);
    }
  }

  /** Two bytes into a clear register: sixteen steps of the word they form. */
  lemma TwoBytesFromZero(x: Octet, y: Octet)
    ensures CrcFrom(ZERO, [x, y]) == Steps(Xor(High(x), Low(y)), 16)
  {
    XorCancels(High(x), ZERO);
    LowMovesUp(y);
    StepsLinear(High(x), Low(y), 8);
    StepsCompose(Xor(High(x), Low(y)), 8, 8);
    CrcFromTwo(ZERO, x, y);
  }

  lemma WordOfBytes(x: Octet, y: Octet)
    ensures Xor(High(x), Low(y)) == y + x
    ensures y + x == ZERO ==> x == ZERO8 && y == ZERO8
  {
    if y + x == ZERO {
      assert x == ZERO[8..] && y == ZERO[..8];
      assert ZERO[8..] == ZERO8 && ZERO[..8] == ZERO8;
    }
  }

  /** A nonzero burst inside two adjacent bytes never has CRC zero. */
  lemma BurstNonzero(pre: seq<Octet>, x: Octet, y: Octet, post: seq<Octet>)
    requires AllZero(pre) && AllZero(post)
    requires x != ZERO8 || y != ZERO8
    ensures Crc(pre + [x, y] + post) != ZERO
  {
    CrcFromConcat(ZERO, pre + [x, y], post);
    CrcFromConcat(ZERO, pre, [x, y]);
    CrcFromZeros(ZERO, pre);
    TwoBytesFromZero(x, y);
    WordOfBytes(x, y);
    if Steps(y + x, 16) == ZERO { StepsKernel(y + x, 16); }
    CrcFromZeros(CrcFrom(ZERO, [x, y]), post);
  }

  lemma Xor8Zero(a: Octet, b: Octet)
    ensures Xor8(a, b) == ZERO8 <==> a == b
  {
    if Xor8(a, b) == ZERO8 {
      forall i | 0 <= i < 8 ensures a[i] == b[i] {
        assert !ZERO8[i] && Xor8(a, b)[i] == ZERO8[i];
      }
    }
  }

  /** Two different records of the same length that agree outside two adjacent bytes have
      different CRCs. */
  lemma DetectsAdjacentBytes(a: seq<Octet>, b: seq<Octet>, k: nat)
    requires |a| == |b| && k + 2 <= |a|
    requires a != b
    requires forall i :: 0 <= i < |a| && i != k && i != k + 1 ==> a[i] == b[i]
    ensures Crc(a) != Crc(b)
  {
    var d := XorSeq(a, b);
    forall i | 0 <= i < |a| ensures d[i] == ZERO8 <==> a[i] == b[i] {
      Xor8Zero(a[i], b[i]);
    }
    assert d == d[..k] + [d[k], d[k + 1]] + d[k + 2..];
    BurstNonzero(d[..k], d[k], d[k + 1], d[k + 2..]);
    Linear(a, b);
    XorCancels(Crc(a), Crc(b));
  }

  // ----- The CRC is the remainder of a polynomial division

  /** Polynomials over GF(2) are lists of coefficients, lowest first. */
  function Coef(q: seq<bool>, k: int): bool { 0 <= k < |q| && q[k] }

  /** Coefficient k of q(x) times x^16 + x^12 + x^5 + 1. */
  function Times(q: seq<bool>, k: int): bool {
    ((Coef(q, k - 16) != Coef(q, k - 12)) != Coef(q, k - 5)) != Coef(q, k)
  }

  /** Coefficient k of a message, read as a polynomial with its first bit, the top bit of its first
      byte, in front. */
  function MessageCoef(m: seq<Octet>, k: int): bool {
    m != [] && (if k < 8 then Coef(m[|m| - 1], k) else MessageCoef(m[..|m| - 1], k - 8))
  }

  /** m(x) x^16 = q(x) (x^16 + x^12 + x^5 + 1) + r(x), where r has degree at most 15. */
  ghost predicate Divides(m: seq<Octet>, q: seq<bool>, r: Word) {
    forall k :: MessageCoef(m, k - 16) == (Times(q, k) != Coef(r, k))
  }

  lemma TimesAppend(a: seq<bool>, b: seq<bool>, k: int)
    ensures Times(a + b, k) == (Times(a, k) != Times(b, k - |a|))
  {
    CoefAppend(a, b, k - 16);
    CoefAppend(a, b, k - 12);
    CoefAppend(a, b, k - 5);
    CoefAppend(a, b, k);
  }

  lemma CoefAppend(a: seq<bool>, b: seq<bool>, k: int)
    ensures Coef(a + b, k) == (Coef(a, k) != Coef(b, k - |a|))
  {
  }

  /** One step multiplies by x and takes the polynomial off if x^16 appears. */
  lemma StepDivides(s: Word, k: int)
    ensures Coef(s, k - 1) == (Times([s[15]], k) != Coef(Step(s), k))
  {
    StepBits(s);
    if 0 <= k < 16 { PolyBits(k); }
  }

  lemma PolyBits(i: int)
    requires 0 <= i < 16
    ensures POLY[i] <==> i in {0, 5, 12}
  {
  }

  function Quotient(s: Word, n: nat): (q: seq<bool>)
    ensures |q| == n
    decreases n
  {
    if n == 0 then [] else Quotient(Step(s), n - 1) + [s[15]]
  }

  lemma {:induction false} StepsDivide(s: Word, n: nat, k: int)
    ensures Coef(s, k - n) == (Times(Quotient(s, n), k) != Coef(Steps(s, n), k))
    decreases n
  {
    if n > 0 {
      StepDivides(s, k - (n - 1));
      StepsDivide(Step(s), n - 1, k);
      TimesAppend(Quotient(Step(s), n - 1), [s[15]], k);
    }
  }

  lemma CoefHigh(s: Word, b: Octet, k: int)
    ensures Coef(Xor(s, High(b)), k) == (Coef(s, k) != Coef(b, k - 8))
  {
  }

  lemma FeedDivides(s: Word, b: Octet, n: nat, k: int)
    requires n == 8
    ensures (Coef(s, k - n) != Coef(b, k - n - 8)) == (Times(Quotient(Xor(s, High(b)), n), k) != Coef(Steps(Xor(s, High(b)), n), k))
  {
    StepsDivide(Xor(s, High(b)), n, k);
    CoefHigh(s, b, k - n);
  }

  /** The CRC is the remainder of the message, times x^16, by x^16 + x^12 + x^5 + 1. */
  lemma {:induction false} CrcDivides(m: seq<Octet>) returns (q: seq<bool>)
    ensures Divides(m, q, Crc(m))
  {
    if m == [] {
      q := [];
      DividesEmpty();
    } else {
      var q0 := CrcDivides(m[..|m| - 1]);
      CrcOfLast(m);
      q := DividesByte(m[..|m| - 1], q0, Crc(m[..|m| - 1]), m[|m| - 1]);
      assert m[..|m| - 1] + [m[|m| - 1]] == m;
    }
  }

  lemma DividesEmpty()
    ensures Crc([]) == ZERO && Divides([], [], ZERO)
  {
    assert forall i :: 0 <= i < 16 ==> !ZERO[i];
  }

  lemma DividesByte(m: seq<Octet>, q0: seq<bool>, s: Word, b: Octet) returns (q: seq<bool>)
    requires Divides(m, q0, s)
    ensures Divides(m + [b], q, Feed(s, b))
  {
    var n := FeedSteps(s, b);
    q := DividesNext(m, q0, s, b, n);
  }

  lemma FeedSteps(s: Word, b: Octet) returns (n: nat)
    ensures n == 8 && Feed(s, b) == Steps(Xor(s, High(b)), n)
  {
    n := 8;
  }

  lemma DividesNext(m: seq<Octet>, q0: seq<bool>, s: Word, b: Octet, n: nat) returns (q: seq<bool>)
    requires n == 8 && Divides(m, q0, s)
    ensures Divides(m + [b], q, Steps(Xor(s, High(b)), n))
  {
    var q8 := Quotient(Xor(s, High(b)), n);
    q := q8 + q0;
    forall k ensures MessageCoef(m + [b], k - 16) == (Times(q, k) != Coef(Steps(Xor(s, High(b)), n), k)) {
      FeedDivides(s, b, n, k);
      TimesAppend(q8, q0, k);
      NextByte(m, b, k - 16);
      assert MessageCoef(m, k - n - 16) == (Times(q0, k - n) != Coef(s, k - n));
    }
  }

  lemma CrcOfLast(m: seq<Octet>)
    requires m != []
    ensures Crc(m) == Feed(Crc(m[..|m| - 1]), m[|m| - 1])
  {
    var init, b := m[..|m| - 1], m[|m| - 1];
    assert m == init + [b];
    CrcFromConcat(ZERO, init, [b]);
    assert [b][1..] == [];
  }

  /** A byte more: the message moves up by eight. */
  lemma NextByte(m: seq<Octet>, b: Octet, k: int)
    ensures MessageCoef(m + [b], k) == (Coef(b, k) != MessageCoef(m, k - 8))
  {
    assert (m + [b])[..|m|] == m;
    if k < 8 { NoNegative(m, k - 8); }
  }

  lemma NoNegative(m: seq<Octet>, k: int)
    requires k < 0
    ensures !MessageCoef(m, k)
  {
  }

  /** Two quotients agree from the top down. */
  lemma {:induction false} SameQuotient(q: seq<bool>, p: seq<bool>, j: nat)
    requires forall k :: k >= 16 ==> Times(q, k) == Times(p, k)
    ensures Coef(q, j) == Coef(p, j)
    decreases |q| + |p| - j
  {
    if j < |q| + |p| {
      SameQuotient(q, p, j + 4);
      SameQuotient(q, p, j + 11);
      SameQuotient(q, p, j + 16);
      assert Times(q, j + 16) == Times(p, j + 16);
    }
  }

  /** There is only one remainder. */
  lemma RemainderUnique(m: seq<Octet>, q: seq<bool>, r: Word, p: seq<bool>, t: Word)
    requires Divides(m, q, r) && Divides(m, p, t)
    ensures r == t
  {
    forall k ensures (Times(q, k) != Coef(r, k)) == (Times(p, k) != Coef(t, k)) {
      assert MessageCoef(m, k - 16) == (Times(q, k) != Coef(r, k));
    }
    forall j: nat ensures Coef(q, j) == Coef(p, j) { SameQuotient(q, p, j); }
    forall i | 0 <= i < 16 ensures r[i] == t[i] {
      assert Times(q, i) == Times(p, i);
      assert Coef(r, i) == Coef(t, i);
    }
  }

  lemma CrcIsRemainder(m: seq<Octet>, r: Word)
    ensures r == Crc(m) <==> exists q :: Divides(m, q, r)
  {
    var q := CrcDivides(m);
    if p :| Divides(m, p, r) { RemainderUnique(m, q, Crc(m), p, r); }
  }
}
