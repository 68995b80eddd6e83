/** Unsigned 8-bit values as integers, with the bit operations the firmware uses written
    out as arithmetic on the affected field. */
module Bytes {

  type byte = x: int | 0 <= x < 256

  /** The weight of one bit of a byte: `1 << k` for k in 0..7. */
  predicate IsBit(w: int) {
    w == 1 || w == 2 || w == 4 || w == 8 || w == 16 || w == 32 || w == 64 || w == 128
  }

  predicate HasBit(x: byte, w: int)
    requires IsBit(w)
  {
    (x / w) % 2 == 1
  }

  /** `x | w` for a single bit w. */
  function SetBit(x: byte, w: int): (r: byte)
    requires IsBit(w)
    ensures HasBit(r, w)
    ensures HasBit(x, w) ==> r == x
  {
    if HasBit(x, w) then x else x + w
  }

  /** `x & ~w` for a single bit w. */
  function ClearBit(x: byte, w: int): (r: byte)
    requires IsBit(w)
    ensures !HasBit(r, w)
    ensures !HasBit(x, w) ==> r == x
  {
    if HasBit(x, w) then x - w else x
  }

  /** C integer division: truncation toward zero. */
  function TruncDiv(a: int, b: int): (q: int)
    requires b > 0
    ensures a >= 0 ==> q == a / b
    ensures a < 0 ==> q == -((-a) / b)
  {
    if a >= 0 then a / b else -((-a) / b)
  }

  /** The low n bytes of a value, least significant first. */
  function ToLe(v: nat, n: nat): (b: seq<byte>)
    ensures |b| == n
  {
    if n == 0 then [] else [v % 256] + ToLe(v / 256, n - 1)
  }

  function FromLe(b: seq<byte>): (v: nat) {
    if b == [] then 0 else b[0] as int + 256 * FromLe(b[1..])
  }

  function Pow256(n: nat): (p: nat)
    ensures p > 0
  {
    if n == 0 then 1 else 256 * Pow256(n - 1)
  }

  lemma {:induction false} FromLeBound(b: seq<byte>)
    ensures FromLe(b) < Pow256(|b|)
    ensures |b| == 8 ==> FromLe(b) < 0x1_0000_0000_0000_0000
  {
    if b != [] { FromLeBound(b[1..]); }
    Pow256At8();
  }

  lemma Pow256At8()
    ensures Pow256(8) == 0x1_0000_0000_0000_0000
  {
    assert Pow256(4) == 0x1_0000_0000;
  }

  lemma {:induction false} LeRoundTrip(v: nat, n: nat)
    requires v < Pow256(n)
    ensures FromLe(ToLe(v, n)) == v
  {
    if n > 0 {
      assert v / 256 < Pow256(n - 1);
      LeRoundTrip(v / 256, n - 1);
      assert ToLe(v, n)[1..] == ToLe(v / 256, n - 1);
    }
  }
}
