/** The 16-byte retune request exchanged between the host and the NIOS (nios_pkt_retune.h). */
module RetunePacket {
  import opened Bytes

  const SIZE: int := 16
  const MAGIC: byte := 'T' as int
  const IDX_TIME: int := 1
  const IDX_INTFRAC: int := 9
  const IDX_FREQSEL: int := 13
  const IDX_BANDSEL: int := 14
  const IDX_RESV: int := 15

  const FLAG_TX: int := 128
  const FLAG_RX: int := 64
  const FLAG_LOW_BAND: int := 128
  const FLAG_QUICK_TUNE: int := 64

  /** BLADERF_MODULE_RX / TX, and any other value of the C enum. */
  datatype Module = RX | TX | NoModule

  type uint64 = x: int | 0 <= x < 0x1_0000_0000_0000_0000
  type uint32 = x: int | 0 <= x < 0x1_0000_0000
  type uint16 = x: int | 0 <= x < 0x1_0000

  datatype Request = Request(mod: Module, timestamp: uint64, nint: uint16, nfrac: uint32, freqsel: byte,
                             vcocap: byte, lowBand: bool, xbGpio: byte, quickTune: bool)

  /** The packet has 9 bits for nint, 23 for nfrac, and 6 each for freqsel and vcocap. */
  predicate Fits(q: Request) {
    q.nint < 512 && q.nfrac < 0x80_0000 && q.freqsel < 64 && q.vcocap < 64
  }

  /** The four bytes NINT[8:1], NINT[0] NFRAC[22:16], NFRAC[15:8], NFRAC[7:0]. */
  function IntFrac(nint: uint16, nfrac: uint32): (b: seq<byte>)
    ensures |b| == 4
  {
    [nint / 2 % 256, nint % 2 * 128 + nfrac / 0x1_0000 % 128, nfrac / 0x100 % 256, nfrac % 256]
  }

  function JoinNint(b0: int, b1: int): int { b0 * 2 + b1 / 128 }

  function JoinNfrac(b1: int, b2: int, b3: int): int { b1 % 128 * 0x1_0000 + b2 * 0x100 + b3 }

  function FreqselByte(m: Module, freqsel: byte): byte {
    match m
    case TX => SetBit(freqsel, FLAG_TX)
    case RX => SetBit(freqsel, FLAG_RX)
    case NoModule => freqsel
  }

  function BandselByte(lowBand: bool, quickTune: bool, vcocap: byte): byte {
    var b: byte := if lowBand then SetBit(vcocap, FLAG_LOW_BAND) else vcocap;
    if quickTune then SetBit(b, FLAG_QUICK_TUNE) else b
  }

  /** The request laid out in its buffer. */
  function Packed(q: Request): (p: seq<byte>)
    ensures |p| == SIZE
  {
    [MAGIC] + ToLe(q.timestamp, 8) + IntFrac(q.nint, q.nfrac)
    + [FreqselByte(q.mod, q.freqsel), BandselByte(q.lowBand, q.quickTune, q.vcocap), q.xbGpio]
  }

  function ModuleOf(b: byte): Module {
    if HasBit(b, FLAG_TX) then TX else if HasBit(b, FLAG_RX) then RX else NoModule
  }

  function Unpacked(p: seq<byte>): (q: Request)
    requires |p| == SIZE
    ensures Fits(q)
  {
    FromLeBound(p[IDX_TIME..IDX_TIME + 8]);
    Request(
      ModuleOf(p[IDX_FREQSEL]),
      FromLe(p[IDX_TIME..IDX_TIME + 8]),
      JoinNint(p[IDX_INTFRAC], p[IDX_INTFRAC + 1]),
      JoinNfrac(p[IDX_INTFRAC + 1], p[IDX_INTFRAC + 2], p[IDX_INTFRAC + 3]),
      p[IDX_FREQSEL] % 64,
      p[IDX_BANDSEL] % 64,
      HasBit(p[IDX_BANDSEL], FLAG_LOW_BAND),
      p[IDX_RESV],
      HasBit(p[IDX_BANDSEL], FLAG_QUICK_TUNE))
  }

  // ----- The code

  method Pack(buf: array<byte>, m: Module, timestamp: uint64, nint: uint16, nfrac: uint32, freqsel: byte,
              vcocap: byte, lowBand: bool, xbGpio: byte, quickTune: bool)
    requires buf.Length >= SIZE
    modifies buf
    ensures buf[..SIZE] == Packed(Request(m, timestamp, nint, nfrac, freqsel, vcocap, lowBand, xbGpio, quickTune))
    ensures buf[SIZE..] == old(buf[SIZE..])
  {
    buf[0] := MAGIC;
    var t: nat := timestamp;
    for k := 0 to 8
      invariant buf[0] == MAGIC
      invariant ToLe(timestamp, 8) == buf[IDX_TIME..IDX_TIME + k] + ToLe(t, 8 - k)
      invariant buf[SIZE..] == old(buf[SIZE..])
    {
      buf[IDX_TIME + k] := t % 256;
      t := t / 256;
    }
    PackTail(buf, m, nint, nfrac, freqsel, vcocap, lowBand, xbGpio, quickTune);
    assert buf[..SIZE] == [MAGIC] + buf[IDX_TIME..IDX_INTFRAC] + buf[IDX_INTFRAC..IDX_FREQSEL] + buf[IDX_FREQSEL..SIZE];
  }

  method PackTail(buf: array<byte>, m: Module, nint: uint16, nfrac: uint32, freqsel: byte,
                  vcocap: byte, lowBand: bool, xbGpio: byte, quickTune: bool)
    requires buf.Length >= SIZE
    modifies buf
    ensures buf[..IDX_INTFRAC] == old(buf[..IDX_INTFRAC])
    ensures buf[IDX_INTFRAC..IDX_FREQSEL] == IntFrac(nint, nfrac)
    ensures buf[IDX_FREQSEL..SIZE] == [FreqselByte(m, freqsel), BandselByte(lowBand, quickTune, vcocap), xbGpio]
    ensures buf[SIZE..] == old(buf[SIZE..])
  {
    buf[IDX_INTFRAC] := nint / 2 % 256;
    buf[IDX_INTFRAC + 1] := nint % 2 * 128;
    buf[IDX_INTFRAC + 1] := buf[IDX_INTFRAC + 1] + nfrac / 0x1_0000 % 128;
    buf[IDX_INTFRAC + 2] := nfrac / 0x100 % 256;
    buf[IDX_INTFRAC + 3] := nfrac % 256;
    buf[IDX_FREQSEL] := freqsel;
    match m {
      case TX => buf[IDX_FREQSEL] := SetBit(freqsel, FLAG_TX);
      case RX => buf[IDX_FREQSEL] := SetBit(freqsel, FLAG_RX);
      case NoModule =>
    }
    buf[IDX_BANDSEL] := BandselByte(lowBand, quickTune, vcocap);
    buf[IDX_RESV] := xbGpio;
  }

  /** Recovers whatever fitting request was packed into the buffer. */
  method Unpack(buf: array<byte>) returns (q: Request)
    requires buf.Length >= SIZE
    ensures q == Unpacked(buf[..SIZE])
    ensures forall sent: Request :: Fits(sent) && Packed(sent) == buf[..SIZE] ==> q == sent
  {
    q := Unpacked(buf[..SIZE]);
    forall sent: Request | Fits(sent) && Packed(sent) == buf[..SIZE] ensures q == sent { RoundTrip(sent); }
  }

  // ----- Round trip

  lemma FlagBytes(b: byte, m: Module, lowBand: bool, quickTune: bool)
    requires b < 64
    ensures FreqselByte(m, b) % 64 == b && ModuleOf(FreqselByte(m, b)) == m
    ensures BandselByte(lowBand, quickTune, b) % 64 == b
    ensures HasBit(BandselByte(lowBand, quickTune, b), FLAG_LOW_BAND) == lowBand
    ensures HasBit(BandselByte(lowBand, quickTune, b), FLAG_QUICK_TUNE) == quickTune
  {
  }

  lemma MixedByte(odd: int, hi: int)
    requires 0 <= odd < 2 && 0 <= hi < 128
    ensures (odd * 128 + hi) / 128 == odd && (odd * 128 + hi) % 128 == hi
  {
  }

  lemma FractionDigits(n: uint32)
    ensures n % 0x80_0000 == n / 0x1_0000 % 128 * 0x1_0000 + n / 0x100 % 256 * 0x100 + n % 256
  {
    var q := n / 0x100;
    assert q / 0x100 == n / 0x1_0000;
    assert n % 0x80_0000 == q % 0x8000 * 0x100 + n % 256;
    assert q % 0x8000 == q / 0x100 % 128 * 0x100 + q % 256;
  }

  lemma FieldsRoundTrip(nint: uint16, nfrac: uint32)
    requires nint < 512
    ensures var b := IntFrac(nint, nfrac);
            JoinNint(b[0], b[1]) == nint && JoinNfrac(b[1], b[2], b[3]) == nfrac % 0x80_0000
  {
    MixedByte(nint % 2, nfrac / 0x1_0000 % 128);
    FractionDigits(nfrac);
  }

  /** An over-wide fraction keeps only its low 23 bits; the other fields arrive unchanged. */
  lemma FractionTruncates(q: Request)
    requires Fits(q.(nfrac := 0))
    ensures Unpacked(Packed(q)) == q.(nfrac := q.nfrac % 0x80_0000)
  {
    var p := Packed(q);
    assert p[IDX_TIME..IDX_TIME + 8] == ToLe(q.timestamp, 8);
    Pow256At8();
    LeRoundTrip(q.timestamp, 8);
    var b := IntFrac(q.nint, q.nfrac);
    assert p[IDX_INTFRAC] == b[0] && p[IDX_INTFRAC + 1] == b[1] && p[IDX_INTFRAC + 2] == b[2] && p[IDX_INTFRAC + 3] == b[3];
    FieldsRoundTrip(q.nint, q.nfrac);
    FlagBytes(q.freqsel, q.mod, q.lowBand, q.quickTune);
    FlagBytes(q.vcocap, q.mod, q.lowBand, q.quickTune);
  }

  /** Where each field of a fitting request is: the magic, the time in little-endian order, nint above
      nfrac as one big-endian 32-bit word, and the flags above freqsel and vcocap. */
  lemma Layout(q: Request)
    requires Fits(q)
    ensures var p := Packed(q);
            && p[0] == 'T' as int
            && FromLe(p[1..9]) == q.timestamp
            && BigEndian(p[9], p[10], p[11], p[12]) == q.nint as int * 0x80_0000 + q.nfrac as int
            && p[13] as int == q.freqsel as int + (match q.mod case TX => 128 case RX => 64 case NoModule => 0)
            && p[14] as int == q.vcocap as int + (if q.lowBand then 128 else 0) + (if q.quickTune then 64 else 0)
            && p[15] == q.xbGpio
  {
    var p, b := Packed(q), IntFrac(q.nint, q.nfrac);
    assert p[1..9] == ToLe(q.timestamp, 8);
    Pow256At8();
    LeRoundTrip(q.timestamp, 8);
    assert p[9] == b[0] && p[10] == b[1] && p[11] == b[2] && p[12] == b[3];
    BigEndianWord(q.nint, q.nfrac);
    FlagsAbove(q.freqsel, q.mod, q.lowBand, q.quickTune);
    FlagsAbove(q.vcocap, q.mod, q.lowBand, q.quickTune);
    assert p[13] == FreqselByte(q.mod, q.freqsel) && p[14] == BandselByte(q.lowBand, q.quickTune, q.vcocap);
  }

  lemma FlagsAbove(b: byte, m: Module, lowBand: bool, quickTune: bool)
    requires b < 64
    ensures FreqselByte(m, b) as int == b as int + (match m case TX => 128 case RX => 64 case NoModule => 0)
    ensures BandselByte(lowBand, quickTune, b) as int == b as int + (if lowBand then 128 else 0) + (if quickTune then 64 else 0)
  {
  }

  function BigEndian(b0: int, b1: int, b2: int, b3: int): int { ((b0 * 256 + b1) * 256 + b2) * 256 + b3 }

  lemma BigEndianWord(nint: uint16, nfrac: uint32)
    requires nint < 512 && nfrac < 0x80_0000
    ensures var b := IntFrac(nint, nfrac);
            BigEndian(b[0], b[1], b[2], b[3]) == nint as int * 0x80_0000 + nfrac as int
  {
    FieldsRoundTrip(nint, nfrac);
    LowBits(nfrac);
    var b := IntFrac(nint, nfrac);
    JoinedWord(b[0], b[1], b[2], b[3]);
  }

  lemma JoinedWord(b0: int, b1: int, b2: int, b3: int)
    requires 0 <= b1
    ensures BigEndian(b0, b1, b2, b3) == JoinNint(b0, b1) * 0x80_0000 + JoinNfrac(b1, b2, b3)
  {
  }

  lemma LowBits(n: int)
    requires 0 <= n < 0x80_0000
    ensures n % 0x80_0000 == n
  {
  }

  /** The receiver recovers the request exactly when every field fits. */
  lemma RoundTrip(q: Request)
    ensures Unpacked(Packed(q)) == q <==> Fits(q)
  {
    if Fits(q) {
      LowBits(q.nfrac);
      assert q.(nfrac := q.nfrac % 0x80_0000) == q;
      FractionTruncates(q);
    }
  }
}
