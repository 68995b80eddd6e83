/** `FpgaReadCompressedBytes`: byte-range reads from the autoload stream through a one-page buffer. */
module FlashReader {
  import opened Bytes

  const PAGE: int := 256
  const FIRST_SECTOR: int := 1025

  type Page = p: seq<byte> | |p| == PAGE witness seq(PAGE, _ => 0)

  function Min(a: int, b: int): int { if a < b then a else b }

  /** Page p of the autoload region starts with bytes 256p, 256p + 1, ... of the stream. */
  ghost predicate PageHolds(flash: nat -> Page, stream: seq<byte>, p: nat)
    requires p * PAGE <= |stream|
  {
    stream[p * PAGE..Min((p + 1) * PAGE, |stream|)] == flash(FIRST_SECTOR + p)[..Min((p + 1) * PAGE, |stream|) - p * PAGE]
  }

  /** The flash holds the stream in consecutive pages from the first autoload sector on. */
  ghost predicate Stored(flash: nat -> Page, stream: seq<byte>) {
    forall p: nat :: p * PAGE <= |stream| ==> PageHolds(flash, stream, p)
  }

  /** The first k pages of the region, and the stream of length n in it. */
  function Pages(flash: nat -> Page, k: nat): (s: seq<byte>)
    ensures |s| == k * PAGE
  {
    if k == 0 then [] else Pages(flash, k - 1) + flash(FIRST_SECTOR + k - 1)
  }

  function StreamOf(flash: nat -> Page, n: nat): (s: seq<byte>)
    ensures |s| == n
  {
    Pages(flash, n / PAGE + 1)[..n]
  }

  lemma {:induction false} PageOfPages(flash: nat -> Page, k: nat, p: nat)
    requires p < k
    ensures p * PAGE + PAGE <= k * PAGE
    ensures Pages(flash, k)[p * PAGE..p * PAGE + PAGE] == flash(FIRST_SECTOR + p)
  {
    if p + 1 < k {
      PageOfPages(flash, k - 1, p);
      var s := Pages(flash, k - 1);
      assert Pages(flash, k)[p * PAGE..p * PAGE + PAGE] == s[p * PAGE..p * PAGE + PAGE];
    }
  }

  lemma PrefixSlice(s: seq<byte>, n: nat, a: nat, b: nat)
    requires a <= b <= n <= |s| && a + PAGE <= |s| && b <= a + PAGE
    ensures s[..n][a..b] == s[a..a + PAGE][..b - a]
  {
  }

  /** Whatever the flash contains, it stores a stream of any length. */
  lemma StreamIsStored(flash: nat -> Page, n: nat)
    ensures Stored(flash, StreamOf(flash, n))
  {
    var s, k := StreamOf(flash, n), n / PAGE + 1;
    forall p: nat | p * PAGE <= |s| ensures PageHolds(flash, s, p) {
      PageOfPages(flash, k, p);
      var hi := Min((p + 1) * PAGE, |s|);
      PrefixSlice(Pages(flash, k), n, p * PAGE, hi);
    }
  }

  class Reader {
    const flash: nat -> Page
    /** Does SPI transfer number t succeed? */
    const spiOk: nat -> bool
    ghost const stream: seq<byte>

    const page: array<byte>
    var sector: nat
    var nleft: nat
    var offset: nat
    var avail: nat
    var time: nat
    ghost var held: Page

    constructor (flash: nat -> Page, spiOk: nat -> bool, length: nat, ghost stream: seq<byte>)
      requires |stream| == length && Stored(flash, stream)
      ensures this.flash == flash && this.spiOk == spiOk && this.stream == stream
      ensures Valid() && Consumed() == 0 && fresh(page)
    {
      this.flash, this.spiOk, this.stream := flash, spiOk, stream;
      page := new byte[4096];
      sector, nleft, offset, avail, time := FIRST_SECTOR, length, 0, 0, 0;
      new;
      held := page[..PAGE];
    }

    /** Bytes fetched from flash so far; only the last page of the stream may be partial. */
    ghost function Fetched(): int
      reads this
    {
      |stream| - nleft
    }

    ghost function Consumed(): int
      reads this
    {
      |stream| - nleft - avail
    }

    /** The part of the stream not yet handed out. */
    ghost function Rest(): seq<byte>
      requires nleft + avail <= |stream|
      reads this
    {
      stream[Consumed()..]
    }

    ghost function Remaining(): int
      reads this
    {
      nleft + avail
    }

    ghost predicate Valid()
      reads this, page
    {
      && page.Length == 4096 && Stored(flash, stream)
      && nleft + avail <= |stream|
      && (nleft > 0 ==> Fetched() % PAGE == 0 && sector == FIRST_SECTOR + Fetched() / PAGE)
      && page[..PAGE] == held
      && (avail > 0 ==> offset + avail <= PAGE && held[offset..offset + avail] == stream[Consumed()..Consumed() + avail])
    }

    ghost predicate FaultFree() {
      forall t: nat :: spiOk(t)
    }

    /** CyFxSpiTransfer of one page into the page buffer. */
    method Transfer() returns (ok: bool)
      requires page.Length == 4096
      modifies `sector, `time, page
      ensures time == old(time) + 1 && sector == old(sector) + 1
      ensures ok == spiOk(old(time))
      ensures ok ==> page[..PAGE] == flash(old(sector))
    {
      ok := spiOk(time);
      time := time + 1;
      if ok {
        var data := flash(sector);
        forall i | 0 <= i < PAGE { page[i] := data[i]; }
      }
      sector := sector + 1;
    }

    /** Refill the empty page buffer. */
    method Refill() returns (ok: bool)
      requires Valid() && avail == 0 && nleft > 0
      modifies this, page
      ensures ok ==> Valid() && Consumed() == old(Consumed()) && avail > 0
      ensures !ok ==> !FaultFree()
    {
      ghost var from := Consumed();
      ghost var s := sector;
      ok := Transfer();
      if ok {
        avail := if nleft > PAGE then PAGE else nleft;
        nleft := nleft - avail;
        offset := 0;
        held := page[..PAGE];
        assert PageHolds(flash, stream, from / PAGE);
      }
    }

    /** Append `take` buffered bytes to the stretch of the stream, from lo on, that `out` holds. */
    method Take(out: array<byte>, at: nat, take: nat, ghost lo: nat)
      requires Valid() && out != page && 0 < take <= avail && at + take <= out.Length
      requires lo + at == Consumed() && out[..at] == stream[lo..lo + at]
      modifies `offset, `avail, out
      ensures Valid() && Consumed() == old(Consumed()) + take
      ensures out[..at + take] == stream[lo..lo + at + take]
      ensures forall j :: at + take <= j < out.Length ==> out[j] == old(out[j])
    {
      ghost var c := Consumed();
      ghost var part := page[offset..offset + take];
      assert part == page[..PAGE][offset..offset + take];
      HeldSlices(stream, held, offset, avail, take, c);
      Copy(page, offset, out, at, take);
      assert out[at..at + take] == part == stream[c..c + take];
      assert out[..at + take] == out[..at] + out[at..at + take];
      assert stream[lo..c + take] == stream[lo..c] + stream[c..c + take];
      offset := offset + take;
      avail := avail - take;
    }

    /** Copy `count` bytes of the stream to `out`. Over any sequence of calls the bytes come out
        consecutively; the call fails only if the stream is too short or a transfer failed. */
    method Read(out: array<byte>, count: nat) returns (ok: bool)
      requires Valid() && out != page && count <= out.Length
      modifies this, page, out
      ensures forall j :: count <= j < out.Length ==> out[j] == old(out[j])
      ensures ok ==>
                && Valid()
                && Consumed() == old(Consumed()) + count
                && out[..count] == stream[old(Consumed())..old(Consumed()) + count]
      ensures count > old(Remaining()) ==> !ok
      ensures FaultFree() && count <= old(Remaining()) ==> ok
    {
      ghost var from := Consumed();
      var copied := 0;
      while copied < count
        invariant 0 <= copied <= count
        invariant Valid() && Consumed() == from + copied
        invariant out[..copied] == stream[from..from + copied]
        invariant forall j :: count <= j < out.Length ==> out[j] == old(out[j])
        decreases count - copied
      {
        if avail == 0 {
          if nleft == 0 {
            return false;
          }
          var filled := Refill();
          if !filled {
            return false;
          }
        }
        var take := if count - copied < avail then count - copied else avail;
        Take(out, copied, take, from);
        copied := copied + take;
      }
      return true;
    }
  }

  /** A buffered stretch splits into what is taken and what stays. */
  lemma HeldSlices(stream: seq<byte>, held: Page, offset: nat, avail: nat, take: nat, c: nat)
    requires take <= avail && offset + avail <= PAGE && c + avail <= |stream|
    requires held[offset..offset + avail] == stream[c..c + avail]
    ensures held[offset..offset + take] == stream[c..c + take]
    ensures held[offset + take..offset + avail] == stream[c + take..c + avail]
  {
    assert held[offset..offset + take] == held[offset..offset + avail][..take];
    assert held[offset + take..offset + avail] == held[offset..offset + avail][take..];
  }

  /** memcpy between different buffers. */
  method Copy(src: array<byte>, from: nat, dst: array<byte>, at: nat, count: nat)
    requires src != dst && from + count <= src.Length && at + count <= dst.Length
    modifies dst
    ensures dst[at..at + count] == src[from..from + count]
    ensures dst[..at] == old(dst[..at])
    ensures forall j :: at + count <= j < dst.Length ==> dst[j] == old(dst[j])
  {
    for i := 0 to count
      invariant dst[at..at + i] == src[from..from + i]
      invariant dst[..at] == old(dst[..at])
      invariant forall j :: at + count <= j < dst.Length ==> dst[j] == old(dst[j])
    {
      dst[at + i] := src[from + i];
    }
  }
}
