/** Loading a compressed FPGA image from flash (`NuandLoadCompressedFromFlash`): a sequence of
    length-prefixed LZMA frames, each decoded to one block and sent page by page. */
module FpgaLoader {
  import opened Bytes
  import opened Widening
  import opened FlashReader

  const BLOCK: int := 61440
  const MAX_FRAME: int := 65504
  const PROPS: int := 5

  datatype Option<T> = None | Some(value: T)

  /** What LzmaDecode reports: status, the bytes it produced, the input it consumed. */
  datatype LzmaResult = LzmaResult(ok: bool, data: seq<byte>, consumed: nat)

  /** LzmaDecode(properties, source, capacity) is code outside this model: any function. */
  type Lzma = (seq<byte>, seq<byte>, nat) -> LzmaResult

  // ----- The format

  /** A frame decodes to its block: all input used, exactly the block produced. */
  function DecodeFrame(lzma: Lzma, frame: seq<byte>, blockLen: nat): (r: Option<seq<byte>>)
    ensures r.Some? ==> |r.value| == blockLen
  {
    if |frame| <= PROPS then None
    else
      var r := lzma(frame[..PROPS], frame[PROPS..], blockLen);
      if r.ok && |r.data| == blockLen && r.consumed == |frame| - PROPS then Some(r.data) else None
  }

  /** A frame is five property bytes and a payload; it is accepted exactly when the decoder succeeds on
      them, uses the whole payload and fills the block, and what it yields is the decoder's output. */
  lemma DecodesExactly(lzma: Lzma, props: seq<byte>, payload: seq<byte>, n: nat, data: seq<byte>)
    requires |props| == 5
    ensures DecodeFrame(lzma, props + payload, n) == Some(data) <==>
              payload != [] && |data| == n && lzma(props, payload, n) == LzmaResult(true, data, |payload|)
  {
    var frame := props + payload;
    assert frame[..PROPS] == props && frame[PROPS..] == payload;
  }

  lemma TooShort(lzma: Lzma, frame: seq<byte>, n: nat)
    requires |frame| <= 5
    ensures DecodeFrame(lzma, frame, n) == None
  {
  }

  /** The length in front of a frame is little-endian. */
  lemma HeaderValue(b: seq<byte>)
    requires |b| == 4
    ensures FromLe(b) == b[0] as int + b[1] as int * 0x100 + b[2] as int * 0x1_0000 + b[3] as int * 0x100_0000
  {
    var c, d := b[1..], b[2..];
    assert c[1..] == d && d[1..] == [b[3]] && [b[3]][1..] == [];
    assert FromLe([b[3]]) == b[3];
    assert FromLe(d) == b[2] as int + 256 * FromLe([b[3]]);
    assert FromLe(c) == b[1] as int + 256 * FromLe(d);
  }

  function BlockLen(n: nat): (b: nat)
    ensures b <= n && (n > 0 ==> b > 0)
  {
    if n > BLOCK then BLOCK else n
  }

  ghost predicate FrameOk(lzma: Lzma, frame: seq<byte>, n: nat) {
    0 < |frame| <= 65504 && DecodeFrame(lzma, frame, BlockLen(n)).Some?
  }

  /** Frames for an image of n bytes: one per block, each within the limits and decodable. */
  ghost predicate FramesFor(lzma: Lzma, n: nat, frames: seq<seq<byte>>)
    decreases |frames|
  {
    if frames == [] then n == 0
    else n > 0 && FrameOk(lzma, frames[0], n) && FramesFor(lzma, n - BlockLen(n), frames[1..])
  }

  /** The image the frames decode to. */
  ghost function Image(lzma: Lzma, n: nat, frames: seq<seq<byte>>): (s: seq<byte>)
    requires FramesFor(lzma, n, frames)
    ensures |s| == n
    decreases |frames|
  {
    if frames == [] then []
    else DecodeFrame(lzma, frames[0], BlockLen(n)).value + Image(lzma, n - BlockLen(n), frames[1..])
  }

  /** The stream: each frame behind its 32-bit little-endian length. */
  function Encode(frames: seq<seq<byte>>): seq<byte> {
    if frames == [] then [] else ToLe(|frames[0]|, 4) + frames[0] + Encode(frames[1..])
  }

  ghost predicate Loadable(lzma: Lzma, n: nat, stream: seq<byte>) {
    exists frames :: FramesFor(lzma, n, frames) && Encode(frames) == stream
  }

  /** There are exactly ceil(n / 61440) frames. */
  lemma {:induction false} FrameCount(lzma: Lzma, n: nat, frames: seq<seq<byte>>)
    requires FramesFor(lzma, n, frames)
    ensures |frames| == (n + 61439) / 61440
    decreases |frames|
  {
    if frames != [] {
      FrameCount(lzma, n - BlockLen(n), frames[1..]);
    }
  }

  // ----- What is sent

  /** One DMA transfer of the loader: the words of the page's bytes, and two more words to clock the
      device after the last page. */
  datatype Packet = Packet(payload: seq<word>, trailer: seq<word>, last: bool)

  ghost function Payload(packets: seq<Packet>): seq<word> {
    if packets == [] then [] else Payload(packets[..|packets| - 1]) + packets[|packets| - 1].payload
  }

  lemma {:induction false} PayloadConcat(a: seq<Packet>, b: seq<Packet>)
    ensures Payload(a + b) == Payload(a) + Payload(b)
  {
    if b == [] {
      assert a + b == a;
    } else {
      assert (a + b)[..|a + b| - 1] == a + b[..|b| - 1];
      PayloadConcat(a, b[..|b| - 1]);
    }
  }

  ghost predicate LastOnlyAtEnd(packets: seq<Packet>) {
    forall i :: 0 <= i < |packets| ==> (packets[i].last <==> i == |packets| - 1)
  }

  ghost predicate NoneLast(packets: seq<Packet>) {
    forall i :: 0 <= i < |packets| ==> !packets[i].last
  }

  // ----- Parsing

  lemma FrameLengthFits(v: nat)
    requires v <= MAX_FRAME
    ensures FromLe(ToLe(v, 4)) == v
  {
    assert Pow256(2) == 65536;
    assert Pow256(4) == 256 * (256 * Pow256(2));
    LeRoundTrip(v, 4);
  }

  lemma {:induction false} LeInverse(b: seq<byte>)
    ensures ToLe(FromLe(b), |b|) == b
  {
    if b != [] {
      LeInverse(b[1..]);
      var v, t := FromLe(b), FromLe(b[1..]);
      assert v == b[0] as int + 256 * t;
      assert v % 256 == b[0] && v / 256 == t;
    }
  }

  /** The stream is a frame of acceptable length behind its header, and then a tail. */
  ghost predicate Heads(stream: seq<byte>, f: seq<byte>, tail: seq<byte>) {
    0 < |f| <= 65504 && stream == ToLe(|f|, 4) + f + tail
  }

  lemma HeadParses(stream: seq<byte>, f: seq<byte>, tail: seq<byte>)
    requires Heads(stream, f, tail)
    ensures |stream| >= 4 + |f| && FromLe(stream[..4]) == |f|
    ensures f == stream[4..4 + |f|] && tail == stream[4 + |f|..]
  {
    FrameLengthFits(|f|);
    assert stream[..4] == ToLe(|f|, 4);
  }

  lemma ParseHeads(stream: seq<byte>, clen: nat)
    requires |stream| >= 4 && clen == FromLe(stream[..4])
    requires 0 < clen <= MAX_FRAME && clen <= |stream| - 4
    ensures Heads(stream, stream[4..4 + clen], stream[4 + clen..])
  {
    LeInverse(stream[..4]);
    assert stream == stream[..4] + stream[4..4 + clen] + stream[4 + clen..];
  }

  /** Prepending a frame to the frames of the tail. */
  lemma HeadThenRest(lzma: Lzma, n: nat, stream: seq<byte>, f: seq<byte>, tail: seq<byte>, rest: seq<seq<byte>>)
    requires n > 0 && Heads(stream, f, tail) && FrameOk(lzma, f, n)
    requires FramesFor(lzma, n - BlockLen(n), rest) && Encode(rest) == tail
    ensures FramesFor(lzma, n, [f] + rest) && Encode([f] + rest) == stream
    ensures Image(lzma, n, [f] + rest) == DecodeFrame(lzma, f, BlockLen(n)).value + Image(lzma, n - BlockLen(n), rest)
  {
    assert ([f] + rest)[1..] == rest;
  }

  /** A stream with bytes still due is loadable only if it starts with a good frame and its tail is
      loadable. */
  lemma LoadableHead(lzma: Lzma, n: nat, stream: seq<byte>) returns (f: seq<byte>, tail: seq<byte>)
    requires n > 0 && Loadable(lzma, n, stream)
    ensures Heads(stream, f, tail) && FrameOk(lzma, f, n) && Loadable(lzma, n - BlockLen(n), tail)
  {
    var frames :| FramesFor(lzma, n, frames) && Encode(frames) == stream;
    f, tail := frames[0], Encode(frames[1..]);
  }

  /** A stream has at most one head. */
  lemma HeadUnique(stream: seq<byte>, f: seq<byte>, tail: seq<byte>, f': seq<byte>, tail': seq<byte>)
    requires Heads(stream, f, tail) && Heads(stream, f', tail')
    ensures f == f' && tail == tail'
  {
    HeadParses(stream, f, tail);
    HeadParses(stream, f', tail');
  }

  /** The image is determined by the stream. */
  lemma {:induction false} FramesUnique(lzma: Lzma, n: nat, a: seq<seq<byte>>, b: seq<seq<byte>>)
    requires FramesFor(lzma, n, a) && FramesFor(lzma, n, b) && Encode(a) == Encode(b)
    ensures a == b
    decreases |a|
  {
    if a != [] {
      HeadUnique(Encode(a), a[0], Encode(a[1..]), b[0], Encode(b[1..]));
      FramesUnique(lzma, n - BlockLen(n), a[1..], b[1..]);
    }
  }

  // ----- The code

  datatype Source = Invalid | Flash | Host

  class Loader {
    const lut: Lut
    const lzma: Lzma
    /** Do the DMA calls of transfer number t succeed? */
    const dmaOk: nat -> bool
    var time: nat
    var sent: seq<Packet>
    var source: Source

    constructor (lut: Lut, lzma: Lzma, dmaOk: nat -> bool)
      ensures this.lut == lut && this.lzma == lzma && this.dmaOk == dmaOk && sent == []
    {
      this.lut, this.lzma, this.dmaOk := lut, lzma, dmaOk;
      time, sent, source := 0, [], Invalid;
    }

    ghost predicate FaultFree() {
      forall t: nat :: dmaOk(t)
    }

    /** `FpgaSendFlashBytes`: widen the 256-byte page in place and send the words of `count` bytes,
        plus two more behind the last page. */
    method SendPage(ptr: array<byte>, count: nat, last: bool) returns (ok: bool)
      requires ptr.Length >= 516 && count <= PAGE
      modifies this, ptr
      ensures FaultFree() ==> ok
      ensures source == old(source)
      ensures ok ==>
                && |sent| == |old(sent)| + 1 && sent[..|old(sent)|] == old(sent)
                && var p := sent[|old(sent)|];
                   && p.payload == Lookup(lut, old(ptr[..count]))
                   && p.last == last && |p.trailer| == if last then 2 else 0
    {
      ok := dmaOk(time);
      time := time + 1;
      if !ok { return; }
      ghost var bytes := ptr[..PAGE];
      assert bytes[..count] == ptr[..count];
      WidenInPlace(ptr, PAGE, lut);
      var n := if last then count + 2 else count;
      var words := Words(ptr[..], n);
      SentWords(lut, bytes, ptr[..], count, n);
      sent := sent + [Packet(words[..count], words[count..], last)];
    }

    /** `FpgaSendDecodedBlock`: the block in pages of 256 bytes; `nleft` counts down to the end of
        the image, and the page that reaches it is the last. */
    method SendBlock(page: array<byte>, block: array<byte>, blockLen: nat, due: nat)
      returns (ok: bool, nleft: nat, ghost added: seq<Packet>)
      requires page != block && page.Length >= 516 && blockLen <= block.Length
      requires 0 < blockLen <= due
      modifies this, page
      ensures FaultFree() ==> ok
      ensures source == old(source)
      ensures ok ==>
                && nleft == due - blockLen
                && sent == old(sent) + added && added != []
                && Payload(added) == Lookup(lut, block[..blockLen])
                && if nleft == 0 then LastOnlyAtEnd(added) else NoneLast(added)
    {
      nleft := due;
      added := [];
      ghost var data := block[..blockLen];
      var offset := 0;
      while offset < blockLen
        invariant 0 <= offset <= blockLen && nleft == due - offset
        invariant sent == old(sent) + added && (offset > 0 ==> added != [])
        invariant block[..blockLen] == data && Payload(added) == Lookup(lut, data[..offset])
        invariant if offset == due then LastOnlyAtEnd(added) else NoneLast(added)
        invariant source == old(source)
        decreases blockLen - offset
      {
        var count := if blockLen - offset > PAGE then PAGE else blockLen - offset;
        nleft := nleft - count;
        ghost var p;
        ok, p := SendPart(page, block, offset, count, nleft == 0, data);
        if !ok { return; }
        PacketAdded(lut, data, offset, count, added, p);
        FlagsAdded(added, p);
        assert old(sent) + added + [p] == old(sent) + (added + [p]);
        added := added + [p];
        offset := offset + count;
      }
      assert data[..blockLen] == data;
      ok := true;
    }

    /** One page of a block, padded with 0xff. */
    method SendPart(page: array<byte>, block: array<byte>, offset: nat, count: nat, last: bool,
                    ghost data: seq<byte>)
      returns (ok: bool, ghost p: Packet)
      requires page != block && page.Length >= 516 && count <= PAGE
      requires offset + count <= |data| <= block.Length && block[..|data|] == data
      modifies this, page
      ensures FaultFree() ==> ok
      ensures source == old(source)
      ensures ok ==>
                && sent == old(sent) + [p] && p.last == last && |p.trailer| == (if last then 2 else 0)
                && p.payload == Lookup(lut, data[offset..offset + count])
    {
      SubSlice(block, data, offset, count);
      forall i | 0 <= i < PAGE { page[i] := 0xff; }
      Copy(block, offset, page, 0, count);
      assert page[..count] == page[0..0 + count];
      ok := SendPage(page, count, last);
      p := Packet([], [], last);
      if ok {
        p := sent[|sent| - 1];
      }
    }

    /** The header and, if its length is acceptable, the payload behind it. */
    method ReadFrame(reader: Reader, inBuf: array<byte>) returns (ok: bool, clen: nat)
      requires reader.Valid() && inBuf.Length == MAX_FRAME && reader.page != inBuf
      modifies reader, reader.page, inBuf
      ensures ok ==> clen <= MAX_FRAME && reader.Valid() && Heads(old(reader.Rest()), inBuf[..clen], reader.Rest())
      ensures reader.FaultFree() && !ok ==> forall f, tail :: !Heads(old(reader.Rest()), f, tail)
    {
      ghost var start := reader.Consumed();
      ghost var rest := reader.Rest();
      var header := new byte[4];
      clen := 0;
      ok := reader.Read(header, 4);
      if ok {
        clen := FromLe(header[..4]);
        assert header[..4] == rest[..4];
        if clen == 0 || clen > MAX_FRAME || clen > reader.nleft + reader.avail {
          ok := false;
        } else {
          ok := reader.Read(inBuf, clen);
          if ok {
            assert inBuf[..clen] == rest[4..4 + clen] && reader.Rest() == rest[4 + clen..];
            ParseHeads(rest, clen);
          }
        }
      }
      if !ok && reader.FaultFree() {
        forall f, tail ensures !Heads(rest, f, tail) {
          if Heads(rest, f, tail) { HeadParses(rest, f, tail); }
        }
      }
    }

    /** One pass of the load loop: header, length checks, payload, decode, send. It succeeds on a
        fault-free device exactly if the unread stream starts with a good frame. */
    method LoadFrame(reader: Reader, inBuf: array<byte>, outBuf: array<byte>, due: nat)
      returns (ok: bool, nleft: nat, ghost frame: seq<byte>, ghost added: seq<Packet>)
      requires reader.Valid() && due > 0
      requires inBuf.Length == MAX_FRAME && outBuf.Length == BLOCK
      requires reader.page != inBuf && reader.page != outBuf && inBuf != outBuf
      modifies this, reader, reader.page, inBuf, outBuf
      ensures source == old(source)
      ensures ok ==>
                && reader.Valid() && Heads(old(reader.Rest()), frame, reader.Rest()) && FrameOk(lzma, frame, due)
                && nleft == due - BlockLen(due)
                && sent == old(sent) + added && added != []
                && Payload(added) == Lookup(lut, DecodeFrame(lzma, frame, BlockLen(due)).value)
                && (if nleft == 0 then LastOnlyAtEnd(added) else NoneLast(added))
      ensures FaultFree() && reader.FaultFree() && !ok ==>
                forall f, tail :: Heads(old(reader.Rest()), f, tail) ==> !FrameOk(lzma, f, due)
    {
      nleft, added, frame := due, [], [];
      var blockLen := BlockLen(due);
      ghost var rest := reader.Rest();
      var clen;
      ok, clen := ReadFrame(reader, inBuf);
      if !ok { return; }
      frame := inBuf[..clen];
      var decoded := DecodeFrame(lzma, inBuf[..clen], blockLen);
      if decoded.None? {
        forall f, tail | Heads(rest, f, tail) ensures !FrameOk(lzma, f, due) {
          HeadUnique(rest, f, tail, frame, reader.Rest());
        }
        return false, nleft, frame, added;
      }
      forall i | 0 <= i < blockLen { outBuf[i] := decoded.value[i]; }
      assert outBuf[..blockLen] == decoded.value;
      ok, nleft, added := SendBlock(inBuf, outBuf, blockLen, due);
    }

    /** `NuandLoadCompressedFromFlash`. `setupOk` and `deinitOk` say whether the allocations and the
        SPI and FPGA set-up calls succeed, and the SPI shutdown at the end.

        On a fault-free device the load succeeds if and only if the compressed stream is exactly a
        sequence of good frames for the image. Success always means that the words sent are the
        decoded image, in order, with the last flag raised once, on the final page. */
    method LoadCompressed(fpgaLen: int, compressedLen: int, flash: nat -> Page, spiOk: nat -> bool,
                          setupOk: bool, deinitOk: bool, ghost stream: seq<byte>)
      returns (ok: bool)
      requires sent == []
      requires compressedLen > 0 ==> stream == StreamOf(flash, compressedLen)
      modifies this
      ensures fpgaLen > 0 && compressedLen > 0 ==> source == if ok then Flash else Invalid
      ensures ok ==>
                && fpgaLen > 0 && compressedLen > 0
                && LastOnlyAtEnd(sent)
                && exists frames :: FramesFor(lzma, fpgaLen, frames) && Encode(frames) == stream
                     && Payload(sent) == Lookup(lut, Image(lzma, fpgaLen, frames))
      ensures FaultFree() && (forall t: nat :: spiOk(t)) && setupOk && deinitOk ==>
                (ok <==> fpgaLen > 0 && compressedLen > 0 && Loadable(lzma, fpgaLen, stream))
    {
      if fpgaLen <= 0 || compressedLen <= 0 {
        return false;
      }
      source := Invalid;
      if !setupOk {
        return false;
      }
      var inBuf := new byte[MAX_FRAME];
      var outBuf := new byte[BLOCK];
      StreamIsStored(flash, compressedLen);
      var reader := new Reader(flash, spiOk, compressedLen, stream);
      var finished := LoadFrames(reader, inBuf, outBuf, fpgaLen);
      if finished {
        source := Flash;
      }
      ok := finished;
      if !deinitOk {
        source, ok := Invalid, false;
      }
    }

    /** What holds between two frames. */
    ghost predicate Halfway(reader: Reader, fpgaLen: nat, nleft: nat, done: seq<seq<byte>>, img: seq<byte>)
      reads this, reader
      requires reader.nleft + reader.avail <= |reader.stream|
    {
      SentSoFar(lzma, lut, fpgaLen, reader.stream, nleft, reader.Rest(), done, img, sent)
    }

    method Advance(reader: Reader, inBuf: array<byte>, outBuf: array<byte>, fpgaLen: nat, due: nat,
                   ghost done: seq<seq<byte>>, ghost img: seq<byte>)
      returns (ok: bool, nleft: nat, ghost done': seq<seq<byte>>, ghost img': seq<byte>)
      requires reader.Valid() && due > 0 && Halfway(reader, fpgaLen, due, done, img)
      requires inBuf.Length == MAX_FRAME && outBuf.Length == BLOCK
      requires reader.page != inBuf && reader.page != outBuf && inBuf != outBuf
      modifies this, reader, reader.page, inBuf, outBuf
      ensures source == old(source)
      ensures ok ==> reader.Valid() && nleft == due - BlockLen(due) && Halfway(reader, fpgaLen, nleft, done', img')
      ensures FaultFree() && reader.FaultFree() && !ok ==> !Loadable(lzma, fpgaLen, reader.stream)
    {
      ghost var rest := reader.Rest();
      ghost var was := sent;
      ghost var frame, added;
      done', img' := done, img;
      ok, nleft, frame, added := LoadFrame(reader, inBuf, outBuf, due);
      if ok {
        SentStep(lzma, lut, fpgaLen, reader.stream, due, rest, frame, reader.Rest(), done, img, was, added);
        done', img' := done + [frame], img + DecodeFrame(lzma, frame, BlockLen(due)).value;
      } else if FaultFree() && reader.FaultFree() && Loadable(lzma, fpgaLen, reader.stream) {
        ghost var f, tail := LoadableHead(lzma, due, rest);
      }
    }

    /** The load loop and the final check that nothing is left over. */
    method LoadFrames(reader: Reader, inBuf: array<byte>, outBuf: array<byte>, fpgaLen: nat) returns (ok: bool)
      requires reader.Valid() && reader.Consumed() == 0 && fpgaLen > 0 && sent == []
      requires inBuf.Length == MAX_FRAME && outBuf.Length == BLOCK
      requires reader.page != inBuf && reader.page != outBuf && inBuf != outBuf
      modifies this, reader, reader.page, inBuf, outBuf
      ensures source == old(source)
      ensures ok ==>
                && LastOnlyAtEnd(sent)
                && exists frames :: FramesFor(lzma, fpgaLen, frames) && Encode(frames) == reader.stream
                     && Payload(sent) == Lookup(lut, Image(lzma, fpgaLen, frames))
      ensures FaultFree() && reader.FaultFree() && !ok ==> !Loadable(lzma, fpgaLen, reader.stream)
    {
      var nleft: nat := fpgaLen;
      var decoded: nat := 0;
      ghost var done: seq<seq<byte>>, img: seq<byte> := [], [];
      assert reader.stream[0..] == reader.stream;
      StartInv(lzma, fpgaLen, reader.stream);
      while decoded < fpgaLen
        invariant nleft == fpgaLen - decoded
        invariant reader.Valid() && source == old(source)
        invariant Halfway(reader, fpgaLen, nleft, done, img)
        decreases nleft
      {
        var good;
        var blockLen := BlockLen(nleft);
        good, nleft, done, img := Advance(reader, inBuf, outBuf, fpgaLen, nleft, done, img);
        if !good {
          return false;
        }
        decoded := decoded + blockLen;
      }
      ok := reader.nleft == 0 && reader.avail == 0 && nleft == 0;
      Finish(lzma, fpgaLen, reader.stream, reader.Rest(), done, img);
    }
  }

  lemma PacketAdded(lut: Lut, data: seq<byte>, offset: nat, count: nat, added: seq<Packet>, p: Packet)
    requires offset + count <= |data|
    requires Payload(added) == Lookup(lut, data[..offset]) && p.payload == Lookup(lut, data[offset..offset + count])
    ensures Payload(added + [p]) == Lookup(lut, data[..offset + count])
  {
    PayloadConcat(added, [p]);
    assert Payload([p]) == p.payload by { assert [p][..0] == []; }
    LookupConcat(lut, data[..offset], data[offset..offset + count]);
    assert data[..offset + count] == data[..offset] + data[offset..offset + count];
  }

  lemma FlagsAdded(added: seq<Packet>, p: Packet)
    requires NoneLast(added)
    ensures if p.last then LastOnlyAtEnd(added + [p]) else NoneLast(added + [p])
  {
  }

  lemma SubSlice(block: array<byte>, data: seq<byte>, offset: nat, count: nat)
    requires |data| <= block.Length && block[..|data|] == data && offset + count <= |data|
    ensures block[offset..offset + count] == data[offset..offset + count]
  {
    forall j | offset <= j < offset + count ensures block[j] == data[j] {
      assert data[j] == block[..|data|][j];
    }
  }

  /** The first words of a widened page are those of its first bytes. */
  lemma SentWords(lut: Lut, bytes: seq<byte>, now: seq<byte>, count: nat, n: nat)
    requires count <= |bytes| && count <= n && 2 * n <= |now| && 2 * |bytes| <= |now|
    requires Words(now, |bytes|) == Lookup(lut, bytes)
    ensures Words(now, n)[..count] == Lookup(lut, bytes[..count])
  {
    forall i | 0 <= i < count ensures Words(now, n)[i] == Lookup(lut, bytes[..count])[i] {
      assert Words(now, |bytes|)[i] == Lookup(lut, bytes)[i];
    }
  }

  // ----- The state of a half-finished load

  /** `m` bytes and the stream `rest` are still to come: every way to finish that load finishes the
      whole one, with the frames `done` and the image `img` in front; and a loadable whole has a
      loadable rest. */
  ghost predicate Progress(lzma: Lzma, n: nat, stream: seq<byte>, m: nat, rest: seq<byte>,
                           done: seq<seq<byte>>, img: seq<byte>) {
    && (forall fr :: FramesFor(lzma, m, fr) && Encode(fr) == rest ==>
          Completes(lzma, n, stream, done + fr, img + Image(lzma, m, fr)))
    && (Loadable(lzma, n, stream) ==> Loadable(lzma, m, rest))
  }

  ghost predicate Completes(lzma: Lzma, n: nat, stream: seq<byte>, frames: seq<seq<byte>>, image: seq<byte>) {
    FramesFor(lzma, n, frames) && Encode(frames) == stream && Image(lzma, n, frames) == image
  }

  lemma StartInv(lzma: Lzma, n: nat, stream: seq<byte>)
    ensures Progress(lzma, n, stream, n, stream, [], [])
  {
    forall fr | FramesFor(lzma, n, fr) && Encode(fr) == stream ensures Completes(lzma, n, stream, [] + fr, [] + Image(lzma, n, fr)) {
      assert [] + fr == fr && [] + Image(lzma, n, fr) == Image(lzma, n, fr);
    }
  }

  lemma Regroup<T>(a: seq<T>, b: seq<T>, c: seq<T>)
    ensures a + (b + c) == a + b + c
  {
  }

  lemma ProgressStep(lzma: Lzma, n: nat, stream: seq<byte>, m: nat, rest: seq<byte>, f: seq<byte>, tail: seq<byte>,
                     done: seq<seq<byte>>, img: seq<byte>)
    requires m > 0 && Heads(rest, f, tail) && FrameOk(lzma, f, m)
    requires Progress(lzma, n, stream, m, rest, done, img)
    ensures Progress(lzma, n, stream, m - BlockLen(m), tail, done + [f], img + DecodeFrame(lzma, f, BlockLen(m)).value)
  {
    var m', block := m - BlockLen(m), DecodeFrame(lzma, f, BlockLen(m)).value;
    forall fr | FramesFor(lzma, m', fr) && Encode(fr) == tail
      ensures Completes(lzma, n, stream, done + [f] + fr, img + block + Image(lzma, m', fr))
    {
      HeadThenRest(lzma, m, rest, f, tail, fr);
      assert Completes(lzma, n, stream, done + ([f] + fr), img + Image(lzma, m, [f] + fr));
      Regroup(done, [f], fr);
      Regroup(img, block, Image(lzma, m', fr));
    }
    if Loadable(lzma, n, stream) {
      var f', tail' := LoadableHead(lzma, m, rest);
      HeadUnique(rest, f, tail, f', tail');
    }
  }

  ghost predicate SentSoFar(lzma: Lzma, lut: Lut, n: nat, stream: seq<byte>, m: nat, rest: seq<byte>,
                            done: seq<seq<byte>>, img: seq<byte>, sent: seq<Packet>) {
    && Progress(lzma, n, stream, m, rest, done, img)
    && Payload(sent) == Lookup(lut, img)
    && if m == 0 then LastOnlyAtEnd(sent) else NoneLast(sent)
  }

  lemma SentStep(lzma: Lzma, lut: Lut, n: nat, stream: seq<byte>, m: nat, rest: seq<byte>, f: seq<byte>, tail: seq<byte>,
                 done: seq<seq<byte>>, img: seq<byte>, sent: seq<Packet>, added: seq<Packet>)
    requires m > 0 && Heads(rest, f, tail) && FrameOk(lzma, f, m)
    requires SentSoFar(lzma, lut, n, stream, m, rest, done, img, sent)
    requires added != [] && if m == BlockLen(m) then LastOnlyAtEnd(added) else NoneLast(added)
    requires Payload(added) == Lookup(lut, DecodeFrame(lzma, f, BlockLen(m)).value)
    ensures SentSoFar(lzma, lut, n, stream, m - BlockLen(m), tail, done + [f], img + DecodeFrame(lzma, f, BlockLen(m)).value,
                      sent + added)
  {
    ProgressStep(lzma, n, stream, m, rest, f, tail, done, img);
    PayloadConcat(sent, added);
    LookupConcat(lut, img, DecodeFrame(lzma, f, BlockLen(m)).value);
    FlagsConcat(sent, added, m == BlockLen(m));
  }

  lemma FlagsConcat(a: seq<Packet>, b: seq<Packet>, end: bool)
    requires NoneLast(a) && b != [] && if end then LastOnlyAtEnd(b) else NoneLast(b)
    ensures if end then LastOnlyAtEnd(a + b) else NoneLast(a + b)
  {
  }

  lemma Finish(lzma: Lzma, n: nat, stream: seq<byte>, rest: seq<byte>, done: seq<seq<byte>>, img: seq<byte>)
    requires Progress(lzma, n, stream, 0, rest, done, img)
    ensures rest == [] ==> FramesFor(lzma, n, done) && Encode(done) == stream && Image(lzma, n, done) == img
    ensures rest != [] ==> !Loadable(lzma, n, stream)
  {
    if rest == [] {
      assert FramesFor(lzma, 0, []) && Encode([]) == rest;
      assert Completes(lzma, n, stream, done + [], img + Image(lzma, 0, []));
      assert done + [] == done && img + [] == img;
    }
  }
}
