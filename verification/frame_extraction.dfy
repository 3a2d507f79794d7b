/**
 * The MJPEG frame extractor of the video worker: every chunk read is appended
 * to an accumulator, the accumulator is searched for the first start-of-image
 * and the first end-of-image marker, and when both are present the bytes from
 * the start marker through the end marker are cut out as one JPEG payload
 * while the accumulator keeps only what follows the end marker.
 */
module FrameExtraction {
  import opened Wrappers
  import opened ByteSearch

  /** Start-of-image and end-of-image markers (ITU-T T.81, Table B.1). */
  const Soi: seq<Byte> := [0xFF, 0xD8]
  const Eoi: seq<Byte> := [0xFF, 0xD9]

  /** A decoded raster image: rows, columns and the pixel bytes in BGR order. */
  datatype Frame = Frame(rows: nat, cols: nat, pixels: seq<Byte>)

  /** The outcome of one extraction attempt: the new accumulator and the payload cut out, if any. */
  datatype Step = Step(rest: seq<Byte>, payload: Option<seq<Byte>>)

  /**
   * One scan of the accumulator `buf` (which already holds the chunk just read).
   * The first end marker is used even when it lies before the first start
   * marker; the payload is then the empty slice.
   */
  function Extract(buf: seq<Byte>): (r: Step)
    ensures r.payload.None? <==> !(Contains(buf, Soi) && Contains(buf, Eoi))
    ensures r.payload.None? ==> r.rest == buf
    ensures r.payload.Some? ==> |r.rest| + 2 <= |buf| && r.rest == buf[|buf| - |r.rest|..]
  {
    var a := Find(buf, Soi);
    var b := Find(buf, Eoi);
    if a != -1 && b != -1 then Step(buf[b + 2..], Some(Slice(buf, a, b + 2)))
    else Step(buf, None)
  }

  /** A start marker and an end marker never begin at neighbouring or equal positions. */
  lemma MarkersApart(buf: seq<Byte>, a: int, b: int)
    requires OccursAt(buf, Soi, a) && OccursAt(buf, Eoi, b)
    ensures a + 2 <= b || b + 2 <= a
  {
    assert buf[a..a + 2][0] == 0xFF && buf[a..a + 2][1] == 0xD8;
    assert buf[b..b + 2][0] == 0xFF && buf[b..b + 2][1] == 0xD9;
  }

  /**
   * Start marker first: the payload is `buf[a..b+2]`, the accumulator becomes
   * `buf[b+2..]`, and the bytes before the start marker are the only ones dropped.
   */
  lemma ExtractOrdered(buf: seq<Byte>, a: int, b: int)
    requires FirstAt(buf, Soi, a) && FirstAt(buf, Eoi, b) && a < b
    ensures a + 2 <= b && b + 2 <= |buf|
    ensures Extract(buf) == Step(buf[b + 2..], Some(buf[a..b + 2]))
    ensures buf[a..] == buf[a..b + 2] + buf[b + 2..]
  {
    MarkersApart(buf, a, b);
    FindIsFirst(buf, Soi, a);
    FindIsFirst(buf, Eoi, b);
    assert buf[a..] == buf[a..b + 2] + buf[b + 2..];
  }

  /**
   * A payload cut with the start marker first opens with FF D8, closes with
   * FF D9 and holds no FF D9 before its last two bytes.
   */
  lemma PayloadDelimited(buf: seq<Byte>, a: int, b: int)
    requires FirstAt(buf, Soi, a) && FirstAt(buf, Eoi, b) && a < b
    ensures Extract(buf).payload.Some?
    ensures var p := Extract(buf).payload.value;
      |p| >= 4 && p[..2] == Soi && p[|p| - 2..] == Eoi &&
      forall j :: 0 <= j < |p| - 2 ==> !OccursAt(p, Eoi, j)
  {
    ExtractOrdered(buf, a, b);
    var p := buf[a..b + 2];
    assert p[..2] == buf[a..a + 2];
    assert p[|p| - 2..] == buf[b..b + 2];
    forall j | 0 <= j < |p| - 2
      ensures !OccursAt(p, Eoi, j)
    {
      assert p[j..j + 2] == buf[a + j..a + j + 2];
      assert !OccursAt(buf, Eoi, a + j);
    }
  }

  /**
   * End marker first: the payload is empty, the accumulator becomes
   * `buf[b+2..]`, and the pending start marker with everything after it survives.
   */
  lemma ExtractReversed(buf: seq<Byte>, a: int, b: int)
    requires FirstAt(buf, Soi, a) && FirstAt(buf, Eoi, b) && b < a
    ensures b + 2 <= a
    ensures Extract(buf) == Step(buf[b + 2..], Some([]))
    ensures buf[a..] == buf[b + 2..][a - (b + 2)..]
  {
    MarkersApart(buf, a, b);
    FindIsFirst(buf, Soi, a);
    FindIsFirst(buf, Eoi, b);
  }

  /** Every payload handed to the decoder is empty or delimited by FF D8 ... FF D9. */
  lemma PayloadShape(buf: seq<Byte>)
    requires Extract(buf).payload.Some?
    ensures Delimited(Extract(buf).payload.value)
  {
    var a := Find(buf, Soi);
    var b := Find(buf, Eoi);
    if a < b {
      PayloadDelimited(buf, a, b);
    } else {
      MarkersApart(buf, a, b);
      ExtractReversed(buf, a, b);
    }
  }

  /** Empty, or opening with the start marker and closing with the end marker. */
  ghost predicate Delimited(p: seq<Byte>) {
    p == [] || (|p| >= 4 && p[..2] == Soi && p[|p| - 2..] == Eoi)
  }

  /** The read loop's state: the accumulator, every payload cut so far and every frame emitted. */
  datatype Pump = Pump(acc: seq<Byte>, payloads: seq<seq<Byte>>, frames: seq<Frame>)

  /** What the worker emits for one decode result: the frame, or nothing when decoding fails. */
  function Emitted(d: Option<Frame>): seq<Frame> {
    if d.Some? then [d.value] else []
  }

  /** One loop iteration on the state `p`: append the chunk, then one extraction attempt. */
  function Absorb(p: Pump, chunk: seq<Byte>, decode: seq<Byte> -> Option<Frame>): Pump {
    var s := Extract(p.acc + chunk);
    match s.payload
    case None => Pump(s.rest, p.payloads, p.frames)
    case Some(jpg) => Pump(s.rest, p.payloads + [jpg], p.frames + Emitted(decode(jpg)))
  }

  /**
   * The loop's state after absorbing the non-empty `chunks` in order, starting
   * from an empty accumulator: one extraction attempt per chunk.
   */
  function Pumped(chunks: seq<seq<Byte>>, decode: seq<Byte> -> Option<Frame>): (p: Pump)
    ensures |p.frames| <= |p.payloads| <= |chunks|
    decreases |chunks|
  {
    if chunks == [] then Pump([], [], [])
    else Absorb(Pumped(chunks[..|chunks| - 1], decode), chunks[|chunks| - 1], decode)
  }

  /** `Absorb` spelled out as the loop body performs it: find both markers, then cut or keep. */
  lemma AbsorbSteps(p: Pump, chunk: seq<Byte>, decode: seq<Byte> -> Option<Frame>)
    ensures var buf := p.acc + chunk;
      var a := Find(buf, Soi);
      var b := Find(buf, Eoi);
      if a != -1 && b != -1 then
        b + 2 <= |buf| &&
        Absorb(p, chunk, decode) ==
          Pump(buf[b + 2..], p.payloads + [Slice(buf, a, b + 2)], p.frames + Emitted(decode(Slice(buf, a, b + 2))))
      else Absorb(p, chunk, decode) == Pump(buf, p.payloads, p.frames)
  {
  }

  lemma PumpedSnoc(chunks: seq<seq<Byte>>, chunk: seq<Byte>, decode: seq<Byte> -> Option<Frame>)
    ensures Pumped(chunks + [chunk], decode) == Absorb(Pumped(chunks, decode), chunk, decode)
  {
    assert (chunks + [chunk])[..|chunks|] == chunks;
  }

  /** Every byte read, in order. */
  function Concat(chunks: seq<seq<Byte>>): seq<Byte>
    decreases |chunks|
  {
    if chunks == [] then [] else Concat(chunks[..|chunks| - 1]) + chunks[|chunks| - 1]
  }

  /** The frames a list of payloads yields, in order, skipping those that fail to decode. */
  function DecodeAll(payloads: seq<seq<Byte>>, decode: seq<Byte> -> Option<Frame>): seq<Frame>
    decreases |payloads|
  {
    if payloads == [] then []
    else DecodeAll(payloads[..|payloads| - 1], decode) + Emitted(decode(payloads[|payloads| - 1]))
  }

  /** Frames are emitted exactly for the payloads that decode, in extraction order. */
  lemma {:induction false} PumpedFramesInOrder(chunks: seq<seq<Byte>>, decode: seq<Byte> -> Option<Frame>)
    ensures Pumped(chunks, decode).frames == DecodeAll(Pumped(chunks, decode).payloads, decode)
    decreases |chunks|
  {
    if chunks != [] {
      var prefix := chunks[..|chunks| - 1];
      PumpedFramesInOrder(prefix, decode);
      var before := Pumped(prefix, decode);
      var s := Extract(before.acc + chunks[|chunks| - 1]);
      if s.payload.Some? {
        assert (before.payloads + [s.payload.value])[..|before.payloads|] == before.payloads;
      }
    }
  }

  /** `t` is a suffix of `s`. */
  ghost predicate IsSuffix(t: seq<Byte>, s: seq<Byte>) {
    |t| <= |s| && t == s[|s| - |t|..]
  }

  lemma SuffixAppend(t: seq<Byte>, s: seq<Byte>, c: seq<Byte>)
    requires IsSuffix(t, s)
    ensures IsSuffix(t + c, s + c)
  {
    assert (s + c)[|s + c| - |t + c|..] == s[|s| - |t|..] + c;
  }

  lemma SuffixTrans(u: seq<Byte>, t: seq<Byte>, s: seq<Byte>)
    requires IsSuffix(u, t) && IsSuffix(t, s)
    ensures IsSuffix(u, s)
  {
    assert s[|s| - |u|..] == s[|s| - |t|..][|t| - |u|..];
  }

  /** The accumulator only ever holds the most recent bytes read, in the order they arrived. */
  lemma {:induction false} PumpedAccIsSuffix(chunks: seq<seq<Byte>>, decode: seq<Byte> -> Option<Frame>)
    ensures IsSuffix(Pumped(chunks, decode).acc, Concat(chunks))
    decreases |chunks|
  {
    if chunks != [] {
      var prefix := chunks[..|chunks| - 1];
      var last := chunks[|chunks| - 1];
      PumpedAccIsSuffix(prefix, decode);
      var before := Pumped(prefix, decode);
      var buf := before.acc + last;
      SuffixAppend(before.acc, Concat(prefix), last);
      assert Concat(chunks) == Concat(prefix) + last;
      var s := Extract(buf);
      assert IsSuffix(s.rest, buf);
      SuffixTrans(s.rest, buf, Concat(chunks));
      assert Pumped(chunks, decode).acc == s.rest;
    }
  }

  /** Every payload handed to the decoder is empty or delimited by the two markers. */
  lemma {:induction false} PumpedPayloadsDelimited(chunks: seq<seq<Byte>>, decode: seq<Byte> -> Option<Frame>)
    ensures forall k :: 0 <= k < |Pumped(chunks, decode).payloads| ==> Delimited(Pumped(chunks, decode).payloads[k])
    decreases |chunks|
  {
    if chunks != [] {
      var prefix := chunks[..|chunks| - 1];
      PumpedPayloadsDelimited(prefix, decode);
      var before := Pumped(prefix, decode);
      var buf := before.acc + chunks[|chunks| - 1];
      if Extract(buf).payload.Some? {
        PayloadShape(buf);
      }
    }
  }

  /** Two complete frames in one chunk yield one payload; the second stays in the accumulator. */
  lemma OneExtractionPerChunk(decode: seq<Byte> -> Option<Frame>)
    ensures Pumped([Soi + Eoi + Soi + Eoi], decode).payloads == [Soi + Eoi]
    ensures Pumped([Soi + Eoi + Soi + Eoi], decode).acc == Soi + Eoi
  {
    var buf := Soi + Eoi + Soi + Eoi;
    TwoFramesExtract();
    assert [buf][..0] == [];
    assert Pumped([buf][..0], decode) == Pump([], [], []);
    assert [] + buf == buf;
  }

  lemma TwoFramesExtract()
    ensures Extract(Soi + Eoi + Soi + Eoi) == Step(Soi + Eoi, Some(Soi + Eoi))
  {
    var buf := Soi + Eoi + Soi + Eoi;
    assert buf == [0xFF, 0xD8, 0xFF, 0xD9, 0xFF, 0xD8, 0xFF, 0xD9];
    assert buf[0..2] == Soi;
    assert buf[2..4] == Eoi;
    assert buf[0..2] != Eoi && buf[1..3] != Eoi;
    assert FirstAt(buf, Soi, 0);
    assert FirstAt(buf, Eoi, 2);
    ExtractOrdered(buf, 0, 2);
    assert buf[4..] == Soi + Eoi;
    assert buf[0..4] == Soi + Eoi;
  }
}
