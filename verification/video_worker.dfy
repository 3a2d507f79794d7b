/**
 * The background video worker: it opens the camera's MJPEG endpoint, reads
 * 1024-byte chunks until a read returns nothing or its `running` flag is
 * cleared, runs one extraction attempt per chunk and emits every payload that
 * decodes. The network and the JPEG decoder are parameters: `source` is what
 * opening the URL and the successive reads yield, `decode` stands for the
 * image decoder, and `stopAfter` is the number of completed loop iterations
 * after which the controlling window's `Stop` clears the flag.
 */
module VideoWorker {
  import opened Wrappers
  import opened ByteSearch
  import opened FrameExtraction

  /** One chunk read: the bytes returned (none at end of stream) or the exception raised. */
  datatype Read = Data(bytes: seq<Byte>) | ReadFailed(reason: string)

  /**
   * Opening the stream URL: the exception raised, or an open stream whose
   * successive reads yield `results`, after which every read returns no bytes.
   */
  datatype Source = ConnectFailed(reason: string) | Opened(results: seq<Read>)

  /** The `i`-th read of an open stream. */
  function ReadAt(results: seq<Read>, i: nat): Read {
    if i < |results| then results[i] else Data([])
  }

  /** A read that keeps the loop going: it returned at least one byte. */
  predicate Delivers(r: Read) {
    r.Data? && r.bytes != []
  }

  function BytesOf(r: Read): seq<Byte> {
    if r.Data? then r.bytes else []
  }

  /** The chunks a run of results hands to the extractor. */
  function Chunks(results: seq<Read>): seq<seq<Byte>> {
    seq(|results|, k requires 0 <= k < |results| => BytesOf(results[k]))
  }

  /**
   * How many chunks the loop absorbs: it stops at the first read that returns
   * nothing or raises, or when `stop` lands after `stopAfter` iterations.
   */
  function Consumed(results: seq<Read>, stopAfter: nat): (n: nat)
    ensures n <= stopAfter && n <= |results|
    ensures forall i :: 0 <= i < n ==> Delivers(results[i])
    ensures n < stopAfter ==> !Delivers(ReadAt(results, n))
    decreases stopAfter
  {
    if stopAfter == 0 || results == [] || !Delivers(results[0]) then 0
    else 1 + Consumed(results[1..], stopAfter - 1)
  }

  /** The three contract clauses of `Consumed` pin its value down. */
  lemma ConsumedUnique(results: seq<Read>, stopAfter: nat, n: nat)
    requires n <= stopAfter && n <= |results|
    requires forall i :: 0 <= i < n ==> Delivers(results[i])
    requires n < stopAfter ==> !Delivers(ReadAt(results, n))
    ensures Consumed(results, stopAfter) == n
  {
  }

  lemma ChunksSnoc(results: seq<Read>, i: nat)
    requires i < |results|
    ensures Chunks(results[..i + 1]) == Chunks(results[..i]) + [BytesOf(results[i])]
  {
  }

  /** The message the worker reports when opening or reading the stream raises. */
  function StreamError(reason: string): string {
    "Error en stream: " + reason
  }

  /** The error a run reports when it ends after absorbing `n` chunks: a read that raised. */
  function Failure(results: seq<Read>, n: nat, stopAfter: nat): Option<string> {
    if n < stopAfter && ReadAt(results, n).ReadFailed? then Some(StreamError(ReadAt(results, n).reason)) else None
  }

  class VideoThread {
    const url: string
    var running: bool

    constructor (url: string)
      ensures this.url == url && !running
    {
      this.url := url;
      running := false;
    }

    /** Clears the flag the read loop tests before every read (the bounded join is not modelled). */
    method Stop()
      modifies this
      ensures !running
    {
      running := false;
    }

    /**
     * The worker's body. It returns the frames emitted, in order, and the error
     * reported, if any. When the loop ends on its own, `running` stays set.
     */
    method Run(source: Source, decode: seq<Byte> -> Option<Frame>, stopAfter: nat)
      returns (frames: seq<Frame>, error: Option<string>)
      modifies this
      ensures source.ConnectFailed? ==>
        frames == [] && error == Some(StreamError(source.reason)) && running
      ensures source.Opened? ==>
        frames == Pumped(Chunks(source.results[..Consumed(source.results, stopAfter)]), decode).frames
      ensures source.Opened? ==> running == (Consumed(source.results, stopAfter) < stopAfter)
      ensures source.Opened? ==> error == Failure(source.results, Consumed(source.results, stopAfter), stopAfter)
    {
      running := true;
      frames, error := [], None;
      if source.ConnectFailed? {
        error := Some(StreamError(source.reason));
        return;
      }
      var results := source.results;
      var bytesData: seq<Byte> := [];
      ghost var payloads: seq<seq<Byte>> := [];
      var i := 0;
      if stopAfter == 0 {
        running := false;  // the window's Stop lands before the first read
      }
      while running
        invariant 0 <= i <= |results| && i <= stopAfter
        invariant forall k :: 0 <= k < i ==> Delivers(results[k])
        invariant running == (i < stopAfter)
        invariant error == None
        invariant Pumped(Chunks(results[..i]), decode) == Pump(bytesData, payloads, frames)
        decreases stopAfter - i
      {
        var r := ReadAt(results, i);
        if r.ReadFailed? {
          error := Some(StreamError(r.reason));
          break;
        }
        var chunk := r.bytes;
        if chunk == [] {
          break;
        }
        assert i < |results| && Delivers(results[i]);
        assert forall k :: 0 <= k < i + 1 ==> Delivers(results[k]);
        ChunksSnoc(results, i);
        PumpedSnoc(Chunks(results[..i]), chunk, decode);
        AbsorbSteps(Pump(bytesData, payloads, frames), chunk, decode);
        bytesData := bytesData + chunk;
        var a := Find(bytesData, Soi);
        var b := Find(bytesData, Eoi);
        if a != -1 && b != -1 {
          var jpg := Slice(bytesData, a, b + 2);
          bytesData := bytesData[b + 2..];
          var frame := decode(jpg);
          payloads := payloads + [jpg];
          if frame.Some? {
            frames := frames + [frame.value];
          }
        }
        assert Pumped(Chunks(results[..i + 1]), decode) == Pump(bytesData, payloads, frames);
        i := i + 1;
        if i == stopAfter {
          running := false;  // the window's Stop lands after this iteration
        }
      }
      ConsumedUnique(results, stopAfter, i);
      assert running == (i < stopAfter);
      assert frames == Pumped(Chunks(results[..i]), decode).frames;
    }
  }
}
