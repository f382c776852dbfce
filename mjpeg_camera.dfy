/** The MJPEG camera (RaspberryStreamer/MJpegStreamWebCameraProvider.cs): a worker that keeps the
    latest snapshot fetched over HTTP and probes the first one for the picture's dimensions, and
    the decoding of a snapshot held in memory into a frame. */
module MJpegCamera {
  import opened Wrappers
  import opened FFmpegSetup
  import opened MediaEngine
  import opened ByteBridge

  /** The IO buffer GetFrame hands the demuxer: 1 MiB. */
  const IO_BUFFER_SIZE: int := 1048576

  /** Every handle in `s` was handed out at or after `from`: only objects allocated by the call
      in question are left over. */
  ghost predicate AllocatedSince(s: set<Handle>, from: nat)
  {
    forall h | h in s :: from <= h
  }

  /** The demuxer delivered, after `before`, packets of other streams and then one packet of
      stream 0, and nothing more. */
  ghost predicate FirstVideoPacket(before: seq<int>, after: seq<int>)
  {
    && |before| < |after| && after[..|before|] == before
    && after[|after| - 1] == 0
    && forall i | |before| <= i < |after| - 1 :: after[i] != 0
  }

  /** How many of the packets the demuxer delivered after `before` were overwritten by a later
      read into the same packet: all but the last. */
  ghost function Overwritten(before: seq<int>, after: seq<int>): nat
  {
    if |after| <= |before| then 0 else |after| - |before| - 1
  }

  /** How many of the stream indexes `s` are not stream 0. */
  ghost function OtherStreams(s: seq<int>): nat
  {
    if s == [] then 0 else (if s[0] != 0 then 1 else 0) + OtherStreams(s[1..])
  }

  /** How many of the packets the demuxer delivered after `before` belong to another stream
      than stream 0. */
  ghost function Skipped(before: seq<int>, after: seq<int>): nat
  {
    if |after| < |before| then 0 else OtherStreams(after[|before|..])
  }

  /** Packets of other streams followed by one of stream 0: the others are all but the last. */
  lemma {:induction false} OtherStreamsBeforeVideo(s: seq<int>)
    requires 1 <= |s| && s[|s| - 1] == 0
    requires forall i | 0 <= i < |s| - 1 :: s[i] != 0
    ensures OtherStreams(s) == |s| - 1
  {
    if |s| > 1 {
      OtherStreamsBeforeVideo(s[1..]);
    }
  }

  /** When the demuxer delivered packets of other streams and then one of stream 0, the packets
      overwritten are exactly the skipped ones. */
  lemma {:induction false} OverwrittenAreSkipped(before: seq<int>, after: seq<int>)
    requires FirstVideoPacket(before, after)
    ensures Overwritten(before, after) == Skipped(before, after)
  {
    OtherStreamsBeforeVideo(after[|before|..]);
  }

  /** MJpegStreamWebCameraProvider.cs:90-111, the body of the try block: opens the decoder,
      allocates the output frame, reads packets until one of stream 0 arrives, skipping the
      others, and decodes that one. The send/receive round runs exactly once: `error` keeps its
      initial 0, and an EAGAIN from either call is raised like any other negative result. A read
      error, end of input included, is raised, so the loop never ends normally. A failure after
      the frame was allocated leaves the frame allocated. */
  method DecodeFirstVideoPacket(engine: Engine, pkt: Handle) returns (r: Result<(Handle, Picture), Exception>)
    requires engine.Valid() && pkt < engine.next && pkt !in engine.referenced
    modifies engine`next, engine`live, engine`referenced, engine`packetsLeft, engine`demuxed
    modifies engine`leaked, engine`decoded, engine`againBudget
    ensures engine.Valid()
    ensures old(engine.referenced) <= engine.referenced <= old(engine.referenced) + {pkt}
    ensures old(engine.demuxed) <= engine.demuxed
    ensures pkt in engine.referenced <==> |old(engine.demuxed)| < |engine.demuxed|
    ensures engine.leaked == old(engine.leaked) + Overwritten(old(engine.demuxed), engine.demuxed)
    ensures engine.live == old(engine.live) || engine.live == old(engine.live) + {old(engine.next)}
    ensures r.Success? ==> r.value.0 == old(engine.next) && engine.live == old(engine.live) + {r.value.0}
    ensures r.Success? ==> FirstVideoPacket(old(engine.demuxed), engine.demuxed)
    ensures r.Success? ==> engine.decoded == old(engine.decoded) + 1
    ensures r.Success? ==> engine.packetsLeft < old(engine.packetsLeft)
    ensures r.Success? ==> pkt in engine.referenced
    ensures r.Failure? ==> r.error.ApplicationException? && r.error.code < 0
    ensures r.Failure? ==> engine.decoded <= old(engine.decoded) + 1
  {
    var openCode := engine.Call();
    var check := ThrowExceptionIfError(openCode);
    if check.Failure? {
      return Failure(check.error);
    }
    var frame := engine.Alloc();
    while true
      invariant engine.Valid() && pkt < engine.next
      invariant engine.next == old(engine.next) + 1 && frame == old(engine.next)
      invariant engine.live == old(engine.live) + {frame}
      invariant old(engine.referenced) <= engine.referenced <= old(engine.referenced) + {pkt}
      invariant |old(engine.demuxed)| <= |engine.demuxed|
      invariant engine.demuxed[..|old(engine.demuxed)|] == old(engine.demuxed)
      invariant forall i | |old(engine.demuxed)| <= i < |engine.demuxed| :: engine.demuxed[i] != 0
      invariant pkt in engine.referenced <==> |old(engine.demuxed)| < |engine.demuxed|
      invariant engine.leaked == old(engine.leaked) + Overwritten(old(engine.demuxed), engine.demuxed)
      invariant engine.decoded == old(engine.decoded)
      invariant engine.packetsLeft <= old(engine.packetsLeft)
      decreases engine.packetsLeft
    {
      var code, streamIndex := engine.ReadFrame(pkt);
      var read := ThrowExceptionIfError(code);
      if read.Failure? {
        return Failure(read.error);
      }
      if streamIndex != 0 {
        continue;
      }
      var error := 0;
      var first := true;
      var picture := Picture(0, 0, 0);
      while first || error == AVERROR_EAGAIN
        invariant error == 0
        invariant engine.decoded == old(engine.decoded) + if first then 0 else 1
        modifies engine`decoded, engine`againBudget
        decreases if first then 1 else 0
      {
        first := false;
        var sent := engine.SendPacket(pkt);
        check := ThrowExceptionIfError(sent);
        if check.Failure? {
          return Failure(check.error);
        }
        var received, decodedPicture := engine.ReceiveFrame(frame);
        check := ThrowExceptionIfError(received);
        if check.Failure? {
          return Failure(check.error);
        }
        picture := decodedPicture;
      }
      check := ThrowExceptionIfError(error);
      return Success((frame, picture));
    }
  }

  /** MJpegStreamWebCameraProvider.cs:63-129: decodes the JPEG `bytes` into a new frame and
      reports its width, height and pixel format.
      - On success only the returned frame remains allocated, packets of other streams were
        skipped and exactly one packet was decoded. Every packet is read into the same `pkt`,
        and a skipped one is not unreferenced before the next read: the data of each skipped
        packet leaks. The finally block unreferences the last packet read.
      - A null IO context is raised as a null reference and leaves the format context and the
        IO buffer allocated. Null bytes fail in the first read callback the same way.
      - Every other failure is a negative FFmpeg result. A failure of avformat_open_input or
        avformat_find_stream_info happens before the try block, so nothing is released; a failure
        inside it leaves the frame allocated. Either way only objects this call allocated
        remain. */
  method GetFrame(engine: Engine, bytes: Option<seq<byte>>) returns (r: Result<(Handle, Picture), Exception>)
    requires engine.Valid()
    requires bytes.Some? ==> |bytes.value| <= INT32_MAX
    modifies engine`next, engine`live, engine`referenced, engine`packetsLeft, engine`demuxed
    modifies engine`leaked, engine`decoded, engine`againBudget
    ensures engine.Valid()
    ensures engine.referenced == old(engine.referenced)
    ensures old(engine.demuxed) <= engine.demuxed
    ensures engine.leaked == old(engine.leaked) + Overwritten(old(engine.demuxed), engine.demuxed)
    ensures r.Success? ==> engine.leaked == old(engine.leaked) + Skipped(old(engine.demuxed), engine.demuxed)
    ensures old(engine.live) <= engine.live && old(engine.next) <= engine.next
    ensures AllocatedSince(engine.live - old(engine.live), old(engine.next))
    ensures r.Success? ==> old(engine.next) <= r.value.0 && engine.live == old(engine.live) + {r.value.0}
    ensures r.Success? ==> FirstVideoPacket(old(engine.demuxed), engine.demuxed)
    ensures r.Success? ==> engine.decoded == old(engine.decoded) + 1
    ensures r.Success? ==> engine.packetsLeft < old(engine.packetsLeft)
    ensures bytes.None? ==> r == Failure(NullReference)
    ensures r.Failure? ==> r.error == NullReference || (r.error.ApplicationException? && r.error.code < 0)
    ensures r == Failure(NullReference) ==> engine.decoded == old(engine.decoded)
  {
    var input := OpenSnapshot(engine, bytes);
    if input.Failure? {
      return Failure(input.error);
    }
    var (formatContext, buffer, ioContext) := input.value;
    var pkt := engine.Reserve();
    r := DecodeFirstVideoPacket(engine, pkt);
    if r.Success? {
      OverwrittenAreSkipped(old(engine.demuxed), engine.demuxed);
    }
    ReleaseSnapshot(engine, formatContext, buffer, ioContext, pkt);
  }

  /** MJpegStreamWebCameraProvider.cs:65-81: allocates the format context and the IO buffer,
      creates the IO context over a new ByteReader holding `bytes`, and opens and probes the
      input. On success the three objects are allocated: the format context, the buffer and the
      IO context, in that order. A null IO context is raised as a null reference, and so are null
      bytes, in the first read callback; either leaves the format context and the buffer
      allocated. Any other failure is a negative FFmpeg result, and only objects this call
      allocated remain. */
  method OpenSnapshot(engine: Engine, bytes: Option<seq<byte>>) returns (r: Result<(Handle, Handle, Handle), Exception>)
    requires engine.Valid()
    requires bytes.Some? ==> |bytes.value| <= INT32_MAX
    modifies engine`next, engine`live
    ensures engine.Valid()
    ensures old(engine.live) <= engine.live && old(engine.next) <= engine.next
    ensures AllocatedSince(engine.live - old(engine.live), old(engine.next))
    ensures r.Success? ==>
              && r.value == (old(engine.next), old(engine.next) + 1, old(engine.next) + 2)
              && engine.live == old(engine.live) + {r.value.0} + {r.value.1} + {r.value.2}
    ensures bytes.None? ==> r == Failure(NullReference)
    ensures r.Failure? ==> r.error == NullReference || (r.error.ApplicationException? && r.error.code < 0)
  {
    var formatContext := engine.Alloc();
    var reader := new ByteReader();
    var buffer := engine.Alloc();
    var ioContext := engine.AllocOrNull();
    if ioContext.None? {
      return Failure(NullReference);
    }
    reader.SetBuffer(bytes);
    if bytes.None? {
      return Failure(NullReference);
    }
    var openCode := engine.OpenInput(formatContext);
    var check := ThrowExceptionIfError(openCode);
    if check.Failure? {
      return Failure(check.error);
    }
    var found := engine.Call();
    check := ThrowExceptionIfError(found);
    if check.Failure? {
      return Failure(check.error);
    }
    r := Success((formatContext, buffer, ioContext.value));
  }

  /** MJpegStreamWebCameraProvider.cs:113-122, the finally block: avformat_close_input frees the
      format context and nulls the pointer, so avformat_free_context receives null; then the IO
      buffer and the IO context are freed and the packet is unreferenced. */
  method ReleaseSnapshot(engine: Engine, formatContext: Handle, buffer: Handle, ioContext: Handle, pkt: Handle)
    modifies engine`live, engine`referenced
    ensures engine.live == old(engine.live) - {formatContext} - {buffer} - {ioContext}
    ensures engine.referenced == old(engine.referenced) - {pkt}
  {
    engine.Free(Some(formatContext));
    engine.Free(None);
    engine.Free(Some(buffer));
    engine.Free(Some(ioContext));
    engine.Unref(pkt);
  }

  /** One fetch of the worker loop: the cancellation state at the top of the loop and the
      outcome of the HTTP request. */
  datatype CameraSample = CameraSample(cancelled: bool, fetched: Result<seq<byte>, Exception>)

  /** The latest snapshot after the fetches `fetches`, starting from `current`: the last
      successful fetch, or `current` when none succeeded. */
  function LatestFrame(current: Option<seq<byte>>, fetches: seq<CameraSample>): Option<seq<byte>>
    decreases |fetches|
  {
    if fetches == [] then current
    else
      var last := fetches[|fetches| - 1];
      if last.fetched.Success? then Some(last.fetched.value)
      else LatestFrame(current, fetches[..|fetches| - 1])
  }

  /** A stored snapshot is never lost, and the latest snapshot is the starting one or one of the
      fetched ones. */
  lemma {:induction false} LatestFrameIsSomeFetch(current: Option<seq<byte>>, fetches: seq<CameraSample>)
    ensures current.Some? ==> LatestFrame(current, fetches).Some?
    ensures LatestFrame(current, fetches) == current
            || exists i | 0 <= i < |fetches| :: fetches[i].fetched == Success(LatestFrame(current, fetches).value)
    decreases |fetches|
  {
    if fetches != [] {
      var front := fetches[..|fetches| - 1];
      LatestFrameIsSomeFetch(current, front);
      if fetches[|fetches| - 1].fetched.Failure? {
        if LatestFrame(current, front) != current {
          var i :| 0 <= i < |front| && front[i].fetched == Success(LatestFrame(current, front).value);
          assert fetches[i] == front[i];
        }
      }
    }
  }

  /** A later successful fetch overrides whatever came before. */
  lemma {:induction false} LatestFrameAfterSuccess(current: Option<seq<byte>>, fetches: seq<CameraSample>, bytes: seq<byte>)
    ensures LatestFrame(current, fetches + [CameraSample(false, Success(bytes))]) == Some(bytes)
    ensures LatestFrame(current, fetches + [CameraSample(true, Success(bytes))]) == Some(bytes)
  {
  }

  /** The provider's state: the latest snapshot (`_currentFrame`, null until the first one is
      stored) and the dimensions probed from the first snapshot. */
  class MJpegStreamWebCameraProvider {
    var currentFrame: Option<seq<byte>>
    var width: int
    var height: int
    var pixelFormat: int

    /** MJpegStreamWebCameraProvider.cs:17-22: no snapshot, dimensions at their defaults. */
    constructor ()
      ensures currentFrame == None && width == 0 && height == 0 && pixelFormat == 0
    {
      currentFrame := None;
      width := 0;
      height := 0;
      pixelFormat := 0;
    }

    /** MJpegStreamWebCameraProvider.cs:31-53: one pass of the worker loop.
      - A failed fetch is logged and changes nothing.
      - While no snapshot is stored the fetched one is probed: its frame is decoded, freed at
        once, and its dimensions are recorded; a failed probe is logged and changes nothing, so
        the next fetch probes again.
      - Once a snapshot is stored the next one replaces it without a probe. */
    method WorkerIteration(engine: Engine, fetched: Result<seq<byte>, Exception>)
      returns (r: Outcome<Exception>, probed: Option<Picture>)
      requires engine.Valid()
      requires fetched.Success? ==> |fetched.value| <= INT32_MAX
      modifies this, engine`next, engine`live, engine`referenced, engine`packetsLeft, engine`demuxed
      modifies engine`leaked, engine`decoded, engine`againBudget
      ensures engine.Valid()
      ensures engine.referenced == old(engine.referenced)
      ensures engine.leaked == old(engine.leaked) + Overwritten(old(engine.demuxed), engine.demuxed)
      ensures fetched.Failure? ==> r == Fail(fetched.error) && engine.live == old(engine.live)
      ensures r.Pass? ==> fetched.Success? && currentFrame == Some(fetched.value)
      ensures r.Pass? ==> engine.live == old(engine.live)
      ensures fetched.Success? && old(currentFrame).Some? ==> r.Pass? && probed.None?
      ensures r.Fail? ==> currentFrame == old(currentFrame)
      ensures probed.Some? <==> r.Pass? && old(currentFrame).None?
      ensures probed.Some? ==>
                width == probed.value.width && height == probed.value.height
                && pixelFormat == probed.value.pixelFormat
      ensures probed.None? ==> width == old(width) && height == old(height) && pixelFormat == old(pixelFormat)
      ensures old(engine.live) <= engine.live && old(engine.next) <= engine.next
      ensures AllocatedSince(engine.live - old(engine.live), old(engine.next))
    {
      probed := None;
      if fetched.Failure? {
        return Fail(fetched.error), None;
      }
      var bytes := fetched.value;
      if currentFrame == None {
        var decoded := GetFrame(engine, Some(bytes));
        if decoded.Failure? {
          return Fail(decoded.error), None;
        }
        var (frame, picture) := decoded.value;
        engine.Free(Some(frame));
        width := picture.width;
        height := picture.height;
        pixelFormat := picture.pixelFormat;
        probed := Some(picture);
      }
      currentFrame := Some(bytes);
      r := Pass;
    }

    /** MJpegStreamWebCameraProvider.cs:26-55: the worker thread, one pass per sample while
      cancellation is not requested. It stops at the first cancelled sample. Once a snapshot is
      stored, the dimensions no longer change and the stored snapshot is always the latest one
      fetched. While none is stored, the dimensions do not change either. */
    method Worker(engine: Engine, samples: seq<CameraSample>) returns (passes: nat)
      requires engine.Valid()
      requires forall i | 0 <= i < |samples| :: samples[i].fetched.Success? ==> |samples[i].fetched.value| <= INT32_MAX
      modifies this, engine`next, engine`live, engine`referenced, engine`packetsLeft, engine`demuxed
      modifies engine`leaked, engine`decoded, engine`againBudget
      ensures engine.Valid()
      ensures passes <= |samples|
      ensures passes < |samples| ==> samples[passes].cancelled
      ensures forall j | 0 <= j < passes :: !samples[j].cancelled
      ensures old(currentFrame).Some? ==> currentFrame == LatestFrame(old(currentFrame), samples[..passes])
      ensures currentFrame.Some? ==> currentFrame == LatestFrame(old(currentFrame), samples[..passes])
      ensures old(currentFrame).Some? || currentFrame.None? ==>
                width == old(width) && height == old(height) && pixelFormat == old(pixelFormat)
      ensures engine.referenced == old(engine.referenced)
      ensures old(engine.live) <= engine.live && old(engine.next) <= engine.next
      ensures AllocatedSince(engine.live - old(engine.live), old(engine.next))
    {
      passes := 0;
      while passes < |samples| && !samples[passes].cancelled
        invariant engine.Valid()
        invariant passes <= |samples|
        invariant forall j | 0 <= j < passes :: !samples[j].cancelled
        invariant old(currentFrame).Some? ==> currentFrame == LatestFrame(old(currentFrame), samples[..passes])
        invariant currentFrame.Some? ==> currentFrame == LatestFrame(old(currentFrame), samples[..passes])
        invariant old(currentFrame).Some? || currentFrame.None? ==>
                    width == old(width) && height == old(height) && pixelFormat == old(pixelFormat)
        invariant old(currentFrame).Some? ==> currentFrame.Some?
        invariant engine.referenced == old(engine.referenced)
        invariant old(engine.live) <= engine.live
        invariant old(engine.next) <= engine.next
        invariant AllocatedSince(engine.live - old(engine.live), old(engine.next))
        decreases |samples| - passes
      {
        var sample := samples[passes];
        ghost var before := engine.live;
        var r, probed := WorkerIteration(engine, sample.fetched);
        assert forall h | h in engine.live - old(engine.live) :: h in before - old(engine.live) || h in engine.live - before;
        assert samples[..passes + 1] == samples[..passes] + [sample];
        passes := passes + 1;
      }
    }

    /** MJpegStreamWebCameraProvider.cs:61: decodes the stored snapshot; before the first one is
      stored the bytes are null and decoding fails. */
    method GetCurrentFrame(engine: Engine) returns (r: Result<Handle, Exception>)
      requires engine.Valid()
      requires currentFrame.Some? ==> |currentFrame.value| <= INT32_MAX
      modifies engine`next, engine`live, engine`referenced, engine`packetsLeft, engine`demuxed
      modifies engine`leaked, engine`decoded, engine`againBudget
      ensures engine.Valid()
      ensures engine.referenced == old(engine.referenced)
      ensures currentFrame.None? ==> r == Failure(NullReference)
      ensures r.Success? ==> old(engine.next) <= r.value && engine.live == old(engine.live) + {r.value}
      ensures old(engine.live) <= engine.live && old(engine.next) <= engine.next
      ensures AllocatedSince(engine.live - old(engine.live), old(engine.next))
    {
      var decoded := GetFrame(engine, currentFrame);
      if decoded.Failure? {
        return Failure(decoded.error);
      }
      r := Success(decoded.value.0);
    }
  }
}
