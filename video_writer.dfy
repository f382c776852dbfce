/** The MP4 recorder (RaspberryStreamer/VideoWriter.cs): each webcam JPEG is decoded, flipped,
    stamped with the running frame number and encoded as H.264 into the output file. */
module VideoWriting {
  import opened Wrappers
  import opened FFmpegSetup
  import opened MediaEngine
  import opened ByteBridge
  import opened MJpegCamera
  import opened H264Encoding
  import opened VideoFlipper

  /** The IO buffer GetAVFrameFromWebcamBytes hands the demuxer. */
  const WEBCAM_BUFFER_SIZE: int := 4096

  class VideoWriter {
    const converter: VideoFlipperConverter
    const fps: int
    const width: int
    const height: int
    const pixelFormat: int
    const codec: Handle
    const output: Handle
    /** `_frameCounter`: the pts of the next frame. */
    var frameCounter: int32

    /** VideoWriter.cs:14: the counter starts at 0. */
    constructor (converter: VideoFlipperConverter, fps: int, picture: Picture, codec: Handle, output: Handle)
      ensures this.converter == converter && this.fps == fps
      ensures width == picture.width && height == picture.height && pixelFormat == picture.pixelFormat
      ensures this.codec == codec && this.output == output
      ensures frameCounter == 0
    {
      this.converter := converter;
      this.fps := fps;
      width := picture.width;
      height := picture.height;
      pixelFormat := picture.pixelFormat;
      this.codec := codec;
      this.output := output;
      frameCounter := 0;
    }

    /** VideoWriter.cs:78-134: decodes the JPEG `bytes` into a new frame, as
        MJpegStreamWebCameraProvider does, with three differences:
        - the result of avio_alloc_context is not checked;
        - the 4096-byte IO buffer, allocated second, is never freed, on any path;
        - the packet is never unreferenced, so on success it still references its data; the
          data of each skipped packet leaks as in the camera (on success the packets
          overwritten are the skipped ones, by OverwrittenAreSkipped).
        Failures are raised as in the camera: a null reference in the read callback for null
        bytes, otherwise a negative FFmpeg result; only objects this call allocated remain. */
    static method GetAVFrameFromWebcamBytes(engine: Engine, bytes: Option<seq<byte>>)
      returns (r: Result<(Handle, Picture), Exception>)
      requires engine.Valid()
      requires bytes.Some? ==> |bytes.value| <= INT32_MAX
      modifies engine`next, engine`live, engine`referenced, engine`packetsLeft, engine`demuxed
      modifies engine`leaked, engine`decoded, engine`againBudget
      ensures engine.Valid()
      ensures old(engine.live) <= engine.live && old(engine.next) <= engine.next
      ensures AllocatedSince(engine.live - old(engine.live), old(engine.next))
      ensures old(engine.referenced) <= engine.referenced
      ensures AllocatedSince(engine.referenced - old(engine.referenced), old(engine.next))
      ensures old(engine.next) + 1 in engine.live
      ensures r.Success? ==>
                && old(engine.next) + 1 < r.value.0
                && engine.live == old(engine.live) + {old(engine.next) + 1} + {r.value.0}
                && engine.referenced != old(engine.referenced)
      ensures r.Success? ==> FirstVideoPacket(old(engine.demuxed), engine.demuxed)
      ensures r.Success? ==> engine.decoded == old(engine.decoded) + 1
      ensures old(engine.demuxed) <= engine.demuxed
      ensures engine.leaked == old(engine.leaked) + Overwritten(old(engine.demuxed), engine.demuxed)
      ensures r.Failure? ==> r.error == NullReference || (r.error.ApplicationException? && r.error.code < 0)
    {
      var input := OpenWebcamInput(engine, bytes);
      if input.Failure? {
        return Failure(input.error);
      }
      var (formatContext, buffer, ioContext) := input.value;
      var pkt := engine.Reserve();
      r := DecodeFirstVideoPacket(engine, pkt);
      // finally: avformat_close_input frees the format context and nulls the pointer, the IO
      // context is freed, and avformat_free_context receives null.
      engine.Free(Some(formatContext));
      engine.Free(ioContext);
      engine.Free(None);
    }

    /** VideoWriter.cs:81-88: allocates the format context and the IO buffer, creates the IO
        context, without checking it for null, over a ByteReader holding `bytes`, and opens and
        probes the input. The result is the format context, the buffer and the IO context, null
        or not. Null bytes fail in the first read callback. Any other failure is a negative
        FFmpeg result; nothing is released, apart from the format context that a failed
        avformat_open_input frees. */
    static method OpenWebcamInput(engine: Engine, bytes: Option<seq<byte>>)
      returns (r: Result<(Handle, Handle, Option<Handle>), Exception>)
      requires engine.Valid()
      requires bytes.Some? ==> |bytes.value| <= INT32_MAX
      modifies engine`next, engine`live
      ensures engine.Valid()
      ensures old(engine.live) <= engine.live && old(engine.next) + 2 <= engine.next
      ensures AllocatedSince(engine.live - old(engine.live), old(engine.next))
      ensures old(engine.next) + 1 in engine.live
      ensures r.Success? ==>
                && r.value.0 == old(engine.next) && r.value.1 == old(engine.next) + 1
                && (r.value.2.Some? ==> r.value.2.value == old(engine.next) + 2)
                && engine.live == old(engine.live) + {r.value.0} + {r.value.1}
                                  + (if r.value.2.Some? then {r.value.2.value} else {})
      ensures r.Failure? ==> r.error == NullReference || (r.error.ApplicationException? && r.error.code < 0)
    {
      var formatContext := engine.Alloc();
      var reader := new ByteReader();
      reader.SetBuffer(bytes);
      var buffer := engine.Alloc();
      var ioContext := engine.AllocOrNull();
      if ioContext.Some? && bytes.None? {
        return Failure(NullReference);
      }
      var openCode := engine.OpenInput(formatContext);
      var check := ThrowExceptionIfError(openCode);
      if check.Failure? {
        return Failure(check.error);
      }
      var found := engine.Call();
      check := ThrowExceptionIfError(found);
      if check.Failure? {
        return Failure(check.error);
      }
      r := Success((formatContext, buffer, ioContext));
    }

    /** VideoWriter.cs:50-65: decodes `bytes`, flips the picture, stamps the flipped frame with
        the counter, encodes it and unreferences it; the decoded webcam frame is freed whether
        or not flipping and encoding succeed. The counter advances, with int wrap-around, only
        when the whole call succeeds, and every frame the encoder took carried the counter's
        value on entry. */
    method WriteFrame(engine: Engine, bytes: Option<seq<byte>>) returns (r: Outcome<Exception>, ghost webcamFrame: Option<Handle>)
      requires engine.Valid() && converter.flippedFrame < engine.next
      requires bytes.Some? ==> |bytes.value| <= INT32_MAX
      modifies this`frameCounter, engine`next, engine`live, engine`referenced, engine`packetsLeft
      modifies engine`demuxed, engine`leaked, engine`decoded, engine`againBudget, engine`encoded, engine`muxed, engine`pts
      ensures engine.Valid()
      ensures r.Pass? ==> frameCounter == ToInt32(old(frameCounter) + 1)
      ensures r.Pass? && old(frameCounter) < INT32_MAX ==> frameCounter == old(frameCounter) + 1
      ensures r.Fail? ==> frameCounter == old(frameCounter)
      ensures AllStamped(old(engine.encoded), engine.encoded, old(frameCounter))
      ensures r.Pass? ==> |old(engine.encoded)| < |engine.encoded|
      ensures r.Pass? ==>
                && |engine.muxed| == |old(engine.muxed)| + 1
                && engine.muxed[..|old(engine.muxed)|] == old(engine.muxed)
                && engine.muxed[|old(engine.muxed)|].PacketWritten?
      ensures r.Fail? ==> engine.muxed == old(engine.muxed)
      ensures r.Pass? ==> webcamFrame.Some?
      ensures r.Pass? ==> converter.flippedFrame !in engine.referenced
      ensures webcamFrame.Some? ==> old(engine.next) <= webcamFrame.value && webcamFrame.value !in engine.live
      ensures old(engine.live) <= engine.live
      ensures AllocatedSince(engine.live - old(engine.live), old(engine.next))
    {
      webcamFrame := None;
      var decoded := GetAVFrameFromWebcamBytes(engine, bytes);
      if decoded.Failure? {
        return Fail(decoded.error), None;
      }
      var frame := decoded.value.0;
      webcamFrame := Some(frame);
      ghost var afterDecode := engine.live;
      ghost var pulled;
      r, pulled := FlipAndEncode(engine, frame);
      // finally
      engine.Free(Some(frame));
      assert forall h | h in engine.live - old(engine.live) :: h in afterDecode - old(engine.live) || h in engine.live - afterDecode;
      if r.Pass? {
        frameCounter := ToInt32(frameCounter + 1);
      }
    }

    /** VideoWriter.cs:55-58, the body of the try block: flips the webcam frame, stamps the
        flipped frame with the counter, encodes it and unreferences it. `pulled` says whether the
        flip produced a picture. The unreference is skipped when encoding fails, so the flipped
        frame then keeps its picture, and the next flip overwrites it. */
    method FlipAndEncode(engine: Engine, frame: Handle) returns (r: Outcome<Exception>, ghost pulled: bool)
      requires engine.Valid() && converter.flippedFrame < engine.next
      modifies engine`next, engine`live, engine`referenced, engine`leaked, engine`againBudget, engine`encoded
      modifies engine`muxed, engine`pts
      ensures engine.Valid()
      ensures engine.referenced - {converter.flippedFrame} == old(engine.referenced) - {converter.flippedFrame}
      ensures r.Pass? ==> pulled && converter.flippedFrame !in engine.referenced
      ensures pulled && r.Fail? ==> converter.flippedFrame in engine.referenced
      ensures !pulled ==> r.Fail? && engine.referenced == old(engine.referenced)
      ensures engine.leaked == old(engine.leaked) + if pulled && converter.flippedFrame in old(engine.referenced) then 1 else 0
      ensures AllStamped(old(engine.encoded), engine.encoded, frameCounter)
      ensures r.Pass? ==> |old(engine.encoded)| < |engine.encoded|
      ensures r.Pass? ==>
                && |engine.muxed| == |old(engine.muxed)| + 1
                && engine.muxed[..|old(engine.muxed)|] == old(engine.muxed)
                && engine.muxed[|old(engine.muxed)|].PacketWritten?
      ensures r.Fail? ==> engine.muxed == old(engine.muxed)
      ensures r.Fail? ==> r.error.ApplicationException?
      ensures engine.live == old(engine.live) || engine.live == old(engine.live) + {old(engine.next)}
      ensures old(engine.next) <= engine.next
    {
      pulled := false;
      var flipped := converter.FlipFrame(engine, Some(frame));
      if flipped.Failure? {
        return Fail(flipped.error), false;
      }
      pulled := true;
      engine.SetPts(flipped.value, frameCounter);
      r := EncodeFrame(engine, flipped.value);
      if r.Pass? {
        engine.Unref(flipped.value);
      }
    }

    /** VideoWriter.cs:16-48: decodes the example JPEG for its dimensions, builds the flipping
        converter for them, frees the example frame and opens the output file as OpenOutputFile
        does.
        - The example frame is freed before the encoder is looked up, so it is freed whenever the
          encoder is missing and whenever construction succeeds; a failure to build the
          converter leaves it allocated.
        - Without an H.264 encoder it fails before the output file gets anything.
        - On success the counter is 0, the converter's filter description is the one for the
          example's dimensions and pixel format, and the file has received exactly its header. */
    static method Open(engine: Engine, frameExample: Option<seq<byte>>, fps: int, flipY: bool, flipX: bool)
      returns (r: Result<VideoWriter, Exception>, ghost exampleFrame: Option<Handle>)
      requires engine.Valid()
      requires frameExample.Some? ==> |frameExample.value| <= INT32_MAX
      modifies engine`next, engine`live, engine`referenced, engine`packetsLeft, engine`demuxed
      modifies engine`leaked, engine`decoded, engine`againBudget, engine`muxed
      ensures engine.Valid()
      ensures r.Success? || r == Failure(CodecNotFound) ==> exampleFrame.Some?
      ensures exampleFrame.Some? ==> exampleFrame.value !in engine.live
      ensures r.Success? ==>
                && fresh(r.value)
                && r.value.frameCounter == 0 && r.value.fps == fps
                && r.value.converter.description
                   == Description(Graph(r.value.width, r.value.height, r.value.pixelFormat, flipY, flipX))
                && engine.muxed == old(engine.muxed) + [HeaderWritten]
      ensures r.Success? ==>
                r.value.converter.flippedFrame < engine.next && r.value.converter.flippedFrame !in engine.referenced
      ensures r.Failure? ==> engine.muxed == old(engine.muxed)
      ensures r.Failure? ==>
                || r.error == NullReference || r.error == CodecNotFound || r.error == FilterSinksMissing
                || (r.error.ApplicationException? && r.error.code < 0)
      ensures old(engine.next) <= engine.next
    {
      var converted;
      converted, exampleFrame := ConverterForExample(engine, frameExample, flipY, flipX);
      if converted.Failure? {
        return Failure(converted.error), exampleFrame;
      }
      r := OpenWithConverter(engine, converted.value.0, converted.value.1, fps, exampleFrame);
    }

    /** VideoWriter.cs:24-47: opens the output file as OpenOutputFile does and keeps the
        converter, the example's picture and the frame rate; the counter starts at 0. An object
        already freed (`freed`, the example frame) stays freed. */
    static method OpenWithConverter(engine: Engine, converter: VideoFlipperConverter, picture: Picture, fps: int,
                                    ghost freed: Option<Handle>)
      returns (r: Result<VideoWriter, Exception>)
      requires engine.Valid()
      requires freed.Some? ==> freed.value !in engine.live && freed.value < engine.next
      modifies engine`next, engine`live, engine`muxed
      ensures engine.Valid()
      ensures old(engine.next) <= engine.next
      ensures freed.Some? ==> freed.value !in engine.live
      ensures r.Success? ==>
                && fresh(r.value)
                && r.value.converter == converter && r.value.fps == fps && r.value.frameCounter == 0
                && r.value.width == picture.width && r.value.height == picture.height
                && r.value.pixelFormat == picture.pixelFormat
                && engine.muxed == old(engine.muxed) + [HeaderWritten]
      ensures r.Failure? ==> engine.muxed == old(engine.muxed)
      ensures r.Failure? ==> r.error == CodecNotFound || (r.error.ApplicationException? && r.error.code < 0)
    {
      var file := OpenOutputFile(engine);
      if file.Failure? {
        return Failure(file.error);
      }
      var writer := new VideoWriter(converter, fps, picture, file.value.0, file.value.1);
      r := Success(writer);
    }

    /** VideoWriter.cs:20-22: decodes the example JPEG, builds the flipping converter for its
        dimensions and pixel format, and frees the example frame. A failure to build the
        converter leaves the example frame allocated. */
    static method ConverterForExample(engine: Engine, frameExample: Option<seq<byte>>, flipY: bool, flipX: bool)
      returns (r: Result<(VideoFlipperConverter, Picture), Exception>, ghost exampleFrame: Option<Handle>)
      requires engine.Valid()
      requires frameExample.Some? ==> |frameExample.value| <= INT32_MAX
      modifies engine`next, engine`live, engine`referenced, engine`packetsLeft, engine`demuxed
      modifies engine`leaked, engine`decoded, engine`againBudget
      ensures engine.Valid()
      ensures r.Success? ==> exampleFrame.Some?
      ensures exampleFrame.Some? ==> exampleFrame.value !in engine.live && exampleFrame.value < engine.next
      ensures r.Success? ==>
                r.value.0.description == Description(Graph(r.value.1.width, r.value.1.height, r.value.1.pixelFormat, flipY, flipX))
      ensures r.Success? ==> r.value.0.flippedFrame < engine.next && r.value.0.flippedFrame !in engine.referenced
      ensures r.Failure? ==>
                || r.error == NullReference || r.error == FilterSinksMissing
                || (r.error.ApplicationException? && r.error.code < 0)
      ensures old(engine.next) <= engine.next
    {
      exampleFrame := None;
      var example := GetAVFrameFromWebcamBytes(engine, frameExample);
      if example.Failure? {
        return Failure(example.error), None;
      }
      var frame, picture := example.value.0, example.value.1;
      var created := VideoFlipperConverter.Create(engine, picture.width, picture.height, picture.pixelFormat, flipY, flipX);
      if created.Failure? {
        return Failure(created.error), None;
      }
      engine.Free(Some(frame));
      exampleFrame := Some(frame);
      r := Success((created.value, picture));
    }

    /** VideoWriter.cs:67-75: writes the trailer, closes the file, then frees the converter's
        graph. */
    method Dispose(engine: Engine)
      modifies engine`muxed, engine`live
      ensures engine.muxed == old(engine.muxed) + [TrailerWritten, FileClosed]
      ensures engine.live == old(engine.live) - {converter.graph}
    {
      engine.WriteTrailer();
      engine.CloseFile();
      converter.Dispose(engine);
    }
  }
}
