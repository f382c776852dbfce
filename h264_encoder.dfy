/** The H.264 file encoder (RaspberryStreamer/H264VideoStreamEncoder.cs): the YUV 4:2:0 plane
    sizes it derives from the frame size, and the send/receive round through which a frame
    becomes a packet of the output file. */
module H264Encoding {
  import opened Wrappers
  import opened FFmpegSetup
  import opened MediaEngine
  import opened ByteBridge

  /** C#'s `a / 2` on an int: the quotient truncated toward zero. */
  function Half(a: int): (q: int)
    ensures 0 <= a ==> 0 <= q <= a && a == 2 * q + a % 2
    ensures a < 0 ==> a <= q <= 0 && -a == 2 * -q + (-a) % 2
  {
    if 0 <= a then a / 2 else -((-a) / 2)
  }

  /** The line sizes and plane sizes of a YUV420P picture as the encoder computes them. */
  datatype Planes = Planes(linesizeY: int32, linesizeU: int32, linesizeV: int32, ySize: int32, uSize: int32)

  /** H264VideoStreamEncoder.cs:69-74: the luma line is the width, each chroma line half of it;
      the luma plane is one line per row and the chroma plane half a chroma line per row, in
      unchecked int arithmetic evaluated left to right. */
  function PlaneSizes(width: int32, height: int32): (p: Planes)
    ensures p.linesizeY == width && p.linesizeU == p.linesizeV == Half(width)
    ensures (p.ySize - width * height) % 0x1_0000_0000 == 0
  {
    var chromaLine: int32 := Half(width);
    var luma := width * height;
    var chroma: int32 := ToInt32(chromaLine * height);
    Planes(width, chromaLine, chromaLine, ToInt32(luma), Half(chroma))
  }

  /** While ⌊width/2⌋·height fits an int, the chroma plane is half a chroma line per row, whether
      or not the luma plane overflows. */
  lemma {:induction false} ChromaPlaneSize(width: int32, height: int32)
    requires 0 <= width && 0 <= height && Half(width) * height <= INT32_MAX
    ensures PlaneSizes(width, height).uSize == (Half(width) * height) / 2
  {
    MultiplyMonotone(0, Half(width), height);
  }

  /** Without overflow the luma plane holds width·height samples, the chroma plane half of
      ⌊width/2⌋·height, and the chroma plane never holds more than a quarter of the luma plane. */
  lemma {:induction false} PlaneSizesWithoutOverflow(width: int32, height: int32)
    requires 0 <= width && 0 <= height && width * height <= INT32_MAX
    ensures PlaneSizes(width, height).ySize == width * height
    ensures PlaneSizes(width, height).uSize == ((width / 2) * height) / 2
    ensures 0 <= 4 * PlaneSizes(width, height).uSize <= PlaneSizes(width, height).ySize
  {
    var u := width / 2;
    MultiplyMonotone(u, width, height);
    ChromaPlaneSize(width, height);
    assert 2 * (u * height) == (2 * u) * height;
    MultiplyMonotone(2 * u, width, height);
  }

  /** For an even width and height the chroma plane is exactly a quarter of the luma plane, the
      4:2:0 layout. */
  lemma {:induction false} EvenSizesGiveQuarterChroma(width: int32, height: int32)
    requires 0 <= width && 0 <= height && width * height <= INT32_MAX
    requires width % 2 == 0 && height % 2 == 0
    ensures 4 * PlaneSizes(width, height).uSize == PlaneSizes(width, height).ySize
  {
    PlaneSizesWithoutOverflow(width, height);
    var u, k := width / 2, height / 2;
    assert u * height == 2 * (u * k) by {
      assert height == 2 * k;
    }
    assert PlaneSizes(width, height).uSize == u * k;
    assert width * height == 4 * (u * k) by {
      assert width == 2 * u && height == 2 * k;
    }
  }

  /** An odd width loses chroma: 3×2 pixels give a luma plane of 6 and a chroma plane of 1. */
  lemma {:induction false} OddWidthLosesChroma()
    ensures PlaneSizes(3, 2).ySize == 6 && PlaneSizes(3, 2).uSize == 1
  {
  }

  /** 65536×32768 pixels overflow the int: the luma plane size wraps to -2^31. */
  lemma {:induction false} LargeFramesWrap()
    ensures PlaneSizes(65536, 32768).ySize == -0x8000_0000
  {
  }

  lemma {:induction false} MultiplyMonotone(a: int, b: int, c: int)
    requires 0 <= a <= b && 0 <= c
    ensures 0 <= a * c <= b * c
  {
  }

  /** The encoder was sent, after `before`, only frames stamped `stamp`. */
  ghost predicate AllStamped(before: seq<int>, after: seq<int>, stamp: int)
  {
    && |before| <= |after| && after[..|before|] == before
    && forall i | |before| <= i < |after| :: after[i] == stamp
  }

  /** H264VideoStreamEncoder.cs:83-91 and VideoWriter.cs:141-148: sends `frame` and asks for a
      packet, again and again while the encoder answers EAGAIN; a failed send and any other
      negative answer are raised. On success `pkt` references the encoded packet, and every
      frame the encoder took carried the frame's pts, at least one of them. */
  method SendReceive(engine: Engine, frame: Handle, pkt: Handle) returns (r: Outcome<Exception>)
    requires engine.Valid() && pkt < engine.next
    requires frame in engine.pts
    modifies engine`encoded, engine`againBudget, engine`referenced
    ensures engine.Valid()
    ensures AllStamped(old(engine.encoded), engine.encoded, engine.pts[frame])
    ensures r.Pass? ==> |old(engine.encoded)| < |engine.encoded| && engine.referenced == old(engine.referenced) + {pkt}
    ensures r.Fail? ==> r.error.ApplicationException? && r.error.code < 0
    ensures r.Fail? ==> engine.referenced == old(engine.referenced)
  {
    var error := 0;
    var first := true;
    while first || error == AVERROR_EAGAIN
      invariant engine.Valid()
      invariant AllStamped(old(engine.encoded), engine.encoded, engine.pts[frame])
      invariant !first ==> |old(engine.encoded)| < |engine.encoded|
      invariant engine.referenced == if !first && 0 <= error then old(engine.referenced) + {pkt} else old(engine.referenced)
      decreases if first then engine.againBudget + 2 else if error == AVERROR_EAGAIN then engine.againBudget + 1 else 0
    {
      first := false;
      var sent := engine.SendFrame(Some(frame));
      var check := ThrowExceptionIfError(sent);
      if check.Failure? {
        return Fail(check.error);
      }
      error := engine.ReceivePacket(pkt);
    }
    var check := ThrowExceptionIfError(error);
    if check.Failure? {
      return Fail(check.error);
    }
    r := Pass;
  }

  /** H264VideoStreamEncoder.cs:78-101, and VideoWriter.cs:136-158 which has the same body:
      encodes one frame and hands the packet to the muxer. The packet is unreferenced on every
      path; the packet object itself (av_packet_alloc) is never freed. On success the file has
      received that one packet; on failure nothing. */
  method EncodeFrame(engine: Engine, frame: Handle) returns (r: Outcome<Exception>)
    requires engine.Valid()
    requires frame in engine.pts
    modifies engine`next, engine`live, engine`encoded, engine`againBudget, engine`referenced, engine`muxed
    ensures engine.Valid()
    ensures engine.live == old(engine.live) + {old(engine.next)} && engine.next == old(engine.next) + 1
    ensures engine.referenced == old(engine.referenced)
    ensures AllStamped(old(engine.encoded), engine.encoded, engine.pts[frame])
    ensures r.Pass? ==> |old(engine.encoded)| < |engine.encoded|
    ensures r.Pass? ==> engine.muxed == old(engine.muxed) + [PacketWritten(old(engine.next))]
    ensures r.Fail? ==> engine.muxed == old(engine.muxed)
    ensures r.Fail? ==> r.error.ApplicationException? && r.error.code < 0
  {
    var pkt := engine.Alloc();
    r := SendReceive(engine, frame, pkt);
    if r.Pass? {
      var written := engine.WritePacket(pkt);
      var check := ThrowExceptionIfError(written);
      if check.Failure? {
        r := Fail(check.error);
      }
    }
    engine.Unref(pkt);
  }

  /** H264VideoStreamEncoder.cs:43-67, and VideoWriter.cs:24-46 which does the same: finds the
      H.264 encoder, allocates the MP4 output context with its one stream, opens the codec, opens
      the file and writes the header. The result is the codec and the output context.
      - Without an H.264 encoder it fails before allocating anything.
      - A failure to open the codec or to write the header is raised; the output context stays
        allocated and the file got no header.
      - The result of avio_open is not checked.
      - On success the output file has received exactly its header. */
  method OpenOutputFile(engine: Engine) returns (r: Result<(Handle, Handle), Exception>)
    requires engine.Valid()
    modifies engine`next, engine`live, engine`muxed
    ensures engine.Valid()
    ensures old(engine.next) <= engine.next && engine.live <= old(engine.live) + {old(engine.next)}
    ensures r == Failure(CodecNotFound) ==>
              engine.next == old(engine.next) && engine.live == old(engine.live) && engine.muxed == old(engine.muxed)
    ensures r.Failure? ==> engine.muxed == old(engine.muxed)
    ensures r.Failure? ==> r.error == CodecNotFound || (r.error.ApplicationException? && r.error.code < 0)
    ensures r.Failure? && r.error != CodecNotFound ==>
              engine.live == old(engine.live) + {old(engine.next)} && engine.next == old(engine.next) + 1
    ensures r.Success? ==>
              && r.value.1 == old(engine.next) && engine.next == old(engine.next) + 1
              && engine.live == old(engine.live) + {r.value.1}
              && engine.muxed == old(engine.muxed) + [HeaderWritten]
  {
    var codec := engine.FindCodec();
    if codec.None? {
      return Failure(CodecNotFound);
    }
    var output := engine.Alloc();
    var codecOpened := engine.Call();
    var check := ThrowExceptionIfError(codecOpened);
    if check.Failure? {
      return Failure(check.error);
    }
    var fileOpened := engine.Call();
    var header := engine.WriteHeader();
    check := ThrowExceptionIfError(header);
    if check.Failure? {
      return Failure(check.error);
    }
    r := Success((codec.value, output));
  }

  /** The encoder's fields: the frame size, its plane sizes, the codec descriptor and the output
      file's format context (whose only stream carries the codec context). */
  class H264VideoStreamEncoder {
    const width: int32
    const height: int32
    const planes: Planes
    const codec: Handle
    const output: Handle

    constructor (width: int32, height: int32, codec: Handle, output: Handle)
      ensures this.width == width && this.height == height
      ensures planes == PlaneSizes(width, height)
      ensures this.codec == codec && this.output == output
    {
      this.width := width;
      this.height := height;
      this.planes := PlaneSizes(width, height);
      this.codec := codec;
      this.output := output;
    }

    /** H264VideoStreamEncoder.cs:38-76: opens the output file as OpenOutputFile does and
        derives the plane sizes from the frame size. */
    static method Create(engine: Engine, width: int32, height: int32)
      returns (r: Result<H264VideoStreamEncoder, Exception>)
      requires engine.Valid()
      modifies engine`next, engine`live, engine`muxed
      ensures engine.Valid()
      ensures r == Failure(CodecNotFound) ==>
                engine.next == old(engine.next) && engine.live == old(engine.live) && engine.muxed == old(engine.muxed)
      ensures r.Failure? ==> engine.muxed == old(engine.muxed)
      ensures r.Failure? ==> r.error == CodecNotFound || (r.error.ApplicationException? && r.error.code < 0)
      ensures r.Failure? && r.error != CodecNotFound ==> engine.live == old(engine.live) + {old(engine.next)}
      ensures r.Success? ==>
                && fresh(r.value)
                && r.value.planes == PlaneSizes(width, height)
                && r.value.output == old(engine.next)
                && engine.live == old(engine.live) + {r.value.output}
                && engine.muxed == old(engine.muxed) + [HeaderWritten]
    {
      var file := OpenOutputFile(engine);
      if file.Failure? {
        return Failure(file.error);
      }
      var encoder := new H264VideoStreamEncoder(width, height, file.value.0, file.value.1);
      r := Success(encoder);
    }

    /** H264VideoStreamEncoder.cs:103-110: writes the trailer, then closes the file. */
    method Dispose(engine: Engine)
      modifies engine`muxed
      ensures engine.muxed == old(engine.muxed) + [TrailerWritten, FileClosed]
    {
      engine.WriteTrailer();
      engine.CloseFile();
    }
  }
}
