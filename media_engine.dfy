/** The FFmpeg libraries as the modelled code sees them: calls that allocate and free objects,
    calls whose integer result is whatever the library returns, and the few facts about those
    results the code relies on. Nothing here decodes, filters or encodes a picture. */
module MediaEngine {
  import opened Wrappers

  /** AVERROR(EAGAIN) on Linux: "output is not available in this state, send more input". */
  const AVERROR_EAGAIN: int := -11
  /** AVERROR_EOF, FFERRTAG('E', 'O', 'F', ' '). */
  const AVERROR_EOF: int := -0x2046_4F45

  /** A pointer to an FFmpeg object (a context, a frame, a packet, a buffer, a filter). */
  type Handle = nat

  /** What a decoder reports about the picture it produced: the codec context's width, height
      and pix_fmt. */
  datatype Picture = Picture(width: int, height: int, pixelFormat: int)

  /** What an output file has received, in order. */
  datatype MuxEvent = HeaderWritten | PacketWritten(packet: Handle) | TrailerWritten | FileClosed

  class Engine {
    /** The next address the allocator hands out; everything below it has been handed out once. */
    var next: nat
    /** Objects allocated and not yet freed. */
    ghost var live: set<Handle>
    /** Packets whose data buffer is referenced (filled by a read or an encoder, not yet unreferenced). */
    ghost var referenced: set<Handle>
    /** How many times a read or a filter pull overwrote a packet or frame that still referenced
        data: that data is never released. */
    ghost var leaked: nat
    /** Packets the demuxer can still deliver before it reports end of file. */
    var packetsLeft: nat
    /** How many more times a codec may answer EAGAIN; codecs produce output eventually. */
    var againBudget: nat
    /** The pts of every frame sent to an encoder, in order. */
    ghost var encoded: seq<int>
    /** How many packets were sent to a decoder. */
    ghost var decoded: nat
    /** What the output file received, in order. */
    ghost var muxed: seq<MuxEvent>
    /** The stream index of every packet the demuxer delivered, in order. */
    ghost var demuxed: seq<int>
    /** The pts field of each frame. */
    var pts: map<Handle, int>

    ghost predicate Valid()
      reads this
    {
      (forall h | h in live :: h < next) && (forall h | h in referenced :: h < next)
    }

    constructor (demuxable: nat, agains: nat)
      ensures Valid()
      ensures live == {} && referenced == {} && leaked == 0 && encoded == [] && decoded == 0 && muxed == [] && demuxed == []
      ensures packetsLeft == demuxable && againBudget == agains && next == 0 && pts == map[]
    {
      next := 0;
      live := {};
      referenced := {};
      leaked := 0;
      packetsLeft := demuxable;
      againBudget := agains;
      encoded := [];
      decoded := 0;
      muxed := [];
      demuxed := [];
      pts := map[];
    }

    /** av_frame_alloc, av_packet_alloc, av_malloc, avformat_alloc_context, avfilter_graph_alloc,
        avformat_alloc_output_context2: a new object, distinct from every object handed out before. */
    method Alloc() returns (h: Handle)
      requires Valid()
      modifies this`next, this`live
      ensures Valid()
      ensures h == old(next) && next == old(next) + 1
      ensures live == old(live) + {h}
    {
      h := next;
      next := next + 1;
      live := live + {h};
    }

    /** Storage on the caller's stack (an `AVPacket pkt;` local): a new address that nobody frees. */
    method Reserve() returns (h: Handle)
      requires Valid()
      modifies this`next
      ensures Valid()
      ensures h == old(next) && next == old(next) + 1
    {
      h := next;
      next := next + 1;
    }

    /** avio_alloc_context: a new context, or null when the allocation fails. */
    method AllocOrNull() returns (h: Option<Handle>)
      requires Valid()
      modifies this`next, this`live
      ensures Valid()
      ensures h.Some? ==> h.value == old(next) && next == old(next) + 1 && live == old(live) + {h.value}
      ensures h.None? ==> next == old(next) && live == old(live)
    {
      var fails: bool :| true;
      if fails {
        h := None;
      } else {
        var a := Alloc();
        h := Some(a);
      }
    }

    /** av_frame_free, av_free, avformat_free_context, avformat_close_input, avio_context_free,
        avcodec_close, avfilter_graph_free: releases the object; null is ignored. */
    method Free(h: Option<Handle>)
      modifies this`live
      ensures live == if h.Some? then old(live) - {h.value} else old(live)
    {
      if h.Some? {
        live := live - {h.value};
      }
    }

    /** av_packet_unref, av_frame_unref: drops the data the object references; the object stays. */
    method Unref(h: Handle)
      modifies this`referenced
      ensures referenced == old(referenced) - {h}
    {
      referenced := referenced - {h};
    }

    /** A native call whose only observable effect here is its result code (avformat_open_input,
        avformat_find_stream_info, avcodec_open2, avfilter_graph_parse2, avfilter_graph_config,
        av_buffersrc_add_frame, av_buffersink_get_frame). */
    method Call() returns (code: int)
    {
      code :| true;
    }

    /** avformat_open_input on a context the caller allocated: on failure FFmpeg frees that
        context; on success it stays allocated. */
    method OpenInput(ctx: Handle) returns (code: int)
      modifies this`live
      ensures live == if code < 0 then old(live) - {ctx} else old(live)
    {
      code :| true;
      if code < 0 {
        live := live - {ctx};
      }
    }

    /** avfilter_graph_get_filter: the filter of that name, or null. */
    method GetFilter(graph: Handle, name: string) returns (f: Option<Handle>)
    {
      f :| true;
    }

    /** avcodec_find_encoder / avcodec_find_decoder: a static codec description, or null. */
    method FindCodec() returns (c: Option<Handle>)
    {
      c :| true;
    }

    /** av_read_frame into `pkt`: at end of input AVERROR_EOF; otherwise an error, or a packet
        of some stream whose data `pkt` now references. A packet that still referenced data
        is overwritten without being unreferenced, and that data leaks. */
    method ReadFrame(pkt: Handle) returns (code: int, streamIndex: int)
      requires Valid() && pkt < next
      modifies this`packetsLeft, this`referenced, this`demuxed, this`leaked
      ensures Valid()
      ensures old(packetsLeft) == 0 ==> code == AVERROR_EOF
      ensures 0 <= code ==> packetsLeft == old(packetsLeft) - 1 && referenced == old(referenced) + {pkt}
                            && demuxed == old(demuxed) + [streamIndex]
                            && leaked == old(leaked) + if pkt in old(referenced) then 1 else 0
      ensures code < 0 ==> packetsLeft == old(packetsLeft) && referenced == old(referenced) && demuxed == old(demuxed)
                           && leaked == old(leaked)
    {
      if packetsLeft == 0 {
        return AVERROR_EOF, 0;
      }
      code :| true;
      streamIndex :| true;
      if 0 <= code {
        if pkt in referenced {
          leaked := leaked + 1;
        }
        packetsLeft := packetsLeft - 1;
        referenced := referenced + {pkt};
        demuxed := demuxed + [streamIndex];
      }
    }

    /** av_buffersink_get_frame into `frame`: on success the frame references the filtered
        picture. A frame that still referenced a picture is overwritten without being
        unreferenced, and that picture leaks. */
    method SinkGetFrame(frame: Handle) returns (code: int)
      requires Valid() && frame < next
      modifies this`referenced, this`leaked
      ensures Valid()
      ensures 0 <= code ==> referenced == old(referenced) + {frame}
                            && leaked == old(leaked) + if frame in old(referenced) then 1 else 0
      ensures code < 0 ==> referenced == old(referenced) && leaked == old(leaked)
    {
      code :| true;
      if 0 <= code {
        if frame in referenced {
          leaked := leaked + 1;
        }
        referenced := referenced + {frame};
      }
    }

    /** avcodec_send_packet: the decoder takes the packet, or reports an error. */
    method SendPacket(pkt: Handle) returns (code: int)
      modifies this`decoded
      ensures decoded == old(decoded) + 1
    {
      decoded := decoded + 1;
      code :| true;
    }

    /** avcodec_receive_frame: a decoded picture in `frame`, EAGAIN while the budget lasts, or an error. */
    method ReceiveFrame(frame: Handle) returns (code: int, picture: Picture)
      modifies this`againBudget
      ensures code == AVERROR_EAGAIN ==> old(againBudget) > 0 && againBudget == old(againBudget) - 1
      ensures code != AVERROR_EAGAIN ==> againBudget == old(againBudget)
    {
      code :| true;
      picture :| true;
      if code == AVERROR_EAGAIN {
        if againBudget == 0 {
          code := -1;
        } else {
          againBudget := againBudget - 1;
        }
      }
    }

    /** avcodec_send_frame: when the encoder accepts a frame, the frame's current pts is recorded
        as encoded; a null frame (a flush) and a rejected frame add nothing. */
    method SendFrame(frame: Option<Handle>) returns (code: int)
      modifies this`encoded
      ensures encoded == old(encoded) +
                if 0 <= code && frame.Some? && frame.value in pts then [pts[frame.value]] else []
    {
      code :| true;
      if 0 <= code && frame.Some? && frame.value in pts {
        encoded := encoded + [pts[frame.value]];
      }
    }

    /** avcodec_receive_packet: an encoded packet in `pkt`, EAGAIN while the budget lasts, or an
        error. */
    method ReceivePacket(pkt: Handle) returns (code: int)
      requires Valid() && pkt < next
      modifies this`againBudget, this`referenced
      ensures Valid()
      ensures code == AVERROR_EAGAIN ==> old(againBudget) > 0 && againBudget == old(againBudget) - 1
      ensures code != AVERROR_EAGAIN ==> againBudget == old(againBudget)
      ensures referenced == if 0 <= code then old(referenced) + {pkt} else old(referenced)
    {
      code :| true;
      if code == AVERROR_EAGAIN {
        if againBudget == 0 {
          code := -1;
        } else {
          againBudget := againBudget - 1;
        }
      }
      if 0 <= code {
        referenced := referenced + {pkt};
      }
    }

    /** Sets a frame's pts field. */
    method SetPts(frame: Handle, value: int)
      modifies this`pts
      ensures pts == old(pts)[frame := value]
    {
      pts := pts[frame := value];
    }

    /** avformat_write_header: the file gets its header, or the muxer reports an error. */
    method WriteHeader() returns (code: int)
      modifies this`muxed
      ensures 0 <= code ==> muxed == old(muxed) + [HeaderWritten]
      ensures code < 0 ==> muxed == old(muxed)
    {
      code :| true;
      if 0 <= code {
        muxed := muxed + [HeaderWritten];
      }
    }

    /** av_interleaved_write_frame: the muxer takes the packet, or reports an error. */
    method WritePacket(pkt: Handle) returns (code: int)
      modifies this`muxed
      ensures 0 <= code ==> muxed == old(muxed) + [PacketWritten(pkt)]
      ensures code < 0 ==> muxed == old(muxed)
    {
      code :| true;
      if 0 <= code {
        muxed := muxed + [PacketWritten(pkt)];
      }
    }

    /** av_write_trailer. */
    method WriteTrailer()
      modifies this`muxed
      ensures muxed == old(muxed) + [TrailerWritten]
    {
      muxed := muxed + [TrailerWritten];
    }

    /** avio_closep. */
    method CloseFile()
      modifies this`muxed
      ensures muxed == old(muxed) + [FileClosed]
    {
      muxed := muxed + [FileClosed];
    }
  }
}
