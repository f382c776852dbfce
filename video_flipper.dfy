/** The filter graph that flips webcam frames before encoding (RaspberryStreamer/VideoFlipperConverter.cs):
    the text description handed to avfilter_graph_parse2, the graph's source and sink found by
    name, and the single output frame every flip is written to. */
module VideoFlipper {
  import opened Wrappers
  import opened Text
  import opened FFmpegSetup
  import opened MediaEngine

  /** The pad labels of the description: `in` (the source's output), `in<k>` (the links,
      numbered from 1) and `out` (the sink's input). */
  datatype Pad = In | Numbered(k: nat) | Out

  function PadLabel(p: Pad): string
  {
    match p
    case In => "in"
    case Numbered(k) => "in" + NatToString(k)
    case Out => "out"
  }

  /** Distinct pads have distinct labels, so what is proved about pads holds for the text. */
  lemma {:induction false} PadLabelInjective(p: Pad, q: Pad)
    ensures PadLabel(p) == PadLabel(q) <==> p == q
  {
    if p.Numbered? && q.Numbered? && PadLabel(p) == PadLabel(q) {
      assert NatToString(p.k) == PadLabel(p)[2..] && NatToString(q.k) == PadLabel(q)[2..];
      NatToStringInjective(p.k, q.k);
    } else if p.Numbered? && q.Out? {
      assert PadLabel(p)[0] == 'i';
    } else if p.Out? && q.Numbered? {
      assert PadLabel(q)[0] == 'i';
    }
  }

  /** One filter of a description: at most one input pad, the filter's name and arguments, at
      most one output pad. */
  datatype FilterSpec = FilterSpec(input: Option<Pad>, name: string, args: string, output: Option<Pad>)

  function InPad(pad: Option<Pad>): string
  {
    if pad.Some? then "[" + PadLabel(pad.value) + "] " else ""
  }

  function OutPad(pad: Option<Pad>): string
  {
    if pad.Some? then " [" + PadLabel(pad.value) + "]" else ""
  }

  function ArgText(args: string): string
  {
    if args == "" then "" else "=" + args
  }

  /** A filter in filtergraph syntax: `[input] name=args [output]`, leaving out whatever is absent. */
  function Render(f: FilterSpec): string
  {
    InPad(f.input) + f.name + ArgText(f.args) + OutPad(f.output)
  }

  /** The arguments of the buffer source: the frame's geometry and integer pixel format. */
  function SourceArgs(width: int, height: int, pixelFormat: int): (args: string)
    ensures args != ""
  {
    "width=" + IntToString(width) + ":height=" + IntToString(height) + ":pix_fmt="
    + IntToString(pixelFormat) + ":time_base=1/1:pixel_aspect=1/1"
  }

  /** The buffer source, writing pad `in`. */
  function Source(width: int, height: int, pixelFormat: int): FilterSpec
  {
    FilterSpec(None, "buffer", SourceArgs(width, height, pixelFormat), Some(In))
  }

  /** The sink reading `out`, and the conversion of `in` to pixel format 0 (YUV420P) feeding `in1`. */
  const Sink: FilterSpec := FilterSpec(Some(Out), "buffersink", "", None)
  const Format: FilterSpec := FilterSpec(Some(In), "format", "pix_fmts=0", Some(Numbered(1)))

  /** The flips the settings enable, vertical first (VideoFlipperConverter.cs:17-24). */
  function FlipNames(flipY: bool, flipX: bool): (names: seq<string>)
    ensures |names| == (if flipY then 1 else 0) + (if flipX then 1 else 0)
  {
    (if flipY then ["vflip"] else []) + (if flipX then ["hflip"] else [])
  }

  /** The filter `name` reading `in<k>` and writing `in<k+1>`. */
  function Link(k: nat, name: string): FilterSpec
  {
    FilterSpec(Some(Numbered(k)), name, "", Some(Numbered(k + 1)))
  }

  /** The filters `names` linked one after another from pad `in<k>` on. */
  function ChainFrom(k: nat, names: seq<string>): (fs: seq<FilterSpec>)
    ensures |fs| == |names|
    decreases |names|
  {
    if names == [] then [] else [Link(k, names[0])] + ChainFrom(k + 1, names[1..])
  }

  /** The i-th filter of a chain reads `in<k+i>` and writes `in<k+i+1>`. */
  lemma {:induction false} ChainFromAt(k: nat, names: seq<string>, i: nat)
    requires i < |names|
    ensures ChainFrom(k, names)[i] == Link(k + i, names[i])
    decreases |names|
  {
    if i > 0 {
      ChainFromAt(k + 1, names[1..], i - 1);
    }
  }

  /** Appending a name to the chain appends one link, numbered after the others. */
  lemma {:induction false} ChainFromSnoc(k: nat, names: seq<string>, name: string)
    ensures ChainFrom(k, names + [name]) == ChainFrom(k, names) + [Link(k + |names|, name)]
    decreases |names|
  {
    if names != [] {
      assert (names + [name])[1..] == names[1..] + [name];
      ChainFromSnoc(k + 1, names[1..], name);
    } else {
      assert ChainFrom(k + 1, []) == [];
    }
  }

  /** The final copy into the sink's pad (VideoFlipperConverter.cs:26). */
  function Copy(k: nat): FilterSpec
  {
    FilterSpec(Some(Numbered(k)), "copy", "", Some(Out))
  }

  /** The filters of the description in the order they are written. */
  function Graph(width: int, height: int, pixelFormat: int, flipY: bool, flipX: bool): (g: seq<FilterSpec>)
    ensures |g| == 4 + |FlipNames(flipY, flipX)|
  {
    var names := FlipNames(flipY, flipX);
    [Source(width, height, pixelFormat), Sink, Format] + ChainFrom(1, names) + [Copy(1 + |names|)]
  }

  /** Filters each followed by ';'. */
  function Terminated(fs: seq<FilterSpec>): string
    decreases |fs|
  {
    if fs == [] then "" else Terminated(fs[..|fs| - 1]) + (Render(fs[|fs| - 1]) + ";")
  }

  /** The description text of a graph, as the constructor spells it: the first filter, "; ", the
      middle filters each followed by ';', the last filter. */
  function Description(g: seq<FilterSpec>): string
    requires |g| >= 2
  {
    Render(g[0]) + "; " + Terminated(g[1..|g| - 1]) + Render(g[|g| - 1])
  }

  /** The middle of the description: the sink, the conversion and the flip links. */
  lemma {:induction false} DescriptionOfGraph(width: int, height: int, pixelFormat: int, flipY: bool, flipX: bool)
    ensures var names := FlipNames(flipY, flipX);
            Description(Graph(width, height, pixelFormat, flipY, flipX))
            == Render(Source(width, height, pixelFormat)) + "; " + Terminated([Sink, Format] + ChainFrom(1, names))
               + Render(Copy(1 + |names|))
  {
    var g := Graph(width, height, pixelFormat, flipY, flipX);
    assert g[1..|g| - 1] == [Sink, Format] + ChainFrom(1, FlipNames(flipY, flipX));
  }

  // How each kind of filter is spelled in the text.

  lemma {:induction false} In1()
    ensures PadLabel(Numbered(1)) == "in1"
  {
    assert NatToString(1) == "1";
  }

  lemma {:induction false} SourceShape(args: string)
    requires args != ""
    ensures InPad(None) + "buffer" + ArgText(args) + OutPad(Some(In)) == "buffer=" + args + " [in]"
  {
  }

  lemma {:induction false} SinkText()
    ensures Render(Sink) == "[out] buffersink"
  {
  }

  lemma {:induction false} FormatText()
    ensures Render(Format) == "[in] format=pix_fmts=0 [in1]"
  {
    In1();
  }

  lemma {:induction false} LinkShape(a: string, name: string, b: string)
    ensures "[" + ("in" + a) + "] " + name + ArgText("") + (" [" + ("in" + b) + "]") + ";"
            == "[in" + a + "] " + name + " [in" + b + "];"
  {
  }

  lemma {:induction false} CopyShape(a: string)
    ensures "[" + ("in" + a) + "] " + "copy" + ArgText("") + (" [" + "out" + "]") == "[in" + a + "] copy [out]"
  {
  }

  lemma {:induction false} Reassociate(a: string, b: string, c: string, d: string, e: string, f: string)
    ensures a + b + ("" + (c + d) + (e + f)) == a + b + c + d + e + f
  {
    assert "" + (c + d) == c + d;
    assert (a + b) + ((c + d) + (e + f)) == ((a + b) + (c + d)) + (e + f);
    assert (a + b) + (c + d) == a + b + c + d;
    assert (a + b + c + d) + (e + f) == a + b + c + d + e + f;
  }

  lemma {:induction false} TerminatedPair(a: FilterSpec, b: FilterSpec)
    ensures Terminated([a, b]) == "" + (Render(a) + ";") + (Render(b) + ";")
  {
    assert [a, b][..1] == [a];
    assert [a][..0] == [];
    assert Terminated([a]) == Terminated([]) + (Render(a) + ";");
    assert Terminated([a, b]) == Terminated([a]) + (Render(b) + ";");
  }

  /** The fixed head of line 15: the source, the sink and the conversion, in that order. */
  lemma {:induction false} HeadText(width: int, height: int, pixelFormat: int)
    ensures Render(Source(width, height, pixelFormat)) + "; " + Terminated([Sink, Format])
            == "buffer=" + SourceArgs(width, height, pixelFormat) + " [in]" + "; " + "[out] buffersink" + ";"
               + "[in] format=pix_fmts=0 [in1]" + ";"
  {
    SourceShape(SourceArgs(width, height, pixelFormat));
    SinkText();
    FormatText();
    TerminatedPair(Sink, Format);
    Reassociate(Render(Source(width, height, pixelFormat)), "; ", Render(Sink), ";", Render(Format), ";");
  }

  lemma {:induction false} AppendAssociative(a: seq<FilterSpec>, b: seq<FilterSpec>, c: seq<FilterSpec>)
    ensures a + (b + c) == (a + b) + c
  {
  }

  lemma {:induction false} TerminatedSnoc(fs: seq<FilterSpec>, f: FilterSpec)
    ensures Terminated(fs + [f]) == Terminated(fs) + (Render(f) + ";")
  {
    assert (fs + [f])[..|fs|] == fs;
  }

  lemma {:induction false} LinkText(k: nat, name: string)
    ensures Render(Link(k, name)) + ";" == "[in" + NatToString(k) + "] " + name + " [in" + NatToString(k + 1) + "];"
  {
    LinkShape(NatToString(k), name, NatToString(k + 1));
  }

  /** One flip appended with its ';' extends the chain by the link from `in<k>` to `in<k+1>`. */
  lemma {:induction false} LinkStep(head: string, names: seq<string>, k: nat, name: string)
    requires k == 1 + |names|
    ensures head + Terminated([Sink, Format] + ChainFrom(1, names))
            + ("[in" + NatToString(k) + "] " + name + " [in" + NatToString(k + 1) + "];")
            == head + Terminated([Sink, Format] + ChainFrom(1, names + [name]))
  {
    var chain := ChainFrom(1, names);
    var done := [Sink, Format] + chain;
    var t, x := Terminated(done), Render(Link(k, name)) + ";";
    LinkText(k, name);
    ChainFromSnoc(1, names, name);
    AppendAssociative([Sink, Format], chain, [Link(k, name)]);
    TerminatedSnoc(done, Link(k, name));
    assert head + t + x == head + (t + x);
  }

  lemma {:induction false} CopyStep(prefix: string, k: nat)
    ensures prefix + ("[in" + NatToString(k) + "] copy [out]") == prefix + Render(Copy(k))
  {
    CopyShape(NatToString(k));
  }

  lemma {:induction false} FlipNamesInSteps(flipY: bool, flipX: bool)
    ensures FlipNames(flipY, false) == if flipY then [] + ["vflip"] else []
    ensures FlipNames(flipY, flipX) == if flipX then FlipNames(flipY, false) + ["hflip"] else FlipNames(flipY, false)
  {
  }

  /** VideoFlipperConverter.cs:15-26: the description built by appending to `filters` while
      `inputCount` numbers the links. The interpolated string of line 15 is written as the
      concatenation of its parts. */
  method BuildFilterDescription(width: int, height: int, pixelFormat: int, flipY: bool, flipX: bool)
    returns (filters: string)
    ensures filters == Description(Graph(width, height, pixelFormat, flipY, flipX))
  {
    filters := "buffer=" + ("width=" + IntToString(width) + ":height=" + IntToString(height) + ":pix_fmt="
      + IntToString(pixelFormat) + ":time_base=1/1:pixel_aspect=1/1") + " [in]" + "; " + "[out] buffersink" + ";"
      + "[in] format=pix_fmts=0 [in1]" + ";";
    ghost var head := Render(Source(width, height, pixelFormat)) + "; ";
    HeadText(width, height, pixelFormat);
    var inputCount;
    filters, inputCount := AppendFlips(filters, flipY, flipX, head);
    CopyStep(filters, inputCount);
    ClosingCopy(filters, width, height, pixelFormat, flipY, flipX);
    filters := filters + ("[in" + NatToString(inputCount) + "] copy [out]");
  }

  /** VideoFlipperConverter.cs:16-24: starting from link 1, each requested flip appends one link
      from the current pad to the next and advances `inputCount`, vflip first. Each flip's name
      is its own literal. */
  method AppendFlips(filters: string, flipY: bool, flipX: bool, ghost head: string)
    returns (extended: string, inputCount: nat)
    requires filters == head + Terminated([Sink, Format])
    ensures extended == head + Terminated([Sink, Format] + ChainFrom(1, FlipNames(flipY, flipX)))
    ensures inputCount == 1 + |FlipNames(flipY, flipX)|
  {
    extended := filters;
    inputCount := 1;
    ghost var names: seq<string> := [];
    assert extended == head + Terminated([Sink, Format] + ChainFrom(1, names)) by {
      assert [Sink, Format] + ChainFrom(1, []) == [Sink, Format];
    }
    FlipNamesInSteps(flipY, flipX);
    if flipY {
      LinkStep(head, names, inputCount, "vflip");
      extended := extended + ("[in" + NatToString(inputCount) + "] " + "vflip" + " [in" + NatToString(inputCount + 1) + "];");
      inputCount := inputCount + 1;
      names := names + ["vflip"];
    }
    assert names == FlipNames(flipY, false);
    if flipX {
      LinkStep(head, names, inputCount, "hflip");
      extended := extended + ("[in" + NatToString(inputCount) + "] " + "hflip" + " [in" + NatToString(inputCount + 1) + "];");
      inputCount := inputCount + 1;
      names := names + ["hflip"];
    }
    assert names == FlipNames(flipY, flipX);
  }

  /** The text up to the flip links, followed by the copy, is the whole description. */
  lemma {:induction false} ClosingCopy(chain: string, width: int, height: int, pixelFormat: int, flipY: bool, flipX: bool)
    requires chain == Render(Source(width, height, pixelFormat)) + "; "
                      + Terminated([Sink, Format] + ChainFrom(1, FlipNames(flipY, flipX)))
    ensures chain + Render(Copy(1 + |FlipNames(flipY, flipX)|)) == Description(Graph(width, height, pixelFormat, flipY, flipX))
  {
    DescriptionOfGraph(width, height, pixelFormat, flipY, flipX);
  }

  /** Without flips the frames pass straight through: the source, the sink, the conversion to
      `in1`, and the copy from `in1` to the sink's pad. */
  lemma {:induction false} NoFlipIsCopy(width: int, height: int, pixelFormat: int)
    ensures Graph(width, height, pixelFormat, false, false) == [Source(width, height, pixelFormat), Sink, Format, Copy(1)]
  {
  }

  /** The default settings (FlipY on, FlipX off) put one vertical flip between `in1` and `in2`. */
  lemma {:induction false} DefaultSettingsFlipVertically(width: int, height: int, pixelFormat: int)
    ensures Graph(width, height, pixelFormat, true, false)
            == [Source(width, height, pixelFormat), Sink, Format, Link(1, "vflip"), Copy(2)]
  {
    assert ChainFrom(1, ["vflip"]) == [Link(1, "vflip")];
  }

  /** With both flips the vertical flip comes first: from `in1` to `in2`, then the horizontal one
      from `in2` to `in3`, then the copy from `in3`. */
  lemma {:induction false} BothFlipsInOrder(width: int, height: int, pixelFormat: int)
    ensures Graph(width, height, pixelFormat, true, true)
            == [Source(width, height, pixelFormat), Sink, Format, Link(1, "vflip"), Link(2, "hflip"), Copy(3)]
  {
    ChainFromSnoc(1, ["vflip"], "hflip");
    assert ChainFrom(1, ["vflip"]) == [Link(1, "vflip")];
    assert ["vflip"] + ["hflip"] == ["vflip", "hflip"];
  }

  /** The filters in data-flow order: the source, the conversion, the flips, the copy, the sink. */
  function FlowOrder(g: seq<FilterSpec>): seq<FilterSpec>
    requires |g| >= 2
  {
    [g[0]] + g[2..] + [g[1]]
  }

  /** A single chain: it starts at a filter without input and ends at one without output, each
      filter's output is the next one's input, and no pad is written twice. */
  ghost predicate SingleChain(fs: seq<FilterSpec>)
  {
    && |fs| >= 1
    && fs[0].input.None? && fs[|fs| - 1].output.None?
    && (forall i :: 0 <= i < |fs| - 1 ==> fs[i].output.Some? && fs[i].output == fs[i + 1].input)
    && (forall i, j :: 0 <= i < j < |fs| && fs[i].output.Some? ==> fs[i].output != fs[j].output)
  }

  /** The pad written by the i-th filter in data-flow order when there are n flips: `in`,
      then `in1` to `in<n+1>`, then `out`. */
  function PadAfter(i: nat, n: nat): Pad
  {
    if i == 0 then In else if i <= n + 1 then Numbered(i) else Out
  }

  /** The data-flow order of the description's filters. */
  lemma {:induction false} FlowOrderOfGraph(width: int, height: int, pixelFormat: int, flipY: bool, flipX: bool)
    ensures var names := FlipNames(flipY, flipX);
            FlowOrder(Graph(width, height, pixelFormat, flipY, flipX))
            == [Source(width, height, pixelFormat), Format] + ChainFrom(1, names) + [Copy(1 + |names|), Sink]
  {
    var names := FlipNames(flipY, flipX);
    FlowOrderOfParts(Source(width, height, pixelFormat), Sink, Format, ChainFrom(1, names), Copy(1 + |names|));
  }

  lemma {:induction false} FlowOrderOfParts(a: FilterSpec, b: FilterSpec, c: FilterSpec, m: seq<FilterSpec>, d: FilterSpec)
    ensures FlowOrder([a, b, c] + m + [d]) == [a, c] + m + [d, b]
  {
    var g := [a, b, c] + m + [d];
    assert g[2..] == [c] + m + [d];
  }

  /** Indexing into a sequence made of a head, a middle and a tail. */
  lemma {:induction false} IndexThreeParts<T>(a: seq<T>, c: seq<T>, b: seq<T>, i: nat)
    requires i < |a| + |c| + |b|
    ensures i < |a| ==> (a + c + b)[i] == a[i]
    ensures |a| <= i < |a| + |c| ==> (a + c + b)[i] == c[i - |a|]
    ensures |a| + |c| <= i ==> (a + c + b)[i] == b[i - |a| - |c|]
  {
  }

  /** In data-flow order the i-th filter reads the pad the one before it writes and writes
      `PadAfter(i)`; the source reads nothing and the sink writes nothing. */
  lemma {:induction false} FlowAt(source: FilterSpec, names: seq<string>, i: nat)
    requires source.input.None? && source.output == Some(In)
    requires i < |names| + 4
    ensures var fs := [source, Format] + ChainFrom(1, names) + [Copy(1 + |names|), Sink];
            var n := |names|;
            && (i == 0 ==> fs[i].input.None?)
            && (0 < i ==> fs[i].input == Some(PadAfter(i - 1, n)))
            && (i < n + 3 ==> fs[i].output == Some(PadAfter(i, n)))
            && (i == n + 3 ==> fs[i].output.None?)
  {
    var n := |names|;
    var chain := ChainFrom(1, names);
    IndexThreeParts([source, Format], chain, [Copy(1 + n), Sink], i);
    if 2 <= i < n + 2 {
      ChainFromAt(1, names, i - 2);
    }
  }

  /** Every pad label of the description is produced once and consumed once: in data-flow order
      the filters form one chain from the buffer source to the sink. */
  lemma {:induction false} GraphIsSingleChain(width: int, height: int, pixelFormat: int, flipY: bool, flipX: bool)
    ensures SingleChain(FlowOrder(Graph(width, height, pixelFormat, flipY, flipX)))
  {
    var names := FlipNames(flipY, flipX);
    var n := |names|;
    FlowOrderOfGraph(width, height, pixelFormat, flipY, flipX);
    var source := Source(width, height, pixelFormat);
    var fs := [source, Format] + ChainFrom(1, names) + [Copy(1 + n), Sink];
    FlowAt(source, names, 0);
    FlowAt(source, names, n + 3);
    forall i | 0 <= i < |fs| - 1
      ensures fs[i].output.Some? && fs[i].output == fs[i + 1].input
    {
      FlowAt(source, names, i);
      FlowAt(source, names, i + 1);
    }
    forall i, j | 0 <= i < j < |fs| && fs[i].output.Some?
      ensures fs[i].output != fs[j].output
    {
      FlowAt(source, names, i);
      FlowAt(source, names, j);
    }
  }

  /** The name avfilter_graph_parse2 gives the i-th filter of a description ("Parsed_%s_%d" in
      libavfilter's graph parser). */
  function ParsedName(g: seq<FilterSpec>, i: nat): string
    requires i < |g|
  {
    "Parsed_" + g[i].name + "_" + NatToString(i)
  }

  /** The two names the constructor looks up (VideoFlipperConverter.cs:34-35) are those of the
      description's first two filters, whatever the settings. */
  lemma {:induction false} LookedUpNamesMatch(width: int, height: int, pixelFormat: int, flipY: bool, flipX: bool)
    ensures var g := Graph(width, height, pixelFormat, flipY, flipX);
            ParsedName(g, 0) == "Parsed_buffer_0" && ParsedName(g, 1) == "Parsed_buffersink_1"
  {
    var g := Graph(width, height, pixelFormat, flipY, flipX);
    assert g[0].name == "buffer" && g[1].name == "buffersink";
    SmallNumbers();
    ParsedNamesSpelled();
  }

  lemma {:induction false} SmallNumbers()
    ensures NatToString(0) == "0" && NatToString(1) == "1"
  {
  }

  lemma {:induction false} ParsedNamesSpelled()
    ensures "Parsed_" + "buffer" + "_" + "0" == "Parsed_buffer_0"
    ensures "Parsed_" + "buffersink" + "_" + "1" == "Parsed_buffersink_1"
  {
  }

  /** The converter: a configured graph with its source and sink, and the one frame every flip
      is written to. */
  class VideoFlipperConverter {
    const graph: Handle
    const source: Handle
    const sink: Handle
    const flippedFrame: Handle
    const flippedBuffer: Handle
    const description: string

    constructor (graph: Handle, source: Handle, sink: Handle, flippedFrame: Handle, flippedBuffer: Handle, description: string)
      ensures this.graph == graph && this.source == source && this.sink == sink
      ensures this.flippedFrame == flippedFrame && this.flippedBuffer == flippedBuffer
      ensures this.description == description
    {
      this.graph := graph;
      this.source := source;
      this.sink := sink;
      this.flippedFrame := flippedFrame;
      this.flippedBuffer := flippedBuffer;
      this.description := description;
    }

    /** VideoFlipperConverter.cs:13-48: builds and parses the description and configures the
        graph, finds its source and sink, and allocates the output frame with its picture
        buffer. On failure the graph is not freed. */
    static method Create(engine: Engine, width: int, height: int, pixelFormat: int, flipY: bool, flipX: bool)
      returns (r: Result<VideoFlipperConverter, Exception>)
      requires engine.Valid()
      modifies engine`next, engine`live
      ensures engine.Valid()
      ensures r.Success? ==>
                && r.value.description == Description(Graph(width, height, pixelFormat, flipY, flipX))
                && r.value.graph == old(engine.next)
                && r.value.flippedFrame == old(engine.next) + 1
                && r.value.flippedBuffer == old(engine.next) + 2
                && engine.live == old(engine.live) + {r.value.graph} + {r.value.flippedFrame} + {r.value.flippedBuffer}
      ensures r.Failure? ==> engine.live == old(engine.live) + {old(engine.next)}
      ensures r.Failure? ==> (r.error.ApplicationException? && r.error.code < 0) || r.error == FilterSinksMissing
    {
      var filters := BuildFilterDescription(width, height, pixelFormat, flipY, flipX);
      var graph := engine.Alloc();
      var configured := ParseAndConfigure(engine);
      if configured.Fail? {
        return Failure(configured.error);
      }
      var ends := FindEnds(engine, graph);
      if ends.Failure? {
        return Failure(ends.error);
      }
      var frame := engine.Alloc();
      var buffer := engine.Alloc();
      var c := new VideoFlipperConverter(graph, ends.value.0, ends.value.1, frame, buffer, filters);
      r := Success(c);
    }

    /** VideoFlipperConverter.cs:31-32: avfilter_graph_parse2 and then avfilter_graph_config, each
        result checked. */
    static method ParseAndConfigure(engine: Engine) returns (r: Outcome<Exception>)
      ensures r.Fail? ==> r.error.ApplicationException? && r.error.code < 0
    {
      var parsed := engine.Call();
      var check := ThrowExceptionIfError(parsed);
      if check.Failure? {
        return Fail(check.error);
      }
      var configured := engine.Call();
      check := ThrowExceptionIfError(configured);
      if check.Failure? {
        return Fail(check.error);
      }
      r := Pass;
    }

    /** VideoFlipperConverter.cs:34-37: the source and the sink looked up by the names the parser
        gives the first two filters; either missing is an error. */
    static method FindEnds(engine: Engine, graph: Handle) returns (r: Result<(Handle, Handle), Exception>)
      ensures r.Failure? ==> r.error == FilterSinksMissing
    {
      var source := engine.GetFilter(graph, "Parsed_buffer_0");
      var sink := engine.GetFilter(graph, "Parsed_buffersink_1");
      if source.None? || sink.None? {
        return Failure(FilterSinksMissing);
      }
      r := Success((source.value, sink.value));
    }

    /** VideoFlipperConverter.cs:50-55: pushes `frame` into the source and pulls the result from
        the sink; the result is always the converter's own output frame, which then references
        the filtered picture. A picture it still referenced from an earlier pull leaks. Either
        call failing is raised, and then the output frame is as it was. */
    method FlipFrame(engine: Engine, frame: Option<Handle>) returns (r: Result<Handle, Exception>)
      requires engine.Valid() && flippedFrame < engine.next
      modifies engine`referenced, engine`leaked
      ensures engine.Valid()
      ensures r.Success? ==>
                && r.value == flippedFrame
                && engine.referenced == old(engine.referenced) + {flippedFrame}
                && engine.leaked == old(engine.leaked) + if flippedFrame in old(engine.referenced) then 1 else 0
      ensures r.Failure? ==>
                && r.error.ApplicationException? && r.error.code < 0
                && engine.referenced == old(engine.referenced) && engine.leaked == old(engine.leaked)
    {
      var added := engine.Call();
      var check := ThrowExceptionIfError(added);
      if check.Failure? {
        return Failure(check.error);
      }
      var pulled := engine.SinkGetFrame(flippedFrame);
      check := ThrowExceptionIfError(pulled);
      if check.Failure? {
        return Failure(check.error);
      }
      r := Success(flippedFrame);
    }

    /** VideoFlipperConverter.cs:57-63: frees the graph and nothing else; the output frame and its
        buffer stay allocated. */
    method Dispose(engine: Engine)
      modifies engine`live
      ensures engine.live == old(engine.live) - {graph}
    {
      engine.Free(Some(graph));
    }
  }
}
