# RaspberryStreamer, modelled in Dafny

RaspberryStreamer records a 3D printer's webcam while the printer prints. A background worker
polls the printer's Duet web interface once a second. While the printer is not idle, it records
the latest webcam JPEG into an H.264 MP4 file. The file is named after the printed file and gets
the first name not yet taken. Each recorded JPEG is decoded with FFmpeg, flipped by a filter
graph, stamped with a running frame number and encoded.

This project models the parts of that program that make decisions. Each one is proved to keep
the promises the code makes:

- `ByteBridge` (ByteReader.cs): the read and seek callbacks FFmpeg uses to demultiplex a JPEG
  held in memory. It is a class with one 64-bit cursor and models C#'s unchecked narrowing and
  wrap-around explicitly.
- `Recorder` (Worker.cs): the main loop, the recording loop and the choice of a free video
  name, as a class over a finite feed of status samples.
  - The file system is a set of existing names.
  - What the worker does is a log of events.
  - A transition system over that log shows that each writer is disposed exactly once and that
    at most one writer is open at a time.
- `DuetStatus` (DuetWebControlStatus.cs): the idle and paused tests, and the status label table.
- `FileInfo` (FileInfoStatus.cs): the file name with its directory stripped.
- `VideoFlipper` (VideoFlipperConverter.cs):
  - the filter description built by appending to a string while a counter numbers the links;
  - a structured reference (`Graph`) of that description, proved to form one chain from the
    buffer source to the sink;
  - the configuration of the graph, and flipping a frame.
- `MJpegCamera` (MJpegStreamWebCameraProvider.cs): the worker that keeps the latest snapshot and
  probes the first one for the picture's dimensions, and the decoding of a snapshot.
- `VideoWriting` (VideoWriter.cs) and `H264Encoding` (H264VideoStreamEncoder.cs):
  - opening the output file;
  - the per-frame decode, flip, stamp and encode with try/finally release;
  - the EAGAIN send/receive loop;
  - the YUV 4:2:0 plane-size arithmetic in 32-bit ints;
  - the order of trailer and close in Dispose.
- `FFmpegSetup` (FFMpegSetup.cs): the log-level mapping, the log callback's filter, the run-once
  Init, and ThrowExceptionIfError. H264VideoStreamEncoder.cs:19-23 defines the same check a
  second time, and `FFmpegSetup.ThrowExceptionIfError` models both.
- `MediaEngine`: the FFmpeg libraries as the code sees them, not a model of any one source file.
  - Objects are handles from a counter.
  - Ghost sets record which objects are allocated and which packets still reference data. A
    ghost counter records how often a read or a filter pull overwrote a packet or frame that
    still referenced data, which then leaks.
  - Ghost logs record what was demuxed, decoded, encoded and written to the output file.
  - Every result code is chosen nondeterministically, with the few facts the code relies on:
    codecs answer EAGAIN only finitely often, and a demuxer runs out of packets.
- `Text` and `Wrappers`: .NET string semantics (decimal rendering, LastIndexOf, Contains and
  Trim), and Option/Result/Outcome standing for null references and exceptions.

The source files come from different revisions and do not fit together.

- Worker.cs:64 calls a `VideoWriter(string, Bitmap, logger)` constructor, and Worker.cs:58 uses
  `VideoWriter.Fps`. The VideoWriter.cs shown has neither.
- VideoWriter.cs:83 constructs `ByteReader(bytes)`, and MJpegStreamWebCameraProvider.cs:70 uses
  `ReadFunc`/`SeekFunc`. ByteReader.cs has neither.

Each file is therefore modelled as written and joined through the abstract engine.

- In `Recorder`, opening and writing the video is a sample input that may throw (`writerFault`).
- In `VideoWriting` and `MJpegCamera`, a `ByteBridge.ByteReader` is created and given the
  bytes, as in the source, but the engine's demuxer does not read through it. What the demuxer
  delivers is chosen freely. The one effect of the reader that is kept is the null reference that
  null bytes raise in the first read callback.

A few readings follow the code where the obvious description says otherwise.

- A null `FileName` makes the video ".mp4": `Path.GetFileNameWithoutExtension(null)` is null,
  and concatenating it reads as "".
- Only the exact status "I" counts as idle. "B" (busy) and "D" (decelerating) start or continue
  a recording, and a null status during a recording throws.
- SEEK_END (whence 2) sets the cursor to `Length - offset`, not `Length + offset`.
- The send/receive loop of MJpegStreamWebCameraProvider.GetFrame runs exactly once: `error` is
  never reassigned, so an EAGAIN from the decoder is raised. The `return null` after its read
  loop cannot be reached.
- QUIET (-8) maps to Warning, below PANIC's Critical. The mapping keeps the severity order only
  from PANIC upwards.

## Model

| member | source | states |
|---|---|---|
| Text.LastIndexOf | RaspberryStreamer/FileInfoStatus.cs:21 | the index of the last occurrence of the character, -1 exactly when it does not occur, and no occurrence after it |
| Text.Trim | RaspberryStreamer/FFMpegSetup.cs:45 | the result starts and ends with no white space |
| Text.TrimStart | RaspberryStreamer/FFMpegSetup.cs:45 | a suffix of the input; everything cut off is white space, and the result does not start with white space |
| Text.TrimEnd | RaspberryStreamer/FFMpegSetup.cs:45 | a prefix of the input; everything cut off is white space, and the result does not end with white space |
| Text.TrimKeepsInnerText | RaspberryStreamer/FFMpegSetup.cs:45-46 | trimming keeps every occurrence of a text that neither starts nor ends with white space, so the suppressed warning is found in the trimmed line whenever it was in the formatted one |
| Text.NatToStringInjective | RaspberryStreamer/Worker.cs:90 | distinct counts render as distinct decimal strings |
| Text.NatToString | RaspberryStreamer/Worker.cs:90 | a count renders as a string starting with a decimal digit, a single digit exactly below 10 |
| Text.IntToString | RaspberryStreamer/VideoFlipperConverter.cs:15 | an int renders with a leading '-' exactly when it is negative |
| ByteBridge.ToInt32 | RaspberryStreamer/ByteReader.cs:20 | the unchecked (int) cast: the identity on the int range, otherwise congruent modulo 2^32 |
| ByteBridge.ToInt64 | RaspberryStreamer/ByteReader.cs:42 | unchecked long arithmetic: the identity on the long range, otherwise congruent modulo 2^64 |
| ByteBridge.ReadSize | RaspberryStreamer/ByteReader.cs:18-20 | for a cursor from 0 to 2^31 past the end, the count is min(request, Length - cursor) |
| ByteBridge.Chunk | RaspberryStreamer/ByteReader.cs:21-29 | what one read copies: the bytes from the cursor, cut to the request, and nothing at or past the end |
| ByteBridge.PositionAfter | RaspberryStreamer/ByteReader.cs:16-31 | after a run of reads the cursor is never behind where it started and never past the end |
| ByteBridge.ReadAllSpansCursor | RaspberryStreamer/ByteReader.cs:16-31 | successive reads copy out exactly the bytes the cursor passed over, in order and without gaps |
| ByteBridge.PositionAfterIsClamped | RaspberryStreamer/ByteReader.cs:16-31 | after non-negative reads the cursor stands at start + total requested, or at the end if that comes first |
| ByteBridge.ReadAllIsPrefix | RaspberryStreamer/ByteReader.cs:16-31 | successive non-negative reads copy the buffer from the cursor up to the total or the end; from cursor 0 they give a prefix of the buffer |
| ByteBridge.ReadSizeWrapsFarPastTheEnd | RaspberryStreamer/ByteReader.cs:19-25 | 2^32 - 5 bytes past the end of 10 bytes, a request of 100 gets a positive count of 5: the narrowing wraps and the copy would run outside the buffer |
| ByteBridge.ByteReader.constructor | RaspberryStreamer/ByteReader.cs:9-12 | the cursor starts at 0 and no buffer is set |
| ByteBridge.ByteReader.SetBuffer | RaspberryStreamer/ByteReader.cs:14 | the buffer is replaced; the cursor is left where it is |
| ByteBridge.ByteReader.Read | RaspberryStreamer/ByteReader.cs:16-32 | with no buffer, a null reference and nothing changes. Otherwise returns min(request, Length - cursor). When that is positive, exactly those bytes are copied to the front of the destination and the cursor advances by that much; otherwise nothing is copied and the cursor stays. The destination beyond the copy is untouched |
| ByteBridge.ByteReader.Seek | RaspberryStreamer/ByteReader.cs:34-52 | whence 0 sets the cursor to the offset, 1 adds it with 64-bit wrap-around, 2 sets Length - offset; each returns the new cursor. AVSEEK_SIZE returns Length without moving, and any other whence changes nothing and returns the cursor. Whence 2 and AVSEEK_SIZE, and only they, raise a null reference when no buffer is set, leaving the cursor alone |
| ByteBridge.SeekEndCountsBackwards | RaspberryStreamer/ByteReader.cs:45 | SEEK_END with 0 <= k <= Length lands on Length - k, and a read from there yields at most the last k bytes |
| DuetStatus.DetailedStatus | RaspberryStreamer/DuetWebControlStatus.cs:11-29 | a null status throws NullReference and an empty one IndexOutOfRange; otherwise each known first character gets the label at its table position, and "Unknown" exactly for the rest |
| DuetStatus.IsIdle | RaspberryStreamer/DuetWebControlStatus.cs:7 | idle exactly when the status is one character long and that character is labelled Idle; a null status is not idle |
| DuetStatus.IsPaused | RaspberryStreamer/DuetWebControlStatus.cs:9 | paused exactly when the status is one character long and that character is labelled Paused/Stopped |
| DuetStatus.Label | RaspberryStreamer/DuetWebControlStatus.cs:15-27 | each of the ten known codes gets the label at its table position, and "Unknown" exactly for every other character |
| DuetStatus.IdleAndPausedExclusive | RaspberryStreamer/DuetWebControlStatus.cs:7-9 | no status is both idle ("I") and paused ("S") |
| DuetStatus.DetailedStatusReadsFirstCharacterOnly | RaspberryStreamer/DuetWebControlStatus.cs:7-15 | statuses with the same first character get the same label, so "Ix" is labelled Idle but is not idle, and "Sx" is labelled Paused/Stopped but is not paused |
| DuetStatus.TestsAgreeWithLabels | RaspberryStreamer/DuetWebControlStatus.cs:7-25 | an idle status is labelled Idle and a paused one Paused/Stopped |
| DuetStatus.LabelsDistinct | RaspberryStreamer/DuetWebControlStatus.cs:16-26 | the ten known codes have ten distinct labels, none of them "Unknown" |
| FileInfo.StripPath | RaspberryStreamer/FileInfoStatus.cs:21 | a suffix of the name with no '/', which is the whole name or is preceded by '/' |
| FileInfo.GetFileNameWithoutPath | RaspberryStreamer/FileInfoStatus.cs:19-22 | null exactly when FileName is null; otherwise the name after its last '/' |
| FileInfo.StripPathIsTheOnlySuch | RaspberryStreamer/FileInfoStatus.cs:21 | StripPath's three properties determine the result: any suffix with them is StripPath |
| FileInfo.StripPathIdempotent | RaspberryStreamer/FileInfoStatus.cs:21 | stripping twice gives the same as stripping once |
| FileInfo.TrailingSlashGivesEmpty | RaspberryStreamer/FileInfoStatus.cs:21 | a name ending in '/' gives the empty string |
| FileInfo.NoSlashGivesWholeName | RaspberryStreamer/FileInfoStatus.cs:21 | a name without '/' is returned whole |
| FFmpegSetup.Severity | RaspberryStreamer/FFMpegSetup.cs:52-75 | a rank for the .NET levels: Trace lowest, Critical highest |
| FFmpegSetup.ConvertLogLevel | RaspberryStreamer/FFMpegSetup.cs:52-75 | in both directions: Trace exactly for MAX_OFFSET and TRACE, Debug for DEBUG and VERBOSE, Error for ERROR, Critical for PANIC and FATAL, Warning for WARNING and QUIET, and Information for INFO and every integer that is not a named level |
| FFmpegSetup.ConvertLogLevelKeepsSeverity | RaspberryStreamer/FFMpegSetup.cs:52-75 | among named levels from PANIC up, a more severe FFmpeg level never maps to a less severe .NET level |
| FFmpegSetup.QuietBreaksTheOrder | RaspberryStreamer/FFMpegSetup.cs:64-69 | QUIET is below PANIC, yet maps to a less severe level than PANIC does |
| FFmpegSetup.ThrowExceptionIfError | RaspberryStreamer/FFMpegSetup.cs:77-88 | a non-negative result passes through unchanged; a negative one, and only that, raises ApplicationException with that code |
| FFmpegSetup.Forwards | RaspberryStreamer/FFMpegSetup.cs:39-46 | which messages the callback passes on: no contract of its own; ForwardsOnlyWanted and ForwardsShortMessages state what it lets through |
| FFmpegSetup.ForwardsOnlyWanted | RaspberryStreamer/FFMpegSetup.cs:39-49 | nothing above the threshold is forwarded, nor any line that contains the decoder warning anywhere |
| FFmpegSetup.ForwardsShortMessages | RaspberryStreamer/FFMpegSetup.cs:39-49 | at or below the threshold, a line too short after trimming to hold the warning is forwarded |
| FFmpegSetup.FFmpegLogging.constructor | RaspberryStreamer/FFMpegSetup.cs:12-15 | before Init: no logger, no callback, FFmpeg's default level INFO, nothing logged |
| FFmpegSetup.FFmpegLogging.Init | RaspberryStreamer/FFMpegSetup.cs:17-35 | with no stored logger, stores the logger, sets the level to ERROR and installs the callback; once a logger is stored, changes nothing |
| FFmpegSetup.FFmpegLogging.LogCallback | RaspberryStreamer/FFMpegSetup.cs:37-50 | logs exactly the forwarded lines, trimmed and at the converted level; with no logger a forwarded line throws NullReference; every logged line is trimmed and free of the warning |
| MJpegCamera.DecodeFirstVideoPacket | RaspberryStreamer/MJpegStreamWebCameraProvider.cs:90-111 | skips packets of other streams and decodes the first packet of stream 0 once; on success the new frame is the one object added, and exactly one packet was decoded; every failure is a negative FFmpeg result. All packets are read into the one packet, which references data exactly when something was read, and every read after the first overwrites data that is never released |
| MJpegCamera.GetFrame | RaspberryStreamer/MJpegStreamWebCameraProvider.cs:63-129 | on success only the returned frame remains allocated, exactly one video packet was decoded, and the data of every skipped packet of another stream has leaked; on any path the last packet read is unreferenced and the leak is one packet per read but the last; null bytes fail as a null reference; failures leave only objects this call allocated |
| MJpegCamera.OtherStreamsBeforeVideo | RaspberryStreamer/MJpegStreamWebCameraProvider.cs:92-95 | when packets of other streams precede one of stream 0, all but the last read were skipped |
| MJpegCamera.OverwrittenAreSkipped | RaspberryStreamer/MJpegStreamWebCameraProvider.cs:92-95 | on a successful decode the packets overwritten by later reads are exactly the skipped ones |
| MJpegCamera.OpenSnapshot | RaspberryStreamer/MJpegStreamWebCameraProvider.cs:65-81 | on success the format context, IO buffer and IO context are allocated in that order; a null IO context or null bytes raise a null reference; failures leave only objects this call allocated |
| MJpegCamera.ReleaseSnapshot | RaspberryStreamer/MJpegStreamWebCameraProvider.cs:113-122 | frees the format context, buffer and IO context and unreferences the packet |
| MJpegCamera.LatestFrameIsSomeFetch | RaspberryStreamer/MJpegStreamWebCameraProvider.cs:33-47 | a stored snapshot is never lost, and the latest snapshot is the starting one or one of the fetched ones |
| MJpegCamera.LatestFrameAfterSuccess | RaspberryStreamer/MJpegStreamWebCameraProvider.cs:33-47 | a later successful fetch overrides whatever came before |
| MJpegCamera.MJpegStreamWebCameraProvider.constructor | RaspberryStreamer/MJpegStreamWebCameraProvider.cs:17-22 | no snapshot is stored and the dimensions are 0 |
| MJpegCamera.MJpegStreamWebCameraProvider.WorkerIteration | RaspberryStreamer/MJpegStreamWebCameraProvider.cs:31-53 | a failed fetch changes nothing; the first stored snapshot is probed, its frame freed at once and its dimensions recorded, and a failed probe changes nothing; later snapshots replace the stored one without a probe; only the probe's reads leak packet data |
| MJpegCamera.MJpegStreamWebCameraProvider.Worker | RaspberryStreamer/MJpegStreamWebCameraProvider.cs:26-55 | stops at the first cancelled sample; whenever a snapshot is stored it is the latest one fetched, and once one is stored the dimensions stay fixed; the set of packets referencing data is unchanged (the data of skipped packets still leaks, as in GetFrame) |
| MJpegCamera.MJpegStreamWebCameraProvider.GetCurrentFrame | RaspberryStreamer/MJpegStreamWebCameraProvider.cs:61 | with no snapshot stored it fails with a null reference; on success a fresh frame is the only new object |
| VideoFlipper.PadLabelInjective | RaspberryStreamer/VideoFlipperConverter.cs:15-26 | distinct pads have distinct labels: in, in1, in2, ..., out |
| VideoFlipper.FlipNames | RaspberryStreamer/VideoFlipperConverter.cs:17-24 | one name per enabled flip |
| VideoFlipper.FlipNamesInSteps | RaspberryStreamer/VideoFlipperConverter.cs:17-24 | vflip is added first when FlipY is set, then hflip when FlipX is set |
| VideoFlipper.ChainFromAt | RaspberryStreamer/VideoFlipperConverter.cs:19-23 | the i-th flip reads in(k+i) and writes in(k+i+1) |
| VideoFlipper.ChainFromSnoc | RaspberryStreamer/VideoFlipperConverter.cs:19-23 | appending a flip appends one link, numbered after the others |
| VideoFlipper.Graph | RaspberryStreamer/VideoFlipperConverter.cs:15-26 | the description has four filters plus one per enabled flip |
| VideoFlipper.DescriptionOfGraph | RaspberryStreamer/VideoFlipperConverter.cs:15-26 | the text is the buffer source, "; ", the sink, the format conversion and the flip links each followed by ';', then the copy from the last link into out |
| VideoFlipper.HeadText | RaspberryStreamer/VideoFlipperConverter.cs:15 | the fixed head spelled out: buffer=width=..:height=..:pix_fmt=..:time_base=1/1:pixel_aspect=1/1 [in]; [out] buffersink;[in] format=pix_fmts=0 [in1]; |
| VideoFlipper.LinkStep | RaspberryStreamer/VideoFlipperConverter.cs:19-23 | appending "[in k] name [in k+1];" extends the description by one link |
| VideoFlipper.BuildFilterDescription | RaspberryStreamer/VideoFlipperConverter.cs:15-26 | the string built with += and the counter is the description of the reference graph |
| VideoFlipper.AppendFlips | RaspberryStreamer/VideoFlipperConverter.cs:16-24 | the optional vflip then hflip each append one numbered link, giving the chain of the requested flips, and the counter ends one past the number of flips |
| VideoFlipper.ClosingCopy | RaspberryStreamer/VideoFlipperConverter.cs:26 | the chain followed by the copy from the last link is the whole description of the graph |
| VideoFlipper.NoFlipIsCopy | RaspberryStreamer/VideoFlipperConverter.cs:15-26 | without flips: source, sink, conversion to in1, copy from in1 to out |
| VideoFlipper.DefaultSettingsFlipVertically | RaspberryStreamer/VideoFlipperConverter.cs:15-26 | default settings put one vflip from in1 to in2, then copy from in2 |
| VideoFlipper.BothFlipsInOrder | RaspberryStreamer/VideoFlipperConverter.cs:15-26 | with both flips, vflip from in1 to in2 precedes hflip from in2 to in3, then copy from in3 |
| VideoFlipper.FlowOrderOfGraph | RaspberryStreamer/VideoFlipperConverter.cs:15-26 | in data-flow order the filters are the source, the conversion, the flips, the copy and the sink |
| VideoFlipper.FlowAt | RaspberryStreamer/VideoFlipperConverter.cs:15-26 | in data-flow order each filter reads the pad the previous one writes |
| VideoFlipper.GraphIsSingleChain | RaspberryStreamer/VideoFlipperConverter.cs:15-26 | every pad label is written once and read once: the filters form one chain from the buffer source to the sink |
| VideoFlipper.LookedUpNamesMatch | RaspberryStreamer/VideoFlipperConverter.cs:34-35 | the description's first two filters are the ones the parser names Parsed_buffer_0 and Parsed_buffersink_1 |
| VideoFlipper.VideoFlipperConverter.constructor | RaspberryStreamer/VideoFlipperConverter.cs:8-11 | keeps the graph, source, sink, output frame, its buffer and the description |
| VideoFlipper.VideoFlipperConverter.Create | RaspberryStreamer/VideoFlipperConverter.cs:13-48 | on success the description is the reference one, and the graph, output frame and buffer are the three new objects; on failure only the graph was allocated and it is not freed, and the error is a negative result or the missing sinks |
| VideoFlipper.VideoFlipperConverter.ParseAndConfigure | RaspberryStreamer/VideoFlipperConverter.cs:31-32 | a failure is a negative FFmpeg result |
| VideoFlipper.VideoFlipperConverter.FindEnds | RaspberryStreamer/VideoFlipperConverter.cs:34-37 | either filter missing fails with FilterSinksMissing |
| VideoFlipper.VideoFlipperConverter.FlipFrame | RaspberryStreamer/VideoFlipperConverter.cs:50-55 | on success the result is the converter's own output frame, which now references the filtered picture, and a picture it still held leaks; either call failing raises its negative result and leaves references and leaks as they were |
| VideoFlipper.VideoFlipperConverter.Dispose | RaspberryStreamer/VideoFlipperConverter.cs:57-63 | frees the graph and nothing else |
| H264Encoding.Half | RaspberryStreamer/H264VideoStreamEncoder.cs:70 | C#'s a / 2: truncation toward zero for both signs |
| H264Encoding.PlaneSizes | RaspberryStreamer/H264VideoStreamEncoder.cs:69-74 | the luma line is the width and both chroma lines are half of it; the luma plane is width·height modulo 2^32 |
| H264Encoding.ChromaPlaneSize | RaspberryStreamer/H264VideoStreamEncoder.cs:70-74 | while ⌊width/2⌋·height fits an int, the chroma plane is half of it, even when the luma plane overflows |
| H264Encoding.PlaneSizesWithoutOverflow | RaspberryStreamer/H264VideoStreamEncoder.cs:69-74 | without overflow the luma plane is width·height, the chroma plane is ⌊⌊width/2⌋·height/2⌋, and at most a quarter of the luma plane |
| H264Encoding.EvenSizesGiveQuarterChroma | RaspberryStreamer/H264VideoStreamEncoder.cs:69-74 | for even width and height, 4·chroma plane = luma plane |
| H264Encoding.OddWidthLosesChroma | RaspberryStreamer/H264VideoStreamEncoder.cs:69-74 | 3×2 pixels give a luma plane of 6 and a chroma plane of 1 |
| H264Encoding.LargeFramesWrap | RaspberryStreamer/H264VideoStreamEncoder.cs:73 | 65536×32768 pixels wrap the luma plane size to -2^31 |
| H264Encoding.SendReceive | RaspberryStreamer/H264VideoStreamEncoder.cs:83-91 | sends and receives again while the encoder answers EAGAIN; every frame sent carried the frame's pts, at least one was sent on success, and any other negative answer is raised |
| H264Encoding.EncodeFrame | RaspberryStreamer/H264VideoStreamEncoder.cs:78-101 | the packet is unreferenced on every path; on success the file received exactly that packet, on failure nothing |
| H264Encoding.OpenOutputFile | RaspberryStreamer/H264VideoStreamEncoder.cs:43-67 | without an encoder it fails before allocating anything; on success the output context is the one new object and the file received exactly its header; other failures are negative results and leave the output context allocated |
| H264Encoding.H264VideoStreamEncoder.constructor | RaspberryStreamer/H264VideoStreamEncoder.cs:38-76 | keeps the frame size, codec and output context, and the plane sizes derived from the frame size |
| H264Encoding.H264VideoStreamEncoder.Create | RaspberryStreamer/H264VideoStreamEncoder.cs:38-76 | opens the output file as OpenOutputFile does, and has the plane sizes of the frame size |
| H264Encoding.H264VideoStreamEncoder.Dispose | RaspberryStreamer/H264VideoStreamEncoder.cs:103-110 | writes the trailer, then closes the file |
| VideoWriting.VideoWriter.constructor | RaspberryStreamer/VideoWriter.cs:14 | the frame counter starts at 0 |
| VideoWriting.VideoWriter.GetAVFrameFromWebcamBytes | RaspberryStreamer/VideoWriter.cs:78-134 | on success a new frame and the IO buffer, which is never freed, are left allocated, and the packet still references data; exactly one video packet was decoded; every read but the last leaks a packet's data; failures are a null reference or a negative result |
| VideoWriting.VideoWriter.OpenWebcamInput | RaspberryStreamer/VideoWriter.cs:81-88 | the format context, the buffer and the IO context, null or not, are allocated in that order; null bytes raise a null reference |
| VideoWriting.VideoWriter.WriteFrame | RaspberryStreamer/VideoWriter.cs:50-65 | every frame sent to the encoder carried the old counter; the counter advances by one, with int wrap-around, exactly when the call succeeds; on success the file received one packet and the flipped frame no longer references a picture, on failure the file got nothing; the decoded webcam frame is freed on every path |
| VideoWriting.VideoWriter.FlipAndEncode | RaspberryStreamer/VideoWriter.cs:55-58 | the flipped frame is stamped with the counter before it is encoded; after a successful encode it is unreferenced, after a failed encode it keeps its picture, and a picture it held before this flip leaks; no other reference changes |
| VideoWriting.VideoWriter.Open | RaspberryStreamer/VideoWriter.cs:16-48 | the example frame is freed once decoded and converted; on success the counter is 0, the converter's output frame references no picture yet, the converter's description is the one for the example's size and pixel format, and the file received exactly its header; without an H.264 encoder it fails after the example frame was freed |
| VideoWriting.VideoWriter.ConverterForExample | RaspberryStreamer/VideoWriter.cs:20-22 | decodes the example, builds the converter for its size and pixel format, and frees the example frame |
| VideoWriting.VideoWriter.OpenWithConverter | RaspberryStreamer/VideoWriter.cs:24-47 | keeps the converter, fps and picture, starts the counter at 0, opens the output file with its header, and keeps a freed object freed |
| VideoWriting.VideoWriter.Dispose | RaspberryStreamer/VideoWriter.cs:67-75 | writes the trailer, closes the file, then frees the converter's graph |
| Recorder.PhasesAppend | RaspberryStreamer/Worker.cs:29-79 | the phase after one more event is one step from the phase before it |
| Recorder.EachWriterDisposedOnce | RaspberryStreamer/Worker.cs:64-79 | in a well-formed log every writer but the one still recording was disposed exactly once |
| Recorder.PrefixesWellFormed | RaspberryStreamer/Worker.cs:29-79 | every prefix of a well-formed log is well-formed |
| Recorder.AtMostOneWriter | RaspberryStreamer/Worker.cs:33-44 | at every point of a well-formed log at most one writer is open |
| Recorder.WithoutExtension | RaspberryStreamer/Worker.cs:83 | null exactly for a null path |
| Recorder.WithoutExtensionCutsAtLastDot | RaspberryStreamer/Worker.cs:83 | a prefix of the file name: the whole name without a '.', otherwise everything before its last '.' |
| Recorder.CandidateInjective | RaspberryStreamer/Worker.cs:85-90 | distinct counts give distinct candidate names |
| Recorder.CandidatesBelowGrow | RaspberryStreamer/Worker.cs:87-93 | the n-th candidate is new, and the candidates below n+1 are those below n plus it |
| Recorder.FirstFreeUnique | RaspberryStreamer/Worker.cs:81-95 | there is only one first free name |
| Recorder.DirectoryStrippedTwice | RaspberryStreamer/Worker.cs:61-62 | stripping the directory in GetFileNameWithoutPath and again in GetFileNameWithoutExtension gives the same base as stripping once |
| Recorder.NamedAfterUnique | RaspberryStreamer/Worker.cs:61-62 | a print and the taken names determine the video's name |
| Recorder.FreshAfterOther | RaspberryStreamer/Worker.cs:29-79 | events other than opening a writer keep every opened name fresh |
| Recorder.FreshAfterOpen | RaspberryStreamer/Worker.cs:64 | opening a writer on a free name, which creates that file, keeps every opened name fresh and distinct |
| Recorder.SessionShape | RaspberryStreamer/Worker.cs:54-79 | an open, frames, an optional end and a dispose form one recording session |
| Recorder.Worker.constructor | RaspberryStreamer/Worker.cs:22-27 | before the first poll status and file info are null; the log is empty |
| Recorder.Worker.Delay | RaspberryStreamer/Worker.cs:37 | the wait ends with the next sample, or signals shutdown when the feed is exhausted; it throws TaskCanceled exactly when it observes the token and shutdown was requested |
| Recorder.Candidate | RaspberryStreamer/Worker.cs:85-90 | every name tried starts with the base and ends in ".mp4"; only the first one is nothing more than that |
| Recorder.Worker.GenerateVideoFileName | RaspberryStreamer/Worker.cs:81-95 | "base.mp4" when free, otherwise "base (n).mp4" for the smallest free n ≥ 1: the name is free and every earlier candidate is taken |
| Recorder.Worker.RecordOnce | RaspberryStreamer/Worker.cs:69-76 | paused, no frame is written; otherwise exactly one frame is written, or the writer throws |
| Recorder.Worker.RecordingLoop | RaspberryStreamer/Worker.cs:67-77 | only frames are logged; a normal exit has a status that is idle, or a cancelled token; a null status throws NullReference |
| Recorder.Worker.AwaitFileInfo | RaspberryStreamer/Worker.cs:56-59 | waits until the file info is known; a known one is used at once |
| Recorder.Worker.VideoFileNameFor | RaspberryStreamer/Worker.cs:61-62 | the name is free and is the first free candidate for the printed file's name without directory and extension |
| Recorder.Worker.OpenRecording | RaspberryStreamer/Worker.cs:56-66 | no writer opens before the file info is known; on success the writer opens on the first free name for the print, and that name becomes taken |
| Recorder.Worker.RecordAndClose | RaspberryStreamer/Worker.cs:66-79 | frames only, then the end logged on a normal exit, then the writer disposed exactly once on every exit |
| Recorder.Worker.StartRecording | RaspberryStreamer/Worker.cs:54-79 | one recording session: the writer opened on a fresh name, disposed exactly once, and marked complete exactly when the loop exited normally |
| Recorder.Worker.Tick | RaspberryStreamer/Worker.cs:35-49 | a null or idle status starts nothing; any other status with known file info starts a recording; a cancelled wait is logged as an error |
| Recorder.Worker.ExecuteAsync | RaspberryStreamer/Worker.cs:29-52 | the log stays well-formed with fresh, distinct video names; unless the feed stalls, the loop ends only once shutdown is requested, and the log then ends with the camera's disposal |

## Left out

- HTTP, JSON, threads and `async` timing are not modelled. The status provider (DuetWifiStatusProvider.cs) is
  replaced by a finite feed of samples, and the camera's HTTP fetch by a sequence of fetch
  outcomes. The wait durations (1000 ms, 100 ms, 1000/fps) are not modelled: a wait is one step
  of the feed.
- The cancellation token is the `stop` flag of the sample that ends a wait. When the feed runs
  out, the host is taken to shut down.
- Recorder.Worker.ExecuteAsync: if the feed ends while StartRecording waits for the file info,
  that wait ignores the token and would never end. The model stops there (`stalled`) instead of
  looping forever.
- Recorder.Worker.OpenRecording: opening and writing the video are sample inputs that may throw,
  not calls into VideoWriting. The constructor Worker.cs:64 calls does not exist in the
  VideoWriter.cs shown. The created file joins the existing names only when the writer opens.
- Recorder.Worker.GenerateVideoFileName: the count is a mathematical integer. C#'s int would
  wrap after 2^31 - 1 taken names.
- Recorder: the log messages' text, the exception objects and the logger are events without
  content.
- Every FFmpeg call is an abstract engine method. The engine records allocation, references,
  pts and the file's header, packets and trailer, but no picture, codec or container semantics.
  This covers av_opt_set, av_dump_format, av_register_all, av_guess_format, av_image_fill_arrays,
  av_packet_rescale_ts and the stream and codec-context fields.
- H264Encoding.H264VideoStreamEncoder.Dispose and VideoWriting.VideoWriter.Dispose: avcodec_close
  and av_free of the codec context and the codec descriptor are left out, because the engine does
  not track those objects.
- FFmpegSetup.FFmpegLogging.LogCallback: the formatting by av_log_format_line and its 1024-byte
  truncation are not modelled; the formatted line is an input.
- FFmpegSetup.ThrowExceptionIfError: the message text from av_strerror is not modelled; the
  exception carries the code.
- FFmpegSetup.FFmpegLogging.Init: setting ffmpeg.RootPath on Windows is left out.
- Text.Trim: it removes only the ASCII white space. .NET's String.Trim also removes Unicode
  white space.
- ByteBridge.ByteReader.Read: when a buffer is set, it requires a cursor between 0 and
  Length + 2^31, because outside that range the source copies outside the buffer
  (ReadSizeWrapsFarPastTheEnd shows the wrap).
- Exceptions raised inside FFmpeg callbacks are modelled as propagating to the managed caller as
  a failure result. This covers the null buffer in ByteBridge.ByteReader.Read and
  ByteBridge.ByteReader.Seek, the null bytes of MJpegCamera.OpenSnapshot, MJpegCamera.GetFrame
  and VideoWriting.VideoWriter.OpenWebcamInput, and FFmpegSetup.FFmpegLogging.LogCallback with
  no logger. In .NET on Linux an exception leaving a native callback ends the process instead;
  the model does not capture that.
- The byte reader's reads and seeks are not connected to the demuxer: which packets it delivers
  does not depend on the JPEG bytes.
- ByteBridge.ByteReader.Read: the destination must hold the request, which FFmpeg guarantees for
  its own IO buffer.
- VideoWriting.VideoWriter.GetAVFrameFromWebcamBytes and MJpegCamera.OpenSnapshot: the JPEG
  bytes must fit an int-indexed .NET array.
- The `Width`, `Height` and `PixelFormat` properties other than through the worker, the
  `double[]` telemetry of DuetWebControlStatus.cs and the floating-point and date fields of
  FileInfoStatus.cs are not modelled.
- Program.cs, WebCameraProvider.cs, Video4LinuxWebCameraProvider.cs, IWebCamera.cs and
  StreamerSettings.cs are not part of this model. They hold host wiring, an HTTP/Bitmap camera of
  another revision, a stub and constants. The flips are parameters, and FlipY true and FlipX false
  are the defaults used in DefaultSettingsFlipVertically.
