/** The recording controller (RaspberryStreamer/Worker.cs): once a second it looks at the printer's
    status; while the printer is not idle it records the webcam into an MP4 file named after the
    printed file, the first name of the form "name.mp4", "name (1).mp4", "name (2).mp4", ... that is
    not yet taken. The status provider and the clock are replaced by a finite feed of samples, the
    file system by a set of existing names, and what the worker does by a log of events. */
module Recorder {
  import opened Wrappers
  import opened Text
  import opened DuetStatus
  import opened FileInfo

  /** What the status provider reports at the end of one wait, whether the host asked for shutdown
      during that wait, and whether the writer call made before the next wait throws. No wait
      separates `new VideoWriter` (Worker.cs:64) from the first WriteFrame (Worker.cs:75), so one
      flag decides both: an open that succeeds followed by a first write that throws is only
      reached with a paused sample in between, and gives the same log as a failing write later. */
  datatype Sample = Sample(status: Option<DuetWebControlStatus>, fileInfo: Option<FileInfoStatus>,
                           stop: bool, writerFault: bool)

  /** The failures that reach the worker's catch clause. */
  datatype Exception =
    | TaskCanceled   // a wait that observes the stopping token was cancelled
    | NullReference  // the status went null while recording
    | WriterFault    // the video writer threw while opening or writing

  /** What the worker does that can be observed. */
  datatype Event =
    | WriterOpened(file: string)        // the writer was created and the start logged (lines 64-66)
    | FrameWritten                      // one frame went to the writer (line 75)
    | RecordingCompleted(file: string)  // the end of a recording logged (line 78)
    | WriterDisposed                    // the writer's using scope was left
    | ErrorLogged                       // an exception was logged (line 48)
    | CameraDisposed                    // the camera was disposed (line 51)

  /** Where the event log stands: no writer, a writer open on `file` (and whether its end has
      been logged), or the camera disposed. */
  datatype Phase = Idle | Recording(file: string, completed: bool) | ShutDown

  /** The one transition each event allows, or None for an event out of place. */
  function Step(p: Phase, e: Event): Option<Phase>
  {
    match e
    case WriterOpened(f) => if p == Idle then Some(Recording(f, false)) else None
    case FrameWritten => if p.Recording? && !p.completed then Some(p) else None
    case RecordingCompleted(f) => if p == Recording(f, false) then Some(Recording(f, true)) else None
    case WriterDisposed => if p.Recording? then Some(Idle) else None
    case ErrorLogged => if p == Idle then Some(Idle) else None
    case CameraDisposed => if p == Idle then Some(ShutDown) else None
  }

  /** The phase a log leads to from Idle, or None when some event is out of place. */
  ghost function Phases(events: seq<Event>): Option<Phase>
    decreases |events|
  {
    if events == [] then Some(Idle)
    else
      var p := Phases(events[..|events| - 1]);
      if p.None? then None else Step(p.value, events[|events| - 1])
  }

  lemma {:induction false} PhasesAppend(events: seq<Event>, e: Event)
    ensures Phases(events + [e]) == if Phases(events).None? then None else Step(Phases(events).value, e)
  {
    assert (events + [e])[..|events|] == events;
  }

  /** The number of writers opened, and disposed, in a log. */
  ghost function Opens(events: seq<Event>): nat
    decreases |events|
  {
    if events == [] then 0
    else Opens(events[..|events| - 1]) + if events[|events| - 1].WriterOpened? then 1 else 0
  }

  ghost function Disposes(events: seq<Event>): nat
    decreases |events|
  {
    if events == [] then 0
    else Disposes(events[..|events| - 1]) + if events[|events| - 1] == WriterDisposed then 1 else 0
  }

  /** In a well-formed log every writer but the one still recording has been disposed, exactly
      once. */
  lemma {:induction false} EachWriterDisposedOnce(events: seq<Event>)
    requires Phases(events).Some?
    ensures Opens(events) == Disposes(events) + if Phases(events).value.Recording? then 1 else 0
    decreases |events|
  {
    if events != [] {
      EachWriterDisposedOnce(events[..|events| - 1]);
    }
  }

  /** Every prefix of a well-formed log is well-formed. */
  lemma {:induction false} PrefixesWellFormed(events: seq<Event>, k: nat)
    requires Phases(events).Some?
    requires k <= |events|
    ensures Phases(events[..k]).Some?
    decreases |events|
  {
    if k < |events| {
      var init := events[..|events| - 1];
      assert init[..k] == events[..k];
      PrefixesWellFormed(init, k);
    } else {
      assert events[..k] == events;
    }
  }

  /** At every point of a well-formed log at most one writer is open. */
  lemma {:induction false} AtMostOneWriter(events: seq<Event>, k: nat)
    requires Phases(events).Some?
    requires k <= |events|
    ensures Disposes(events[..k]) <= Opens(events[..k]) <= Disposes(events[..k]) + 1
  {
    PrefixesWellFormed(events, k);
    EachWriterDisposedOnce(events[..k]);
  }

  /** Path.GetFileNameWithoutExtension on Unix: the name after the last '/', cut before its last
      '.'; null stays null. */
  function WithoutExtension(path: Option<string>): (r: Option<string>)
    ensures r.None? <==> path.None?
  {
    if path.None? then None
    else
      var f := StripPath(path.value);
      var i := LastIndexOf(f, '.');
      if i == -1 then Some(f) else Some(f[..i])
  }

  /** What is left is a prefix of the file name: all of it when it has no '.', otherwise what
      comes before its last '.'. */
  lemma {:induction false} WithoutExtensionCutsAtLastDot(path: string)
    ensures var f, r := StripPath(path), WithoutExtension(Some(path)).value;
            && |r| <= |f| && r == f[..|r|]
            && ('.' !in f ==> r == f)
            && ('.' in f ==>
                  && |r| < |f| && f[|r|] == '.'
                  && forall j :: |r| < j < |f| ==> f[j] != '.')
  {
  }

  /** C# concatenation reads a null string as empty. */
  function OrEmpty(s: Option<string>): string
  {
    if s.None? then "" else s.value
  }

  /** Worker.cs:85-90: the k-th name tried for `base`: "base.mp4", then "base (k).mp4". */
  function Candidate(base: string, k: nat): (name: string)
    ensures |base| + 4 <= |name| && name[..|base|] == base && name[|name| - 4..] == ".mp4"
    ensures k == 0 <==> |name| == |base| + 4
  {
    if k == 0 then base + ".mp4" else base + " (" + NatToString(k) + ").mp4"
  }

  /** Distinct counts give distinct names. */
  lemma {:induction false} CandidateInjective(base: string, j: nat, k: nat)
    requires Candidate(base, j) == Candidate(base, k)
    ensures j == k
  {
    if j != 0 && k != 0 {
      var cj, ck := Candidate(base, j), Candidate(base, k);
      var a, b := NatToString(j), NatToString(k);
      assert |a| == |b|;
      assert cj[|base| + 2..|base| + 2 + |a|] == a;
      assert ck[|base| + 2..|base| + 2 + |b|] == b;
      NatToStringInjective(j, k);
    }
  }

  ghost function CandidatesBelow(base: string, n: nat): set<string>
  {
    set k: nat | k < n :: Candidate(base, k)
  }

  lemma {:induction false} CandidatesBelowGrow(base: string, n: nat)
    ensures Candidate(base, n) !in CandidatesBelow(base, n)
    ensures CandidatesBelow(base, n + 1) == CandidatesBelow(base, n) + {Candidate(base, n)}
  {
    if Candidate(base, n) in CandidatesBelow(base, n) {
      var k: nat :| k < n && Candidate(base, k) == Candidate(base, n);
      CandidateInjective(base, k, n);
    }
  }

  /** `name` is the n-th candidate for `base`, it is free, and all earlier candidates are taken. */
  ghost predicate FirstFree(base: string, existing: set<string>, name: string, n: nat)
  {
    && name == Candidate(base, n)
    && name !in existing
    && forall k: nat | k < n :: Candidate(base, k) in existing
  }

  /** There is only one first free name. */
  lemma {:induction false} FirstFreeUnique(base: string, existing: set<string>, a: string, m: nat, b: string, n: nat)
    requires FirstFree(base, existing, a, m) && FirstFree(base, existing, b, n)
    ensures m == n && a == b
  {
  }

  /** The base of the video's name for a print: the printed file's name without directory and
      extension, empty when the name is null. */
  ghost function VideoBase(info: FileInfoStatus): string
  {
    OrEmpty(WithoutExtension(info.fileName))
  }

  /** The worker strips the directory twice, once in GetFileNameWithoutPath and once in
      GetFileNameWithoutExtension; the second time changes nothing. */
  lemma {:induction false} DirectoryStrippedTwice(info: FileInfoStatus)
    ensures OrEmpty(WithoutExtension(GetFileNameWithoutPath(info))) == VideoBase(info)
  {
    if info.fileName.Some? {
      var path := info.fileName.value;
      var f := StripPath(path);
      StripPathIdempotent(path);
      assert GetFileNameWithoutPath(info) == Some(f);
      assert StripPath(f) == f;
    }
  }

  /** `name` is the first free candidate name for the print `info`. */
  ghost predicate NamedAfter(info: FileInfoStatus, existing: set<string>, name: string)
  {
    exists n: nat :: FirstFree(VideoBase(info), existing, name, n)
  }

  /** A print and the taken names determine the video's name. */
  lemma {:induction false} NamedAfterUnique(info: FileInfoStatus, existing: set<string>, a: string, b: string)
    requires NamedAfter(info, existing, a) && NamedAfter(info, existing, b)
    ensures a == b
  {
    var m: nat :| FirstFree(VideoBase(info), existing, a, m);
    var n: nat :| FirstFree(VideoBase(info), existing, b, n);
    FirstFreeUnique(VideoBase(info), existing, a, m, b, n);
  }

  /** A recording as the log shows it: the writer opened on a file, frames, optionally the end
      logged, and the writer disposed. */
  ghost predicate Session(s: seq<Event>, completed: bool)
  {
    var tail := if completed then 2 else 1;
    && 1 + tail <= |s|
    && s[0].WriterOpened?
    && (forall i | 1 <= i < |s| - tail :: s[i] == FrameWritten)
    && (completed ==> s[|s| - 2] == RecordingCompleted(s[0].file))
    && s[|s| - 1] == WriterDisposed
  }

  /** Every writer in `events` was opened on a name that exists now, did not exist in
      `initial` and was not opened before. */
  ghost predicate NamesFresh(events: seq<Event>, existing: set<string>, initial: set<string>)
  {
    && initial <= existing
    && (forall i | 0 <= i < |events| && events[i].WriterOpened? ::
          events[i].file in existing && events[i].file !in initial)
    && (forall i, j | 0 <= i < j < |events| && events[i].WriterOpened? && events[j].WriterOpened? ::
          events[i].file != events[j].file)
  }

  lemma {:induction false} FreshAfterOther(events: seq<Event>, existing: set<string>, initial: set<string>, e: Event)
    requires NamesFresh(events, existing, initial)
    requires !e.WriterOpened?
    ensures NamesFresh(events + [e], existing, initial)
  {
  }

  lemma {:induction false} FreshAfterOpen(events: seq<Event>, existing: set<string>, initial: set<string>, name: string)
    requires NamesFresh(events, existing, initial)
    requires name !in existing
    ensures NamesFresh(events + [WriterOpened(name)], existing + {name}, initial)
  {
    var after := events + [WriterOpened(name)];
    forall i | 0 <= i < |events| && after[i].WriterOpened?
      ensures after[i].file != name
    {
      assert after[i] == events[i];
    }
  }

  /** The worker together with what it can see of the world. */
  class Worker {
    var feed: seq<Sample>       // what the status provider will report after each coming wait
    var now: Sample             // what it reports now
    var stopping: bool          // stoppingToken.IsCancellationRequested
    var existing: set<string>   // File.Exists: the names taken in the working directory
    var events: seq<Event>
    ghost const initial: set<string>

    /** The log is well-formed and every writer was opened on a file that did not exist before
        and was not opened earlier. */
    ghost predicate Valid()
      reads this
    {
      Phases(events).Some? && NamesFresh(events, existing, initial)
    }

    /** The waits still to come, plus one for the shutdown not yet seen. */
    function Remaining(): nat
      reads this
    {
      |feed| + if stopping then 0 else 1
    }

    /** Before the provider's first poll Status and FileInfo are null. */
    constructor (feed: seq<Sample>, existing: set<string>)
      ensures Valid() && Phases(events) == Some(Idle)
      ensures this.feed == feed && this.existing == existing && initial == existing
      ensures now == Sample(None, None, false, false) && !stopping && events == []
    {
      this.feed := feed;
      this.existing := existing;
      initial := existing;
      now := Sample(None, None, false, false);
      stopping := false;
      events := [];
    }

    /** Task.Delay: the wait ends with the next sample; an exhausted feed is the host shutting
        down. A wait that observes the token throws once shutdown has been requested. */
    method Delay(observesToken: bool) returns (r: Outcome<Exception>)
      modifies this`feed, this`now, this`stopping
      ensures old(feed) == [] ==> feed == [] && now == old(now) && stopping
      ensures old(feed) != [] ==>
                feed == old(feed)[1..] && now == old(feed)[0] && stopping == (old(stopping) || now.stop)
      ensures r.Fail? <==> observesToken && stopping
      ensures r.Fail? ==> r.error == TaskCanceled
    {
      if feed == [] {
        stopping := true;
      } else {
        now := feed[0];
        feed := feed[1..];
        stopping := stopping || now.stop;
      }
      r := if observesToken && stopping then Fail(TaskCanceled) else Pass;
    }

    /** Worker.cs:81-95: the first candidate for the name without its extension that is not
        taken. A null name counts as empty. The name is free; it is "name.mp4" exactly when that
        is free, and otherwise `n` counts the candidates tried before it, all taken. */
    method GenerateVideoFileName(filename: Option<string>) returns (name: string, ghost n: nat)
      ensures name !in existing
      ensures var base := OrEmpty(WithoutExtension(filename));
              base + ".mp4" !in existing <==> name == base + ".mp4"
      ensures FirstFree(OrEmpty(WithoutExtension(filename)), existing, name, n)
    {
      var base := OrEmpty(WithoutExtension(filename));
      if base + ".mp4" !in existing {
        return base + ".mp4", 0;
      }
      var count: nat := 1;
      ghost var tried := CandidatesBelow(base, 1);
      assert tried == {base + ".mp4"} by {
        CandidatesBelowGrow(base, 0);
      }
      while true
        invariant 1 <= count
        invariant tried == CandidatesBelow(base, count)
        invariant tried <= existing
        decreases existing - tried
      {
        var newFilename := base + " (" + NatToString(count) + ").mp4";
        assert newFilename == Candidate(base, count);
        if newFilename !in existing {
          return newFilename, count;
        }
        CandidatesBelowGrow(base, count);
        tried := tried + {newFilename};
        count := count + 1;
      }
    }

    /** Worker.cs:69-76, one pass of the recording loop while the printer is neither idle nor the
        token cancelled: paused, it waits 100 ms; otherwise it writes exactly one frame and waits
        one frame interval. Both waits observe the token. */
    method RecordOnce() returns (r: Outcome<Exception>)
      requires Valid()
      requires Phases(events).Some? && Phases(events).value.Recording? && !Phases(events).value.completed
      requires now.status.Some? && !IsIdle(now.status.value) && !stopping
      modifies this`feed, this`now, this`stopping, this`events
      ensures Valid() && Phases(events) == old(Phases(events))
      ensures |feed| <= old(|feed|) && (old(stopping) ==> stopping)
      ensures IsPaused(old(now).status.value) ==> events == old(events)
      ensures !IsPaused(old(now).status.value) && !old(now).writerFault ==> events == old(events) + [FrameWritten]
      ensures !IsPaused(old(now).status.value) && old(now).writerFault ==>
                events == old(events) && r == Fail(WriterFault)
      ensures r.Fail? ==> r.error == WriterFault || r.error == TaskCanceled
      ensures r.Pass? ==> Remaining() < old(Remaining())
    {
      if IsPaused(now.status.value) {
        r := Delay(true);
        return;
      }
      if now.writerFault {
        return Fail(WriterFault);
      }
      PhasesAppend(events, FrameWritten);
      FreshAfterOther(events, existing, initial, FrameWritten);
      events := events + [FrameWritten];
      r := Delay(true);
    }

    /** Worker.cs:67-77: records until the printer is idle or the token cancelled; a null status
        throws. Only frames are logged meanwhile. */
    method RecordingLoop() returns (r: Outcome<Exception>)
      requires Valid()
      requires Phases(events).Some? && Phases(events).value.Recording? && !Phases(events).value.completed
      modifies this`feed, this`now, this`stopping, this`events
      ensures Valid() && Phases(events) == old(Phases(events))
      ensures |feed| <= old(|feed|) && (old(stopping) ==> stopping)
      ensures |old(events)| <= |events| && events[..|old(events)|] == old(events)
      ensures forall i | |old(events)| <= i < |events| :: events[i] == FrameWritten
      ensures r.Pass? ==> now.status.Some? && (IsIdle(now.status.value) || stopping)
      ensures r.Fail? ==> r.error == TaskCanceled || r.error == WriterFault || (r.error == Exception.NullReference && now.status.None?)
    {
      while true
        invariant Valid() && Phases(events) == old(Phases(events))
        invariant |feed| <= old(|feed|) && (old(stopping) ==> stopping)
        invariant |old(events)| <= |events| && events[..|old(events)|] == old(events)
        invariant forall i | |old(events)| <= i < |events| :: events[i] == FrameWritten
        decreases Remaining()
      {
        if now.status.None? {
          return Fail(Exception.NullReference);
        }
        if IsIdle(now.status.value) || stopping {
          return Pass;
        }
        r := RecordOnce();
        if r.Fail? {
          return;
        }
      }
    }

    /** Worker.cs:56-59: waits a frame interval at a time, without the token, until the file
        info is known. */
    method AwaitFileInfo() returns (stalled: bool)
      modifies this`feed, this`now, this`stopping
      ensures |feed| <= old(|feed|) && (old(stopping) ==> stopping)
      ensures old(now).fileInfo.Some? ==> feed == old(feed) && now == old(now)
      ensures stalled <==> now.fileInfo.None?
      ensures stalled ==> feed == []
    {
      while now.fileInfo.None? && feed != []
        invariant |feed| <= old(|feed|) && (old(stopping) ==> stopping)
        invariant old(now).fileInfo.Some? ==> feed == old(feed) && now == old(now)
        decreases |feed|
      {
        var waited := Delay(false);
      }
      stalled := now.fileInfo.None?;
    }

    /** Worker.cs:61-62: the video is named after the printed file, without its directory and
        extension, with the first free candidate name. */
    method VideoFileNameFor(info: FileInfoStatus) returns (name: string)
      ensures name !in existing
      ensures NamedAfter(info, existing, name)
    {
      var filename := GetFileNameWithoutPath(info);
      ghost var n;
      name, n := GenerateVideoFileName(filename);
      DirectoryStrippedTwice(info);
      assert FirstFree(VideoBase(info), existing, name, n);
    }

    /** Worker.cs:56-66: waits for the file info, names the video after the printed file and
        opens the writer on that name, which creates the file. No writer is opened before the
        file info is known. */
    method OpenRecording() returns (r: Result<string, Exception>, stalled: bool)
      requires Valid() && Phases(events) == Some(Idle)
      modifies this`feed, this`now, this`stopping, this`events, this`existing
      ensures Valid()
      ensures |feed| <= old(|feed|) && (old(stopping) ==> stopping)
      ensures old(now).fileInfo.Some? ==> feed == old(feed) && now == old(now) && !stalled
      ensures stalled ==> now.fileInfo.None? && feed == [] && r.Failure? && events == old(events) && existing == old(existing)
      ensures !stalled ==> now.fileInfo.Some?
      ensures r.Failure? ==> r.error == WriterFault && events == old(events) && existing == old(existing)
      ensures !stalled && r.Failure? ==> now.writerFault
      ensures r.Success? ==>
                && !now.writerFault
                && NamedAfter(now.fileInfo.value, old(existing), r.value)
                && existing == old(existing) + {r.value}
                && events == old(events) + [WriterOpened(r.value)]
                && Phases(events) == Some(Recording(r.value, false))
    {
      stalled := AwaitFileInfo();
      if stalled {
        return Failure(WriterFault), true;
      }
      var name := VideoFileNameFor(now.fileInfo.value);
      if now.writerFault {
        return Failure(WriterFault), false;
      }
      PhasesAppend(events, WriterOpened(name));
      FreshAfterOpen(events, existing, initial, name);
      events := events + [WriterOpened(name)];
      existing := existing + {name};
      r := Success(name);
    }

    /** Worker.cs:54-79: one recording, from waiting for the file info to disposing the writer.
        The writer is disposed exactly once when it was opened, on the normal exit as on an
        exception; the end is logged only on the normal exit, before the dispose. */
    method StartRecording() returns (r: Outcome<Exception>, stalled: bool)
      requires Valid() && Phases(events) == Some(Idle)
      modifies this`feed, this`now, this`stopping, this`events, this`existing
      ensures Valid() && Phases(events) == Some(Idle)
      ensures |feed| <= old(|feed|) && (old(stopping) ==> stopping)
      ensures |old(events)| <= |events| && events[..|old(events)|] == old(events)
      ensures stalled ==> r.Pass? && events == old(events) && feed == []
      ensures r.Pass? && !stalled ==> Session(events[|old(events)|..], true)
      ensures r.Fail? ==> events == old(events) || Session(events[|old(events)|..], false)
      ensures events == old(events) ==> existing == old(existing)
      ensures events != old(events) ==> existing == old(existing) + {events[|old(events)|].file}
      ensures old(now).fileInfo.Some? && !old(now).writerFault ==> events != old(events)
    {
      var attempt, s := OpenRecording();
      if s {
        return Pass, true;
      }
      if attempt.Failure? {
        return Fail(attempt.error), false;
      }
      stalled := false;
      ghost var start := events;
      r := RecordAndClose(attempt.value);
      SessionShape(old(events), start, events, attempt.value, r.Pass?);
    }

    /** Worker.cs:66-79: the recording loop on an open writer, then the end of its using scope;
        the end of the recording is logged only when the loop exits normally. */
    method RecordAndClose(file: string) returns (r: Outcome<Exception>)
      requires Valid() && Phases(events) == Some(Recording(file, false))
      modifies this`feed, this`now, this`stopping, this`events
      ensures Valid() && Phases(events) == Some(Idle)
      ensures |feed| <= old(|feed|) && (old(stopping) ==> stopping)
      ensures |old(events)| + (if r.Pass? then 1 else 0) + 1 <= |events| && events[..|old(events)|] == old(events)
      ensures forall i | |old(events)| <= i < |events| - (if r.Pass? then 2 else 1) :: events[i] == FrameWritten
      ensures r.Pass? ==> events[|events| - 2] == RecordingCompleted(file)
      ensures events[|events| - 1] == WriterDisposed
    {
      r := RecordingLoop();
      ghost var looped := events;
      if r.Pass? {
        PhasesAppend(events, RecordingCompleted(file));
        FreshAfterOther(events, existing, initial, RecordingCompleted(file));
        events := events + [RecordingCompleted(file)];
      }
      PhasesAppend(events, WriterDisposed);
      FreshAfterOther(events, existing, initial, WriterDisposed);
      events := events + [WriterDisposed];
      assert events[..|looped|] == looped;
    }

    /** Worker.cs:35-49, one pass of the main loop: waits a second, observing the token, and
        starts a recording unless the status is null or idle. Whatever the pass throws is logged. */
    method Tick() returns (stalled: bool, ghost seen: Sample)
      requires Valid() && Phases(events) == Some(Idle) && !stopping
      modifies this`feed, this`now, this`stopping, this`events, this`existing
      ensures Valid() && Phases(events) == Some(Idle)
      ensures Remaining() < old(Remaining())
      ensures |old(events)| <= |events| && events[..|old(events)|] == old(events)
      ensures stalled ==> feed == []
      ensures seen == if old(feed) == [] then old(now) else old(feed)[0]
      ensures old(feed) == [] || seen.stop ==> events == old(events) + [ErrorLogged] && existing == old(existing)
      ensures old(feed) != [] && !seen.stop && (seen.status.None? || IsIdle(seen.status.value)) ==>
                events == old(events) && existing == old(existing) && !stalled
      ensures old(feed) != [] && !seen.stop && seen.status.Some? && !IsIdle(seen.status.value)
              && seen.fileInfo.Some? && !seen.writerFault ==>
                |old(events)| < |events| && events[|old(events)|].WriterOpened?
    {
      seen := if feed == [] then now else feed[0];
      stalled := false;
      var waited := Delay(true);
      if waited.Fail? {
        PhasesAppend(events, ErrorLogged);
        FreshAfterOther(events, existing, initial, ErrorLogged);
        events := events + [ErrorLogged];
        return;
      }
      if now.status.None? || IsIdle(now.status.value) {
        return;
      }
      var r;
      r, stalled := StartRecording();
      if r.Fail? {
        PhasesAppend(events, ErrorLogged);
        FreshAfterOther(events, existing, initial, ErrorLogged);
        events := events + [ErrorLogged];
      }
    }

    /** Worker.cs:29-52: ticks until the token is cancelled, then disposes the camera. The log
        is then a well-formed sequence of recordings and logged errors closed by the camera's
        disposal. When the feed ends while a recording waits for the file info the worker never
        gets there. */
    method ExecuteAsync() returns (stalled: bool)
      requires Valid() && Phases(events) == Some(Idle)
      modifies this`feed, this`now, this`stopping, this`events, this`existing
      ensures Valid()
      ensures |old(events)| <= |events| && events[..|old(events)|] == old(events)
      ensures !stalled ==> stopping && Phases(events) == Some(ShutDown) && events[|events| - 1] == CameraDisposed
      ensures stalled ==> Phases(events) == Some(Idle) && feed == []
    {
      while !stopping
        invariant Valid() && Phases(events) == Some(Idle)
        invariant |old(events)| <= |events| && events[..|old(events)|] == old(events)
        decreases Remaining()
      {
        ghost var seen;
        stalled, seen := Tick();
        if stalled {
          return;
        }
      }
      stalled := false;
      PhasesAppend(events, CameraDisposed);
      FreshAfterOther(events, existing, initial, CameraDisposed);
      events := events + [CameraDisposed];
    }
  }

  /** The events StartRecording appends form one session. */
  lemma {:induction false} SessionShape(before: seq<Event>, start: seq<Event>, after: seq<Event>, file: string, completed: bool)
    requires start == before + [WriterOpened(file)]
    requires |start| <= |after|
    requires |start| + (if completed then 1 else 0) + 1 <= |after|
    requires after[..|start|] == start
    requires forall i | |start| <= i < |after| - (if completed then 2 else 1) :: after[i] == FrameWritten
    requires completed ==> after[|after| - 2] == RecordingCompleted(file)
    requires after[|after| - 1] == WriterDisposed
    ensures |before| <= |after| && after[..|before|] == before
    ensures Session(after[|before|..], completed)
  {
    var s := after[|before|..];
    assert s[0] == after[|before|] == start[|before|];
  }
}
