/** FFmpeg's global set-up (RaspberryStreamer/FFMpegSetup.cs): the mapping of FFmpeg log levels
    onto .NET log levels, the forwarding filter of the log callback, the run-once Init, and the
    error check every native call goes through. */
module FFmpegSetup {
  import opened Wrappers
  import opened Text

  /** The log levels of libavutil/log.h. */
  const AV_LOG_QUIET: int := -8
  const AV_LOG_PANIC: int := 0
  const AV_LOG_FATAL: int := 8
  const AV_LOG_ERROR: int := 16
  const AV_LOG_WARNING: int := 24
  const AV_LOG_INFO: int := 32
  const AV_LOG_VERBOSE: int := 40
  const AV_LOG_DEBUG: int := 48
  const AV_LOG_TRACE: int := 56
  const AV_LOG_MAX_OFFSET: int := 64

  /** Microsoft.Extensions.Logging.LogLevel, least severe first (None is never produced). */
  datatype LogLevel = Trace | Debug | Information | Warning | Error | Critical

  /** The failures the modelled code raises. */
  datatype Exception =
    | ApplicationException(code: int)  // a negative FFmpeg result; the message is av_strerror(code)
    | CodecNotFound                    // no H.264 encoder is registered
    | FilterSinksMissing               // the parsed filter graph lacks its source or its sink
    | NullReference                    // a null field or result was dereferenced

  /** The position of a .NET level in its severity order. */
  function Severity(l: LogLevel): (n: nat)
    ensures n < 6
    ensures l == Trace <==> n == 0
    ensures l == Critical <==> n == 5
  {
    match l
    case Trace => 0
    case Debug => 1
    case Information => 2
    case Warning => 3
    case Error => 4
    case Critical => 5
  }

  /** One of the ten levels log.h names. */
  predicate IsNamedLevel(level: int)
  {
    level == AV_LOG_QUIET || level == AV_LOG_PANIC || level == AV_LOG_FATAL || level == AV_LOG_ERROR
    || level == AV_LOG_WARNING || level == AV_LOG_INFO || level == AV_LOG_VERBOSE
    || level == AV_LOG_DEBUG || level == AV_LOG_TRACE || level == AV_LOG_MAX_OFFSET
  }

  /** FFMpegSetup.cs:52-75: each .NET level is the image of exactly the FFmpeg levels listed for
      it, and every integer that is not a named level maps to Information, so the mapping is total. */
  function ConvertLogLevel(level: int): (r: LogLevel)
    ensures r == Trace <==> level == AV_LOG_MAX_OFFSET || level == AV_LOG_TRACE
    ensures r == Debug <==> level == AV_LOG_DEBUG || level == AV_LOG_VERBOSE
    ensures r == Error <==> level == AV_LOG_ERROR
    ensures r == Critical <==> level == AV_LOG_PANIC || level == AV_LOG_FATAL
    ensures r == Warning <==> level == AV_LOG_WARNING || level == AV_LOG_QUIET
    ensures r == Information <==> level == AV_LOG_INFO || !IsNamedLevel(level)
  {
    if level == AV_LOG_MAX_OFFSET || level == AV_LOG_TRACE then Trace
    else if level == AV_LOG_DEBUG || level == AV_LOG_VERBOSE then Debug
    else if level == AV_LOG_ERROR then Error
    else if level == AV_LOG_PANIC || level == AV_LOG_FATAL then Critical
    else if level == AV_LOG_WARNING || level == AV_LOG_QUIET then Warning
    else Information
  }

  /** Among the named levels from PANIC to MAX_OFFSET the mapping keeps the severity order: a more
      severe FFmpeg level (a smaller number) never maps to a less severe .NET level. QUIET is the
      exception: it maps to Warning, below PANIC's Critical. */
  lemma {:induction false} ConvertLogLevelKeepsSeverity(a: int, b: int)
    requires IsNamedLevel(a) && IsNamedLevel(b)
    requires AV_LOG_PANIC <= a <= b
    ensures Severity(ConvertLogLevel(b)) <= Severity(ConvertLogLevel(a))
  {
  }

  lemma {:induction false} QuietBreaksTheOrder()
    ensures AV_LOG_QUIET < AV_LOG_PANIC
    ensures Severity(ConvertLogLevel(AV_LOG_QUIET)) < Severity(ConvertLogLevel(AV_LOG_PANIC))
  {
  }

  /** FFMpegSetup.cs:77-88: a non-negative result passes through unchanged, a negative one is raised. */
  function ThrowExceptionIfError(error: int): (r: Result<int, Exception>)
    ensures r.Success? <==> 0 <= error
    ensures r.Success? ==> r.value == error
    ensures r.Failure? ==> r.error == ApplicationException(error)
  {
    if error < 0 then Failure(ApplicationException(error)) else Success(error)
  }

  /** The decoder warning the callback swallows. */
  const SuppressedWarning: string := "unable to decode APP fields: " + "Invalid data found when processing input"

  /** FFMpegSetup.cs:39,45-46: whether the callback hands a message of `level`, formatted as
      `formatted`, to the logger while FFmpeg's threshold is `threshold`. */
  predicate Forwards(threshold: int, level: int, formatted: string)
  {
    level <= threshold && !Contains(Trim(formatted), SuppressedWarning)
  }

  /** Nothing above the threshold is forwarded, and neither is any message in which the decoder
      warning appears, wherever it appears. */
  lemma {:induction false} ForwardsOnlyWanted(threshold: int, level: int, formatted: string)
    ensures threshold < level ==> !Forwards(threshold, level, formatted)
    ensures Contains(formatted, SuppressedWarning) ==> !Forwards(threshold, level, formatted)
  {
    if Contains(formatted, SuppressedWarning) {
      TrimKeepsInnerText(formatted, SuppressedWarning);
    }
  }

  /** At or below the threshold every message too short to hold the decoder warning is
      forwarded. */
  lemma {:induction false} ForwardsShortMessages(threshold: int, level: int, formatted: string)
    requires level <= threshold
    requires |Trim(formatted)| < |SuppressedWarning|
    ensures Forwards(threshold, level, formatted)
  {
  }

  /** The identity of an ILogger instance. */
  type Logger = nat

  /** One message as the logger receives it. */
  datatype Entry = Entry(logger: Logger, level: LogLevel, line: string)

  /** An entry the callback can produce: trimmed, without the decoder warning. */
  predicate IsCleanEntry(e: Entry)
  {
    !Contains(e.line, SuppressedWarning) && (e.line == [] || (!IsWhiteSpace(e.line[0]) && !IsWhiteSpace(e.line[|e.line| - 1])))
  }

  /** The static state of FFMpegSetup together with the one piece of FFmpeg state it touches. */
  class FFmpegLogging {
    var globalLogger: Option<Logger>   // _globalLogger
    var callbackInstalled: bool        // av_log_set_callback(_callback) has been called
    var logLevel: int                  // av_log_get_level()
    var entries: seq<Entry>            // what the loggers received, in order

    ghost predicate Valid()
      reads this
    {
      forall i :: 0 <= i < |entries| ==> IsCleanEntry(entries[i])
    }

    /** The process before Init: no logger, FFmpeg's default callback and level (INFO). */
    constructor ()
      ensures Valid()
      ensures globalLogger == None && !callbackInstalled && logLevel == AV_LOG_INFO && entries == []
    {
      globalLogger := None;
      callbackInstalled := false;
      logLevel := AV_LOG_INFO;
      entries := [];
    }

    /** FFMpegSetup.cs:17-35: while no logger is stored, stores `logger`, lowers FFmpeg's
        threshold to ERROR and installs the callback; once a logger is stored, changes nothing.
        A null logger leaves the guard open for the next call. */
    method Init(logger: Option<Logger>)
      requires Valid()
      modifies this
      ensures Valid()
      ensures old(globalLogger).Some? ==>
                globalLogger == old(globalLogger) && callbackInstalled == old(callbackInstalled)
                && logLevel == old(logLevel) && entries == old(entries)
      ensures old(globalLogger).None? ==>
                globalLogger == logger && callbackInstalled && logLevel == AV_LOG_ERROR
                && entries == old(entries)
    {
      if globalLogger == None {
        globalLogger := logger;
        logLevel := AV_LOG_ERROR;
        callbackInstalled := true;
      }
    }

    /** FFMpegSetup.cs:37-50: FFmpeg delivers a message of `level` whose formatted line is
        `formatted`. A forwarded message is trimmed and logged at the converted level; with no
        logger stored the call fails on the null reference. */
    method LogCallback(level: int, formatted: string) returns (r: Outcome<Exception>)
      requires Valid()
      requires callbackInstalled
      modifies this`entries
      ensures Valid()
      ensures r.Fail? <==> Forwards(logLevel, level, formatted) && globalLogger.None?
      ensures r.Fail? ==> r.error == NullReference
      ensures entries == old(entries) +
                if Forwards(logLevel, level, formatted) && globalLogger.Some?
                then [Entry(globalLogger.value, ConvertLogLevel(level), Trim(formatted))]
                else []
    {
      if level > logLevel {
        return Pass;
      }
      var line := Trim(formatted);
      if !Contains(line, SuppressedWarning) {
        if globalLogger == None {
          return Fail(NullReference);
        }
        entries := entries + [Entry(globalLogger.value, ConvertLogLevel(level), line)];
      }
      r := Pass;
    }
  }
}
