/** The printer status the Duet web interface reports (RaspberryStreamer/DuetWebControlStatus.cs):
    two whole-string tests on the status code and a table from its first character to a label. */
module DuetStatus {
  import opened Wrappers

  /** The deserialised rr_status reply; Status and Resp may be null. The heater and position
      arrays are floating point and unused by the logic. */
  datatype DuetWebControlStatus = DuetWebControlStatus(status: Option<string>, resp: Option<string>)

  /** DuetWebControlStatus.cs:7: the status string equals "I"; a null status is not idle. Idle
      means a status of exactly one character, the one the table labels "Idle". */
  predicate IsIdle(s: DuetWebControlStatus): (b: bool)
    ensures b <==> s.status.Some? && |s.status.value| == 1 && Label(s.status.value[0]) == "Idle"
  {
    assert Codes[9] == 'I' && Labels[9] == "Idle";
    assert s.status.Some? && |s.status.value| == 1 ==> (s.status.value == "I" <==> s.status.value[0] == 'I');
    s.status == Some("I")
  }

  /** DuetWebControlStatus.cs:9: the status string equals "S": exactly one character, the one the
      table labels "Paused/Stopped". */
  predicate IsPaused(s: DuetWebControlStatus): (b: bool)
    ensures b <==> s.status.Some? && |s.status.value| == 1 && Label(s.status.value[0]) == "Paused/Stopped"
  {
    assert Codes[4] == 'S' && Labels[4] == "Paused/Stopped";
    assert s.status.Some? && |s.status.value| == 1 ==> (s.status.value == "S" <==> s.status.value[0] == 'S');
    s.status == Some("S")
  }

  /** The status codes the table knows, in the order of DuetWebControlStatus.cs:16-25 ... */
  const Codes: string := "PFHDSRMBTI"

  /** ... and their labels, position for position. */
  const Labels: seq<string> := ["Printing", "Flashing Firmware", "Halted", "Pausing/Decelerating",
    "Paused/Stopped", "Resuming", "Simulating", "Busy", "Changing Tool", "Idle"]

  /** What reading the first character of the status throws. */
  datatype StatusError = NullReference | IndexOutOfRange

  /** DuetWebControlStatus.cs:11-29: the label of the first character of the status: a known code
      gets the label at its position in the table, any other character "Unknown". A null status
      throws NullReferenceException and an empty one IndexOutOfRangeException. */
  function DetailedStatus(s: DuetWebControlStatus): (r: Result<string, StatusError>)
    ensures r == Failure(NullReference) <==> s.status.None?
    ensures r == Failure(IndexOutOfRange) <==> s.status == Some("")
    ensures r.Success? ==>
              && (forall i :: 0 <= i < |Codes| ==> (s.status.value[0] == Codes[i] <==> r.value == Labels[i]))
              && (r.value == "Unknown" <==> s.status.value[0] !in Codes)
  {
    if s.status.None? then Failure(NullReference)
    else if |s.status.value| == 0 then Failure(IndexOutOfRange)
    else Success(Label(s.status.value[0]))
  }

  /** The switch of DuetWebControlStatus.cs:15-27: a known code gets the label at its position in
      the table, any other character "Unknown". */
  function Label(c: char): (l: string)
    ensures forall i :: 0 <= i < |Codes| ==> (c == Codes[i] <==> l == Labels[i])
    ensures l == "Unknown" <==> c !in Codes
  {
    match c
    case 'P' => "Printing"
    case 'F' => "Flashing Firmware"
    case 'H' => "Halted"
    case 'D' => "Pausing/Decelerating"
    case 'S' => "Paused/Stopped"
    case 'R' => "Resuming"
    case 'M' => "Simulating"
    case 'B' => "Busy"
    case 'T' => "Changing Tool"
    case 'I' => "Idle"
    case _ => "Unknown"
  }

  /** A status is never both idle and paused. */
  lemma {:induction false} IdleAndPausedExclusive(s: DuetWebControlStatus)
    ensures !(IsIdle(s) && IsPaused(s))
  {
  }

  /** The label reads only the first character: "Ix" is labelled "Idle" yet is not idle, and
      "Sx" is labelled "Paused/Stopped" yet is not paused. */
  lemma {:induction false} DetailedStatusReadsFirstCharacterOnly(a: DuetWebControlStatus, b: DuetWebControlStatus)
    requires a.status.Some? && |a.status.value| > 0 && b.status.Some? && |b.status.value| > 0
    requires a.status.value[0] == b.status.value[0]
    ensures DetailedStatus(a) == DetailedStatus(b)
    ensures var ix := DuetWebControlStatus(Some("Ix"), None);
            DetailedStatus(ix) == Success("Idle") && !IsIdle(ix)
    ensures var sx := DuetWebControlStatus(Some("Sx"), None);
            DetailedStatus(sx) == Success("Paused/Stopped") && !IsPaused(sx)
  {
  }

  /** The whole-string tests agree with the table: an idle status is labelled "Idle" and a paused
      one "Paused/Stopped". */
  lemma {:induction false} TestsAgreeWithLabels(s: DuetWebControlStatus)
    ensures IsIdle(s) ==> DetailedStatus(s) == Success("Idle")
    ensures IsPaused(s) ==> DetailedStatus(s) == Success("Paused/Stopped")
  {
  }

  /** Distinct known codes get distinct labels, and none of them is "Unknown". */
  lemma {:induction false} LabelsDistinct(i: int, j: int)
    requires 0 <= i < |Codes| && 0 <= j < |Codes|
    ensures |Labels| == |Codes|
    ensures Labels[i] == Labels[j] ==> i == j
    ensures Labels[i] != "Unknown"
  {
  }
}
