/** `verify_audio_file`: an ordered chain of checks over a file's size
    and the ffprobe report, the first failure giving the message. Sizes
    are bytes, durations integer milliseconds; the probe run is a
    parameter, and so is the printing of a duration in seconds. */
module Ffmpeg {
  import opened Common
  import opened Text

  const DefaultToleranceMs: int := 5000
  const DefaultMinDurationMs: int := 1000
  /** Files below this size are taken as corrupt. */
  const MinFileBytes: nat := 1024
  const MessageLimit: int := 200

  /** A stream of the report: its `codec_type` and `codec_name` ("" when
      absent). */
  datatype Stream = Stream(codecType: string, codecName: string)

  /** The report's JSON: unparseable (with the decoder's message), or its
      streams and the format's duration (`None` when absent or not a
      number, which the source reads as 0). */
  datatype Report = Unparseable(error: string) | Json(streams: seq<Stream>, durationMs: Option<int>)

  /** Running ffprobe: a timeout, the program missing, another exception,
      or an exit code with its stderr and stdout. */
  datatype Probe = ProbeTimedOut | ProbeMissing | ProbeCrashed(error: string)
                 | Probed(returnCode: int, stderr: string, report: Report)

  /** What is known of the file before probing. */
  datatype FileFacts = FileFacts(exists_: bool, size: nat)

  /** The duration limits; `minText` is the minimum as `str()` prints the
      caller's argument, since the message shows it without `.1f`. */
  datatype Limits = Limits(expectedMs: Option<int>, toleranceMs: int, minDurationMs: int, minText: string)

  function DefaultLimits(expectedMs: Option<int>): Limits {
    Limits(expectedMs, DefaultToleranceMs, DefaultMinDurationMs, "1.0")
  }

  /** The streams whose type is "audio", in order. */
  function AudioStreams(streams: seq<Stream>): (r: seq<Stream>)
    ensures |r| <= |streams|
    ensures forall i :: 0 <= i < |r| ==> r[i].codecType == "audio" && r[i] in streams
    ensures r == [] <==> forall i :: 0 <= i < |streams| ==> streams[i].codecType != "audio"
  {
    if streams == [] then []
    else (if streams[0].codecType == "audio" then [streams[0]] else []) + AudioStreams(streams[1..])
  }

  function Duration(r: Report): int
    requires r.Json?
  {
    r.durationMs.GetOr(0)
  }

  function Abs(x: int): nat { if x < 0 then -x else x }

  /** The duration check applies only to a positive expected duration. */
  predicate Mismatch(l: Limits, duration: int) {
    l.expectedMs.Some? && l.expectedMs.value > 0 && Abs(duration - l.expectedMs.value) > l.toleranceMs
  }

  /** The message of a failed ffprobe run: its stderr, cut to 200
      characters, or the exit code. */
  function ExitMessage(code: int, stderr: string): (r: string)
    ensures IsPrefix("ffprobe error: ", r)
    ensures var e := Strip(stderr);
            e != [] ==> |r| == 15 + Min(|e|, MessageLimit) && r[15..] == e[..Min(|e|, MessageLimit)]
    ensures Strip(stderr) == [] ==> r[15..] == "ffprobe exit code " + IntToString(code)
  {
    var e := Strip(stderr);
    "ffprobe error: " + if e != [] then PyPrefix(e, MessageLimit) else "ffprobe exit code " + IntToString(code)
  }

  /** `verify_audio_file`: `(True, "")` or `(False, why)`. `seconds(ms)`
      prints a duration as the source's `{x:.1f}`. */
  function VerifyAudioFile(f: FileFacts, probe: Probe, l: Limits, seconds: int -> string): (r: (bool, string))
    ensures r.0 <==> r.1 == []
    ensures !f.exists_ ==> r == (false, "File does not exist")
  {
    if !f.exists_ then (false, "File does not exist")
    else if f.size == 0 then (false, "File is empty (0 bytes)")
    else if f.size < MinFileBytes then (false, "File too small (" + NatToString(f.size) + " bytes)")
    else ProbeVerdict(probe, l, seconds)
  }

  /** The `try` block: the ffprobe run and what its exit code and output
      say. */
  function ProbeVerdict(probe: Probe, l: Limits, seconds: int -> string): (r: (bool, string))
    ensures r.0 <==> r.1 == []
  {
    match probe
      case ProbeTimedOut => (false, "ffprobe timed out")
      case ProbeMissing => (false, "ffprobe not installed")
      case ProbeCrashed(e) => (false, "Verification error: " + e)
      case Probed(code, stderr, report) =>
        if code != 0 then (false, ExitMessage(code, stderr))
        else match report
          case Unparseable(e) => (false, "Failed to parse ffprobe output: " + e)
          case Json(_, _) => ReportVerdict(report, l, seconds)
  }

  /** The checks on a parsed report: an audio stream, the duration, the
      codec. */
  function ReportVerdict(report: Report, l: Limits, seconds: int -> string): (r: (bool, string))
    requires report.Json?
    ensures r.0 <==> r.1 == []
  {
    var audio := AudioStreams(report.streams);
    var d := Duration(report);
    if audio == [] then (false, "No audio stream found")
    else if d < l.minDurationMs then
      (false, "Duration too short (" + seconds(d) + "s < " + l.minText + "s)")
    else if Mismatch(l, d) then
      (false, "Duration mismatch: expected " + seconds(l.expectedMs.value) + "s, got " + seconds(d)
              + "s (diff: " + seconds(Abs(d - l.expectedMs.value)) + "s)")
    else if audio[0].codecName == [] then (false, "Audio stream has no codec")
    else (true, "")
  }

  // ---------------------------------------------------------------- the chain

  /** The checks, in the order they run. */
  datatype Check = Missing | Empty | TooSmall | Timeout | NoProbe | ProbeError | ExitCode
                 | BadOutput | NoAudio | TooShort | DurationMismatch | NoCodec

  const Order: seq<Check> := [Missing, Empty, TooSmall, Timeout, NoProbe, ProbeError, ExitCode,
                              BadOutput, NoAudio, TooShort, DurationMismatch, NoCodec]

  /** Each check on its own: whether it fails for this file. */
  predicate Fails(c: Check, f: FileFacts, probe: Probe, l: Limits) {
    match c
      case Missing => !f.exists_
      case Empty => f.size == 0
      case TooSmall => f.size < MinFileBytes
      case Timeout => probe.ProbeTimedOut?
      case NoProbe => probe.ProbeMissing?
      case ProbeError => probe.ProbeCrashed?
      case ExitCode => probe.Probed? && probe.returnCode != 0
      case BadOutput => probe.Probed? && probe.report.Unparseable?
      case NoAudio => probe.Probed? && probe.report.Json? && AudioStreams(probe.report.streams) == []
      case TooShort => probe.Probed? && probe.report.Json? && Duration(probe.report) < l.minDurationMs
      case DurationMismatch => probe.Probed? && probe.report.Json? && Mismatch(l, Duration(probe.report))
      case NoCodec =>
        probe.Probed? && probe.report.Json? && AudioStreams(probe.report.streams) != []
        && AudioStreams(probe.report.streams)[0].codecName == []
  }

  /** The check that decides: the first in order that fails. */
  function FirstFailure(f: FileFacts, probe: Probe, l: Limits): Option<nat> {
    FirstIn(Order, FailsFor(f, probe, l), 0, |Order|)
  }

  function FailsFor(f: FileFacts, probe: Probe, l: Limits): Check -> bool {
    c => Fails(c, f, probe, l)
  }

  /** The chain from check `k` on: the first failing check gives its
      message; if none fails the file is valid. */
  function Chain(k: nat, f: FileFacts, probe: Probe, l: Limits, seconds: int -> string): (bool, string)
    requires k <= |Order|
    decreases |Order| - k
  {
    if k == |Order| then (true, "")
    else if Fails(Order[k], f, probe, l) then (false, Message(Order[k], f, probe, l, seconds))
    else Chain(k + 1, f, probe, l, seconds)
  }

  /** The chain is decided by the first failing check from `k` on. */
  lemma {:induction false} ChainFirst(k: nat, f: FileFacts, probe: Probe, l: Limits, seconds: int -> string)
    requires k <= |Order|
    ensures Chain(k, f, probe, l, seconds)
            == match FirstIn(Order, FailsFor(f, probe, l), k, |Order|)
               case None => (true, "")
               case Some(i) => (false, Message(Order[i], f, probe, l, seconds))
    decreases |Order| - k
  {
    if k < |Order| && !Fails(Order[k], f, probe, l) {
      ChainFirst(k + 1, f, probe, l, seconds);
    }
  }

  /** The stages of the chain: the file itself, the ffprobe run, its report. */
  predicate FileOk(f: FileFacts) { f.exists_ && f.size >= MinFileBytes }

  predicate ReportReady(probe: Probe) { probe.Probed? && probe.returnCode == 0 && probe.report.Json? }

  /** The report stage is the chain from the audio-stream check on. */
  lemma ReportIsChain(f: FileFacts, probe: Probe, l: Limits, seconds: int -> string)
    requires FileOk(f) && ReportReady(probe)
    ensures ReportVerdict(probe.report, l, seconds) == Chain(8, f, probe, l, seconds)
  {
  }

  /** The `try` block is the chain from the timeout check on. */
  lemma ProbeIsChain(f: FileFacts, probe: Probe, l: Limits, seconds: int -> string)
    requires FileOk(f)
    ensures ProbeVerdict(probe, l, seconds) == Chain(3, f, probe, l, seconds)
  {
    if ReportReady(probe) {
      ReportIsChain(f, probe, l, seconds);
    }
  }

  /** `verify_audio_file` runs the twelve checks in order. */
  lemma VerifyIsChain(f: FileFacts, probe: Probe, l: Limits, seconds: int -> string)
    ensures VerifyAudioFile(f, probe, l, seconds) == Chain(0, f, probe, l, seconds)
  {
    if FileOk(f) {
      ProbeIsChain(f, probe, l, seconds);
    }
  }

  /** The chain is the ordered list of checks: the file is valid exactly
      when no check fails. */
  lemma VerifyValid(f: FileFacts, probe: Probe, l: Limits, seconds: int -> string)
    ensures VerifyAudioFile(f, probe, l, seconds).0 <==> FirstFailure(f, probe, l).None?
  {
    VerifyIsChain(f, probe, l, seconds);
    ChainFirst(0, f, probe, l, seconds);
    var v := FirstFailure(f, probe, l);
    if v.Some? {
      FailureMessage(Order[v.value], f, probe, l, seconds);
    }
  }

  /** A failing check has something to say. */
  lemma FailureMessage(c: Check, f: FileFacts, probe: Probe, l: Limits, seconds: int -> string)
    requires Fails(c, f, probe, l)
    ensures Message(c, f, probe, l, seconds) != []
  {
  }

  /** A file that fails gets the message of the first failing check. */
  lemma VerifyFirstFailure(f: FileFacts, probe: Probe, l: Limits, seconds: int -> string)
    requires FirstFailure(f, probe, l).Some?
    ensures VerifyAudioFile(f, probe, l, seconds).1
            == Message(Order[FirstFailure(f, probe, l).value], f, probe, l, seconds)
  {
    VerifyIsChain(f, probe, l, seconds);
    ChainFirst(0, f, probe, l, seconds);
  }

  /** The message each check gives when it is the first to fail. */
  function Message(c: Check, f: FileFacts, probe: Probe, l: Limits, seconds: int -> string): string {
    match c
      case Missing => "File does not exist"
      case Empty => "File is empty (0 bytes)"
      case TooSmall => "File too small (" + NatToString(f.size) + " bytes)"
      case Timeout => "ffprobe timed out"
      case NoProbe => "ffprobe not installed"
      case ProbeError => if probe.ProbeCrashed? then "Verification error: " + probe.error else ""
      case ExitCode => if probe.Probed? then ExitMessage(probe.returnCode, probe.stderr) else ""
      case BadOutput =>
        if probe.Probed? && probe.report.Unparseable? then "Failed to parse ffprobe output: " + probe.report.error
        else ""
      case NoAudio => "No audio stream found"
      case TooShort =>
        if probe.Probed? && probe.report.Json? then
          "Duration too short (" + seconds(Duration(probe.report)) + "s < " + l.minText + "s)"
        else ""
      case DurationMismatch =>
        if probe.Probed? && probe.report.Json? && l.expectedMs.Some? then
          var d := Duration(probe.report);
          "Duration mismatch: expected " + seconds(l.expectedMs.value) + "s, got " + seconds(d)
          + "s (diff: " + seconds(Abs(d - l.expectedMs.value)) + "s)"
        else ""
      case NoCodec => "Audio stream has no codec"
  }

  /** Without a positive expected duration the mismatch check never
      fails: the verdict is the one without an expected duration. */
  lemma ExpectedIgnored(f: FileFacts, probe: Probe, l: Limits, seconds: int -> string)
    requires l.expectedMs.None? || l.expectedMs.value <= 0
    ensures VerifyAudioFile(f, probe, l, seconds) == VerifyAudioFile(f, probe, l.(expectedMs := None), seconds)
  {
  }
}
