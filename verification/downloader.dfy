/** The playlist downloader that runs `tiddl download` for each migrated
    playlist: the command line and its timeout, the choice of failure
    message, the success and failure counters, and the sequential queue.
    The subprocess is an oracle from the command and the timeout to its
    outcome; the thread pool is left out, so submitted jobs only sit in
    `futures`. */
module Downloader {
  import opened Common
  import opened Text

  // ---------------------------------------------------------------- command line

  /** `_get_tiddl_command`: the executable found on the path, else the
      interpreter running the package as a module. */
  function TiddlCommand(which: Option<string>, python: string): (r: seq<string>)
    ensures which.Some? && which.value != "" ==> r == [which.value]
    ensures which.None? || which.value == "" ==> r == [python, "-m", "tiddl"]
  {
    if which.Some? && which.value != "" then [which.value] else [python, "-m", "tiddl"]
  }

  /** The argument list for one playlist. */
  function Command(tiddl: seq<string>, skipErrors: bool, uuid: string): seq<string> {
    tiddl + ["download"] + (if skipErrors then ["--skip-errors"] else []) + ["url", "playlist/" + uuid]
  }

  /** The option goes between `download` and `url`, and only when asked
      for; the command always ends with `url playlist/<uuid>`. */
  lemma CommandLayout(tiddl: seq<string>, skipErrors: bool, uuid: string)
    ensures var c := Command(tiddl, skipErrors, uuid);
            |c| == |tiddl| + (if skipErrors then 4 else 3)
            && c[..|tiddl|] == tiddl && c[|tiddl|] == "download"
            && (skipErrors <==> c[|tiddl| + 1] == "--skip-errors")
            && c[|c| - 2] == "url" && c[|c| - 1] == "playlist/" + uuid
    ensures ("--skip-errors" in Command(tiddl, skipErrors, uuid)[|tiddl|..]) <==> skipErrors
  {
    var c := Command(tiddl, skipErrors, uuid);
    var tail := c[|tiddl|..];
    assert ("playlist/" + uuid)[0] == 'p';
    if skipErrors {
      assert tail == ["download", "--skip-errors", "url", "playlist/" + uuid];
    } else {
      assert tail == ["download", "url", "playlist/" + uuid];
    }
  }

  // ---------------------------------------------------------------- timeout

  /** Seconds allowed for a download: thirty per track but at least ten
      minutes, or two hours when the track count is unknown. */
  function Timeout(trackCount: int): (r: int) {
    if trackCount > 0 then Max(600, trackCount * 30) else 7200
  }

  /** The timeout is never below ten minutes, covers thirty seconds per
      known track, grows with the count, and is exact above twenty tracks. */
  lemma TimeoutBounds(n: int, m: int)
    ensures Timeout(n) >= 600
    ensures n > 0 ==> Timeout(n) >= 30 * n && (Timeout(n) == 600 <==> n <= 20)
    ensures n > 20 ==> Timeout(n) == 30 * n
    ensures n <= 0 ==> Timeout(n) == 7200
    ensures 0 < n <= m ==> Timeout(n) <= Timeout(m)
  {
  }

  // ---------------------------------------------------------------- failure message

  /** A line of the combined output that names an error. */
  predicate IsErrorLine(l: string) {
    Strip(l) != [] && Contains(Lower(l), "error")
  }

  /** The stripped error lines, in order (the comprehension of the source). */
  function ErrorLines(lines: seq<string>): (r: seq<string>)
    ensures |r| <= |lines|
    ensures forall k :: 0 <= k < |r| ==> r[k] != []
  {
    if lines == [] then []
    else (if IsErrorLine(lines[0]) then [Strip(lines[0])] else []) + ErrorLines(lines[1..])
  }

  /** The outcome of the subprocess. */
  datatype Attempt = Exited(code: int, stdout: string, stderr: string) | TimedOut | Crashed(error: string)

  /** The message recorded for a non-zero exit: the first error line, else
      the stripped stderr, else the stripped stdout, each cut to 200
      characters, else the exit code. */
  function FailureMessage(code: int, stdout: string, stderr: string): (r: string)
    ensures r != []
    ensures |r| <= 200 || r == "Exit code " + IntToString(code)
  {
    var errors := ErrorLines(Split(stdout + "\n" + stderr, "\n"));
    if errors != [] then PyPrefix(errors[0], 200)
    else if Strip(stderr) != [] then PyPrefix(Strip(stderr), 200)
    else if Strip(stdout) != [] then PyPrefix(Strip(stdout), 200)
    else "Exit code " + IntToString(code)
  }

  /** Lines before the first error line contribute nothing. */
  lemma {:induction false} ErrorLinesSkip(lines: seq<string>, i: nat)
    ensures i <= |lines| && (forall j :: 0 <= j < i ==> !IsErrorLine(lines[j])) ==>
              ErrorLines(lines) == ErrorLines(lines[i..])
  {
    if 0 < i <= |lines| && (forall j :: 0 <= j < i ==> !IsErrorLine(lines[j])) {
      assert !IsErrorLine(lines[0]);
      forall j | 0 <= j < i - 1
        ensures !IsErrorLine(lines[1..][j])
      {
        assert lines[1..][j] == lines[j + 1];
      }
      ErrorLinesSkip(lines[1..], i - 1);
      assert lines[1..][i - 1..] == lines[i..];
    }
  }

  /** The filtered list is empty exactly when no line names an error, and
      otherwise starts with the first line that does. */
  lemma ErrorLinesHead(lines: seq<string>)
    ensures var f := FirstIn(lines, IsErrorLine, 0, |lines|);
            (ErrorLines(lines) == [] <==> f.None?)
            && (f.Some? ==> ErrorLines(lines)[0] == Strip(lines[f.value]))
  {
    var f := FirstIn(lines, IsErrorLine, 0, |lines|);
    if f.Some? {
      ErrorLinesSkip(lines, f.value);
    } else {
      ErrorLinesSkip(lines, |lines|);
    }
  }

  /** The message, stated by position: a line of the combined output that
      names an error wins, the earliest one, stripped and cut to 200
      characters; stderr comes before stdout only when no line names an
      error. */
  lemma FailureMessageChoice(code: int, stdout: string, stderr: string)
    ensures var lines := Split(stdout + "\n" + stderr, "\n");
            var i := FirstIn(lines, IsErrorLine, 0, |lines|);
            (i.Some? ==> FailureMessage(code, stdout, stderr) == PyPrefix(Strip(lines[i.value]), 200))
            && (i.None? && Strip(stderr) != [] ==>
                  FailureMessage(code, stdout, stderr) == PyPrefix(Strip(stderr), 200))
            && (i.None? && Strip(stderr) == [] && Strip(stdout) != [] ==>
                  FailureMessage(code, stdout, stderr) == PyPrefix(Strip(stdout), 200))
            && (i.None? && Strip(stderr) == [] && Strip(stdout) == [] ==>
                  FailureMessage(code, stdout, stderr) == "Exit code " + IntToString(code))
  {
    var lines := Split(stdout + "\n" + stderr, "\n");
    var i := FirstIn(lines, IsErrorLine, 0, |lines|);
    ErrorLinesHead(lines);
  }

  // ---------------------------------------------------------------- downloader state

  /** A playlist waiting to be downloaded. */
  datatype Job = Job(uuid: string, name: string, trackCount: int)

  /** What `_download_playlist` returns. */
  datatype DownloadResult = DownloadResult(uuid: string, name: string, success: bool, message: string)

  /** The downloader's fields; `hasExecutor` stands for the thread pool. */
  datatype PlaylistDownloader = PlaylistDownloader(
    enabled: bool, parallel: bool, skipErrors: bool, hasExecutor: bool,
    futures: seq<Job>, queued: seq<Job>,
    names: map<string, string>, trackCounts: map<string, int>,
    completed: nat, failed: nat, failedPlaylists: seq<(string, string, string)>)

  /** One failure record per failed download, and a pool only in enabled
      parallel mode. */
  predicate Valid(d: PlaylistDownloader) {
    |d.failedPlaylists| == d.failed && (d.hasExecutor ==> d.enabled && d.parallel)
  }

  /** The constructor: the pool exists exactly in enabled parallel mode. */
  function NewDownloader(enabled: bool, parallel: bool, skipErrors: bool): (r: PlaylistDownloader)
    ensures Valid(r) && r.hasExecutor == (enabled && parallel)
    ensures r.futures == [] && r.queued == [] && r.completed == 0 && r.failed == 0
  {
    PlaylistDownloader(enabled, parallel, skipErrors, enabled && parallel, [], [], map[], map[], 0, 0, [])
  }

  /** `add_playlist`. */
  function AddPlaylist(d: PlaylistDownloader, uuid: string, name: string, trackCount: int): (r: PlaylistDownloader)
    ensures !d.enabled ==> r == d
    ensures d.enabled ==> r.names == d.names[uuid := name] && r.trackCounts == d.trackCounts[uuid := trackCount]
    ensures d.enabled && d.parallel && d.hasExecutor ==>
              r.futures == d.futures + [Job(uuid, name, trackCount)] && r.queued == d.queued
    ensures d.enabled && !(d.parallel && d.hasExecutor) ==>
              r.queued == d.queued + [Job(uuid, name, trackCount)] && r.futures == d.futures
    ensures r.completed == d.completed && r.failed == d.failed && r.failedPlaylists == d.failedPlaylists
    ensures Valid(d) ==> Valid(r)
  {
    if !d.enabled then d
    else
      var d' := d.(names := d.names[uuid := name], trackCounts := d.trackCounts[uuid := trackCount]);
      var job := Job(uuid, name, trackCount);
      if d.parallel && d.hasExecutor then d'.(futures := d.futures + [job])
      else d'.(queued := d.queued + [job])
  }

  /** `_download_playlist`, with the subprocess given as `run` from the
      command and its timeout. The callbacks are left out. */
  function DownloadPlaylist(d: PlaylistDownloader, job: Job, tiddl: seq<string>,
                            run: (seq<string>, int) -> Attempt): (r: (PlaylistDownloader, DownloadResult))
    ensures r.1.uuid == job.uuid && r.1.name == job.name
    ensures r.0.completed + r.0.failed == d.completed + d.failed + 1
    ensures r.1.success <==> r.0.completed == d.completed + 1
    ensures r.0.failedPlaylists == d.failedPlaylists + (if r.1.success then [] else [(job.uuid, job.name, r.1.message)])
    ensures r.0.futures == d.futures && r.0.queued == d.queued
    ensures r.0.enabled == d.enabled && r.0.parallel == d.parallel && r.0.hasExecutor == d.hasExecutor
    ensures Valid(d) ==> Valid(r.0)
  {
    var attempt := run(Command(tiddl, d.skipErrors, job.uuid), Timeout(job.trackCount));
    Record(d, job, attempt.Exited? && attempt.code == 0, AttemptMessage(attempt, job.trackCount))
  }

  /** What a finished subprocess run reports. */
  function AttemptMessage(attempt: Attempt, trackCount: int): string {
    match attempt
    case Exited(code, out, err) => if code == 0 then "Download completed" else FailureMessage(code, out, err)
    case TimedOut => "Download timed out (track_count=" + IntToString(trackCount) + ")"
    case Crashed(e) => "Download error: " + e
  }

  /** Count one finished download and remember a failure with its message. */
  function Record(d: PlaylistDownloader, job: Job, ok: bool, message: string): (r: (PlaylistDownloader, DownloadResult))
    ensures r.1 == DownloadResult(job.uuid, job.name, ok, message)
    ensures r.0.completed + r.0.failed == d.completed + d.failed + 1
    ensures ok <==> r.0.completed == d.completed + 1
    ensures r.0.failedPlaylists == d.failedPlaylists + (if ok then [] else [(job.uuid, job.name, message)])
    ensures r.0.futures == d.futures && r.0.queued == d.queued
    ensures r.0.enabled == d.enabled && r.0.parallel == d.parallel && r.0.hasExecutor == d.hasExecutor
    ensures Valid(d) ==> Valid(r.0)
  {
    if ok then
      (d.(completed := d.completed + 1), DownloadResult(job.uuid, job.name, true, message))
    else
      (d.(failed := d.failed + 1, failedPlaylists := d.failedPlaylists + [(job.uuid, job.name, message)]),
       DownloadResult(job.uuid, job.name, false, message))
  }

  /** Success is exactly a zero exit status; a timeout or a crash fails. */
  lemma DownloadSuccess(d: PlaylistDownloader, job: Job, tiddl: seq<string>, run: (seq<string>, int) -> Attempt)
    ensures var a := run(Command(tiddl, d.skipErrors, job.uuid), Timeout(job.trackCount));
            DownloadPlaylist(d, job, tiddl, run).1.success <==> a.Exited? && a.code == 0
    ensures var a := run(Command(tiddl, d.skipErrors, job.uuid), Timeout(job.trackCount));
            a.Exited? && a.code != 0 ==>
              DownloadPlaylist(d, job, tiddl, run).1.message == FailureMessage(a.code, a.stdout, a.stderr)
  {
  }

  /** The queued jobs run one after the other, in order. */
  function RunJobs(d: PlaylistDownloader, jobs: seq<Job>, tiddl: seq<string>,
                   run: (seq<string>, int) -> Attempt): (r: (PlaylistDownloader, seq<DownloadResult>))
    ensures |r.1| == |jobs|
    ensures forall i :: 0 <= i < |jobs| ==> r.1[i].uuid == jobs[i].uuid && r.1[i].name == jobs[i].name
    ensures r.0.completed + r.0.failed == d.completed + d.failed + |jobs|
    ensures r.0.futures == d.futures && r.0.queued == d.queued
    ensures r.0.enabled == d.enabled && r.0.parallel == d.parallel && r.0.hasExecutor == d.hasExecutor
    ensures Valid(d) ==> Valid(r.0)
    decreases |jobs|
  {
    if jobs == [] then (d, [])
    else
      var first := DownloadPlaylist(d, jobs[0], tiddl, run);
      var rest := RunJobs(first.0, jobs[1..], tiddl, run);
      (rest.0, [first.1] + rest.1)
  }

  /** `download_queued`: nothing outside enabled sequential mode;
      otherwise every queued playlist is downloaded and the queue is
      emptied. */
  function DownloadQueued(d: PlaylistDownloader, tiddl: seq<string>, run: (seq<string>, int) -> Attempt)
    : (r: (PlaylistDownloader, seq<DownloadResult>))
    ensures !d.enabled || d.parallel ==> r == (d, [])
    ensures d.enabled && !d.parallel ==>
              r.0.queued == [] && |r.1| == |d.queued|
              && (forall i :: 0 <= i < |d.queued| ==> r.1[i].uuid == d.queued[i].uuid && r.1[i].name == d.queued[i].name)
              && r.0.completed + r.0.failed == d.completed + d.failed + |d.queued|
    ensures Valid(d) ==> Valid(r.0)
  {
    if !d.enabled || d.parallel then (d, [])
    else
      var ran := RunJobs(d, d.queued, tiddl, run);
      (ran.0.(queued := []), ran.1)
  }

  /** `stats`: completed, failed and pending, where pending counts the
      submitted and the queued playlists. */
  function Stats(d: PlaylistDownloader): (nat, nat, nat) {
    (d.completed, d.failed, |d.futures| + |d.queued|)
  }

  /** `queued_count`. */
  function QueuedCount(d: PlaylistDownloader): nat {
    |d.queued| + |d.futures|
  }

  /** `shutdown`: the pool goes away; later adds are queued. */
  function Shutdown(d: PlaylistDownloader): (r: PlaylistDownloader)
    ensures !r.hasExecutor
    ensures Valid(d) ==> Valid(r)
    ensures r.(hasExecutor := d.hasExecutor) == d && Stats(r) == Stats(d)
  {
    d.(hasExecutor := false)
  }

  /** Pending goes up by one for every playlist an enabled downloader
      accepts and stays put for a disabled one; it agrees with the queued
      count; a sequential drain leaves only the submitted jobs pending and
      adds each drained playlist to exactly one counter. */
  lemma PendingCounts(d: PlaylistDownloader, uuid: string, name: string, n: int, tiddl: seq<string>,
                      run: (seq<string>, int) -> Attempt)
    ensures Stats(AddPlaylist(d, uuid, name, n)).2 == Stats(d).2 + (if d.enabled then 1 else 0)
    ensures Stats(d).2 == QueuedCount(d)
    ensures d.enabled && !d.parallel ==>
              Stats(DownloadQueued(d, tiddl, run).0).2 == |d.futures|
              && Stats(DownloadQueued(d, tiddl, run).0).0 + Stats(DownloadQueued(d, tiddl, run).0).1
                 == Stats(d).0 + Stats(d).1 + |d.queued|
  {
  }

  /** A fresh sequential downloader queues what it is given and then
      downloads all of it in order; after a shutdown, a parallel one queues
      playlists it never downloads. */
  lemma SequentialAndShutdown(enabled: bool, parallel: bool, skipErrors: bool, uuid: string, name: string, n: int,
                              tiddl: seq<string>, run: (seq<string>, int) -> Attempt)
    ensures var d := AddPlaylist(NewDownloader(true, false, skipErrors), uuid, name, n);
            d.queued == [Job(uuid, name, n)]
            && |DownloadQueued(d, tiddl, run).1| == 1 && DownloadQueued(d, tiddl, run).1[0].uuid == uuid
    ensures var d := AddPlaylist(Shutdown(NewDownloader(true, true, skipErrors)), uuid, name, n);
            d.queued == [Job(uuid, name, n)] && DownloadQueued(d, tiddl, run).1 == []
  {
  }
}
