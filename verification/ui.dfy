/** The text and counter logic behind the split-screen migration display:
    emoji stripping and truncation, the bounded sample windows and activity
    logs, the pending counts, download completion and the ETA text. The
    Unicode category table is an oracle; durations are whole seconds. */
module Ui {
  import opened Common
  import opened Text

  // ---------------------------------------------------------------- text

  /** The general categories `strip_emojis` removes. */
  const DroppedCategories: set<string> := {"So", "Sk", "Cs", "Cn", "Co"}

  /** A character `strip_emojis` removes: a symbol, surrogate, unassigned
      or private-use character, a variation selector, or a zero-width or
      direction mark. */
  predicate Dropped(c: char, category: char -> string) {
    category(c) in DroppedCategories || ('\U{FE00}' <= c <= '\U{FE0F}') || ('\U{200B}' <= c <= '\U{200F}')
  }

  /** The characters that are kept, in order. */
  function Kept(s: string, category: char -> string): (r: string)
    ensures |r| <= |s|
    ensures forall c :: c in r <==> c in s && !Dropped(c, category)
  {
    if s == [] then [] else (if Dropped(s[0], category) then [] else [s[0]]) + Kept(s[1..], category)
  }

  /** `strip_emojis`. */
  function StripEmojis(text: string, category: char -> string): (r: string)
    ensures Trimmed(r)
    ensures forall c :: c in r ==> c in text && !Dropped(c, category)
    ensures forall c :: c in text && !Dropped(c, category) && !IsSpace(c) ==> c in r
  {
    var k := Kept(text, category);
    forall c | c !in k
      ensures c !in Strip(k)
    {
      StripSub(k, c);
    }
    forall c | c in k && !IsSpace(c)
      ensures c in Strip(k)
    {
      StripKeeps(k, c);
    }
    Strip(k)
  }

  /** A string without dropped characters is kept whole. */
  lemma {:induction false} KeptAll(s: string, category: char -> string)
    requires forall c :: c in s ==> !Dropped(c, category)
    ensures Kept(s, category) == s
  {
    if s != [] {
      KeptAll(s[1..], category);
      assert s == [s[0]] + s[1..];
    }
  }

  /** Stripping twice is stripping once, and text made of kept characters
      without surrounding whitespace comes back unchanged. */
  lemma StripEmojisIdempotent(text: string, category: char -> string)
    ensures StripEmojis(StripEmojis(text, category), category) == StripEmojis(text, category)
    ensures Trimmed(text) && (forall c :: c in text ==> !Dropped(c, category)) ==>
              StripEmojis(text, category) == text
  {
    var r := StripEmojis(text, category);
    KeptAll(r, category);
    StripTrimmed(r);
    if Trimmed(text) && (forall c :: c in text ==> !Dropped(c, category)) {
      KeptAll(text, category);
      StripTrimmed(text);
    }
  }

  const Ellipsis: char := '\U{2026}'

  /** `safe_text_width` as written: the stripped text when it fits,
      otherwise its first `maxWidth - 1` characters and an ellipsis. */
  function SafeTextWidth(text: string, maxWidth: int, category: char -> string): (r: string)
    ensures var t := StripEmojis(text, category);
            (|t| <= maxWidth ==> r == t)
            && (|t| > maxWidth ==> |r| > 0 && r[|r| - 1] == Ellipsis && IsPrefix(r[..|r| - 1], t))
    // the cut keeps `maxWidth - 1` characters, or for a width below one
    // all but `1 - maxWidth` of them, as Python's `text[:maxWidth - 1]`
    ensures var t := StripEmojis(text, category);
            |t| > maxWidth ==> |r| == (if maxWidth >= 1 then maxWidth else Max(0, |t| + maxWidth - 1) + 1)
  {
    var t := StripEmojis(text, category);
    if |t| <= maxWidth then t else PyPrefix(t, maxWidth - 1) + [Ellipsis]
  }

  /** For a width of at least one the result fits, and it ends with an
      ellipsis exactly when the text was cut or itself ended with one. */
  lemma SafeTextWidthFits(text: string, maxWidth: int, category: char -> string)
    requires maxWidth >= 1
    ensures var r := SafeTextWidth(text, maxWidth, category);
            var t := StripEmojis(text, category);
            |r| <= maxWidth
            && (r != [] && r[|r| - 1] == Ellipsis <==> |t| > maxWidth || (t != [] && t[|t| - 1] == Ellipsis))
  {
  }

  /** With a width of zero the cut keeps all but the last character and
      appends the ellipsis, so the result is as long as the text. */
  lemma SafeTextWidthZero(text: string, category: char -> string)
    requires StripEmojis(text, category) != []
    ensures |SafeTextWidth(text, 0, category)| == |StripEmojis(text, category)| > 0
  {
  }

  /** The truncation as intended: never longer than the width, and no
      ellipsis when there is no room for one. */
  function SafeWidth(text: string, maxWidth: int, category: char -> string): (r: string)
    ensures |r| <= Max(0, maxWidth)
    ensures maxWidth >= 1 ==> r == SafeTextWidth(text, maxWidth, category)
    ensures var t := StripEmojis(text, category);
            IsPrefix(r, t) || (r != [] && r[|r| - 1] == Ellipsis && IsPrefix(r[..|r| - 1], t))
  {
    var t := StripEmojis(text, category);
    if |t| <= maxWidth then t
    else if maxWidth <= 0 then []
    else PyPrefix(t, maxWidth - 1) + [Ellipsis]
  }

  // ---------------------------------------------------------------- windows

  /** Append a sample and drop the oldest once there are more than `cap`. */
  function Record<T>(samples: seq<T>, x: T, cap: nat): (r: seq<T>)
    ensures |samples| <= cap ==> |r| <= cap || cap == 0
    ensures cap > 0 ==> r != [] && r[|r| - 1] == x
  {
    var s := samples + [x];
    if |s| > cap then s[1..] else s
  }

  /** The last `n` elements (all of them when there are fewer). */
  function Last<T>(s: seq<T>, n: nat): (r: seq<T>)
    ensures |r| == Min(n, |s|)
  {
    if |s| <= n then s else s[|s| - n..]
  }

  /** Recording several samples in turn. */
  function RecordAll<T>(samples: seq<T>, xs: seq<T>, cap: nat): seq<T>
    decreases |xs|
  {
    if xs == [] then samples else RecordAll(Record(samples, xs[0], cap), xs[1..], cap)
  }

  /** A window that starts within its bound keeps exactly the newest
      `cap` samples, oldest first. */
  lemma {:induction false} RecordAllKeepsNewest<T>(samples: seq<T>, xs: seq<T>, cap: nat)
    requires 0 < cap && |samples| <= cap
    ensures RecordAll(samples, xs, cap) == Last(samples + xs, cap)
    decreases |xs|
  {
    if xs != [] {
      var next := Record(samples, xs[0], cap);
      RecordAllKeepsNewest(next, xs[1..], cap);
      var s := samples + [xs[0]];
      assert samples + xs == s + xs[1..];
      if |s| > cap {
        assert |s| == cap + 1;
        assert next + xs[1..] == (s + xs[1..])[1..];
      }
    }
  }

  /** `record_track_time` keeps 100 samples and `record_playlist_time` 20. */
  const TrackSamples: nat := 100
  const PlaylistSamples: nat := 20

  /** The activity log: a bounded deque with the newest entry first. */
  const ActivityCap: nat := 20

  function Push(recent: seq<string>, entry: string): (r: seq<string>)
    ensures |r| == Min(ActivityCap, |recent| + 1) && r[0] == entry
    ensures r[1..] == PyPrefix(recent, ActivityCap - 1)
  {
    PyPrefix([entry] + recent, ActivityCap)
  }

  function Reverse<T>(s: seq<T>): (r: seq<T>)
    ensures |r| == |s|
  {
    if s == [] then [] else Reverse(s[1..]) + [s[0]]
  }

  /** Pushing several entries in turn. */
  function PushAll(recent: seq<string>, entries: seq<string>): seq<string> {
    if entries == [] then recent else Push(PushAll(recent, entries[..|entries| - 1]), entries[|entries| - 1])
  }

  /** The log holds the newest twenty entries, newest first, followed by
      older ones only while there is room. */
  lemma {:induction false} PushAllNewestFirst(recent: seq<string>, entries: seq<string>)
    ensures entries != [] ==> PushAll(recent, entries) == PyPrefix(Reverse(entries) + recent, ActivityCap)
    ensures entries != [] ==> |PushAll(recent, entries)| <= ActivityCap
    decreases |entries|
  {
    if entries != [] {
      var init := entries[..|entries| - 1];
      var x := entries[|entries| - 1];
      assert Reverse(entries) == [x] + Reverse(init) by {
        ReverseSnoc(init, x);
        assert entries == init + [x];
      }
      if init == [] {
        assert Reverse(init) + recent == recent;
      } else {
        PushAllNewestFirst(recent, init);
      }
      ConcatAssoc([x], Reverse(init), recent);
      PrefixCons(x, Reverse(init) + recent, ActivityCap);
    }
  }

  lemma {:induction false} ReverseSnoc<T>(s: seq<T>, x: T)
    ensures Reverse(s + [x]) == [x] + Reverse(s)
    decreases |s|
  {
    if s != [] {
      ReverseSnoc(s[1..], x);
      assert (s + [x])[1..] == s[1..] + [x];
      ConcatAssoc([x], Reverse(s[1..]), [s[0]]);
    }
  }

  lemma PrefixCons<T>(x: T, s: seq<T>, n: nat)
    requires n > 0
    ensures PyPrefix([x] + PyPrefix(s, n), n) == PyPrefix([x] + s, n)
  {
    assert ([x] + PyPrefix(s, n))[..Min(n, |PyPrefix(s, n)| + 1)] == ([x] + s)[..Min(n, |s| + 1)];
  }

  /** `add_activity`: the icon, a space and the message cut to the width.
      The cut is the corrected `SafeWidth`, which agrees with the source's
      `safe_text_width` for every width of at least 1, the only widths
      its callers pass. */
  function Activity(icon: string, message: string, width: int, category: char -> string): (r: string)
    ensures IsPrefix(icon + " ", r) && |r| <= |icon| + 1 + Max(0, width)
  {
    icon + " " + SafeWidth(message, width, category)
  }

  // ---------------------------------------------------------------- migration counters

  /** The counters of `MigrationStats`; sample durations in seconds. */
  datatype MigrationStats = MigrationStats(totalTracksAll: int, added: nat, skipped: nat, failed: nat,
                                           completedPlaylists: nat, samples: seq<int>, recent: seq<string>)

  /** `get_pending_tracks` of the migration side. */
  function MigrationPending(m: MigrationStats): (r: nat) {
    Max(0, m.totalTracksAll - (m.added + m.skipped + m.failed))
  }

  /** The outcome a track is reported with. */
  datatype TrackEvent = TrackAdded | TrackSkipped | TrackFailed(reason: string)

  /** `track_added`, `track_skipped`, `track_failed`: one counter goes up
      and an activity line is logged. */
  function RecordTrack(m: MigrationStats, e: TrackEvent, name: string, category: char -> string): (r: MigrationStats)
    ensures r.added + r.skipped + r.failed == m.added + m.skipped + m.failed + 1
    ensures r.added == m.added + (if e.TrackAdded? then 1 else 0)
    ensures r.skipped == m.skipped + (if e.TrackSkipped? then 1 else 0)
    ensures r.failed == m.failed + (if e.TrackFailed? then 1 else 0)
    ensures r.totalTracksAll == m.totalTracksAll && r.samples == m.samples
    ensures |r.recent| <= ActivityCap && r.recent != [] && r.recent[1..] == PyPrefix(m.recent, ActivityCap - 1)
  {
    match e
    case TrackAdded =>
      m.(added := m.added + 1, recent := Push(m.recent, Activity("[green]+[/]", PyPrefix(name, 35), 35, category)))
    case TrackSkipped =>
      m.(skipped := m.skipped + 1, recent := Push(m.recent, Activity("[cyan]o[/]", PyPrefix(name, 35), 35, category)))
    case TrackFailed(reason) =>
      var msg := PyPrefix(name, 25) + (if reason != "" then " (" + PyPrefix(reason, 10) + ")" else "");
      m.(failed := m.failed + 1, recent := Push(m.recent, Activity("[red]x[/]", msg, 35, category)))
  }

  /** Pending never goes negative; while the processed tracks stay within
      the total, pending and processed add up to it, and each reported
      track lowers pending by one. */
  lemma MigrationPendingCounts(m: MigrationStats, e: TrackEvent, name: string, category: char -> string)
    ensures m.added + m.skipped + m.failed <= m.totalTracksAll ==>
              MigrationPending(m) + m.added + m.skipped + m.failed == m.totalTracksAll
    ensures m.added + m.skipped + m.failed > m.totalTracksAll ==> MigrationPending(m) == 0
    ensures MigrationPending(m) > 0 ==> MigrationPending(RecordTrack(m, e, name, category)) == MigrationPending(m) - 1
  {
  }

  /** `record_track_time`. */
  function RecordTrackTime(m: MigrationStats, seconds: int): (r: MigrationStats)
    ensures |m.samples| <= TrackSamples ==> |r.samples| <= TrackSamples
    ensures r.samples != [] && r.samples[|r.samples| - 1] == seconds
  {
    m.(samples := Record(m.samples, seconds, TrackSamples))
  }

  // ---------------------------------------------------------------- download counters

  /** The counters of `DownloadStats` and the display's per-playlist track
      counts. */
  datatype DownloadStats = DownloadStats(
    totalPlaylists: nat, completed: nat, failed: nat, pending: nat,
    currentName: string, isDownloading: bool,
    tracksQueued: int, tracksCompleted: int, tracksFailed: int,
    samples: seq<int>, recent: seq<string>, trackCounts: map<string, int>)

  /** `get_pending_tracks` of the download side. */
  function DownloadPendingTracks(s: DownloadStats): (r: nat) {
    Max(0, s.tracksQueued - s.tracksCompleted - s.tracksFailed)
  }

  /** Every queued playlist is pending, completed or failed. */
  predicate Balanced(s: DownloadStats) {
    s.pending + s.completed + s.failed == s.totalPlaylists
  }

  /** `queue_download`. */
  function QueueDownload(s: DownloadStats, name: string, trackCount: int, category: char -> string): (r: DownloadStats)
    ensures r.pending == s.pending + 1 && r.totalPlaylists == s.totalPlaylists + 1
    ensures r.tracksQueued == s.tracksQueued + trackCount && r.trackCounts == s.trackCounts[name := trackCount]
    ensures Balanced(s) ==> Balanced(r)
  {
    s.(totalPlaylists := s.totalPlaylists + 1, pending := s.pending + 1,
       tracksQueued := s.tracksQueued + trackCount, trackCounts := s.trackCounts[name := trackCount],
       recent := Push(s.recent, Activity("[dim]...[/]", "Queued: " + PyPrefix(name, 30), 40, category)))
  }

  /** `download_complete`, with the elapsed time given when a download was
      started. */
  function DownloadComplete(s: DownloadStats, name: string, success: bool, message: string, elapsed: Option<int>,
                            category: char -> string): (r: DownloadStats)
  {
    var samples := if elapsed.Some? then Record(s.samples, elapsed.value, PlaylistSamples) else s.samples;
    var count := if name in s.trackCounts then s.trackCounts[name] else 0;
    var pending := Max(0, s.pending - 1);
    var recent := Push(s.recent, CompleteActivity(name, success, message, count, category));
    var counted :=
      if success then s.(completed := s.completed + 1, tracksCompleted := s.tracksCompleted + count, recent := recent)
      else s.(failed := s.failed + 1, tracksFailed := s.tracksFailed + count, recent := recent);
    var cleared := counted.(pending := pending, samples := samples, trackCounts := s.trackCounts - {name});
    if s.currentName == name then cleared.(currentName := "", isDownloading := pending > 0) else cleared
  }

  /** The activity line of a finished download: the name and track count
      on success, the name and the start of the message on failure. */
  function CompleteActivity(name: string, success: bool, message: string, count: int,
                            category: char -> string): string
  {
    if success then Activity("[green]+[/]", PyPrefix(name, 30) + " (" + IntToString(count) + " tracks)", 40, category)
    else
      var msg := PyPrefix(name, 25) + (if message != "" then " (" + PyPrefix(message, 15) + ")" else "");
      Activity("[red]x[/]", msg, 40, category)
  }

  /** Completion lowers pending by one but never below zero, adds exactly
      one to completed or failed together with the playlist's track count,
      and keeps the books balanced while something is pending. */
  lemma DownloadCompleteCounts(s: DownloadStats, name: string, success: bool, message: string,
                               elapsed: Option<int>, category: char -> string)
    ensures var r := DownloadComplete(s, name, success, message, elapsed, category);
            var count := if name in s.trackCounts then s.trackCounts[name] else 0;
            r.pending == (if s.pending > 0 then s.pending - 1 else 0)
            && r.completed + r.failed == s.completed + s.failed + 1
            && (success <==> r.completed == s.completed + 1)
            && r.tracksCompleted + r.tracksFailed == s.tracksCompleted + s.tracksFailed + count
            && (Balanced(s) && s.pending > 0 ==> Balanced(r))
  {
  }

  /** Completion forgets the playlist's track count and keeps the others;
      a recorded duration keeps the sample window within its bound. */
  lemma DownloadCompleteForgets(s: DownloadStats, name: string, success: bool, message: string,
                                elapsed: Option<int>, category: char -> string)
    ensures var r := DownloadComplete(s, name, success, message, elapsed, category);
            name !in r.trackCounts
            && (forall n :: n in s.trackCounts && n != name ==> n in r.trackCounts && r.trackCounts[n] == s.trackCounts[n])
            && (elapsed.Some? && |s.samples| <= PlaylistSamples ==> |r.samples| <= PlaylistSamples)
  {
  }

  /** A playlist queued and then completed leaves the pending count and
      the track books where they were, with its tracks moved to completed
      or failed. */
  lemma QueueThenComplete(s: DownloadStats, name: string, n: int, success: bool, message: string,
                          elapsed: Option<int>, category: char -> string)
    requires Balanced(s)
    ensures var r := DownloadComplete(QueueDownload(s, name, n, category), name, success, message, elapsed, category);
            Balanced(r) && r.pending == s.pending && r.totalPlaylists == s.totalPlaylists + 1
            && r.tracksQueued - r.tracksCompleted - r.tracksFailed == s.tracksQueued - s.tracksCompleted - s.tracksFailed
            && DownloadPendingTracks(r) == DownloadPendingTracks(s)
  {
    DownloadCompleteCounts(QueueDownload(s, name, n, category), name, success, message, elapsed, category);
  }

  // ---------------------------------------------------------------- ETA

  /** The pieces `_format_eta` prints. */
  datatype Eta = NoEta | Secs(s: nat) | MinSecs(m: nat, s: nat) | HourMins(h: nat, m: nat)

  function EtaParts(seconds: Option<int>): (r: Eta) {
    if seconds.None? || seconds.value <= 0 then NoEta
    else if seconds.value < 60 then Secs(seconds.value)
    else if seconds.value < 3600 then MinSecs(seconds.value / 60, seconds.value % 60)
    else HourMins(seconds.value / 3600, (seconds.value % 3600) / 60)
  }

  /** `_format_eta`. */
  function FormatEta(seconds: Option<int>): (r: string) {
    match EtaParts(seconds)
    case NoEta => ""
    case Secs(s) => "~" + NatToString(s) + "s"
    case MinSecs(m, s) => "~" + NatToString(m) + "m " + NatToString(s) + "s"
    case HourMins(h, m) => "~" + NatToString(h) + "h " + NatToString(m) + "m"
  }

  /** The printed pieces recompose the time: exactly below an hour, to the
      minute above; seconds and minutes stay below 60, and the text is empty
      exactly when there is no positive time. */
  lemma FormatEtaParts(seconds: Option<int>)
    ensures FormatEta(seconds) == "" <==> seconds.None? || seconds.value <= 0
    ensures FormatEta(seconds) != "" ==> FormatEta(seconds)[0] == '~'
    ensures match EtaParts(seconds)
            case NoEta => true
            case Secs(s) => 0 < s < 60 && s == seconds.value
            case MinSecs(m, s) => 1 <= m < 60 && s < 60 && m * 60 + s == seconds.value
            case HourMins(h, m) => h >= 1 && m < 60 && h * 3600 + m * 60 <= seconds.value < h * 3600 + m * 60 + 60
  {
  }
}
