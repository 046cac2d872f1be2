/** The per-playlist CSV reports of a migration: one record per Spotify
    track, collected while the migration runs, marked when the playlist is
    downloaded, completed from the downloaded file, and written out under a
    sanitised name. The file system and ffprobe are oracles. */
module Report {
  import opened Common
  import opened Text
  import Tracks
  import Playlist

  const SpotifyTrackUrl: string := "https://open.spotify.com/track/"
  const TidalTrackUrl: string := "https://listen.tidal.com/track/"

  /** What ffprobe tells about a downloaded file (the float duration is not
      part of this model). */
  datatype AudioInfo = AudioInfo(
    fileSizeBytes: int,
    fileFormat: string,
    codecName: string,
    codecLongName: string,
    sampleRate: int,
    channels: int,
    channelLayout: string,
    bitDepth: int,
    bitrateAvg: int,
    bitrateMax: int)

  const NoAudioInfo: AudioInfo := AudioInfo(0, "", "", "", 0, 0, "", 0, 0, 0)

  /** One row of the report. */
  datatype TrackReport = TrackReport(
    spotifyId: string,
    spotifyUrl: string,
    spotifyTitle: string,
    spotifyArtist: string,
    spotifyAlbum: string,
    spotifyDurationMs: int,
    spotifyTrackNumber: int,
    spotifyIsrc: string,
    migrationStatus: string,
    migrationSource: string,
    tidalId: string,
    tidalUrl: string,
    tidalTitle: string,
    tidalArtist: string,
    tidalAlbum: string,
    tidalDurationMs: int,
    downloadStatus: string,
    downloadFilePath: string,
    audio: AudioInfo)

  /** `create_track_report_from_spotify`: the Spotify columns filled in, a
      pending migration, no download attempted, no Tidal data. */
  function NewReport(t: Tracks.SpotifyTrack): (r: TrackReport)
    ensures r.migrationStatus == "pending" && r.downloadStatus == "not_attempted"
    ensures IsPrefix(SpotifyTrackUrl, r.spotifyUrl) && r.spotifyUrl[|SpotifyTrackUrl|..] == t.id
    ensures r.spotifyArtist == Join(t.artists, ", ")
    ensures r.tidalId == "" && r.tidalUrl == "" && r.audio == NoAudioInfo
  {
    TrackReport(t.id, SpotifyTrackUrl + t.id, t.name, Join(t.artists, ", "), t.album, t.durationMs,
                t.trackNumber, t.isrc, "pending", "", "", "", "", "", "", 0, "not_attempted", "", NoAudioInfo)
  }

  /** The Tidal details a caller may pass along. */
  datatype TidalInfo = TidalInfo(title: string, artist: string, album: string, durationMs: int)

  /** `PlaylistReportCollector`: the reports per playlist name and the
      Tidal uuid per name; `names` keeps the names in insertion order. */
  datatype Collector = Collector(
    playlists: map<string, seq<TrackReport>>,
    uuids: map<string, string>,
    names: seq<string>)

  /** The names list is the key set of the report map, without repeats. */
  ghost predicate Valid(c: Collector) {
    (forall n :: n in c.playlists <==> n in c.names)
    && (forall i, j :: 0 <= i < j < |c.names| ==> c.names[i] != c.names[j])
  }

  /** A name enters the order on its first insertion only. */
  function Remember(names: seq<string>, name: string): seq<string> {
    if name in names then names else names + [name]
  }

  /** `start_playlist`: an empty report list and the uuid for the name. */
  function StartPlaylist(c: Collector, name: string, uuid: string): (r: Collector)
  {
    Collector(c.playlists[name := []], c.uuids[name := uuid], Remember(c.names, name))
  }

  /** The report `add_track` builds. */
  function Row(t: Tracks.SpotifyTrack, tidalId: Option<string>, info: Option<TidalInfo>,
               status: string, source: string): TrackReport
  {
    var base := NewReport(t).(migrationStatus := status, migrationSource := source);
    var withId := if tidalId.Some? && tidalId.value != "" then
                    base.(tidalId := tidalId.value, tidalUrl := TidalTrackUrl + tidalId.value)
                  else base;
    match info
    case None => withId
    case Some(i) => withId.(tidalTitle := i.title, tidalArtist := i.artist, tidalAlbum := i.album,
                            tidalDurationMs := i.durationMs)
  }

  /** `add_track`: append one report to the name's list, creating it. */
  function AddTrack(c: Collector, name: string, t: Tracks.SpotifyTrack, tidalId: Option<string>,
                    info: Option<TidalInfo>, status: string, source: string): (r: Collector)
  {
    var before := if name in c.playlists then c.playlists[name] else [];
    Collector(c.playlists[name := before + [Row(t, tidalId, info, status, source)]], c.uuids,
              Remember(c.names, name))
  }

  /** Starting a playlist empties exactly that playlist's list; adding a
      track appends exactly one report to that list, and every other
      playlist keeps its reports. Both keep the collector valid. */
  lemma CollectorUpdates(c: Collector, name: string, uuid: string, t: Tracks.SpotifyTrack,
                         tidalId: Option<string>, info: Option<TidalInfo>, status: string, source: string)
    requires Valid(c)
    ensures var r := StartPlaylist(c, name, uuid);
            Valid(r) && r.playlists[name] == [] && r.uuids[name] == uuid
            && forall n :: n != name ==> (n in r.playlists <==> n in c.playlists)
                                         && (n in c.playlists ==> r.playlists[n] == c.playlists[n])
    ensures var r := AddTrack(c, name, t, tidalId, info, status, source);
            var before := if name in c.playlists then c.playlists[name] else [];
            Valid(r) && name in r.playlists
            && |r.playlists[name]| == |before| + 1
            && r.playlists[name][..|before|] == before
            && forall n :: n != name ==> (n in r.playlists <==> n in c.playlists)
                                         && (n in c.playlists ==> r.playlists[n] == c.playlists[n])
  {
    RememberValid(c, name);
  }

  lemma RememberValid(c: Collector, name: string)
    requires Valid(c)
    ensures forall n :: n in Remember(c.names, name) <==> n in c.names || n == name
    ensures forall i, j :: 0 <= i < j < |Remember(c.names, name)| ==>
              Remember(c.names, name)[i] != Remember(c.names, name)[j]
  {
  }

  /** The appended report has the given status and source, a pending
      download, and a Tidal link exactly when the id is non-empty, in which
      case the link ends with the id. */
  lemma RowFields(t: Tracks.SpotifyTrack, tidalId: Option<string>, info: Option<TidalInfo>,
                  status: string, source: string)
    ensures var r := Row(t, tidalId, info, status, source);
            r.migrationStatus == status && r.migrationSource == source
            && r.downloadStatus == "not_attempted" && r.spotifyId == t.id
            && (r.tidalUrl != "" <==> tidalId.Some? && tidalId.value != "")
            && (r.tidalUrl != "" ==> r.tidalUrl == TidalTrackUrl + r.tidalId && r.tidalId == tidalId.value)
  {
  }

  /** `mark_playlist_downloaded` on one list. */
  function MarkAll(ts: seq<TrackReport>, status: string): (r: seq<TrackReport>)
    ensures |r| == |ts|
    ensures forall i :: 0 <= i < |ts| ==>
              r[i] == (if ts[i].migrationStatus in {"found", "added"} then ts[i].(downloadStatus := status) else ts[i])
  {
    if ts == [] then []
    else [if ts[0].migrationStatus in {"found", "added"} then ts[0].(downloadStatus := status) else ts[0]]
         + MarkAll(ts[1..], status)
  }

  /** `mark_playlist_downloaded`: "downloaded" or "failed" for the reports
      that were found or added; an unknown name changes nothing. */
  function MarkPlaylistDownloaded(c: Collector, name: string, success: bool): Collector {
    if name !in c.playlists then c
    else c.(playlists := c.playlists[name := MarkAll(c.playlists[name], if success then "downloaded" else "failed")])
  }

  /** Only the download status of found or added reports changes; every
      other report, every other field and every other playlist stay the
      same. */
  lemma MarkChangesOnlyFound(c: Collector, name: string, success: bool)
    ensures name !in c.playlists ==> MarkPlaylistDownloaded(c, name, success) == c
    ensures var r := MarkPlaylistDownloaded(c, name, success);
            r.names == c.names && r.uuids == c.uuids && r.playlists.Keys == c.playlists.Keys
            && (forall n :: n in c.playlists && n != name ==> r.playlists[n] == c.playlists[n])
    ensures name in c.playlists ==>
              var before := c.playlists[name];
              var after := MarkPlaylistDownloaded(c, name, success).playlists[name];
              |after| == |before|
              && forall i :: 0 <= i < |before| ==>
                   after[i].(downloadStatus := before[i].downloadStatus) == before[i]
                   && (after[i].downloadStatus != before[i].downloadStatus ==>
                         before[i].migrationStatus in {"found", "added"}
                         && after[i].downloadStatus == (if success then "downloaded" else "failed"))
  {
  }

  // ---------------------------------------------------------------- finding the file

  /** `normalize`: lower-cased, without ' ', '-', '_', '(' and ')'. */
  function Normalize(text: string): string {
    if text == "" then ""
    else Replace(Replace(Replace(Replace(Replace(Lower(text), " ", ""), "-", ""), "_", ""), "(", ""), ")", "")
  }

  predicate Dropped(c: char) { c == ' ' || c == '-' || c == '_' || c == '(' || c == ')' }

  /** Deleting one character keeps a text free of upper case and of the
      characters already deleted. */
  lemma DeleteKeeps(s: string, c: char)
    requires NoUpper(s)
    ensures NoUpper(Replace(s, [c], []))
    ensures forall x :: x in Replace(s, [c], []) ==> x in s && x != c
  {
    ReplaceDelete(s, c);
    var r := Replace(s, [c], []);
    forall i | 0 <= i < |r|
      ensures !IsUpper(r[i])
    {
      assert r[i] in r;
    }
  }

  /** The normal form has no upper-case letter and none of the dropped
      characters, keeps every other character, and normalising it again
      changes nothing. */
  lemma NormalizeShape(text: string)
    ensures NoUpper(Normalize(text))
    ensures forall i :: 0 <= i < |Normalize(text)| ==> !Dropped(Normalize(text)[i])
    ensures Normalize(Normalize(text)) == Normalize(text)
  {
    if text != "" {
      var s0 := Lower(text);
      LowerNoUpper(text);
      var s1 := Replace(s0, " ", "");
      DeleteKeeps(s0, ' ');
      var s2 := Replace(s1, "-", "");
      DeleteKeeps(s1, '-');
      var s3 := Replace(s2, "_", "");
      DeleteKeeps(s2, '_');
      var s4 := Replace(s3, "(", "");
      DeleteKeeps(s3, '(');
      var s5 := Replace(s4, ")", "");
      DeleteKeeps(s4, ')');
      assert Normalize(text) == s5;
      forall i | 0 <= i < |s5|
        ensures !Dropped(s5[i])
      {
        assert s5[i] in s5;
      }
      NormalIsFixed(s5);
    }
  }

  /** A text already in normal form is its own normal form. */
  lemma NormalIsFixed(s: string)
    requires NoUpper(s)
    requires forall i :: 0 <= i < |s| ==> !Dropped(s[i])
    ensures Normalize(s) == s
  {
    if s != "" {
      LowerOfNoUpper(s);
      ReplaceDelete(s, ' ');
      ReplaceDelete(s, '-');
      ReplaceDelete(s, '_');
      ReplaceDelete(s, '(');
      ReplaceDelete(s, ')');
    }
  }

  /** A candidate file: its stem and the names of its parent and
      grandparent directories. */
  datatype FileEntry = FileEntry(path: string, stem: string, parent: string, grandparent: string)

  /** `matches_track` on already normalised names: the title and the file
      name contain one another, and when an artist is known it, or one of
      its comma-separated parts, appears in a parent directory name. */
  predicate MatchesTrack(titleN: string, artistN: string, fileN: string, parentN: string, grandN: string) {
    (Contains(fileN, titleN) || Contains(titleN, fileN))
    && (artistN == "" || Contains(grandN, artistN) || Contains(parentN, artistN)
        || ArtistPartIn(Split(artistN, ","), parentN, grandN))
  }

  /** `any(part.strip() in grandparent or parent for non-blank parts)` */
  predicate ArtistPartIn(parts: seq<string>, parentN: string, grandN: string) {
    exists i :: 0 <= i < |parts| && Strip(parts[i]) != ""
                && (Contains(grandN, Strip(parts[i])) || Contains(parentN, Strip(parts[i])))
  }

  function Matcher(titleN: string, artistN: string): FileEntry -> bool {
    (f: FileEntry) => MatchesTrack(titleN, artistN, Normalize(f.stem), Normalize(f.parent), Normalize(f.grandparent))
  }

  /** `find_downloaded_file`: nothing when the download folder is missing
      or the title normalises to nothing; otherwise the first matching file
      among the artist-folder candidates (only when an artist is given) and
      then among all files. The walks are given in their visiting order. */
  function FindDownloaded(folderExists: bool, title: string, artist: string,
                          inArtistDirs: seq<FileEntry>, everywhere: seq<FileEntry>): (r: Option<FileEntry>)
  {
    if !folderExists || Normalize(title) == "" then None
    else
      var cands := (if artist != "" then inArtistDirs else []) + everywhere;
      match FirstIn(cands, Matcher(Normalize(title), Normalize(artist)), 0, |cands|)
      case None => None
      case Some(i) => Some(cands[i])
  }

  /** A found file matches the title (and artist) and no earlier candidate
      does; nothing is found exactly when the guards fail or no candidate
      matches. */
  lemma FindDownloadedFirst(folderExists: bool, title: string, artist: string,
                            inArtistDirs: seq<FileEntry>, everywhere: seq<FileEntry>)
    ensures var r := FindDownloaded(folderExists, title, artist, inArtistDirs, everywhere);
            var cands := (if artist != "" then inArtistDirs else []) + everywhere;
            var m := Matcher(Normalize(title), Normalize(artist));
            (r.None? <==> !folderExists || Normalize(title) == "" || forall j :: 0 <= j < |cands| ==> !m(cands[j]))
            && (r.Some? ==> exists i :: 0 <= i < |cands| && cands[i] == r.value && m(cands[i])
                                          && forall j :: 0 <= j < i ==> !m(cands[j]))
  {
  }

  /** When the artist is unknown, or its normal form names the parent
      directory, only the title decides. */
  lemma MatchesTrackTitle(titleN: string, artistN: string, fileN: string, parentN: string, grandN: string)
    requires artistN == "" || Contains(parentN, artistN)
    ensures MatchesTrack(titleN, artistN, fileN, parentN, grandN) <==> Contains(fileN, titleN) || Contains(titleN, fileN)
  {
  }

  /** The title, artist and album the file search uses: the Tidal value
      where set, the Spotify one otherwise. */
  function SearchFields(t: TrackReport): (string, string, string) {
    (if t.tidalTitle != "" then t.tidalTitle else t.spotifyTitle,
     if t.tidalArtist != "" then t.tidalArtist else t.spotifyArtist,
     if t.tidalAlbum != "" then t.tidalAlbum else t.spotifyAlbum)
  }

  /** `update_track_with_download_metadata`: only a downloaded report with
      a Tidal id is looked up; a found file sets the path, and its probe,
      when it gives anything, the audio columns. Nothing else changes. */
  function UpdateWithDownload(t: TrackReport, find: (string, string, string) -> Option<string>,
                              probe: string -> Option<AudioInfo>): (r: TrackReport)
    ensures t.tidalId == "" || t.downloadStatus != "downloaded" ==> r == t
    ensures r.(downloadFilePath := t.downloadFilePath, audio := t.audio) == t
    ensures t.tidalId != "" && t.downloadStatus == "downloaded" ==>
              var found := find(SearchFields(t).0, SearchFields(t).1, SearchFields(t).2);
              (found.None? ==> r == t)
              && (found.Some? ==> r.downloadFilePath == found.value
                                  && r.audio == probe(found.value).GetOr(t.audio))
  {
    if t.tidalId == "" || t.downloadStatus != "downloaded" then t
    else
      var (title, artist, album) := SearchFields(t);
      match find(title, artist, album)
      case None => t
      case Some(path) =>
        var withPath := t.(downloadFilePath := path);
        match probe(path)
        case None => withPath
        case Some(info) => withPath.(audio := info)
  }

  // ---------------------------------------------------------------- writing

  /** The report file name: "pl-", the sanitised stem, ".csv". */
  function CsvName(playlistName: string): string {
    "pl-" + Playlist.SafeStem(playlistName) + ".csv"
  }

  /** `write_playlist_csv`: the file name and rows written, nothing for an
      empty list. */
  function WritePlaylistCsv(playlistName: string, tracks: seq<TrackReport>): Option<(string, seq<TrackReport>)> {
    if tracks == [] then None else Some((CsvName(playlistName), tracks))
  }

  /** Nothing is written for an empty list; otherwise every report becomes
      one row, in order, in a file whose stem has at most 100 characters,
      each alphanumeric, '-' or '_'. */
  lemma WritePlaylistCsvShape(playlistName: string, tracks: seq<TrackReport>)
    ensures WritePlaylistCsv(playlistName, tracks).None? <==> tracks == []
    ensures WritePlaylistCsv(playlistName, tracks).Some? ==> WritePlaylistCsv(playlistName, tracks).value.1 == tracks
    ensures var n := CsvName(playlistName);
            var stem := n[3..|n| - 4];
            n == "pl-" + stem + ".csv" && |stem| <= 100
            && forall i :: 0 <= i < |stem| ==> Playlist.StemChar(stem[i])
  {
    Playlist.SafeStemShape(playlistName);
    var n := CsvName(playlistName);
    assert n[3..|n| - 4] == Playlist.SafeStem(playlistName);
  }
  /** The scan step of `finalize_and_write_reports` on one list: each
      downloaded report with a Tidal id is completed from its file. */
  function ScanAll(ts: seq<TrackReport>, find: (string, string, string) -> Option<string>,
                   probe: string -> Option<AudioInfo>): (r: seq<TrackReport>)
    ensures |r| == |ts|
    ensures forall i :: 0 <= i < |ts| ==> r[i] == UpdateWithDownload(ts[i], find, probe)
  {
    if ts == [] then [] else [UpdateWithDownload(ts[0], find, probe)] + ScanAll(ts[1..], find, probe)
  }

  /** `finalize_and_write_reports` over the names in insertion order: the
      files written, skipping playlists without reports. */
  function Finalize(c: Collector, names: seq<string>, scan: bool, find: (string, string, string) -> Option<string>,
                    probe: string -> Option<AudioInfo>): (r: seq<(string, seq<TrackReport>)>)
    requires forall n :: n in names ==> n in c.playlists
    ensures |r| <= |names|
    ensures forall i :: 0 <= i < |r| ==> r[i].1 != []
  {
    if names == [] then []
    else
      var ts := c.playlists[names[0]];
      var rows := if scan then ScanAll(ts, find, probe) else ts;
      var file := WritePlaylistCsv(names[0], rows);
      (if file.Some? then [file.value] else []) + Finalize(c, names[1..], scan, find, probe)
  }

  /** The file written for the playlist `n`: its CSV name and one row per
      report; without the scan the rows are the reports. */
  predicate FileFor(c: Collector, f: (string, seq<TrackReport>), n: string, scan: bool)
    requires n in c.playlists
  {
    f.0 == CsvName(n) && |f.1| == |c.playlists[n]| && (!scan ==> f.1 == c.playlists[n])
  }

  /** `files` holds, in order, the file for each name of `ns`. */
  predicate FilesFor(c: Collector, files: seq<(string, seq<TrackReport>)>, ns: seq<string>, scan: bool)
    requires forall n :: n in ns ==> n in c.playlists
  {
    if ns == [] then files == []
    else files != [] && FileFor(c, files[0], ns[0], scan) && FilesFor(c, files[1..], ns[1..], scan)
  }

  /** Read pointwise: as many files as names, the `i`-th for the `i`-th. */
  lemma {:induction false} FilesForAt(c: Collector, files: seq<(string, seq<TrackReport>)>, ns: seq<string>,
                                      scan: bool, i: nat)
    requires forall n :: n in ns ==> n in c.playlists
    requires FilesFor(c, files, ns, scan)
    ensures |files| == |ns|
    ensures i < |ns| ==> FileFor(c, files[i], ns[i], scan)
  {
    if ns != [] {
      FilesForAt(c, files[1..], ns[1..], scan, if i == 0 then 0 else i - 1);
    }
  }

  /** One file per playlist that has reports, with one row per report;
      without the scan the rows are the reports themselves. */
  lemma {:induction false} FinalizeFiles(c: Collector, names: seq<string>, scan: bool,
                                         find: (string, string, string) -> Option<string>,
                                         probe: string -> Option<AudioInfo>)
    requires forall n :: n in names ==> n in c.playlists
    ensures FilesFor(c, Finalize(c, names, scan, find, probe), NonEmpty(c, names), scan)
  {
    if names != [] {
      FinalizeFiles(c, names[1..], scan, find, probe);
      var rest := Finalize(c, names[1..], scan, find, probe);
      var ts := c.playlists[names[0]];
      if ts != [] {
        var f := (CsvName(names[0]), if scan then ScanAll(ts, find, probe) else ts);
        assert Finalize(c, names, scan, find, probe) == [f] + rest;
        assert NonEmpty(c, names) == [names[0]] + NonEmpty(c, names[1..]);
        assert FileFor(c, f, names[0], scan);
        FilesForCons(c, f, rest, names[0], NonEmpty(c, names[1..]), scan);
      } else {
        assert Finalize(c, names, scan, find, probe) == rest;
        assert NonEmpty(c, names) == NonEmpty(c, names[1..]);
      }
    }
  }

  lemma FilesForCons(c: Collector, f: (string, seq<TrackReport>), files: seq<(string, seq<TrackReport>)>,
                     n: string, ns: seq<string>, scan: bool)
    requires n in c.playlists && forall m :: m in ns ==> m in c.playlists
    requires FileFor(c, f, n, scan) && FilesFor(c, files, ns, scan)
    ensures FilesFor(c, [f] + files, [n] + ns, scan)
  {
    assert ([f] + files)[1..] == files && ([n] + ns)[1..] == ns;
  }

  /** The names whose report list is not empty, in order. */
  function NonEmpty(c: Collector, names: seq<string>): (r: seq<string>)
    requires forall n :: n in names ==> n in c.playlists
    ensures forall n :: n in r ==> n in c.playlists && c.playlists[n] != []
  {
    if names == [] then []
    else (if c.playlists[names[0]] != [] then [names[0]] else []) + NonEmpty(c, names[1..])
  }
}
