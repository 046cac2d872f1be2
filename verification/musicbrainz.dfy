/** The MusicBrainz client: ISRC lookup, title/artist search with a
    duration window, and the parse of a recording into genres and tags
    ranked by vote count. HTTP requests are oracles keyed by the endpoint
    (or the search query) they would fetch. */
module MusicBrainz {
  import opened Common
  import opened Text
  import opened Sorting

  /** A genre or tag entry: its name ("" when absent) and vote count (0
      when absent). */
  datatype Label = Label(name: string, count: int)

  /** A recording as the API returns it. `creditNames[i]` is the name of
      the artist of credit `i` ("" when absent). */
  datatype Recording = Recording(id: string, title: string, creditNames: seq<string>,
                                 genres: seq<Label>, tags: seq<Label>)

  /** `MusicBrainzTrackInfo`. */
  datatype TrackInfo = TrackInfo(mbid: string, title: string, artist: string,
                                 genres: seq<string>, tags: seq<string>)

  const TopGenres: nat := 5
  const TopTags: nat := 10
  /** Half-width of the duration window, in milliseconds. */
  const DurationSlackMs: int := 3000

  // ---------------------------------------------------------------- ranking

  /** `sorted(..., key=count, reverse=True)`: `a` may precede `b`. */
  predicate ByCount(a: Label, b: Label) { a.count >= b.count }

  lemma ByCountOrder()
    ensures Total(ByCount) && Transitive(ByCount)
  {
  }

  /** The entries with a non-empty name, in order. */
  function Named(xs: seq<Label>): (r: seq<Label>)
    ensures |r| <= |xs|
    ensures forall i :: 0 <= i < |r| ==> r[i].name != "" && r[i] in xs
    ensures forall x :: x in xs && x.name != "" ==> x in r
  {
    if xs == [] then []
    else (if xs[0].name != "" then [xs[0]] else []) + Named(xs[1..])
  }

  function Names(xs: seq<Label>): (r: seq<string>)
    ensures |r| == |xs| && forall i :: 0 <= i < |xs| ==> r[i] == xs[i].name
  {
    if xs == [] then [] else [xs[0].name] + Names(xs[1..])
  }

  /** The first `n` named entries after the stable sort by count, most
      votes first. */
  function Top(xs: seq<Label>, n: nat): seq<Label> {
    PyPrefix(Named(SortBy(xs, ByCount)), n)
  }

  /** Filtering keeps a sorted list sorted. */
  lemma {:induction false} NamedSorted(s: seq<Label>)
    requires Sorted(s, ByCount)
    ensures Sorted(Named(s), ByCount)
  {
    if s != [] {
      NamedSorted(s[1..]);
      var t := Named(s[1..]);
      forall j | 0 <= j < |t|
        ensures ByCount(s[0], t[j])
      {
        var k :| 0 <= k < |s[1..]| && s[1..][k] == t[j];
        assert s[k + 1] == t[j];
      }
    }
  }

  /** The top list: at most `n` entries, all named and taken from the
      input, most votes first; and nothing dropped outranks what was kept:
      a named entry left out means the list is full and every kept entry
      has at least as many votes. */
  lemma {:induction false} TopShape(xs: seq<Label>, n: nat)
    ensures |Top(xs, n)| <= n
    ensures forall i :: 0 <= i < |Top(xs, n)| ==> Top(xs, n)[i].name != "" && Top(xs, n)[i] in xs
    ensures Sorted(Top(xs, n), ByCount)
    ensures forall x :: x in xs && x.name != "" && x !in Top(xs, n) ==>
              |Top(xs, n)| == n && forall i :: 0 <= i < n ==> Top(xs, n)[i].count >= x.count
  {
    ByCountOrder();
    var s := SortBy(xs, ByCount);
    SortBySorted(xs, ByCount);
    NamedSorted(s);
    var m := Named(s);
    var t := Top(xs, n);
    assert t == m[..|t|];
    forall i | 0 <= i < |t|
      ensures t[i].name != "" && t[i] in xs
    {
      assert t[i] == m[i];
      assert m[i] in multiset(s);
    }
    forall x | x in xs && x.name != "" && x !in t
      ensures |t| == n && forall i :: 0 <= i < n ==> t[i].count >= x.count
    {
      assert x in multiset(xs);
      assert x in s;
      var j :| 0 <= j < |m| && m[j] == x;
      assert |t| == n;
      forall i | 0 <= i < n
        ensures t[i].count >= x.count
      {
        assert t[i] == m[i];
      }
    }
  }

  // ---------------------------------------------------------------- parsing

  /** `_parse_recording`. */
  function ParseRecording(rec: Recording): (r: TrackInfo)
    ensures r.mbid == rec.id && r.title == rec.title
    ensures |r.genres| <= TopGenres && |r.tags| <= TopTags
  {
    TrackInfo(rec.id, rec.title, if rec.creditNames != [] then rec.creditNames[0] else "",
              Names(Top(rec.genres, TopGenres)), Names(Top(rec.tags, TopTags)))
  }

  /** The parsed lists are the top five genres and top ten tags: no empty
      name, each the name of an input entry, and in order of votes; and
      the artist is the first credit's. */
  lemma ParseRecordingShape(rec: Recording)
    ensures var r := ParseRecording(rec);
            (forall i :: 0 <= i < |r.genres| ==> r.genres[i] != "") &&
            (forall i :: 0 <= i < |r.tags| ==> r.tags[i] != "") &&
            Sorted(Top(rec.genres, TopGenres), ByCount) && Sorted(Top(rec.tags, TopTags), ByCount) &&
            (forall i :: 0 <= i < |r.genres| ==> exists g :: g in rec.genres && g.name == r.genres[i]) &&
            (forall i :: 0 <= i < |r.tags| ==> exists g :: g in rec.tags && g.name == r.tags[i])
    ensures ParseRecording(rec).artist == (if rec.creditNames == [] then "" else rec.creditNames[0])
  {
    TopShape(rec.genres, TopGenres);
    TopShape(rec.tags, TopTags);
  }

  // ---------------------------------------------------------------- ISRC lookup

  /** `lookup_by_isrc`. `request(endpoint)` is the recordings list of the
      response, `None` when the request failed, the body was empty or had
      no "recordings" key. */
  function LookupByIsrc(isrc: string, request: string -> Option<seq<Recording>>): (r: Option<TrackInfo>)
    ensures isrc == [] ==> r.None?
    ensures r.Some? <==> isrc != [] && request("isrc/" + isrc).Some? && request("isrc/" + isrc).value != []
    ensures r.Some? ==> r.value == ParseRecording(request("isrc/" + isrc).value[0])
  {
    if isrc == [] then None
    else match request("isrc/" + isrc)
      case None => None
      case Some(recordings) =>
        if recordings == [] then None else Some(ParseRecording(recordings[0]))
  }

  // ---------------------------------------------------------------- search

  /** Python truthiness of an optional duration. */
  predicate Truthy(d: Option<int>) { d.Some? && d.value != 0 }

  /** The Lucene query without the duration clause. */
  function BaseQuery(title: string, artist: string): string {
    "recording:\"" + title + "\" AND artist:\"" + artist + "\""
  }

  /** The bounds of the duration window. */
  function Window(d: int): (int, int) {
    (Max(0, d - DurationSlackMs), d + DurationSlackMs)
  }

  function SearchQuery(title: string, artist: string, durationMs: Option<int>): (q: string)
    ensures IsPrefix(BaseQuery(title, artist), q)
    ensures !Truthy(durationMs) <==> q == BaseQuery(title, artist)
  {
    BaseQuery(title, artist) +
      if Truthy(durationMs) then
        var w := Window(durationMs.value);
        " AND dur:[" + IntToString(w.0) + " TO " + IntToString(w.1) + "]"
      else ""
  }

  /** The window admits exactly the non-negative durations within three
      seconds of the track's, and its bounds print and read back as
      themselves. */
  lemma WindowMeaning(d: int, t: int)
    ensures Window(d).0 <= t <= Window(d).1 <==> t >= 0 && -DurationSlackMs <= t - d <= DurationSlackMs
    ensures ParseInt(IntToString(Window(d).0)) == Some(Window(d).0)
    ensures ParseInt(IntToString(Window(d).1)) == Some(Window(d).1)
  {
    ParseIntToString(Window(d).0);
    ParseIntToString(Window(d).1);
  }

  /** `search_track`: `search(query)` is the recordings list of the search
      response, `detail(endpoint)` the full recording. */
  function SearchTrack(title: string, artist: string, durationMs: Option<int>,
                       search: string -> Option<seq<Recording>>,
                       detail: string -> Option<Recording>): (r: Option<TrackInfo>)
    ensures title == [] || artist == [] ==> r.None?
    ensures r.Some? <==> title != [] && artist != [] &&
                         var hits := search(SearchQuery(title, artist, durationMs));
                         hits.Some? && hits.value != [] && hits.value[0].id != []
    // the detail of the first hit, or the hit itself when the detail fetch fails
    ensures r.Some? ==>
              var hit := search(SearchQuery(title, artist, durationMs)).value[0];
              var full := detail("recording/" + hit.id);
              r.value == ParseRecording(if full.Some? then full.value else hit)
  {
    if title == [] || artist == [] then None
    else match search(SearchQuery(title, artist, durationMs))
      case None => None
      case Some(recordings) =>
        if recordings == [] then None
        else
          var hit := recordings[0];
          if hit.id == [] then None
          else match detail("recording/" + hit.id)
            case None => Some(ParseRecording(hit))
            case Some(full) => Some(ParseRecording(full))
  }
}
