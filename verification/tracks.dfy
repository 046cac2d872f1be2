/** Track matching between a Spotify track and Tidal tracks: name
    simplification, the three fuzzy predicates (duration, name, artist),
    matching against the tracks already in a playlist, and the search
    fallback over the Tidal search results. */
module Tracks {
  import opened Common
  import opened Text

  /** A Spotify track as the migration reads it. An absent ISRC or album
      name is "", an absent track number 0. */
  datatype SpotifyTrack = SpotifyTrack(
    id: string,
    name: string,
    artists: seq<string>,
    durationMs: int,
    isrc: string,
    album: string,
    trackNumber: int)

  /** A Tidal track: a search hit or a track already in a playlist.
      Missing attributes take the source's defaults ("", [], 0). */
  datatype TidalTrack = TidalTrack(
    id: string,
    title: string,
    artists: seq<string>,
    durationSec: int,
    isrc: string)

  /** What the Tidal search call gives back. */
  datatype SearchResponse =
    | SearchRaised            // the call raised
    | NoTrackList             // the response has no `tracks.items`
    | Hits(items: seq<TidalTrack>)

  const DefaultToleranceSec: int := 2
  const SearchWindow: nat := 10

  /** Keep a track or artist name up to the first '-', '(' and '[',
      trimmed and lower-cased: the result has none of those three
      characters, no upper-case letter and no surrounding whitespace. */
  function SimplifyName(name: string): (r: string)
    ensures '-' !in r && '(' !in r && '[' !in r && NoUpper(r) && Trimmed(r)
  {
    var a := Strip(Head(name, "-"));
    var b := Strip(Head(a, "("));
    var c := Strip(Head(b, "["));
    HeadChar(name, '-');
    StripSub(Head(name, "-"), '-');
    HeadChar(a, '(');
    HeadChar(a, '-');
    StripSub(Head(a, "("), '-');
    StripSub(Head(a, "("), '(');
    HeadChar(b, '[');
    HeadChar(b, '(');
    HeadChar(b, '-');
    StripSub(Head(b, "["), '-');
    StripSub(Head(b, "["), '(');
    StripSub(Head(b, "["), '[');
    LowerKeeps(c);
    LowerNoUpper(c);
    Lower(c)
  }

  /** Lower-casing keeps a trimmed text trimmed and keeps the punctuation
      that simplification removes out of it. */
  lemma LowerKeeps(s: string)
    requires Trimmed(s) && '-' !in s && '(' !in s && '[' !in s
    ensures Trimmed(Lower(s))
    ensures '-' !in Lower(s) && '(' !in Lower(s) && '[' !in Lower(s)
  {
    var l := Lower(s);
    LowerAt(s);
    forall i | 0 <= i < |l|
      ensures l[i] != '-' && l[i] != '(' && l[i] != '['
    {
      assert s[i] in s;
    }
  }

  /** Simplifying a simplified name changes nothing. */
  lemma SimplifyNameIdempotent(name: string)
    ensures SimplifyName(SimplifyName(name)) == SimplifyName(name)
  {
    var s := SimplifyName(name);
    HeadChar(s, '-');
    StripTrimmed(s);
    HeadChar(s, '(');
    HeadChar(s, '[');
    LowerOfNoUpper(s);
  }

  /** `abs(tidal - spotify_ms / 1000) <= tolerance`, over the reals. */
  function DurationMatch(tidalSec: int, spotifyMs: int, toleranceSec: int): bool {
    var diff := tidalSec as real - spotifyMs as real / 1000.0;
    (if diff < 0.0 then -diff else diff) <= toleranceSec as real
  }

  /** The duration test is an integer comparison in milliseconds. */
  lemma DurationMatchMillis(tidalSec: int, spotifyMs: int, toleranceSec: int)
    ensures DurationMatch(tidalSec, spotifyMs, toleranceSec)
        <==> -toleranceSec * 1000 <= tidalSec * 1000 - spotifyMs <= toleranceSec * 1000
  {
    var diff := tidalSec as real - spotifyMs as real / 1000.0;
    assert diff * 1000.0 == (tidalSec * 1000 - spotifyMs) as real;
  }

  /** One simplified name contains the other; so names that simplify
      alike match, and a name that simplifies to "" matches every name. */
  function NameMatch(tidalName: string, spotifyName: string): (r: bool)
    ensures SimplifyName(tidalName) == SimplifyName(spotifyName) ==> r
    ensures SimplifyName(tidalName) == [] || SimplifyName(spotifyName) == [] ==> r
  {
    var t := SimplifyName(tidalName);
    var s := SimplifyName(spotifyName);
    ContainsSelf(t);
    ContainsEmpty(t);
    ContainsEmpty(s);
    Contains(t, s) || Contains(s, t)
  }

  lemma NameMatchSymmetric(a: string, b: string)
    ensures NameMatch(a, b) == NameMatch(b, a)
  {
  }

  lemma NameMatchReflexive(a: string)
    ensures NameMatch(a, a)
  {
    ContainsSelf(SimplifyName(a));
  }

  /** The parts of one artist string: "&", " x " and " X " act like ",". */
  function ArtistParts(name: string): (r: seq<string>)
    ensures |r| >= 1
  {
    Split(Replace(Replace(Replace(name, "&", ","), " x ", ","), " X ", ","), ",")
  }

  /** The simplified names of the parts of one artist string. */
  function PartNames(name: string): set<string> {
    set p | p in ArtistParts(name) :: SimplifyName(Strip(p))
  }

  /** The set of simplified artist names of a track. */
  function ArtistNames(artists: seq<string>): set<string> {
    if artists == [] then {} else PartNames(artists[0]) + ArtistNames(artists[1..])
  }

  /** The two tracks share at least one simplified artist name. */
  function ArtistMatch(tidalArtists: seq<string>, spotifyArtists: seq<string>): (r: bool)
    ensures tidalArtists == [] || spotifyArtists == [] ==> !r
  {
    ArtistNames(tidalArtists) * ArtistNames(spotifyArtists) != {}
  }

  lemma {:induction false} ArtistNamesContain(artists: seq<string>, name: string)
    requires name in artists
    ensures PartNames(name) <= ArtistNames(artists)
  {
    if artists[0] != name {
      ArtistNamesContain(artists[1..], name);
    }
  }

  /** Artists matching is symmetric. */
  lemma ArtistMatchSymmetric(a: seq<string>, b: seq<string>)
    ensures ArtistMatch(a, b) == ArtistMatch(b, a)
  {
    assert ArtistNames(a) * ArtistNames(b) == ArtistNames(b) * ArtistNames(a);
  }

  /** Two tracks credited with the same artist string match on artists. */
  lemma ArtistMatchShared(a: seq<string>, b: seq<string>, name: string)
    requires name in a && name in b
    ensures ArtistMatch(a, b)
  {
    ArtistNamesContain(a, name);
    ArtistNamesContain(b, name);
    var p := ArtistParts(name)[0];
    var n := SimplifyName(Strip(p));
    assert n in PartNames(name);
    assert n in ArtistNames(a) * ArtistNames(b);
  }

  /** All three fuzzy predicates hold. */
  predicate Matches(t: TidalTrack, s: SpotifyTrack, toleranceSec: int) {
    DurationMatch(t.durationSec, s.durationMs, toleranceSec)
    && NameMatch(t.title, s.name)
    && ArtistMatch(t.artists, s.artists)
  }

  /** A candidate is accepted by ISRC (only when `byIsrc` and the Spotify
      track has one) or by the three fuzzy predicates with the default
      tolerance. */
  predicate Accepted(t: TidalTrack, s: SpotifyTrack, byIsrc: bool) {
    (byIsrc && s.isrc != "" && t.isrc == s.isrc) || Matches(t, s, DefaultToleranceSec)
  }

  /** The acceptance test as a function value. */
  function AcceptedBy(s: SpotifyTrack, byIsrc: bool): TidalTrack -> bool {
    t => Accepted(t, s, byIsrc)
  }

  /** The id of the first playlist track that matches the Spotify track
      within 2 seconds, by name and by artist. */
  function MatchExisting(s: SpotifyTrack, existing: seq<TidalTrack>): (r: Option<string>)
    ensures existing == [] ==> r == None
    ensures r.None? <==> forall i :: 0 <= i < |existing| ==> !Matches(existing[i], s, DefaultToleranceSec)
    ensures r.Some? ==> exists i :: FirstMatching(existing, s, i) && r.value == existing[i].id
  {
    if existing == [] then None
    else
      var f := FirstMatchIndex(s, existing);
      if f.None? then None else Some(existing[f.value].id)
  }

  /** Track `i` is the first of `ts` that matches the Spotify track. */
  predicate FirstMatching(ts: seq<TidalTrack>, s: SpotifyTrack, i: int) {
    0 <= i < |ts| && Matches(ts[i], s, DefaultToleranceSec)
    && forall j :: 0 <= j < i ==> !Matches(ts[j], s, DefaultToleranceSec)
  }

  /** The position of the first track that matches, if any. */
  function FirstMatchIndex(s: SpotifyTrack, ts: seq<TidalTrack>): (f: Option<nat>)
    ensures f.None? <==> forall i :: 0 <= i < |ts| ==> !Matches(ts[i], s, DefaultToleranceSec)
    ensures f.Some? ==> FirstMatching(ts, s, f.value)
  {
    assert forall i :: 0 <= i < |ts| ==> AcceptedBy(s, false)(ts[i]) == Matches(ts[i], s, DefaultToleranceSec);
    FirstIn(ts, AcceptedBy(s, false), 0, |ts|)
  }

  /** The search query: simplified name, a space, simplified first artist. */
  function Query(s: SpotifyTrack): string
    requires |s.artists| > 0
  {
    SimplifyName(s.name) + " " + SimplifyName(s.artists[0])
  }

  /** The id of the first of the top ten hits accepted by ISRC or by the
      fuzzy predicates. */
  function PickHit(items: seq<TidalTrack>, s: SpotifyTrack): (r: Option<string>)
    ensures r.Some? ==>
              exists i :: 0 <= i < |items| && i < SearchWindow && r.value == items[i].id
                && Accepted(items[i], s, true)
                && forall j :: 0 <= j < i ==> !Accepted(items[j], s, true)
    ensures r.None? <==> forall j :: 0 <= j < |items| && j < SearchWindow ==> !Accepted(items[j], s, true)
  {
    match FirstIn(items, AcceptedBy(s, true), 0, Min(|items|, SearchWindow))
    case None => None
    case Some(i) => Some(items[i].id)
  }

  /** Search Tidal for the Spotify track: nothing without a name or an
      artist, nothing when the search raises or has no track list,
      otherwise the pick among the hits. */
  function SearchTidalTrack(s: SpotifyTrack, search: string -> SearchResponse): (r: Option<string>)
    ensures (s.name == [] || s.artists == []) ==> r == None
    ensures r.Some? ==> s.name != [] && s.artists != [] && search(Query(s)).Hits?
    ensures s.name != [] && s.artists != [] && search(Query(s)).Hits? ==> r == PickHit(search(Query(s)).items, s)
    ensures s.name != [] && s.artists != [] && !search(Query(s)).Hits? ==> r == None
  {
    if s.name == [] || s.artists == [] then None
    else
      match search(Query(s))
      case Hits(items) => PickHit(items, s)
      case _ => None
  }
}
