/** Tagging a downloaded track: the metadata record built from the
    track, the order of credit contributors, and the tags written to a
    FLAC or M4A file. Files are left out: each writer returns the tags it
    would set, and the ISO date parse is a parameter. */
module Tagging {
  import opened Common
  import opened Text
  import opened Sorting
  import M3u

  // ---------------------------------------------------------------- credits

  datatype Contributor = Contributor(name: string)

  /** A credits entry: its role (`type`) and the people credited. */
  datatype CreditsEntry = CreditsEntry(role: string, contributors: seq<Contributor>)

  /** The non-space run that ends at the end of `s` (all of `s` when it has
      no whitespace). */
  function TrailingWord(s: string): (r: string)
    ensures |r| <= |s| && r == s[|s| - |r|..]
    ensures forall i :: 0 <= i < |r| ==> !IsSpace(r[i])
    ensures |r| < |s| ==> IsSpace(s[|s| - |r| - 1])
  {
    if s == [] || IsSpace(s[|s| - 1]) then []
    else TrailingWord(s[..|s| - 1]) + [s[|s| - 1]]
  }

  /** `s` without its trailing whitespace. */
  function RStrip(s: string): (r: string)
    ensures |r| <= |s| && r == s[..|r|]
    ensures r == [] || !IsSpace(r[|r| - 1])
    ensures forall j :: |r| <= j < |s| ==> IsSpace(s[j])
  {
    if s != [] && IsSpace(s[|s| - 1]) then RStrip(s[..|s| - 1]) else s
  }

  /** `w` is a whole word of `name` ending at `e`, after which there is
      only whitespace. */
  predicate FinalWord(name: string, w: string, e: nat) {
    |w| <= e <= |name| && name[e - |w|..e] == w
    && (e == |w| || IsSpace(name[e - |w| - 1]))
    && forall j :: e <= j < |name| ==> IsSpace(name[j])
  }

  /** `get_surname`: the last word of `name.split()`, "" when the name is
      blank. */
  function Surname(name: string): (r: string)
    ensures forall i :: 0 <= i < |r| ==> !IsSpace(r[i])
    ensures r == [] <==> forall i :: 0 <= i < |name| ==> IsSpace(name[i])
    ensures FinalWord(name, r, |RStrip(name)|)
  {
    var t := RStrip(name);
    var r := TrailingWord(t);
    assert t == [] || r != [];
    assert name[|t| - |r|..|t|] == r;
    r
  }

  /** Whatever precedes it, a final word is the surname. */
  lemma SurnameOfLastWord(first: string, last: string)
    requires last != [] && forall i :: 0 <= i < |last| ==> !IsSpace(last[i])
    ensures Surname(first + " " + last) == last
  {
    var s := first + " " + last;
    assert s[|s| - |last| - 1] == ' ';
    TrailingWordOf(s, last);
  }

  lemma {:induction false} TrailingWordOf(s: string, w: string)
    requires |w| < |s| && s[|s| - |w|..] == w && IsSpace(s[|s| - |w| - 1])
    requires forall i :: 0 <= i < |w| ==> !IsSpace(w[i])
    ensures TrailingWord(s) == w
  {
    if w != [] {
      assert s[..|s| - 1][|s| - 1 - (|w| - 1)..] == w[..|w| - 1];
      TrailingWordOf(s[..|s| - 1], w[..|w| - 1]);
      assert w == w[..|w| - 1] + [s[|s| - 1]];
    }
  }

  /** The sort key: the surname, lower-cased. */
  function SurnameKey(c: Contributor): string {
    Lower(Surname(c.name))
  }

  predicate BySurname(a: Contributor, b: Contributor) {
    StrLe(SurnameKey(a), SurnameKey(b))
  }

  lemma BySurnameOrder()
    ensures Total(BySurname) && Transitive(BySurname)
  {
    forall a, b
      ensures BySurname(a, b) || BySurname(b, a)
    {
      StrLeTotal(SurnameKey(a), SurnameKey(b));
    }
    forall a, b, c | BySurname(a, b) && BySurname(b, c)
      ensures BySurname(a, c)
    {
      StrLeTrans(SurnameKey(a), SurnameKey(b), SurnameKey(c));
    }
  }

  /** One entry with its contributors sorted. */
  function SortEntry(e: CreditsEntry): (r: CreditsEntry)
    ensures r.role == e.role && multiset(r.contributors) == multiset(e.contributors)
    ensures Sorted(r.contributors, BySurname)
  {
    BySurnameOrder();
    SortBySorted(e.contributors, BySurname);
    CreditsEntry(e.role, SortBy(e.contributors, BySurname))
  }

  /** `sort_credits_contributors`: each entry's contributors stably sorted
      by surname; the entries and their roles stay as they are. */
  function SortCredits(entries: seq<CreditsEntry>): (r: seq<CreditsEntry>)
    ensures |r| == |entries|
    ensures forall i :: 0 <= i < |r| ==> r[i] == SortEntry(entries[i])
  {
    if entries == [] then [] else [SortEntry(entries[0])] + SortCredits(entries[1..])
  }

  /** Contributors sharing a surname keep the order they were credited
      in. */
  lemma SortCreditsStable(entries: seq<CreditsEntry>, i: nat, c: Contributor)
    requires i < |entries|
    ensures Class(SortCredits(entries)[i].contributors, BySurname, c) == Class(entries[i].contributors, BySurname, c)
  {
    BySurnameOrder();
    SortByStable(entries[i].contributors, BySurname, c);
  }

  function ContributorNames(cs: seq<Contributor>): seq<string> {
    seq(|cs|, i requires 0 <= i < |cs| => cs[i].name)
  }

  // ---------------------------------------------------------------- the record

  /** The fields of an API track that tagging reads. */
  datatype Track = Track(title: string, version: Option<string>, trackNumber: int, volumeNumber: int,
                         copyright: Option<string>, artists: seq<string>, albumTitle: string,
                         isrc: string, bpm: Option<int>)

  /** `Metadata`. `bpm` is always a string here ("" when unknown). */
  datatype Metadata = Metadata(title: string, trackNumber: string, discNumber: string,
                               copyright: Option<string>, albumArtist: string, artists: string,
                               albumTitle: string, date: string, isrc: string, bpm: string,
                               key: Option<string>, keyCamelot: Option<string>, genres: seq<string>,
                               mood: Option<string>, lyrics: Option<string>,
                               credits: seq<CreditsEntry>, coverData: Option<seq<bv8>>, comment: string)

  /** The optional arguments of `add_track_metadata`. */
  datatype Extras = Extras(date: string, albumArtist: string, lyrics: string, coverData: Option<seq<bv8>>,
                           credits: Option<seq<CreditsEntry>>, comment: string, key: Option<string>,
                           keyCamelot: Option<string>, genres: Option<seq<string>>, mood: Option<string>)

  predicate Truthy(x: Option<string>) { x.Some? && x.value != [] }

  /** The title with its version in parentheses, when it has one. */
  function FullTitle(t: Track): (r: string)
    ensures IsPrefix(t.title, r)
    ensures !Truthy(t.version) ==> r == t.title
    ensures Truthy(t.version) ==> |r| == |t.title| + |t.version.value| + 3
                                   && r[|t.title|..] == " (" + t.version.value + ")"
  {
    if Truthy(t.version) then t.title + " (" + t.version.value + ")" else t.title
  }

  function StripAll(names: seq<string>): (r: seq<string>)
    ensures |r| == |names| && forall i :: 0 <= i < |names| ==> r[i] == Strip(names[i])
  {
    if names == [] then [] else [Strip(names[0])] + StripAll(names[1..])
  }

  predicate ByText(a: string, b: string) { StrLe(a, b) }

  lemma ByTextOrder()
    ensures Total(ByText) && Transitive(ByText)
  {
    forall a, b
      ensures ByText(a, b) || ByText(b, a)
    {
      StrLeTotal(a, b);
    }
    forall a, b, c | ByText(a, b) && ByText(b, c)
      ensures ByText(a, c)
    {
      StrLeTrans(a, b, c);
    }
  }

  /** The artist names, stripped and in code point order. */
  function ArtistList(names: seq<string>): seq<string> {
    SortBy(StripAll(names), ByText)
  }

  /** The artist list is the stripped names, each once per credit, in
      order; the tag is their ", "-join. */
  lemma ArtistListShape(names: seq<string>)
    ensures multiset(ArtistList(names)) == multiset(StripAll(names))
    ensures Sorted(ArtistList(names), ByText)
    ensures forall i :: 0 <= i < |ArtistList(names)| ==> Trimmed(ArtistList(names)[i])
  {
    ByTextOrder();
    SortBySorted(StripAll(names), ByText);
    forall i | 0 <= i < |ArtistList(names)|
      ensures Trimmed(ArtistList(names)[i])
    {
      assert ArtistList(names)[i] in multiset(StripAll(names));
    }
  }

  /** `str(track.bpm or "")`. */
  function BpmText(bpm: Option<int>): (r: string)
    ensures r == [] <==> bpm.None? || bpm.value == 0
  {
    if bpm.Some? && bpm.value != 0 then IntToString(bpm.value) else ""
  }

  /** The tag reads back as the track's BPM. */
  lemma BpmTextRoundTrip(bpm: Option<int>)
    requires bpm.Some? && bpm.value != 0
    ensures ParseInt(BpmText(bpm)) == bpm
  {
    ParseIntToString(bpm.value);
  }

  /** The `Metadata` built by `add_track_metadata`, with the contributors
      sorted. */
  function BuildMetadata(t: Track, x: Extras): (m: Metadata)
    ensures m.title == FullTitle(t) && m.artists == Join(ArtistList(t.artists), ", ")
    ensures m.trackNumber == IntToString(t.trackNumber) && m.discNumber == IntToString(t.volumeNumber)
    ensures m.bpm == BpmText(t.bpm)
    ensures m.lyrics.None? <==> x.lyrics == []
    ensures m.lyrics.Some? ==> m.lyrics.value == x.lyrics
    ensures m.genres == x.genres.GetOr([])
    ensures m.credits == SortCredits(x.credits.GetOr([]))
    // the remaining fields are copied as they are
    ensures m.copyright == t.copyright && m.albumTitle == t.albumTitle && m.isrc == t.isrc
    ensures m.albumArtist == x.albumArtist && m.date == x.date && m.comment == x.comment
    ensures m.key == x.key && m.keyCamelot == x.keyCamelot && m.mood == x.mood && m.coverData == x.coverData
  {
    Metadata(FullTitle(t), IntToString(t.trackNumber), IntToString(t.volumeNumber), t.copyright,
             x.albumArtist, Join(ArtistList(t.artists), ", "), t.albumTitle, x.date, t.isrc,
             BpmText(t.bpm), x.key, x.keyCamelot, x.genres.GetOr([]), x.mood,
             if x.lyrics == [] then None else Some(x.lyrics),
             SortCredits(x.credits.GetOr([])), x.coverData, x.comment)
  }

  // ---------------------------------------------------------------- FLAC

  type Tags = map<string, seq<string>>

  /** An embedded picture: the data, its MIME type and picture type (3 is
      the front cover). */
  datatype Picture = Picture(data: seq<bv8>, mime: string, pictureType: int)

  datatype FlacFile = FlacFile(tags: Tags, pictures: seq<Picture>)

  /** The last entry whose role upper-cases to `key`, if any. */
  function LastCredit(credits: seq<CreditsEntry>, key: string): (r: Option<nat>)
    ensures r.Some? ==> r.value < |credits| && Upper(credits[r.value].role) == key
                        && forall j :: r.value < j < |credits| ==> Upper(credits[j].role) != key
    ensures r.None? ==> forall j :: 0 <= j < |credits| ==> Upper(credits[j].role) != key
  {
    if credits == [] then None
    else if Upper(credits[|credits| - 1].role) == key then Some(|credits| - 1)
    else LastCredit(credits[..|credits| - 1], key)
  }

  /** One key per credits entry, its role upper-cased, holding the names
      of its contributors; a later entry with the same key replaces an
      earlier one, and every other tag stays. */
  function ApplyCredits(tags: Tags, credits: seq<CreditsEntry>): (r: Tags)
    ensures forall k :: LastCredit(credits, k).Some? ==>
              k in r && r[k] == ContributorNames(credits[LastCredit(credits, k).value].contributors)
    ensures forall k :: LastCredit(credits, k).None? ==> (k in r <==> k in tags) && (k in tags ==> r[k] == tags[k])
  {
    if credits == [] then tags
    else
      var last := credits[|credits| - 1];
      var before := ApplyCredits(tags, credits[..|credits| - 1]);
      assert forall k :: LastCredit(credits, k) == if Upper(last.role) == k then Some(|credits| - 1)
                                                   else LastCredit(credits[..|credits| - 1], k);
      before[Upper(last.role) := ContributorNames(last.contributors)]
  }

  /** `datetime.fromisoformat(date)`: `None` when it raises, else the
      `str` of the parsed date and its year. */
  type IsoDate = string -> Option<(string, int)>

  /** The tags `add_flac_metadata` sets before the credits, given the
      parsed date. */
  function FlacFields(m: Metadata, date: Option<(string, int)>): Tags {
    var base: Tags := map[
      "TITLE" := [m.title], "TRACKNUMBER" := [m.trackNumber], "DISCNUMBER" := [m.discNumber],
      "ALBUM" := [m.albumTitle], "ALBUMARTIST" := [m.albumArtist], "ARTIST" := [m.artists],
      "DATE" := [if date.Some? then date.value.0 else ""],
      "YEAR" := [if date.Some? then IntToString(date.value.1) else ""],
      "COPYRIGHT" := [m.copyright.GetOr("")], "ISRC" := [m.isrc], "COMMENT" := [m.comment]];
    var t1 := if m.bpm != [] then base["BPM" := [m.bpm]] else base;
    var t2 := if Truthy(m.key) then t1["INITIALKEY" := [m.key.value]] else t1;
    var t3 := if Truthy(m.keyCamelot) then t2["KEY" := [m.keyCamelot.value]] else t2;
    var t4 := if m.genres != [] then t3["GENRE" := m.genres] else t3;
    var t5 := if Truthy(m.mood) then t4["MOOD" := [m.mood.value]] else t4;
    if Truthy(m.lyrics) then t5["LYRICS" := [m.lyrics.value]] else t5
  }

  /** `add_flac_metadata`: `None` when the date does not parse; the cover,
      when there is one, is embedded as a JPEG front cover. */
  function FlacTags(m: Metadata, isoDate: IsoDate): (r: Option<FlacFile>)
    ensures r.None? <==> m.date != [] && isoDate(m.date).None?
    ensures r.Some? ==> r.value.pictures == if m.coverData.Some? && m.coverData.value != [] then
                                              [Picture(m.coverData.value, "image/jpeg", 3)] else []
    ensures r.Some? ==> r.value.tags == ApplyCredits(FlacFields(m, if m.date != [] then isoDate(m.date) else None), m.credits)
  {
    var date := if m.date != [] then isoDate(m.date) else None;
    if m.date != [] && date.None? then None
    else
      var pictures := if m.coverData.Some? && m.coverData.value != [] then
                        [Picture(m.coverData.value, "image/jpeg", 3)] else [];
      Some(FlacFile(ApplyCredits(FlacFields(m, date), m.credits), pictures))
  }

  /** What the FLAC writer promises for the optional tags: each is set
      exactly when its value is truthy, and all genres go in. */
  lemma FlacOptionalTags(m: Metadata, date: Option<(string, int)>)
    ensures var t := FlacFields(m, date);
            ("GENRE" in t <==> m.genres != []) && (m.genres != [] ==> t["GENRE"] == m.genres)
            && ("BPM" in t <==> m.bpm != []) && (m.bpm != [] ==> t["BPM"] == [m.bpm])
            && ("LYRICS" in t <==> Truthy(m.lyrics)) && ("MOOD" in t <==> Truthy(m.mood))
            && ("INITIALKEY" in t <==> Truthy(m.key)) && ("KEY" in t <==> Truthy(m.keyCamelot))
  {
    FlacGenreBpm(m, date);
    FlacLyricsMood(m, date);
    FlacKeys(m, date);
  }

  lemma FlacGenreBpm(m: Metadata, date: Option<(string, int)>)
    ensures var t := FlacFields(m, date);
            ("GENRE" in t <==> m.genres != []) && (m.genres != [] ==> t["GENRE"] == m.genres)
            && ("BPM" in t <==> m.bpm != []) && (m.bpm != [] ==> t["BPM"] == [m.bpm])
  {
  }

  lemma FlacLyricsMood(m: Metadata, date: Option<(string, int)>)
    ensures var t := FlacFields(m, date);
            ("LYRICS" in t <==> Truthy(m.lyrics)) && ("MOOD" in t <==> Truthy(m.mood))
  {
  }

  lemma FlacKeys(m: Metadata, date: Option<(string, int)>)
    ensures var t := FlacFields(m, date);
            ("INITIALKEY" in t <==> Truthy(m.key)) && ("KEY" in t <==> Truthy(m.keyCamelot))
  {
  }

  /** The fixed tags are always set, the date written as the parse
      prints it and the year beside it. */
  lemma FlacDateTags(m: Metadata, date: Option<(string, int)>)
    ensures var t := FlacFields(m, date);
            t["DATE"] == [if date.Some? then date.value.0 else ""]
            && t["YEAR"] == [if date.Some? then IntToString(date.value.1) else ""]
  {
    FlacDate(m, date);
    FlacYear(m, date);
  }

  lemma FlacDate(m: Metadata, date: Option<(string, int)>)
    ensures var t := FlacFields(m, date); "DATE" in t && t["DATE"] == [if date.Some? then date.value.0 else ""]
  {
  }

  lemma FlacYear(m: Metadata, date: Option<(string, int)>)
    ensures var t := FlacFields(m, date);
            "YEAR" in t && t["YEAR"] == [if date.Some? then IntToString(date.value.1) else ""]
  {
  }

  /** Every fixed tag is set, each to its metadata field ("" for a
      missing copyright), the date and year as the parse prints them. */
  lemma FlacFixedTags(m: Metadata, date: Option<(string, int)>)
    ensures var t := FlacFields(m, date);
            t["TITLE"] == [m.title] && t["ARTIST"] == [m.artists]
            && t["TRACKNUMBER"] == [m.trackNumber] && t["DISCNUMBER"] == [m.discNumber]
            && t["ALBUM"] == [m.albumTitle] && t["ALBUMARTIST"] == [m.albumArtist]
            && t["COPYRIGHT"] == [m.copyright.GetOr("")] && t["ISRC"] == [m.isrc]
            && t["COMMENT"] == [m.comment]
            && t["DATE"] == [if date.Some? then date.value.0 else ""]
            && t["YEAR"] == [if date.Some? then IntToString(date.value.1) else ""]
  {
    FlacTrackTags(m, date);
    FlacNumbers(m, date);
    FlacAlbum(m, date);
    FlacRights(m, date);
    FlacDateTags(m, date);
  }

  lemma FlacNumbers(m: Metadata, date: Option<(string, int)>)
    ensures var t := FlacFields(m, date);
            "TRACKNUMBER" in t && t["TRACKNUMBER"] == [m.trackNumber]
            && "DISCNUMBER" in t && t["DISCNUMBER"] == [m.discNumber]
  {
  }

  lemma FlacAlbum(m: Metadata, date: Option<(string, int)>)
    ensures var t := FlacFields(m, date);
            "ALBUM" in t && t["ALBUM"] == [m.albumTitle] && "ALBUMARTIST" in t && t["ALBUMARTIST"] == [m.albumArtist]
  {
  }

  lemma FlacRights(m: Metadata, date: Option<(string, int)>)
    ensures var t := FlacFields(m, date);
            "COPYRIGHT" in t && t["COPYRIGHT"] == [m.copyright.GetOr("")]
            && "ISRC" in t && t["ISRC"] == [m.isrc] && "COMMENT" in t && t["COMMENT"] == [m.comment]
  {
  }

  lemma FlacTrackTags(m: Metadata, date: Option<(string, int)>)
    ensures var t := FlacFields(m, date);
            t["TITLE"] == [m.title] && t["ARTIST"] == [m.artists]
  {
    FlacTitle(m, date);
    FlacArtist(m, date);
  }

  lemma FlacTitle(m: Metadata, date: Option<(string, int)>)
    ensures var t := FlacFields(m, date); "TITLE" in t && t["TITLE"] == [m.title]
  {
  }

  lemma FlacArtist(m: Metadata, date: Option<(string, int)>)
    ensures var t := FlacFields(m, date); "ARTIST" in t && t["ARTIST"] == [m.artists]
  {
  }

  // ---------------------------------------------------------------- M4A

  /** The three passes of `add_m4a_metadata` over one file: MP4 atoms
      (cover, lyrics), the EasyMP4 keys, and the freeform atoms. */
  datatype M4aFile = M4aFile(cover: Option<seq<bv8>>, atoms: Tags)

  const LyricsAtom: string := "©lyr"
  const FreeformKey: string := "----:com.apple.iTunes:INITIALKEY"
  const FreeformCamelot: string := "----:com.apple.iTunes:KEY"
  const FreeformMood: string := "----:com.apple.iTunes:MOOD"

  /** `add_m4a_metadata`. The date is written as given. */
  function M4aTags(m: Metadata): (r: M4aFile)
    ensures r.cover.Some? <==> m.coverData.Some? && m.coverData.value != []
  {
    var a0: Tags := if Truthy(m.lyrics) then map[LyricsAtom := [m.lyrics.value]] else map[];
    var easy: Tags := map[
      "title" := [m.title], "tracknumber" := [m.trackNumber], "discnumber" := [m.discNumber],
      "album" := [m.albumTitle], "albumartist" := [m.albumArtist], "artist" := [m.artists],
      "date" := [m.date], "copyright" := [m.copyright.GetOr("")], "comment" := [m.comment]];
    var a1 := a0 + easy;
    var a2 := if m.bpm != [] then a1["bpm" := [m.bpm]] else a1;
    var a3 := if m.genres != [] then a2["genre" := [m.genres[0]]] else a2;
    var a4 := if Truthy(m.key) then a3[FreeformKey := [m.key.value]] else a3;
    var a5 := if Truthy(m.keyCamelot) then a4[FreeformCamelot := [m.keyCamelot.value]] else a4;
    var a6 := if Truthy(m.mood) then a5[FreeformMood := [m.mood.value]] else a5;
    M4aFile(if m.coverData.Some? && m.coverData.value != [] then m.coverData else None, a6)
  }

  /** Of the genres only the first is written; BPM is set exactly when
      known. */
  lemma M4aGenreBpm(m: Metadata)
    ensures var t := M4aTags(m).atoms;
            ("genre" in t <==> m.genres != []) && (m.genres != [] ==> t["genre"] == [m.genres[0]])
            && ("bpm" in t <==> m.bpm != []) && (m.bpm != [] ==> t["bpm"] == [m.bpm])
  {
    M4aGenre(m);
    M4aBpm(m);
  }

  lemma M4aGenre(m: Metadata)
    ensures var t := M4aTags(m).atoms;
            ("genre" in t <==> m.genres != []) && (m.genres != [] ==> t["genre"] == [m.genres[0]])
  {
  }

  lemma M4aBpm(m: Metadata)
    ensures var t := M4aTags(m).atoms;
            ("bpm" in t <==> m.bpm != []) && (m.bpm != [] ==> t["bpm"] == [m.bpm])
  {
  }

  /** Lyrics, key and mood are set exactly when truthy. */
  lemma M4aOptionalTags(m: Metadata)
    ensures var t := M4aTags(m).atoms;
            (LyricsAtom in t <==> Truthy(m.lyrics)) && (Truthy(m.lyrics) ==> t[LyricsAtom] == [m.lyrics.value])
            && (FreeformKey in t <==> Truthy(m.key)) && (FreeformMood in t <==> Truthy(m.mood))
  {
    M4aLyrics(m);
    M4aKeyMood(m);
  }

  lemma M4aLyrics(m: Metadata)
    ensures var t := M4aTags(m).atoms;
            (LyricsAtom in t <==> Truthy(m.lyrics)) && (Truthy(m.lyrics) ==> t[LyricsAtom] == [m.lyrics.value])
  {
  }

  lemma M4aKeyMood(m: Metadata)
    ensures var t := M4aTags(m).atoms;
            (FreeformKey in t <==> Truthy(m.key)) && (FreeformMood in t <==> Truthy(m.mood))
  {
  }

  /** The fixed keys, and no others beyond the known set: credits are not
      written to M4A files. */
  lemma M4aFixedTags(m: Metadata)
    ensures var t := M4aTags(m).atoms;
            t["title"] == [m.title] && t["date"] == [m.date] && t["artist"] == [m.artists]
            && forall k :: k in t ==> k in M4aKeys
  {
  }

  /** Every key an M4A file can receive. */
  const M4aKeys: set<string> := {
    LyricsAtom, "title", "tracknumber", "discnumber", "album", "albumartist", "artist", "date",
    "copyright", "comment", "bpm", "genre", FreeformKey, FreeformCamelot, FreeformMood}

  // ---------------------------------------------------------------- dispatch

  datatype Format = FlacFormat | M4aFormat | UnsupportedFormat(ext: string)

  /** The writer for a file name: by its lower-cased suffix. */
  function FormatOf(name: string): (r: Format)
    ensures r.FlacFormat? <==> Lower(M3u.Suffix(name)) == ".flac"
    ensures r.M4aFormat? <==> Lower(M3u.Suffix(name)) == ".m4a"
    ensures r.UnsupportedFormat? ==> r.ext == Lower(M3u.Suffix(name))
  {
    var ext := Lower(M3u.Suffix(name));
    if ext == ".flac" then FlacFormat else if ext == ".m4a" then M4aFormat else UnsupportedFormat(ext)
  }

  /** The extension test ignores case: "Song.FLAC" is a FLAC file. */
  lemma ExtensionCaseInsensitive(stem: string, ext: string)
    requires '.' !in ext && Lower(ext) == "flac"
    requires stem != []
    ensures FormatOf(stem + "." + ext) == FlacFormat
  {
    SuffixAfterStem(stem, ext);
    LowerDot(ext);
    assert Lower(M3u.Suffix(stem + "." + ext)) == ".flac";
  }

  /** The suffix of `stem.ext` is `.ext` when `ext` holds no dot. */
  lemma SuffixAfterStem(stem: string, ext: string)
    requires '.' !in ext && stem != [] && ext != []
    ensures M3u.Suffix(stem + "." + ext) == "." + ext
  {
    var name := stem + "." + ext;
    var i := |stem|;
    assert name[i] == '.';
    assert forall j :: i < j < |name| ==> name[j] == ext[j - i - 1];
    RFindAt(name, i);
    assert name[i..] == "." + ext;
  }

  lemma LowerDot(ext: string)
    ensures Lower("." + ext) == "." + Lower(ext)
  {
    assert ("." + ext)[1..] == ext;
  }

  lemma RFindAt(s: string, i: nat)
    requires i < |s| && s[i] == '.' && forall j :: i < j < |s| ==> s[j] != '.'
    ensures M3u.RFind(s, '.') == Some(i)
  {
  }

  datatype Written = Flac(flac: FlacFile) | M4a(m4a: M4aFile)
                   | DateError | UnsupportedExtension(message: string)

  /** `add_track_metadata` on a file named `name`. */
  function AddTrackMetadata(name: string, t: Track, x: Extras, isoDate: IsoDate): (r: Written)
    ensures FormatOf(name).FlacFormat? ==> r == match FlacTags(BuildMetadata(t, x), isoDate)
                                                 case None => DateError
                                                 case Some(f) => Flac(f)
    ensures FormatOf(name).M4aFormat? ==> r == M4a(M4aTags(BuildMetadata(t, x)))
    ensures r.UnsupportedExtension? <==> FormatOf(name).UnsupportedFormat?
    ensures r.UnsupportedExtension? ==> r.message == "Unsupported file extension: " + FormatOf(name).ext
  {
    var m := BuildMetadata(t, x);
    match FormatOf(name)
      case FlacFormat =>
        (match FlacTags(m, isoDate)
           case None => DateError
           case Some(f) => Flac(f))
      case M4aFormat => M4a(M4aTags(m))
      case UnsupportedFormat(ext) => UnsupportedExtension("Unsupported file extension: " + ext)
  }
}
