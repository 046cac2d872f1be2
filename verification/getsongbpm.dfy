/** The GetSongBPM client: the key guard, the song search with its
    best-match choice, and the parse of a song into tempo, key and artist
    genres. HTTP requests are oracles keyed by the query or endpoint. */
module GetSongBpm {
  import opened Common
  import opened Text

  /** A JSON value where the source expects a number: `null`, a string,
      a number (held as its truncation toward zero; a magnitude of at
      least `FloatLimit` stands for one `float()` cannot hold), a boolean,
      or anything else (an array or object). */
  datatype Value = Null | Str(s: string) | Number(trunc: int) | Bool(b: bool) | OtherValue

  /** An entry of the artist's "genres" list. */
  datatype GenreItem = GenreObject(name: string) | GenreText(text: string) | GenreOther

  /** The artist's "genres" field: a list, or something else. */
  datatype ArtistGenres = GenreList(items: seq<GenreItem>) | NotAList

  /** A song (or search hit) as the API returns it. `album` is the title
      of the album object ("" when it has none), `None` when the field is
      not an object. */
  datatype Song = Song(id: string, title: string, artistName: string, tempo: Value,
                       keyOf: string, openKey: string, timeSig: string,
                       album: Option<string>, genres: ArtistGenres)

  /** An entry of the search list: the empty object `{}`, which Python
      treats as false, or an object with at least one field. */
  datatype Hit = EmptyObject | Object(song: Song)

  /** `GetSongBPMTrackInfo`. */
  datatype BpmInfo = BpmInfo(songId: string, title: string, artist: string, bpm: Option<int>,
                             key: string, keyCamelot: string, timeSignature: string,
                             album: string, genres: seq<string>)

  datatype Client = Client(apiKey: string)

  // ---------------------------------------------------------------- construction

  /** The constructor: an empty key is a `ValueError` (`None` here). */
  function NewClient(apiKey: string): (r: Option<Client>)
    ensures r.None? <==> apiKey == []
    ensures r.Some? ==> r.value.apiKey == apiKey
  {
    if apiKey == [] then None else Some(Client(apiKey))
  }

  /** `create_client`: no client without a stored key, and so never the
      constructor's error. */
  function CreateClient(storedKey: string): (r: Option<Client>)
    ensures r.Some? <==> storedKey != []
    ensures r.Some? ==> NewClient(storedKey) == r
  {
    if storedKey == [] then None else NewClient(storedKey)
  }

  // ---------------------------------------------------------------- numbers

  /** What Python's `float(s)` makes of a string: a finite value (held as
      its truncation toward zero), an infinity, a NaN, or a `ValueError`.
      Exponent forms are not modelled and read as `Invalid`. */
  datatype FloatText = Finite(trunc: int) | Infinite | NotANumber | Invalid

  /** The least magnitude a double cannot hold, (2^54 - 1) * 2^970: it is
      halfway between the largest double and 2^1024, and the tie rounds to
      the even 2^1024. `float()` of a decimal this large is an infinity,
      and `float()` of an integer this large raises `OverflowError`. */
  const FloatLimit: int := 0xFFFF_FFFF_FFFF_FC00_0000_0000_0000_0000_0000_0000_0000_0000_0000_0000_0000_0000_0000_0000_0000_0000_0000_0000_0000_0000_0000_0000_0000_0000_0000_0000_0000_0000_0000_0000_0000_0000_0000_0000_0000_0000_0000_0000_0000_0000_0000_0000_0000_0000_0000_0000_0000_0000_0000_0000_0000_0000_0000_0000_0000_0000_0000_0000_0000_0000

  predicate Overflows(n: int) { n >= FloatLimit || n <= -FloatLimit }

  /** Digits with single underscores between them, or nothing. */
  predicate DigitsOrEmpty(s: string) { s == [] || IntBody(s) }

  function DigitsOf(s: string): nat
    requires DigitsOrEmpty(s)
  {
    if s == [] then 0 else DigitsValue(DropUnderscores(s))
  }

  /** An unsigned decimal: `whole[.frac]` or `.frac`, with at least one
      digit; its value truncated toward zero is the whole part. */
  function ParseDecimal(t: string): (r: Option<nat>)
    ensures r.Some? && '.' !in t ==> IntBody(t)
  {
    if '.' in t then
      var k := FirstDot(t, 0);
      var whole := t[..k];
      var frac := t[k + 1..];
      if DigitsOrEmpty(whole) && DigitsOrEmpty(frac) && (whole != [] || frac != [])
      then Some(DigitsOf(whole))
      else None
    else if IntBody(t) then Some(DigitsOf(t))
    else None
  }

  function FirstDot(t: string, k: nat): (r: nat)
    requires k <= |t| && '.' in t[k..]
    ensures k <= r < |t| && t[r] == '.' && '.' !in t[k..r]
    decreases |t| - k
  {
    if t[k] == '.' then k else FirstDot(t, k + 1)
  }

  function ParseFloat(s: string): (r: FloatText) {
    FloatOfStripped(Strip(s))
  }

  /** `float()` after stripping: an optional sign, then the number. */
  function FloatOfStripped(t: string): FloatText {
    var neg := |t| > 0 && t[0] == '-';
    FloatOfUnsigned(neg, if |t| > 0 && (t[0] == '-' || t[0] == '+') then t[1..] else t)
  }

  /** The unsigned part: an infinity or NaN word in any case, else a
      decimal, negated after a minus. */
  function FloatOfUnsigned(neg: bool, body: string): FloatText {
    var word := Lower(body);
    if word == "inf" || word == "infinity" then Infinite
    else if word == "nan" then NotANumber
    else match ParseDecimal(body)
      case None => Invalid
      case Some(v) => if v >= FloatLimit then Infinite else var n: int := v; Finite(if neg then -n else n)
  }

  /** A value `int(float(x))` turns into an `OverflowError`: a string
      `float()` reads as an infinity, or a number too large for a double. */
  predicate Overflowing(v: Value) {
    (v.Str? && ParseFloat(v.s).Infinite?) || (v.Number? && Overflows(v.trunc))
  }

  /** A value `int(float(x))` turns into an integer. */
  predicate FiniteNumber(v: Value) {
    (v.Str? && ParseFloat(v.s).Finite?) || (v.Number? && !Overflows(v.trunc)) || v.Bool?
  }

  /** The outcome of a step that may raise the `OverflowError` of
      `int(float(x))`, which the handler (`ValueError`, `TypeError`) of
      `_parse_int` does not catch. */
  datatype Parse<T> = Parsed(value: T) | OverflowRaised

  /** `_parse_int` as written. */
  function ParseIntAsWritten(v: Value): (r: Parse<Option<int>>)
    ensures r.OverflowRaised? <==> Overflowing(v)
    ensures r.Parsed? ==> (r.value.Some? <==> FiniteNumber(v))
  {
    match v
      case Null => Parsed(None)
      case Str(s) =>
        (match ParseFloat(s)
          case Finite(n) => Parsed(Some(n))
          case Infinite => OverflowRaised
          case NotANumber => Parsed(None)
          case Invalid => Parsed(None))
      case Number(n) => if Overflows(n) then OverflowRaised else Parsed(Some(n))
      case Bool(b) => Parsed(Some(if b then 1 else 0))
      case OtherValue => Parsed(None)
  }

  /** `_parse_int` as its docstring and handler intend: `None` for
      anything that is not a finite number, infinities included. */
  function ParseIntValue(v: Value): (r: Option<int>)
    ensures r.Some? <==> FiniteNumber(v)
    ensures v.Number? && r.Some? ==> r.value == v.trunc
    ensures v.Bool? ==> r == Some(if v.b then 1 else 0)
  {
    match v
      case Null => None
      case Str(s) => (match ParseFloat(s) case Finite(n) => Some(n) case _ => None)
      case Number(n) => if Overflows(n) then None else Some(n)
      case Bool(b) => Some(if b then 1 else 0)
      case OtherValue => None
  }

  /** The corrected parse agrees with the written one wherever that one
      returns, and is `None` where it raises. */
  lemma ParseIntCorrected(v: Value)
    ensures ParseIntAsWritten(v).Parsed? ==> ParseIntValue(v) == ParseIntAsWritten(v).value
    ensures ParseIntAsWritten(v).OverflowRaised? ==> ParseIntValue(v).None?
  {
  }

  /** A decimal string too large for a double raises as written, like
      "inf", and is `None` when corrected. */
  lemma HugeDecimalRaises(n: nat)
    requires n >= FloatLimit
    ensures ParseIntAsWritten(Str(IntToString(n))) == OverflowRaised
    ensures ParseIntValue(Str(IntToString(n))) == None
  {
    var body := NatToString(n);
    assert IntToString(n) == body;
    PrintedDecimal(n);
    HugeBodyInfinite(body, n);
    InfiniteRaises(body);
  }

  /** A decimal beyond the float range reads as an infinity. */
  lemma HugeBodyInfinite(body: string, v: nat)
    requires body != [] && IsDigit(body[0]) && IsDigit(body[|body| - 1])
    requires ParseDecimal(body) == Some(v) && v >= FloatLimit
    ensures ParseFloat(body) == Infinite
  {
    HugeUnsigned(body, v);
    SignedDecimal(false, body);
    assert "" + body == body;
  }

  /** `str(n)` is a decimal of value `n` that starts and ends with a digit. */
  lemma PrintedDecimal(n: nat)
    ensures var b := NatToString(n);
            ParseDecimal(b) == Some(n) && b != [] && IsDigit(b[0]) && IsDigit(b[|b| - 1])
  {
    var b := NatToString(n);
    DigitsOfPrinted(n);
    DecimalWhole(b);
    assert b + "" == b;
  }

  lemma HugeUnsigned(body: string, v: nat)
    requires body != [] && IsDigit(body[0]) && ParseDecimal(body) == Some(v) && v >= FloatLimit
    ensures FloatOfUnsigned(false, body) == Infinite
  {
    WordNotSpecial(body);
  }

  /** A string `float()` reads as an infinity raises as written and is
      `None` when corrected. */
  lemma InfiniteRaises(s: string)
    requires ParseFloat(s) == Infinite
    ensures ParseIntAsWritten(Str(s)) == OverflowRaised
    ensures ParseIntValue(Str(s)) == None
  {
  }

  /** A tempo of "inf" makes the written parse raise. */
  lemma InfinityRaises()
    ensures ParseIntAsWritten(Str("inf")) == OverflowRaised
    ensures ParseIntValue(Str("inf")) == None
  {
    assert Strip("inf") == "inf" by { StripTrimmed("inf"); }
    LowerOfNoUpper("inf");
  }

  /** `str(i)`, followed by `.frac` when a fraction is given. */
  function Printed(i: int, frac: string): string {
    IntToString(i) + (if frac == [] then "" else "." + frac)
  }

  /** A printed integer, alone or followed by a fraction, parses back to
      that integer: the fraction is truncated toward zero. The bounds keep
      to the values where the nearest double truncates the same way: an
      integer up to 2^53 is a double, and below 2^49 a fraction under .9
      cannot round up to the next integer. */
  lemma {:induction false} ParseIntPrinted(i: int, frac: string)
    requires (frac == [] && -0x20_0000_0000_0000 <= i <= 0x20_0000_0000_0000)
             || (IntBody(frac) && frac[0] != '9' && -0x2_0000_0000_0000 < i < 0x2_0000_0000_0000)
    ensures ParseIntValue(Str(Printed(i, frac))) == Some(i)
  {
    var n: nat := if i < 0 then -i else i;
    var body := NatToString(n) + (if frac == [] then "" else "." + frac);
    PrintedSplit(i, frac);
    DecimalPrinted(n, frac);
    FloatOfDecimal(i < 0, body, n);
    assert ParseFloat(Printed(i, frac)) == Finite(i);
  }

  /** `str(i)` with its fraction is the sign, then a decimal that starts
      and ends with a digit. */
  lemma PrintedSplit(i: int, frac: string)
    requires frac == [] || IntBody(frac)
    ensures var n: nat := if i < 0 then -i else i;
            var body := NatToString(n) + (if frac == [] then "" else "." + frac);
            Printed(i, frac) == (if i < 0 then "-" else "") + body
            && body != [] && IsDigit(body[0]) && IsDigit(body[|body| - 1])
  {
    var n: nat := if i < 0 then -i else i;
    var d := NatToString(n);
    var body := d + (if frac == [] then "" else "." + frac);
    assert body[0] == d[0];
    if frac == [] {
      assert body[|body| - 1] == d[|d| - 1];
    } else {
      assert body[|body| - 1] == frac[|frac| - 1];
    }
  }

  /** A printed natural number, with or without a fraction, is a decimal
      whose whole part is that number. */
  lemma DecimalPrinted(n: nat, frac: string)
    requires frac == [] || IntBody(frac)
    ensures ParseDecimal(NatToString(n) + (if frac == [] then "" else "." + frac)) == Some(n)
  {
    var d := NatToString(n);
    DigitsOfPrinted(n);
    if frac == [] {
      DecimalWhole(d);
    } else {
      DecimalWithFraction(d, frac);
    }
  }

  /** The digits of `str(n)` are a digit run free of '.' whose value is
      `n`. */
  lemma DigitsOfPrinted(n: nat)
    ensures IntBody(NatToString(n)) && '.' !in NatToString(n) && DigitsOf(NatToString(n)) == n
  {
    var d := NatToString(n);
    AllDigitsDropUnderscores(d);
    DigitsValueNatToString(n);
  }

  /** A digit run without a dot is a decimal of that value. */
  lemma DecimalWhole(whole: string)
    requires IntBody(whole) && '.' !in whole
    ensures ParseDecimal(whole + "") == Some(DigitsOf(whole))
  {
    assert whole + "" == whole;
  }

  /** `whole.frac` with a dot-free whole part splits at its dot. */
  lemma DecimalWithFraction(whole: string, frac: string)
    requires IntBody(whole) && '.' !in whole && IntBody(frac)
    ensures ParseDecimal(whole + ("." + frac)) == Some(DigitsOf(whole))
  {
    var body := whole + ("." + frac);
    assert body[..|whole|] == whole && body[|whole|] == '.';
    assert body[0..|whole|] == whole;
    var k := FirstDot(body, 0);
    assert k == |whole|;
    assert body[..k] == whole && body[k + 1..] == frac;
  }

  /** An optional minus sign before a decimal that starts and ends with a
      digit: `float()` reads the decimal and applies the sign. */
  lemma FloatOfDecimal(neg: bool, body: string, v: nat)
    requires body != [] && IsDigit(body[0]) && IsDigit(body[|body| - 1])
    requires ParseDecimal(body) == Some(v) && v < FloatLimit
    ensures ParseFloat((if neg then "-" else "") + body) == Finite(if neg then -(v as int) else v)
  {
    SignedDecimal(neg, body);
    UnsignedDecimal(neg, body, v);
  }

  lemma UnsignedDecimal(neg: bool, body: string, v: nat)
    requires body != [] && IsDigit(body[0]) && ParseDecimal(body) == Some(v) && v < FloatLimit
    ensures FloatOfUnsigned(neg, body) == Finite(if neg then -(v as int) else v)
  {
    WordNotSpecial(body);
  }

  /** An optional minus before a digit: stripping changes nothing, and
      the sign and the unsigned part come apart as `float()` reads them. */
  lemma SignedDecimal(neg: bool, body: string)
    requires body != [] && IsDigit(body[0]) && IsDigit(body[|body| - 1])
    ensures ParseFloat((if neg then "-" else "") + body) == FloatOfUnsigned(neg, body)
  {
    var s := (if neg then "-" else "") + body;
    assert Trimmed(s);
    StripTrimmed(s);
    if neg {
      assert s[1..] == body;
    } else {
      assert s == body;
    }
  }

  /** A string starting with a digit is no infinity or NaN word. */
  lemma WordNotSpecial(body: string)
    requires body != [] && IsDigit(body[0])
    ensures Lower(body) != "inf" && Lower(body) != "infinity" && Lower(body) != "nan"
  {
    assert Lower(body)[0] == body[0];
  }

  // ---------------------------------------------------------------- parsing

  function GenreName(g: GenreItem): string {
    match g
      case GenreObject(name) => name
      case GenreText(text) => text
      case GenreOther => ""
  }

  /** The artist genres of `_parse_song`: object names and plain strings,
      in order, other entries and empty names skipped. */
  function ParseGenres(items: seq<GenreItem>): (r: seq<string>)
    ensures |r| <= |items|
    ensures forall i :: 0 <= i < |r| ==> r[i] != []
  {
    if items == [] then []
    else (if GenreName(items[0]) != [] then [GenreName(items[0])] else []) + ParseGenres(items[1..])
  }

  /** The genre list is built entry by entry: the genres of a list are the
      genres of its parts, in order. */
  lemma {:induction false} ParseGenresAppend(a: seq<GenreItem>, b: seq<GenreItem>)
    ensures ParseGenres(a + b) == ParseGenres(a) + ParseGenres(b)
  {
    if a != [] {
      assert (a + b)[1..] == a[1..] + b && (a + b)[0] == a[0];
      ParseGenresAppend(a[1..], b);
      var h := if GenreName(a[0]) != [] then [GenreName(a[0])] else [];
      assert ParseGenres(a + b) == h + ParseGenres(a[1..] + b);
      assert ParseGenres(a) == h + ParseGenres(a[1..]);
    } else {
      assert a + b == b;
    }
  }

  /** A list of non-empty plain strings is kept as it is. */
  lemma {:induction false} ParseGenresTexts(names: seq<string>)
    requires forall i :: 0 <= i < |names| ==> names[i] != []
    ensures ParseGenres(seq(|names|, i requires 0 <= i < |names| => GenreText(names[i]))) == names
  {
    if names != [] {
      var items := seq(|names|, i requires 0 <= i < |names| => GenreText(names[i]));
      assert items[1..] == seq(|names[1..]|, i requires 0 <= i < |names[1..]| => GenreText(names[1..][i]));
      ParseGenresTexts(names[1..]);
    }
  }

  function ArtistGenreNames(g: ArtistGenres): seq<string> {
    match g
      case GenreList(items) => ParseGenres(items)
      case NotAList => []
  }

  /** `_parse_song` with the corrected integer parse: every field from
      its source field, the tempo read as a number exactly when it is a
      finite one. */
  function ParseSong(s: Song): (r: BpmInfo)
    ensures r.bpm.Some? <==> FiniteNumber(s.tempo)
    ensures r.genres == ArtistGenreNames(s.genres)
    ensures r.songId == s.id && r.title == s.title && r.artist == s.artistName
    ensures r.key == s.keyOf && r.keyCamelot == s.openKey && r.timeSignature == s.timeSig
    ensures r.album == s.album.GetOr("")
  {
    BpmInfo(s.id, s.title, s.artistName, ParseIntValue(s.tempo), s.keyOf, s.openKey, s.timeSig,
            s.album.GetOr(""), ArtistGenreNames(s.genres))
  }

  /** `_parse_search_result`: as a song, but without genres. */
  function ParseSearchResult(s: Song): (r: BpmInfo)
    ensures r == ParseSong(s).(genres := [])
  {
    BpmInfo(s.id, s.title, s.artistName, ParseIntValue(s.tempo), s.keyOf, s.openKey, s.timeSig,
            s.album.GetOr(""), [])
  }

  /** `_parse_song` as written: the tempo's `OverflowError` escapes; when
      it does not, the record is the corrected one. */
  function ParseSongAsWritten(s: Song, withGenres: bool): (r: Parse<BpmInfo>)
    ensures r.OverflowRaised? <==> Overflowing(s.tempo)
    ensures r.Parsed? ==> r.value == if withGenres then ParseSong(s) else ParseSearchResult(s)
  {
    match ParseIntAsWritten(s.tempo)
      case OverflowRaised => OverflowRaised
      case Parsed(bpm) =>
        Parsed(BpmInfo(s.id, s.title, s.artistName, bpm, s.keyOf, s.openKey, s.timeSig,
                       s.album.GetOr(""), if withGenres then ArtistGenreNames(s.genres) else []))
  }

  // ---------------------------------------------------------------- search

  /** The search text: the title, then the artist when there is one. */
  function Query(title: string, artist: string): (q: string)
    ensures IsPrefix(title, q)
    ensures artist == [] <==> q == title
  {
    if artist != [] then title + " " + artist else title
  }

  /** A hit matches when its title and the wanted title contain one
      another (ignoring case), and so do the artists, unless no artist is
      given. The empty object reads as an empty title and artist. */
  predicate IsMatch(hit: Hit, title: string, artist: string) {
    var ht := Lower(HitTitle(hit));
    var ha := Lower(HitArtist(hit));
    (Contains(ht, Lower(title)) || Contains(Lower(title), ht))
    && (artist == [] || Contains(ha, Lower(artist)) || Contains(Lower(artist), ha))
  }

  /** The hit's title, `""` for the empty object. */
  function HitTitle(hit: Hit): string {
    if hit.Object? then hit.song.title else ""
  }

  /** The hit's artist name, `""` for the empty object. */
  function HitArtist(hit: Hit): string {
    if hit.Object? then hit.song.artistName else ""
  }

  /** The empty object passes the match test: `""` is in every string. */
  lemma EmptyObjectMatches(title: string, artist: string)
    ensures IsMatch(EmptyObject, title, artist)
  {
    ContainsEmpty(Lower(title));
    ContainsEmpty(Lower(artist));
  }

  /** Hit `i` is the first that matches: where the loop breaks. */
  predicate FirstMatchAt(hits: seq<Hit>, title: string, artist: string, i: int) {
    0 <= i < |hits| && IsMatch(hits[i], title, artist)
    && forall j :: 0 <= j < i ==> !IsMatch(hits[j], title, artist)
  }

  /** At most one hit is the first match. */
  lemma FirstMatchUnique(hits: seq<Hit>, title: string, artist: string, i: int, k: int)
    requires FirstMatchAt(hits, title, artist, i) && FirstMatchAt(hits, title, artist, k)
    ensures i == k
  {
  }

  /** The index where the loop breaks, if it does. */
  function FirstMatch(hits: seq<Hit>, title: string, artist: string): (f: Option<nat>)
    ensures f.Some? ==> FirstMatchAt(hits, title, artist, f.value)
    ensures f.None? ==> forall i :: !FirstMatchAt(hits, title, artist, i)
  {
    FirstIn(hits, h => IsMatch(h, title, artist), 0, |hits|)
  }

  /** The choice: the first matching hit when it is a non-empty object;
      otherwise (no match, or the match is the falsy `{}`) the first hit,
      unless that is `{}` too or there are no hits. */
  function BestMatch(hits: seq<Hit>, title: string, artist: string): (r: Option<Song>)
    ensures r.Some? ==> exists i :: 0 <= i < |hits| && hits[i] == Object(r.value)
    ensures forall i :: FirstMatchAt(hits, title, artist, i) && hits[i].Object? ==> r == Some(hits[i].song)
    ensures (forall i :: FirstMatchAt(hits, title, artist, i) ==> hits[i].EmptyObject?) ==>
              r == if hits != [] && hits[0].Object? then Some(hits[0].song) else None
  {
    var f := FirstMatch(hits, title, artist);
    assert forall i :: FirstMatchAt(hits, title, artist, i) ==> f == Some(i) by {
      forall i | FirstMatchAt(hits, title, artist, i)
        ensures f == Some(i)
      {
        FirstMatchUnique(hits, title, artist, i, f.value);
      }
    }
    if f.Some? && hits[f.value].Object? then Some(hits[f.value].song)
    else if hits != [] && hits[0].Object? then Some(hits[0].song)
    else None
  }

  /** A hit with the same title and artist, ignoring case, is a match; so
      with one among the hits, and no `{}` before it, the choice is a
      matching hit, never the fallback. */
  lemma ExactHitMatches(hits: seq<Hit>, title: string, artist: string, k: nat)
    requires k < |hits| && hits[k].Object?
    requires Lower(hits[k].song.title) == Lower(title) && Lower(hits[k].song.artistName) == Lower(artist)
    ensures IsMatch(hits[k], title, artist)
    ensures (forall j :: 0 <= j < k ==> hits[j].Object?) ==>
              BestMatch(hits, title, artist).Some? && IsMatch(Object(BestMatch(hits, title, artist).value), title, artist)
  {
    ContainsSelf(Lower(title));
    ContainsSelf(Lower(artist));
    if forall j :: 0 <= j < k ==> hits[j].Object? {
      var f := FirstIn(hits, h => IsMatch(h, title, artist), 0, |hits|);
      assert f.Some? && f.value <= k && FirstMatchAt(hits, title, artist, f.value);
    }
  }

  /** A `{}` that no earlier hit matches before shadows everything after
      it: the choice falls back to the first hit, and to nothing when that
      is `{}` as well. */
  lemma EmptyObjectShadows(hits: seq<Hit>, title: string, artist: string, k: nat)
    requires k < |hits| && hits[k] == EmptyObject
    requires forall j :: 0 <= j < k ==> !IsMatch(hits[j], title, artist)
    ensures BestMatch(hits, title, artist) == if hits[0].Object? then Some(hits[0].song) else None
  {
    EmptyObjectMatches(title, artist);
    assert FirstMatchAt(hits, title, artist, k);
    forall i | FirstMatchAt(hits, title, artist, i)
      ensures hits[i].EmptyObject?
    {
      FirstMatchUnique(hits, title, artist, i, k);
    }
  }

  /** `get_track_by_id`, corrected: `byId(endpoint)` is the "song" of
      the response. */
  function GetTrackById(id: string, byId: string -> Option<Song>): (r: Option<BpmInfo>)
    ensures r.Some? <==> id != [] && byId("song/?id=" + id).Some?
    ensures r.Some? ==> r.value == ParseSong(byId("song/?id=" + id).value)
  {
    if id == [] then None
    else match byId("song/?id=" + id)
      case None => None
      case Some(s) => Some(ParseSong(s))
  }

  /** `get_track_by_id` as written: the song's tempo may raise. */
  function GetTrackByIdAsWritten(id: string, byId: string -> Option<Song>): (r: Parse<Option<BpmInfo>>)
    ensures r.OverflowRaised? <==> id != [] && byId("song/?id=" + id).Some?
                                   && Overflowing(byId("song/?id=" + id).value.tempo)
    ensures r.Parsed? ==> r.value == GetTrackById(id, byId)
  {
    if id == [] then Parsed(None)
    else match byId("song/?id=" + id)
      case None => Parsed(None)
      case Some(s) =>
        match ParseSongAsWritten(s, true)
          case OverflowRaised => OverflowRaised
          case Parsed(info) => Parsed(Some(info))
  }

  /** `search_track`, with the corrected parse: `search(query)` is the
      "search" list of the response, `None` when the request failed or the
      body was empty. Nothing without a title, without hits, or when the
      choice is `{}`; otherwise the chosen song, fetched in full when it
      has an id and parsed as it is when it has none. */
  function SearchTrack(title: string, artist: string, search: string -> Option<seq<Hit>>,
                       byId: string -> Option<Song>): (r: Option<BpmInfo>)
    ensures title == [] ==> r.None?
    ensures title != [] && (search(Query(title, artist)).None? || search(Query(title, artist)).value == []) ==> r.None?
    ensures title != [] && search(Query(title, artist)).Some? ==>
              var best := BestMatch(search(Query(title, artist)).value, title, artist);
              if best.None? then r.None?
              else if best.value.id != [] then r == GetTrackById(best.value.id, byId)
              else r == Some(ParseSearchResult(best.value))
  {
    if title == [] then None
    else match search(Query(title, artist))
      case None => None
      case Some(hits) =>
        if hits == [] then None
        else match BestMatch(hits, title, artist)
          case None => None
          case Some(best) => if best.id != [] then GetTrackById(best.id, byId) else Some(ParseSearchResult(best))
  }

  /** `search_track` as written: the tempo of the song it parses may raise
      `OverflowError`, which escapes to the caller. Where it returns, it
      returns what the corrected search does. */
  function SearchTrackAsWritten(title: string, artist: string, search: string -> Option<seq<Hit>>,
                                byId: string -> Option<Song>): (r: Parse<Option<BpmInfo>>)
    ensures r.Parsed? ==> r.value == SearchTrack(title, artist, search, byId)
    ensures title == [] || search(Query(title, artist)).None? || search(Query(title, artist)).value == [] ==>
              r == Parsed(None)
    ensures title != [] && search(Query(title, artist)).Some? ==>
              var best := BestMatch(search(Query(title, artist)).value, title, artist);
              r.OverflowRaised? <==>
                best.Some? &&
                if best.value.id != [] then GetTrackByIdAsWritten(best.value.id, byId).OverflowRaised?
                else Overflowing(best.value.tempo)
  {
    if title == [] then Parsed(None)
    else match search(Query(title, artist))
      case None => Parsed(None)
      case Some(hits) =>
        if hits == [] then Parsed(None)
        else match BestMatch(hits, title, artist)
          case None => Parsed(None)
          case Some(best) =>
            if best.id != [] then GetTrackByIdAsWritten(best.id, byId)
            else match ParseSongAsWritten(best, false)
              case OverflowRaised => OverflowRaised
              case Parsed(info) => Parsed(Some(info))
  }

  /** The empty hit `{}` is falsy: alone, or first before a real hit, the
      search finds nothing; after a hit that does not match, the search
      falls back to that first hit. */
  lemma EmptyObjectSearch(title: string, h: Song, exact: Song, byId: string -> Option<Song>)
    requires title != [] && h.id == []
    requires !IsMatch(Object(h), title, "")
    ensures SearchTrack(title, "", (q: string) => Some([EmptyObject]), byId).None?
    ensures SearchTrack(title, "", (q: string) => Some([EmptyObject, Object(exact)]), byId).None?
    ensures SearchTrack(title, "", (q: string) => Some([Object(h), EmptyObject]), byId) == Some(ParseSearchResult(h))
  {
    EmptyObjectShadows([EmptyObject], title, "", 0);
    EmptyObjectShadows([EmptyObject, Object(exact)], title, "", 0);
    EmptyObjectShadows([Object(h), EmptyObject], title, "", 1);
  }

  /** A lone hit without an id and with a tempo of "inf": the search as
      written raises, while the corrected one returns the hit with no BPM
      and its key intact. */
  lemma InfinityTempoRaises(title: string, hit: Song, byId: string -> Option<Song>)
    requires title != [] && hit.id == [] && hit.tempo == Str("inf")
    ensures var search := (q: string) => Some([Object(hit)]);
            SearchTrackAsWritten(title, "", search, byId) == OverflowRaised
            && SearchTrack(title, "", search, byId) == Some(ParseSearchResult(hit))
            && ParseSearchResult(hit).bpm.None? && ParseSearchResult(hit).key == hit.keyOf
  {
    InfinityRaises();
  }
}
