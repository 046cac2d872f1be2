/** M3U playlist files: the path-safe owner name, where the file goes,
    the text written for a list of tracks, and the rewrite of an existing
    file's path lines. The disk is left out: writing returns the text, and
    `os.path.relpath` is an oracle. */
module M3u {
  import opened Common
  import opened Text

  // ---------------------------------------------------------------- runs of a character

  /** No two neighbouring copies of `c`. */
  predicate NoRun(s: string, c: char) {
    forall i :: 0 <= i < |s| - 1 ==> !(s[i] == c && s[i + 1] == c)
  }

  /** The substring test of the source for a doubled character. */
  lemma ContainsPair(s: string, c: char)
    ensures Contains(s, [c, c]) <==> !NoRun(s, c)
  {
    if Contains(s, [c, c]) {
      var k :| 0 <= k <= |s| && OccursAt(s, [c, c], k);
      assert s[k..][..2] == [c, c];
      assert s[k] == c && s[k + 1] == c;
    }
    if !NoRun(s, c) {
      var i :| 0 <= i < |s| - 1 && s[i] == c && s[i + 1] == c;
      assert s[i..][..2] == [c, c];
      assert OccursAt(s, [c, c], i);
    }
  }

  /** One pass of `replace(cc, c)`: no longer, strictly shorter when there
      is a pair, first character kept, and no new characters or pairs of
      any other character. */
  lemma {:induction false} CollapseStep(s: string, c: char)
    ensures var r := Replace(s, [c, c], [c]);
            |r| <= |s| && (!NoRun(s, c) ==> |r| < |s|)
            && (s != [] ==> r != [] && r[0] == s[0])
            && (forall x :: x in r ==> x in s)
            && (forall b :: b != c && NoRun(s, b) ==> NoRun(r, b))
    decreases |s|
  {
    var r := Replace(s, [c, c], [c]);
    if IsPrefix([c, c], s) {
      var t := s[2..];
      CollapseStep(t, c);
      var rt := Replace(t, [c, c], [c]);
      assert r == [c] + rt;
      assert s[0] == c;
      forall b | b != c && NoRun(s, b)
        ensures NoRun(r, b)
      {
        NoRunSlice(s, b, 2, |s|);
        assert s[2..|s|] == t;
        assert NoRun(rt, b);
        forall i | 0 <= i < |r| - 1
          ensures !(r[i] == b && r[i + 1] == b)
        {
          if i > 0 {
            assert r[i] == rt[i - 1] && r[i + 1] == rt[i];
          }
        }
      }
    } else if s != [] {
      var t := s[1..];
      CollapseStep(t, c);
      var rt := Replace(t, [c, c], [c]);
      assert r == [s[0]] + rt;
      if !NoRun(s, c) {
        var i :| 0 <= i < |s| - 1 && s[i] == c && s[i + 1] == c;
        assert i > 0;
        assert t[i - 1] == c && t[i] == c;
      }
      forall b | b != c && NoRun(s, b)
        ensures NoRun(r, b)
      {
        NoRunSlice(s, b, 1, |s|);
        assert s[1..|s|] == t;
        assert NoRun(rt, b);
        forall i | 0 <= i < |r| - 1
          ensures !(r[i] == b && r[i + 1] == b)
        {
          if i == 0 {
            assert r[1] == rt[0] == t[0] == s[1];
          } else {
            assert r[i] == rt[i - 1] && r[i + 1] == rt[i];
          }
        }
      }
    }
  }

  /** `while cc in s: s = s.replace(cc, c)`. */
  function Collapse(s: string, c: char): (r: string)
    ensures NoRun(r, c) && !Contains(r, [c, c])
    ensures forall x :: x in r ==> x in s
    ensures forall b :: b != c && NoRun(s, b) ==> NoRun(r, b)
    ensures NoRun(s, c) ==> r == s
    decreases |s|
  {
    ContainsPair(s, c);
    if Contains(s, [c, c]) then
      CollapseStep(s, c);
      Collapse(Replace(s, [c, c], [c]), c)
    else s
  }

  /** A run-free text stays run-free in every slice. */
  lemma NoRunSlice(s: string, c: char, i: nat, j: nat)
    requires i <= j <= |s| && NoRun(s, c)
    ensures NoRun(s[i..j], c)
  {
    forall k | 0 <= k < j - i - 1
      ensures !(s[i..j][k] == c && s[i..j][k + 1] == c)
    {
      assert s[i..j][k] == s[i + k] && s[i..j][k + 1] == s[i + k + 1];
    }
  }

  /** Where the kept part of `Strip(s)` lies in `s`. */
  function StripBounds(s: string): (b: (nat, nat))
    ensures b.0 <= b.1 <= |s| && Strip(s) == s[b.0..b.1]
    decreases |s|
  {
    if |s| > 0 && IsSpace(s[0]) then
      var b := StripBounds(s[1..]);
      SliceOfTail(s, b.0, b.1);
      (b.0 + 1, b.1 + 1)
    else if |s| > 0 && IsSpace(s[|s| - 1]) then
      var b := StripBounds(s[..|s| - 1]);
      SliceOfInit(s, b.0, b.1);
      b
    else (0, |s|)
  }

  /** Where the kept part of `StripChar(s, c)` lies in `s`. */
  function StripCharBounds(s: string, c: char): (b: (nat, nat))
    ensures b.0 <= b.1 <= |s| && StripChar(s, c) == s[b.0..b.1]
    decreases |s|
  {
    if |s| > 0 && s[0] == c then
      var b := StripCharBounds(s[1..], c);
      SliceOfTail(s, b.0, b.1);
      (b.0 + 1, b.1 + 1)
    else if |s| > 0 && s[|s| - 1] == c then
      var b := StripCharBounds(s[..|s| - 1], c);
      SliceOfInit(s, b.0, b.1);
      b
    else (0, |s|)
  }

  lemma SliceOfTail(s: string, i: nat, j: nat)
    requires i <= j <= |s| - 1
    ensures s[1..][i..j] == s[i + 1..j + 1]
  {
  }

  lemma SliceOfInit(s: string, i: nat, j: nat)
    requires i <= j <= |s| - 1
    ensures s[..|s| - 1][i..j] == s[i..j]
  {
  }

  // ---------------------------------------------------------------- sanitising

  /** The characters a path component may not contain. */
  const Invalid: string := "<>:\"/\\|?*"

  /** Replace each of `chars` by '_', one character after the other. */
  function ReplaceEach(s: string, chars: string): (r: string)
    requires '_' !in chars
    ensures |r| == |s|
    ensures forall c :: c in chars ==> c !in r
    ensures forall x :: x in r ==> x in s || x == '_'
    ensures (forall c :: c in chars ==> c !in s) ==> r == s
    decreases |chars|
  {
    if chars == [] then s
    else
      var t := Replace(s, [chars[0]], "_");
      ReplaceChar(s, chars[0], '_');
      assert chars[0] !in s ==> t == s;
      ReplaceEach(t, chars[1..])
  }

  /** The cleaning steps of `sanitize_for_path` before the fallback:
      invalid characters become '_', doubled '_' and spaces collapse, and
      whitespace and then '_' are stripped from the ends. */
  function Cleaned(name: string): string {
    StripChar(Strip(Collapse(Collapse(ReplaceEach(name, Invalid), '_'), ' ')), '_')
  }

  /** `sanitize_for_path`. */
  function SanitizeForPath(name: string): (r: string)
    ensures r != []
    ensures name == [] ==> r == "Unknown"
    ensures forall c :: c in Invalid ==> c !in r
    ensures !Contains(r, "__") && !Contains(r, "  ")
  {
    UnknownSafe();
    if name == [] then "Unknown"
    else
      var r := Cleaned(name);
      if r == [] then "Unknown"
      else
        CleanedShape(name);
        r
  }

  /** The fallback name is itself safe. */
  lemma UnknownSafe()
    ensures forall c :: c in Invalid ==> c !in "Unknown"
    ensures !Contains("Unknown", "__") && !Contains("Unknown", "  ")
  {
    var u := "Unknown";
    assert forall i :: 0 <= i < |u| ==> u[i] != '_' && u[i] != ' ';
    ContainsPair(u, '_');
    ContainsPair(u, ' ');
    assert "__" == ['_', '_'] && "  " == [' ', ' '];
  }

  /** The cleaning removes every invalid character and leaves no doubled
      '_' or space. */
  lemma CleanedShape(name: string)
    ensures forall c :: c in Invalid ==> c !in Cleaned(name)
    ensures !Contains(Cleaned(name), "__") && !Contains(Cleaned(name), "  ")
  {
    var collapsed := Collapse(Collapse(ReplaceEach(name, Invalid), '_'), ' ');
    CollapsedShape(ReplaceEach(name, Invalid));
    TrimShape(collapsed);
    ContainsPair(Cleaned(name), '_');
    ContainsPair(Cleaned(name), ' ');
    assert "__" == ['_', '_'] && "  " == [' ', ' '];
  }

  /** Collapsing keeps out the invalid characters and removes the runs. */
  lemma CollapsedShape(replaced: string)
    requires forall c :: c in Invalid ==> c !in replaced
    ensures var collapsed := Collapse(Collapse(replaced, '_'), ' ');
            NoRun(collapsed, '_') && NoRun(collapsed, ' ') && forall c :: c in Invalid ==> c !in collapsed
  {
  }

  /** Stripping the ends keeps a run-free, invalid-free text so. */
  lemma TrimShape(collapsed: string)
    requires NoRun(collapsed, '_') && NoRun(collapsed, ' ') && forall c :: c in Invalid ==> c !in collapsed
    ensures var r := StripChar(Strip(collapsed), '_');
            NoRun(r, '_') && NoRun(r, ' ') && forall c :: c in Invalid ==> c !in r
  {
    var b := StripBounds(collapsed);
    ShapeSlice(collapsed, b.0, b.1);
    var stripped := Strip(collapsed);
    var d := StripCharBounds(stripped, '_');
    ShapeSlice(stripped, d.0, d.1);
  }

  /** Every slice of a run-free, invalid-free text is so too. */
  lemma ShapeSlice(s: string, i: nat, j: nat)
    requires i <= j <= |s|
    requires NoRun(s, '_') && NoRun(s, ' ') && forall c :: c in Invalid ==> c !in s
    ensures NoRun(s[i..j], '_') && NoRun(s[i..j], ' ') && forall c :: c in Invalid ==> c !in s[i..j]
  {
    NoRunSlice(s, '_', i, j);
    NoRunSlice(s, ' ', i, j);
    forall c | c in Invalid
      ensures c !in s[i..j]
    {
      assert c !in s;
    }
  }

  /** A name that is already safe — non-empty, none of the invalid
      characters, no doubled '_' or space, nothing to strip at either end
      — comes back unchanged. */
  lemma SanitizeKeepsSafe(name: string)
    requires name != [] && (forall c :: c in Invalid ==> c !in name)
    requires NoRun(name, '_') && NoRun(name, ' ')
    requires Trimmed(name) && name[0] != '_' && name[|name| - 1] != '_'
    ensures SanitizeForPath(name) == name
  {
    StripTrimmed(name);
  }
  // ---------------------------------------------------------------- file location

  /** A path: its directories and its final component. */
  datatype FilePath = FilePath(dirs: seq<string>, name: string)

  /** Python's `rfind` for one character. */
  function RFind(s: string, c: char): (r: Option<nat>)
    ensures r.Some? ==> r.value < |s| && s[r.value] == c && forall j :: r.value < j < |s| ==> s[j] != c
    ensures r.None? ==> c !in s
  {
    if s == [] then None
    else if s[|s| - 1] == c then Some(|s| - 1)
    else
      var r := RFind(s[..|s| - 1], c);
      assert s == s[..|s| - 1] + [s[|s| - 1]];
      r
  }

  /** `PurePath.suffix`: from the last '.', unless it is the first or the
      last character. */
  function Suffix(name: string): (r: string)
    ensures r == [] || (IsPrefix(".", r) && |r| < |name| && r == name[|name| - |r|..])
  {
    match RFind(name, '.')
    case Some(i) => if 0 < i < |name| - 1 then name[i..] else []
    case None => []
  }

  /** `with_suffix`: the old suffix, if any, replaced by the new one; a
      path without a name raises. */
  function WithSuffix(p: FilePath, suffix: string): (r: Option<FilePath>)
    ensures r.None? <==> p.name == []
    ensures r.Some? ==> r.value.dirs == p.dirs
                        && r.value.name == p.name[..|p.name| - |Suffix(p.name)|] + suffix
  {
    if p.name == [] then None
    else Some(FilePath(p.dirs, p.name[..|p.name| - |Suffix(p.name)|] + suffix))
  }

  /** Python truthiness of the owner. */
  predicate HasOwner(owner: Option<string>) { owner.Some? && owner.value != [] }

  /** `path.parent / safe_owner / path.name`: the owner's folder sits
      where the name was; a path without a name (such as "." or "/") is
      its own parent, and joining the empty name adds nothing, so the
      owner's folder becomes the name. */
  function OwnerPath(path: FilePath, owner: string): (r: FilePath)
    ensures r.name != []
  {
    if path.name == [] then FilePath(path.dirs, SanitizeForPath(owner))
    else FilePath(path.dirs + [SanitizeForPath(owner)], path.name)
  }

  /** The location `save_tracks_to_m3u` writes to: under a folder named
      after the sanitised owner when an owner is given, always with the
      ".m3u" suffix. Only a path without a name and without an owner has
      no location: `with_suffix` raises. */
  function M3uFile(path: FilePath, owner: Option<string>): (r: Option<FilePath>)
    ensures r.None? <==> path.name == [] && !HasOwner(owner)
  {
    var f := if HasOwner(owner) then OwnerPath(path, owner.value) else path;
    WithSuffix(f, ".m3u")
  }

  /** The file sits in the owner's folder exactly when an owner is given
      (or is named after the owner when the path has no name), keeps the
      stem of the requested name, and its suffix is ".m3u", so asking
      again for that suffix changes nothing. */
  lemma M3uFileShape(path: FilePath, owner: Option<string>)
    ensures M3uFile(path, owner).None? <==> path.name == [] && !HasOwner(owner)
    ensures M3uFile(path, owner).Some? ==>
              var f := M3uFile(path, owner).value;
              (HasOwner(owner) && path.name != [] ==> f.dirs == path.dirs + [SanitizeForPath(owner.value)])
              && (HasOwner(owner) && path.name == [] ==>
                    f.dirs == path.dirs && IsPrefix(StemOf(SanitizeForPath(owner.value)), f.name))
              && (!HasOwner(owner) ==> f.dirs == path.dirs)
              && Suffix(f.name) == ".m3u"
              && WithSuffix(f, ".m3u") == Some(f)
  {
    if path.name != [] || HasOwner(owner) {
      M3uFileName(path, owner);
      var f := M3uFile(path, owner).value;
      M3uSuffixKept(f);
    }
  }

  /** A name without its suffix. */
  function StemOf(name: string): string
  {
    name[..|name| - |Suffix(name)|]
  }

  /** The written name is the requested stem followed by ".m3u". */
  lemma M3uFileName(path: FilePath, owner: Option<string>)
    requires path.name != [] || HasOwner(owner)
    ensures M3uFile(path, owner).Some? && Suffix(M3uFile(path, owner).value.name) == ".m3u"
    ensures M3uFile(path, owner).value.name == StemOf((if HasOwner(owner) then OwnerPath(path, owner.value) else path).name) + ".m3u"
  {
    var g := if HasOwner(owner) then OwnerPath(path, owner.value) else path;
    assert g.name != [];
    var r := WithSuffix(g, ".m3u");
    assert M3uFile(path, owner) == r;
    var stem := StemOf(g.name);
    assert r.value.name == stem + ".m3u";
    StemNonEmpty(g.name);
    SuffixOfM3u(stem);
  }

  /** A non-empty name keeps a non-empty stem: a suffix never starts at the
      first character. */
  lemma StemNonEmpty(name: string)
    requires name != []
    ensures StemOf(name) != []
  {
  }

  /** A name already ending in the suffix ".m3u" keeps it. */
  lemma M3uSuffixKept(f: FilePath)
    requires Suffix(f.name) == ".m3u"
    ensures WithSuffix(f, ".m3u") == Some(f)
  {
    assert f.name[..|f.name| - 4] + ".m3u" == f.name;
  }

  /** A non-empty stem followed by ".m3u" has exactly that suffix. */
  lemma SuffixOfM3u(stem: string)
    requires stem != []
    ensures Suffix(stem + ".m3u") == ".m3u"
  {
    var n := stem + ".m3u";
    assert n[|stem|] == '.';
    assert forall j :: |stem| < j < |n| ==> n[j] != '.';
    assert RFind(n, '.') == Some(|stem|);
  }

  // ---------------------------------------------------------------- file text

  /** What a track contributes: its file, duration, artist and title. */
  datatype M3uTrack = M3uTrack(path: Option<string>, duration: int, artist: Option<string>, title: string)

  /** The path line: relative to the playlist's folder when asked and
      computable, else the path as it is, or nothing without a path. */
  function DisplayPath(p: Option<string>, useRelative: bool, relpath: string -> Option<string>): string {
    match p
    case None => ""
    case Some(x) => if useRelative then relpath(x).GetOr(x) else x
  }

  /** The `#EXTINF` line of a track. */
  function ExtInf(t: M3uTrack): string {
    "#EXTINF:" + IntToString(t.duration) + "," + t.artist.GetOr("") + " - " + t.title
  }

  /** `r` holds, for each track in order, its `#EXTINF` line and then its
      path line. */
  predicate TrackPairs(r: seq<string>, ts: seq<M3uTrack>, useRelative: bool, relpath: string -> Option<string>) {
    |r| == 2 * |ts|
    && forall i :: 0 <= i < |ts| ==>
         r[2 * i] == ExtInf(ts[i]) && r[2 * i + 1] == DisplayPath(ts[i].path, useRelative, relpath)
  }

  /** Two lines per track: its `#EXTINF` line and its path line. */
  function TrackLines(ts: seq<M3uTrack>, useRelative: bool, relpath: string -> Option<string>): (r: seq<string>)
    ensures TrackPairs(r, ts, useRelative, relpath)
  {
    if ts == [] then []
    else
      var rest := TrackLines(ts[1..], useRelative, relpath);
      TrackPairsCons(rest, ts, useRelative, relpath);
      [ExtInf(ts[0]), DisplayPath(ts[0].path, useRelative, relpath)] + rest
  }

  lemma TrackPairsCons(rest: seq<string>, ts: seq<M3uTrack>, useRelative: bool, relpath: string -> Option<string>)
    requires ts != [] && TrackPairs(rest, ts[1..], useRelative, relpath)
    ensures TrackPairs([ExtInf(ts[0]), DisplayPath(ts[0].path, useRelative, relpath)] + rest, ts, useRelative, relpath)
  {
    var head := [ExtInf(ts[0]), DisplayPath(ts[0].path, useRelative, relpath)];
    forall i | 1 <= i < |ts|
      ensures (head + rest)[2 * i] == ExtInf(ts[i])
      ensures (head + rest)[2 * i + 1] == DisplayPath(ts[i].path, useRelative, relpath)
    {
      TrackPairAt(head, rest, ts, useRelative, relpath, i);
    }
  }

  lemma TrackPairAt(head: seq<string>, rest: seq<string>, ts: seq<M3uTrack>, useRelative: bool,
                    relpath: string -> Option<string>, i: nat)
    requires |head| == 2 && 1 <= i < |ts| && TrackPairs(rest, ts[1..], useRelative, relpath)
    ensures (head + rest)[2 * i] == ExtInf(ts[i])
    ensures (head + rest)[2 * i + 1] == DisplayPath(ts[i].path, useRelative, relpath)
  {
    assert ts[1..][i - 1] == ts[i];
    assert (head + rest)[2 * i] == rest[2 * (i - 1)];
    assert (head + rest)[2 * i + 1] == rest[2 * (i - 1) + 1];
  }

  /** Each line written followed by a newline. */
  function Terminated(lines: seq<string>): string {
    if lines == [] then [] else lines[0] + "\n" + Terminated(lines[1..])
  }

  /** What `save_tracks_to_m3u` does. */
  datatype SaveResult = NameError | NoTracks(file: FilePath) | Written(file: FilePath, text: string)

  /** `save_tracks_to_m3u`: nothing is written for an empty list; otherwise
      the header and two lines per track. */
  function SaveTracksToM3u(ts: seq<M3uTrack>, path: FilePath, owner: Option<string>, useRelative: bool,
                           relpath: string -> Option<string>): (r: SaveResult)
    ensures r.NameError? <==> path.name == [] && !HasOwner(owner)
    ensures !r.NameError? ==> (r.NoTracks? <==> ts == [])
    ensures r.Written? ==> Some(r.file) == M3uFile(path, owner)
  {
    match M3uFile(path, owner)
    case None => NameError
    case Some(file) =>
      if ts == [] then NoTracks(file)
      else Written(file, Terminated(["#EXTM3U"] + TrackLines(ts, useRelative, relpath)))
  }

  lemma {:induction false} TerminatedJoin(lines: seq<string>)
    ensures Terminated(lines) == Join(lines + [""], "\n")
  {
    if lines != [] {
      TerminatedJoin(lines[1..]);
      assert (lines + [""])[1..] == lines[1..] + [""];
    }
  }

  /** Reading the written text back line by line gives the header, then
      each track's `#EXTINF` line and path line, in order, as long as no
      field holds a newline. */
  lemma SavedLines(ts: seq<M3uTrack>, path: FilePath, owner: Option<string>, useRelative: bool,
                   relpath: string -> Option<string>)
    requires ts != [] && (path.name != [] || HasOwner(owner))
    requires forall i :: 0 <= i < |ts| ==>
               '\n' !in ExtInf(ts[i]) && '\n' !in DisplayPath(ts[i].path, useRelative, relpath)
    ensures var r := SaveTracksToM3u(ts, path, owner, useRelative, relpath);
            var lines := Split(r.text, "\n");
            r.Written? && |lines| == 2 * |ts| + 2 && lines[0] == "#EXTM3U" && lines[2 * |ts| + 1] == ""
            && forall i :: 0 <= i < |ts| ==>
                 lines[2 * i + 1] == ExtInf(ts[i]) && lines[2 * i + 2] == DisplayPath(ts[i].path, useRelative, relpath)
  {
    var r := SaveTracksToM3u(ts, path, owner, useRelative, relpath);
    var body := TrackLines(ts, useRelative, relpath);
    assert r.text == Terminated(["#EXTM3U"] + body);
    SavedSplit(ts, useRelative, relpath);
    forall i | 0 <= i < |ts|
      ensures var parts := ["#EXTM3U"] + body + [""];
              parts[2 * i + 1] == ExtInf(ts[i]) && parts[2 * i + 2] == DisplayPath(ts[i].path, useRelative, relpath)
    {
      SavedPartAt(ts, useRelative, relpath, i);
    }
  }

  /** Track `i`'s two lines sit after the header in the written file. */
  lemma SavedPartAt(ts: seq<M3uTrack>, useRelative: bool, relpath: string -> Option<string>, i: nat)
    requires i < |ts|
    ensures var parts := ["#EXTM3U"] + TrackLines(ts, useRelative, relpath) + [""];
            |parts| == 2 * |ts| + 2
            && parts[2 * i + 1] == ExtInf(ts[i]) && parts[2 * i + 2] == DisplayPath(ts[i].path, useRelative, relpath)
  {
    var body := TrackLines(ts, useRelative, relpath);
    TrackLinesAt(ts, useRelative, relpath, i);
    var head := ["#EXTM3U"] + body;
    assert head[2 * i + 1] == body[2 * i] && head[2 * i + 2] == body[2 * i + 1];
    assert (head + [""])[2 * i + 1] == head[2 * i + 1] && (head + [""])[2 * i + 2] == head[2 * i + 2];
  }

  /** Splitting the written text at newlines gives back the header, the
      track lines and the empty text after the last newline. */
  lemma SavedSplit(ts: seq<M3uTrack>, useRelative: bool, relpath: string -> Option<string>)
    requires forall i :: 0 <= i < |ts| ==>
               '\n' !in ExtInf(ts[i]) && '\n' !in DisplayPath(ts[i].path, useRelative, relpath)
    ensures Split(Terminated(["#EXTM3U"] + TrackLines(ts, useRelative, relpath)), "\n")
            == ["#EXTM3U"] + TrackLines(ts, useRelative, relpath) + [""]
  {
    var lines := ["#EXTM3U"] + TrackLines(ts, useRelative, relpath);
    TerminatedJoin(lines);
    SavedPartsClean(ts, useRelative, relpath, lines + [""]);
    SplitJoinChar(lines + [""], '\n');
  }

  /** No line of the file holds a newline when no field does. */
  lemma SavedPartsClean(ts: seq<M3uTrack>, useRelative: bool, relpath: string -> Option<string>, parts: seq<string>)
    requires forall i :: 0 <= i < |ts| ==>
               '\n' !in ExtInf(ts[i]) && '\n' !in DisplayPath(ts[i].path, useRelative, relpath)
    requires parts == ["#EXTM3U"] + TrackLines(ts, useRelative, relpath) + [""]
    ensures forall k :: 0 <= k < |parts| ==> '\n' !in parts[k]
  {
    var body := TrackLines(ts, useRelative, relpath);
    forall k | 0 <= k < |parts|
      ensures '\n' !in parts[k]
    {
      if 1 <= k <= |body| {
        var j := k - 1;
        var i := j / 2;
        assert parts[k] == body[j];
        if j == 2 * i {
          assert body[j] == ExtInf(ts[i]);
        } else {
          assert j == 2 * i + 1;
          assert body[j] == DisplayPath(ts[i].path, useRelative, relpath);
        }
      }
    }
  }

  // ---------------------------------------------------------------- regeneration

  /** The characters `str.splitlines` breaks at ("\r\n" counts once). */
  predicate IsLineBreak(c: char) {
    c in {'\n', '\r', '\U{000B}', '\U{000C}', '\U{001C}', '\U{001D}', '\U{001E}', '\U{0085}', '\U{2028}', '\U{2029}'}
  }

  /** `str.splitlines`. */
  function SplitLines(s: string): (r: seq<string>)
    ensures forall k :: 0 <= k < |r| ==> forall c :: c in r[k] ==> !IsLineBreak(c)
    decreases |s|
  {
    if s == [] then []
    else match FirstIn(s, IsLineBreak, 0, |s|)
      case None => [s]
      case Some(k) =>
        var w := if s[k] == '\r' && k + 1 < |s| && s[k + 1] == '\n' then 2 else 1;
        [s[..k]] + SplitLines(s[k + w..])
  }

  /** Lines without line breaks, each written with a newline, read back as
      the same lines. */
  lemma {:induction false} SplitLinesTerminated(lines: seq<string>)
    requires forall k :: 0 <= k < |lines| ==> forall c :: c in lines[k] ==> !IsLineBreak(c)
    ensures SplitLines(Terminated(lines)) == lines
  {
    if lines != [] {
      var s := Terminated(lines);
      var h := lines[0];
      TerminatedHead(lines);
      SplitLinesTerminated(lines[1..]);
      assert SplitLines(s) == [h] + SplitLines(Terminated(lines[1..]));
    }
  }

  /** The first break of the written text ends the first line. */
  lemma TerminatedHead(lines: seq<string>)
    requires lines != [] && forall c :: c in lines[0] ==> !IsLineBreak(c)
    ensures var s := Terminated(lines);
            var h := lines[0];
            |h| < |s| && FirstIn(s, IsLineBreak, 0, |s|) == Some(|h|) && s[|h|] == '\n'
            && s[..|h|] == h && s[|h| + 1..] == Terminated(lines[1..])
  {
    var s := Terminated(lines);
    var h := lines[0];
    assert s == h + "\n" + Terminated(lines[1..]);
    assert s[|h|] == '\n';
    forall j | 0 <= j < |h| ensures !IsLineBreak(s[j]) {
      assert s[j] == h[j];
      assert h[j] in lines[0];
    }
    assert s[..|h|] == h;
    assert s[|h| + 1..] == Terminated(lines[1..]);
  }

  /** A line `regenerate_m3u_with_relative_paths` keeps as a directive. */
  predicate IsDirective(l: string) {
    IsPrefix("#EXTM3U", l) || IsPrefix("#EXTINF:", l)
  }

  /** The rewrite loop from line `i` on: a directive is kept and the path
      line after it, when it does not start with '#', is stripped and, when
      not empty, converted by `fix`; other non-blank lines are kept; blank
      lines elsewhere are dropped. */
  function RewriteLines(lines: seq<string>, i: nat, fix: string -> string): (r: seq<string>)
    requires i <= |lines|
    ensures |r| <= |lines| - i
    decreases |lines| - i
  {
    if i == |lines| then []
    else if IsDirective(lines[i]) then
      if i + 1 < |lines| && !IsPrefix("#", lines[i + 1]) then
        var p := Strip(lines[i + 1]);
        [lines[i], if p != [] then fix(p) else p] + RewriteLines(lines, i + 2, fix)
      else [lines[i]] + RewriteLines(lines, i + 1, fix)
    else if Strip(lines[i]) != [] then [lines[i]] + RewriteLines(lines, i + 1, fix)
    else RewriteLines(lines, i + 1, fix)
  }

  /** The directives of a list of lines, in order. */
  function Directives(lines: seq<string>): (r: seq<string>)
    ensures forall l :: l in r ==> l in lines && IsDirective(l)
  {
    if lines == [] then [] else (if IsDirective(lines[0]) then [lines[0]] else []) + Directives(lines[1..])
  }

  /** No line after `i` that could be taken as a path line (it does not
      start with '#' and is not blank) is converted into a directive. */
  predicate PathsStayPaths(lines: seq<string>, i: nat, fix: string -> string) {
    forall k :: i < k < |lines| && !IsPrefix("#", lines[k]) && Strip(lines[k]) != [] ==>
      !IsDirective(fix(Strip(lines[k])))
  }

  /** When no path line is converted into a directive, the rewrite keeps
      exactly the directives of the input, in order. The conversion can
      produce one: see `RewriteCanAddDirective`. */
  lemma {:induction false} RewriteKeepsDirectives(lines: seq<string>, i: nat, fix: string -> string)
    requires i <= |lines|
    requires PathsStayPaths(lines, i, fix)
    ensures Directives(RewriteLines(lines, i, fix)) == Directives(lines[i..])
    decreases |lines| - i
  {
    if i < |lines| {
      if IsDirective(lines[i]) && i + 1 < |lines| && !IsPrefix("#", lines[i + 1]) {
        RewriteKeepsDirectives(lines, i + 2, fix);
        DirectivesPairStep(lines, i, fix);
      } else {
        RewriteKeepsDirectives(lines, i + 1, fix);
        DirectivesLineStep(lines, i, fix);
      }
    }
  }

  /** A directive with its path line: the path line is no directive. */
  lemma DirectivesPairStep(lines: seq<string>, i: nat, fix: string -> string)
    requires i + 1 < |lines| && IsDirective(lines[i]) && !IsPrefix("#", lines[i + 1])
    requires PathsStayPaths(lines, i, fix)
    requires Directives(RewriteLines(lines, i + 2, fix)) == Directives(lines[i + 2..])
    ensures Directives(RewriteLines(lines, i, fix)) == Directives(lines[i..])
  {
    var p := Strip(lines[i + 1]);
    var q := if p != [] then fix(p) else p;
    assert RewriteLines(lines, i, fix) == [lines[i], q] + RewriteLines(lines, i + 2, fix);
    NotHashNotDirective(lines[i + 1]);
    assert !IsDirective(q) by {
      if p == [] { NotHashNotDirective(p); }
    }
    assert lines[i..] == [lines[i], lines[i + 1]] + lines[i + 2..];
    DirectivesCons2(lines[i], q, RewriteLines(lines, i + 2, fix));
    DirectivesCons2(lines[i], lines[i + 1], lines[i + 2..]);
  }

  /** Any other line: kept, or dropped when blank (a blank line is no directive). */
  lemma DirectivesLineStep(lines: seq<string>, i: nat, fix: string -> string)
    requires i < |lines|
    requires !(IsDirective(lines[i]) && i + 1 < |lines| && !IsPrefix("#", lines[i + 1]))
    requires Directives(RewriteLines(lines, i + 1, fix)) == Directives(lines[i + 1..])
    ensures Directives(RewriteLines(lines, i, fix)) == Directives(lines[i..])
  {
    assert lines[i..] == [lines[i]] + lines[i + 1..];
  }

  /** A path line indented before its '#' is stripped and kept by the
      conversion without a base folder, so the rewrite turns it into a
      directive the input did not have. */
  lemma RewriteCanAddDirective(relpath: string -> Option<string>)
    ensures var lines := ["#EXTINF:1,a", " #EXTINF:x"];
            var out := RewriteLines(lines, 0, p => PathLine(p, None, relpath));
            out == ["#EXTINF:1,a", "#EXTINF:x"]
            && |Directives(out)| == 2 && |Directives(lines)| == 1
  {
    var lines := ["#EXTINF:1,a", " #EXTINF:x"];
    assert lines[1][1..] == "#EXTINF:x";
    assert Strip(lines[1]) == "#EXTINF:x";
    assert !IsAbsolute("#EXTINF:x");
    assert RewriteLines(lines, 2, p => PathLine(p, None, relpath)) == [];
    assert Directives(lines[1..]) == Directives([]);
  }

  /** A line that does not start with '#' is no directive. */
  lemma NotHashNotDirective(l: string)
    requires !IsPrefix("#", l)
    ensures !IsDirective(l)
  {
  }

  lemma DirectivesCons2(a: string, b: string, rest: seq<string>)
    requires !IsDirective(b)
    ensures Directives([a, b] + rest) == Directives([a]) + Directives(rest)
  {
    assert ([a, b] + rest)[1..] == [b] + rest;
    assert ([b] + rest)[1..] == rest;
  }

  /** Lines already in the written form — none blank, path lines without
      surrounding whitespace — come back unchanged when the conversion
      leaves their paths alone. */
  lemma {:induction false} RewriteKeepsCanonical(lines: seq<string>, i: nat, fix: string -> string)
    requires i <= |lines|
    requires forall k :: i <= k < |lines| ==> Strip(lines[k]) != []
    requires forall k :: i <= k < |lines| && !IsPrefix("#", lines[k]) ==> Trimmed(lines[k]) && fix(lines[k]) == lines[k]
    ensures RewriteLines(lines, i, fix) == lines[i..]
    decreases |lines| - i
  {
    if i < |lines| {
      if IsDirective(lines[i]) && i + 1 < |lines| && !IsPrefix("#", lines[i + 1]) {
        RewriteKeepsCanonical(lines, i + 2, fix);
        KeepPair(lines, i, fix);
      } else {
        RewriteKeepsCanonical(lines, i + 1, fix);
        KeepOne(lines, i, fix);
      }
    }
  }

  /** A directive and its canonical path line are kept as they are. */
  lemma KeepPair(lines: seq<string>, i: nat, fix: string -> string)
    requires i + 1 < |lines| && IsDirective(lines[i]) && !IsPrefix("#", lines[i + 1])
    requires Strip(lines[i + 1]) != [] && Trimmed(lines[i + 1]) && fix(lines[i + 1]) == lines[i + 1]
    requires RewriteLines(lines, i + 2, fix) == lines[i + 2..]
    ensures RewriteLines(lines, i, fix) == lines[i..]
  {
    StripTrimmed(lines[i + 1]);
    assert RewriteLines(lines, i, fix) == [lines[i], lines[i + 1]] + lines[i + 2..];
    assert lines[i..] == [lines[i], lines[i + 1]] + lines[i + 2..];
  }

  /** Any other non-blank line is kept as it is. */
  lemma KeepOne(lines: seq<string>, i: nat, fix: string -> string)
    requires i < |lines| && Strip(lines[i]) != []
    requires !(IsDirective(lines[i]) && i + 1 < |lines| && !IsPrefix("#", lines[i + 1]))
    requires RewriteLines(lines, i + 1, fix) == lines[i + 1..]
    ensures RewriteLines(lines, i, fix) == lines[i..]
  {
    assert RewriteLines(lines, i, fix) == [lines[i]] + lines[i + 1..];
    assert lines[i..] == [lines[i]] + lines[i + 1..];
  }

  /** A POSIX absolute path. */
  predicate IsAbsolute(p: string) {
    IsPrefix("/", p)
  }

  /** The conversion of one stripped path line: resolved against the base
      folder when relative, then made relative to the playlist's folder
      when absolute or resolved; the line as it was when `relpath` fails. */
  function PathLine(p: string, base: Option<string>, relpath: string -> Option<string>): string {
    var tp := if !IsAbsolute(p) && base.Some? then base.value + "/" + p else p;
    if IsAbsolute(tp) || base.Some? then relpath(tp).GetOr(p) else p
  }

  /** `regenerate_m3u_with_relative_paths`: `None` for a missing file
      (the False result), otherwise the text written back. */
  function RegenerateM3u(exists_: bool, text: string, base: Option<string>, relpath: string -> Option<string>)
    : (r: Option<string>)
    ensures r.None? <==> !exists_
    ensures r.Some? ==> |r.value| > 0 && r.value[|r.value| - 1] == '\n'
  {
    if !exists_ then None
    else
      var out := RewriteLines(SplitLines(text), 0, p => PathLine(p, base, relpath));
      Some(Join(out, "\n") + "\n")
  }

  /** A track whose lines carry no line break and whose path line is a
      plain relative path: non-empty, trimmed, not starting with '#' or
      '/'. */
  predicate PlainRelative(t: M3uTrack, relpath: string -> Option<string>) {
    var d := DisplayPath(t.path, true, relpath);
    (forall c :: c in ExtInf(t) ==> !IsLineBreak(c)) && (forall c :: c in d ==> !IsLineBreak(c))
    && d != [] && Trimmed(d) && !IsPrefix("#", d) && !IsAbsolute(d)
  }

  /** The facts the rewrite needs about one line. */
  predicate CanonicalLine(l: string, relpath: string -> Option<string>) {
    (forall c :: c in l ==> !IsLineBreak(c))
    && Strip(l) != []
    && (!IsPrefix("#", l) ==> Trimmed(l) && PathLine(l, None, relpath) == l)
  }

  lemma ExtInfCanonical(t: M3uTrack, relpath: string -> Option<string>)
    requires PlainRelative(t, relpath)
    ensures CanonicalLine(ExtInf(t), relpath)
  {
    var e := ExtInf(t);
    assert e[0] == '#' && !IsSpace(e[0]);
    assert IsPrefix("#", e);
    StripEmpty(e);
  }

  lemma PathCanonical(t: M3uTrack, relpath: string -> Option<string>)
    requires PlainRelative(t, relpath)
    ensures CanonicalLine(DisplayPath(t.path, true, relpath), relpath)
  {
    StripTrimmed(DisplayPath(t.path, true, relpath));
  }

  /** Every saved line of such tracks is canonical. */
  lemma {:induction false} SavedLinesCanonical(ts: seq<M3uTrack>, relpath: string -> Option<string>, k: nat)
    requires forall i :: 0 <= i < |ts| ==> PlainRelative(ts[i], relpath)
    requires k < 1 + 2 * |ts|
    ensures CanonicalLine((["#EXTM3U"] + TrackLines(ts, true, relpath))[k], relpath)
  {
    var body := TrackLines(ts, true, relpath);
    var lines := ["#EXTM3U"] + body;
    if k == 0 {
      HeaderCanonical(relpath);
    } else {
      assert lines[k] == body[k - 1];
      BodyLineCanonical(ts, relpath, k - 1);
    }
  }

  lemma HeaderCanonical(relpath: string -> Option<string>)
    ensures CanonicalLine("#EXTM3U", relpath)
  {
    var h := "#EXTM3U";
    assert !IsSpace(h[0]);
    assert IsPrefix("#", h);
    StripEmpty(h);
  }

  lemma BodyLineCanonical(ts: seq<M3uTrack>, relpath: string -> Option<string>, j: nat)
    requires forall i :: 0 <= i < |ts| ==> PlainRelative(ts[i], relpath)
    requires j < 2 * |ts|
    ensures CanonicalLine(TrackLines(ts, true, relpath)[j], relpath)
  {
    var i, odd := Halve(j);
    if odd {
      PathLineCanonical(ts, relpath, i, j);
    } else {
      InfoLineCanonical(ts, relpath, i, j);
    }
  }

  lemma InfoLineCanonical(ts: seq<M3uTrack>, relpath: string -> Option<string>, i: nat, j: nat)
    requires forall i :: 0 <= i < |ts| ==> PlainRelative(ts[i], relpath)
    requires i < |ts| && j == 2 * i
    ensures j < |TrackLines(ts, true, relpath)|
    ensures CanonicalLine(TrackLines(ts, true, relpath)[j], relpath)
  {
    TrackLinesAt(ts, true, relpath, i);
    ExtInfCanonical(ts[i], relpath);
  }

  lemma PathLineCanonical(ts: seq<M3uTrack>, relpath: string -> Option<string>, i: nat, j: nat)
    requires forall i :: 0 <= i < |ts| ==> PlainRelative(ts[i], relpath)
    requires i < |ts| && j == 2 * i + 1
    ensures j < |TrackLines(ts, true, relpath)|
    ensures CanonicalLine(TrackLines(ts, true, relpath)[j], relpath)
  {
    TrackLinesAt(ts, true, relpath, i);
    PathCanonical(ts[i], relpath);
  }

  /** `j` as `2 * i` or `2 * i + 1`. */
  lemma Halve(j: nat) returns (i: nat, odd: bool)
    ensures j == 2 * i + (if odd then 1 else 0)
  {
    i := j / 2;
    odd := j % 2 == 1;
  }

  /** The two lines of track `i`. */
  lemma TrackLinesAt(ts: seq<M3uTrack>, useRelative: bool, relpath: string -> Option<string>, i: nat)
    requires i < |ts|
    ensures |TrackLines(ts, useRelative, relpath)| == 2 * |ts|
    ensures TrackLines(ts, useRelative, relpath)[2 * i] == ExtInf(ts[i])
    ensures TrackLines(ts, useRelative, relpath)[2 * i + 1] == DisplayPath(ts[i].path, useRelative, relpath)
  {
    assert TrackPairs(TrackLines(ts, useRelative, relpath), ts, useRelative, relpath);
  }

  /** Without a base folder a relative path line is kept as it is, so a
      playlist written with relative paths and read back is rewritten to
      the same lines. */
  lemma {:induction false} RegenerateRelative(ts: seq<M3uTrack>, path: FilePath, owner: Option<string>,
                           relpath: string -> Option<string>)
    requires ts != [] && (path.name != [] || HasOwner(owner))
    requires forall i :: 0 <= i < |ts| ==> PlainRelative(ts[i], relpath)
    ensures var w := SaveTracksToM3u(ts, path, owner, true, relpath);
            var lines := ["#EXTM3U"] + TrackLines(ts, true, relpath);
            w.Written? && SplitLines(w.text) == lines
            && RewriteLines(lines, 0, p => PathLine(p, None, relpath)) == lines
  {
    var lines := ["#EXTM3U"] + TrackLines(ts, true, relpath);
    forall k | 0 <= k < |lines|
      ensures CanonicalLine(lines[k], relpath)
    {
      SavedLinesCanonical(ts, relpath, k);
    }
    SplitLinesTerminated(lines);
    RewriteKeepsCanonical(lines, 0, p => PathLine(p, None, relpath));
  }
}
