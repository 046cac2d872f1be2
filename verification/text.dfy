/** Python string semantics used throughout the program: `strip`, `lower`,
    `split`, `replace`, `join`, the `in` substring test, `int()` and `str()`
    on integers, and prefix slicing `s[:n]`. Strings are `seq<char>`. */
module Text {
  import opened Common

  /** Python's `str.isspace` for one character. */
  predicate IsSpace(c: char) {
    var n := c as int;
    (9 <= n <= 13) || (28 <= n <= 32) || n == 0x85 || n == 0xA0 || n == 0x1680
    || (0x2000 <= n <= 0x200A) || n == 0x2028 || n == 0x2029 || n == 0x202F
    || n == 0x205F || n == 0x3000
  }

  predicate IsDigit(c: char) { '0' <= c <= '9' }

  predicate IsUpper(c: char) { 'A' <= c <= 'Z' }

  /** `str.isalnum` restricted to ASCII letters and digits. */
  predicate IsAlnum(c: char) { IsDigit(c) || IsUpper(c) || 'a' <= c <= 'z' }

  // ---------------------------------------------------------------- strip

  /** No whitespace at either end. */
  predicate Trimmed(s: string) {
    s == [] || (!IsSpace(s[0]) && !IsSpace(s[|s| - 1]))
  }

  /** Python's `s.strip()`: whitespace removed at both ends. */
  function Strip(s: string): (r: string)
    ensures Trimmed(r)
    ensures |r| <= |s|
  {
    if |s| > 0 && IsSpace(s[0]) then Strip(s[1..])
    else if |s| > 0 && IsSpace(s[|s| - 1]) then Strip(s[..|s| - 1])
    else s
  }

  /** Stripping only removes characters. */
  lemma StripSub(s: string, c: char)
    requires c !in s
    ensures c !in Strip(s)
  {
  }

  /** Stripping keeps every character that is not whitespace. */
  lemma StripKeeps(s: string, c: char)
    requires c in s && !IsSpace(c)
    ensures c in Strip(s)
  {
  }

  lemma StripTrimmed(s: string)
    requires Trimmed(s)
    ensures Strip(s) == s
  {
  }

  /** A stripped string is empty iff the original was all whitespace. */
  lemma {:induction false} StripEmpty(s: string)
    ensures Strip(s) == [] <==> forall i :: 0 <= i < |s| ==> IsSpace(s[i])
  {
    if |s| > 0 && IsSpace(s[0]) {
      StripEmpty(s[1..]);
      assert forall i :: 1 <= i < |s| ==> s[i] == s[1..][i - 1];
    } else if |s| > 0 && IsSpace(s[|s| - 1]) {
      StripEmpty(s[..|s| - 1]);
    }
  }

  /** Python's `s.strip(c)` for one character `c`. */
  function StripChar(s: string, c: char): (r: string)
    ensures r == [] || (r[0] != c && r[|r| - 1] != c)
    ensures |r| <= |s|
  {
    if |s| > 0 && s[0] == c then StripChar(s[1..], c)
    else if |s| > 0 && s[|s| - 1] == c then StripChar(s[..|s| - 1], c)
    else s
  }

  // ---------------------------------------------------------------- case

  function LowerChar(c: char): (r: char)
    ensures !IsUpper(r)
  {
    if IsUpper(c) then (c as int + 32) as char else c
  }

  /** Python's `s.lower()` on ASCII letters; other characters are kept. */
  function Lower(s: string): (r: string)
    ensures |r| == |s|
  {
    if s == [] then [] else [LowerChar(s[0])] + Lower(s[1..])
  }

  lemma {:induction false} LowerAt(s: string)
    ensures forall i :: 0 <= i < |s| ==> Lower(s)[i] == LowerChar(s[i])
  {
    if s != [] {
      LowerAt(s[1..]);
    }
  }

  function UpperChar(c: char): (r: char)
    ensures !('a' <= r <= 'z')
  {
    if 'a' <= c <= 'z' then (c as int - 32) as char else c
  }

  /** Python's `s.upper()` on ASCII letters; other characters are kept. */
  function Upper(s: string): (r: string)
    ensures |r| == |s|
    ensures forall i :: 0 <= i < |s| ==> r[i] == UpperChar(s[i])
  {
    if s == [] then [] else [UpperChar(s[0])] + Upper(s[1..])
  }

  predicate NoUpper(s: string) { forall i :: 0 <= i < |s| ==> !IsUpper(s[i]) }

  lemma LowerNoUpper(s: string)
    ensures NoUpper(Lower(s))
  {
    LowerAt(s);
  }

  lemma LowerOfNoUpper(s: string)
    requires NoUpper(s)
    ensures Lower(s) == s
  {
    LowerAt(s);
  }

  lemma LowerIdempotent(s: string)
    ensures Lower(Lower(s)) == Lower(s)
  {
    LowerNoUpper(s);
    LowerOfNoUpper(Lower(s));
  }

  // ---------------------------------------------------------------- substrings

  predicate IsPrefix(p: string, s: string) {
    |p| <= |s| && s[..|p|] == p
  }

  /** `t` occurs in `s` starting at position `k`. */
  predicate OccursAt(s: string, t: string, k: int) {
    0 <= k <= |s| && IsPrefix(t, s[k..])
  }

  /** Any piece of an occurrence occurs too. */
  lemma OccursWithin(s: string, t: string, k: int, a: int, b: int)
    requires OccursAt(s, t, k) && 0 <= a <= b <= |t|
    ensures OccursAt(s, t[a..b], k + a)
  {
    assert s[k..][..|t|] == t;
    forall i | 0 <= i < b - a
      ensures s[k + a..][..b - a][i] == t[a..b][i]
    {
      assert s[k + a + i] == s[k..][..|t|][a + i];
    }
  }

  /** Python's `t in s` for strings. */
  predicate Contains(s: string, t: string) {
    exists k :: 0 <= k <= |s| && OccursAt(s, t, k)
  }

  lemma ContainsEmpty(s: string)
    ensures Contains(s, [])
  {
    assert OccursAt(s, [], 0);
  }

  lemma ContainsSelf(s: string)
    ensures Contains(s, s)
  {
    assert OccursAt(s, s, 0);
  }

  /** A one-character `in` test is sequence membership. */
  lemma ContainsChar(s: string, c: char)
    ensures Contains(s, [c]) <==> c in s
  {
    if c in s {
      var k :| 0 <= k < |s| && s[k] == c;
      assert OccursAt(s, [c], k);
    }
    if Contains(s, [c]) {
      var k :| 0 <= k <= |s| && OccursAt(s, [c], k);
      assert |s[k..]| >= 1;
      assert s[k..][..1][0] == c;
    }
  }

  // ---------------------------------------------------------------- split / join

  /** The text before the first occurrence of `sep` (all of `s` if none). */
  function Head(s: string, sep: string): (r: string)
    requires |sep| > 0
    ensures |r| <= |s| && r == s[..|r|]
    ensures |r| < |s| ==> OccursAt(s, sep, |r|)
  {
    if IsPrefix(sep, s) then []
    else if s == [] then []
    else
      var t := Head(s[1..], sep);
      assert s[|t| + 1..] == s[1..][|t|..];
      [s[0]] + t
  }

  /** The head ends at the first occurrence of the separator. */
  lemma {:induction false} HeadFirst(s: string, sep: string)
    requires |sep| > 0
    ensures forall k :: 0 <= k < |Head(s, sep)| ==> !OccursAt(s, sep, k)
  {
    if !IsPrefix(sep, s) && s != [] {
      HeadFirst(s[1..], sep);
      forall k | 1 <= k <= |s|
        ensures OccursAt(s, sep, k) <==> OccursAt(s[1..], sep, k - 1)
      {
        assert s[k..] == s[1..][k - 1..];
      }
    }
  }

  /** When the separator is absent the head is the whole text. */
  lemma HeadAbsent(s: string, sep: string)
    requires |sep| > 0
    ensures !Contains(s, sep) <==> Head(s, sep) == s
  {
    var h := Head(s, sep);
    HeadFirst(s, sep);
    if Contains(s, sep) {
      var k :| 0 <= k <= |s| && OccursAt(s, sep, k);
      assert |s[k..]| >= |sep| > 0;
      assert !(k < |h|);
    }
  }

  /** The head before a one-character separator does not contain it. */
  lemma HeadChar(s: string, c: char)
    ensures c !in Head(s, [c])
    ensures c !in s ==> Head(s, [c]) == s
  {
    var h := Head(s, [c]);
    HeadFirst(s, [c]);
    if c in h {
      var k :| 0 <= k < |h| && h[k] == c;
      assert OccursAt(s, [c], k);
    }
    if c !in s {
      ContainsChar(s, c);
      HeadAbsent(s, [c]);
    }
  }

  /** Python's `s.split(c, 1)` when `c` occurs: the text before the first
      `c` and the text after it. */
  function SplitOnce(s: string, c: char): (r: (string, string))
    requires c in s
    ensures r.0 + [c] + r.1 == s && c !in r.0
  {
    HeadChar(s, c);
    var h := Head(s, [c]);
    assert |h| < |s| by {
      if |h| == |s| { assert false; }
    }
    assert s[|h|..][..1] == [c];
    assert s == h + [s[|h|]] + s[|h| + 1..];
    (h, s[|h| + 1..])
  }

  /** Python's `s.split(sep)` for a non-empty separator. */
  function Split(s: string, sep: string): (r: seq<string>)
    requires |sep| > 0
    ensures |r| >= 1
    ensures r[0] == Head(s, sep)
    ensures |Head(s, sep)| == |s| <==> |r| == 1
    ensures |Head(s, sep)| < |s| ==> r[1..] == Split(s[|Head(s, sep)| + |sep|..], sep)
    decreases |s|
  {
    var h := Head(s, sep);
    if |h| == |s| then [s]
    else
      var r := [h] + Split(s[|h| + |sep|..], sep);
      assert r[1..] == Split(s[|h| + |sep|..], sep);
      r
  }

  /** Python's `sep.join(parts)`. */
  function Join(parts: seq<string>, sep: string): string {
    if |parts| == 0 then []
    else if |parts| == 1 then parts[0]
    else parts[0] + sep + Join(parts[1..], sep)
  }

  /** Splitting and joining with the same separator gives back the text. */
  lemma {:induction false} JoinSplit(s: string, sep: string)
    requires |sep| > 0
    ensures Join(Split(s, sep), sep) == s
    decreases |s|
  {
    var h := Head(s, sep);
    if |h| < |s| {
      JoinSplit(s[|h| + |sep|..], sep);
      JoinSplitStep(s, sep);
    } else {
      JoinSplitWhole(s, sep);
    }
  }

  lemma JoinSplitWhole(s: string, sep: string)
    requires |sep| > 0 && |Head(s, sep)| == |s|
    ensures Join(Split(s, sep), sep) == s
  {
  }

  lemma JoinSplitStep(s: string, sep: string)
    requires |sep| > 0 && |Head(s, sep)| < |s|
    requires var rest := s[|Head(s, sep)| + |sep|..]; Join(Split(rest, sep), sep) == rest
    ensures Join(Split(s, sep), sep) == s
  {
    var h := Head(s, sep);
    var parts := Split(s, sep);
    assert Join(parts, sep) == h + sep + Join(parts[1..], sep);
    AroundSeparator(s, h, sep);
  }

  /** A text is its head, the separator after it, and the rest. */
  lemma AroundSeparator(s: string, h: string, sep: string)
    requires |h| < |s| && h == s[..|h|] && OccursAt(s, sep, |h|)
    ensures s == h + sep + s[|h| + |sep|..]
  {
    assert s[|h|..|h| + |sep|] == sep;
    assert s == s[..|h|] + s[|h|..|h| + |sep|] + s[|h| + |sep|..];
  }

  /** The head before a separator character is the text before its first
      occurrence. */
  lemma {:induction false} HeadBefore(a: string, c: char, b: string)
    requires c !in a
    ensures Head(a + [c] + b, [c]) == a
  {
    var s := a + [c] + b;
    if a == [] {
      assert s[..1] == [c];
    } else {
      assert s[..1] != [c] by { assert s[0] == a[0]; }
      assert s[1..] == a[1..] + [c] + b;
      HeadBefore(a[1..], c, b);
      assert a == [a[0]] + a[1..];
    }
  }

  /** Joining parts free of a separator character and splitting again
      gives back the parts. */
  lemma {:induction false} SplitJoinChar(parts: seq<string>, c: char)
    requires |parts| >= 1
    requires forall i :: 0 <= i < |parts| ==> c !in parts[i]
    ensures Split(Join(parts, [c]), [c]) == parts
  {
    if |parts| == 1 {
      HeadChar(parts[0], c);
    } else {
      var rest := Join(parts[1..], [c]);
      var s := parts[0] + [c] + rest;
      assert Join(parts, [c]) == s;
      HeadBefore(parts[0], c, rest);
      assert s[|parts[0]| + 1..] == rest;
      SplitJoinChar(parts[1..], c);
      assert parts == [parts[0]] + parts[1..];
    }
  }

  /** Splitting a text that lacks the separator gives one part. */
  lemma SplitAbsent(s: string, sep: string)
    requires |sep| > 0 && !Contains(s, sep)
    ensures Split(s, sep) == [s]
  {
    HeadAbsent(s, sep);
  }

  /** Python's `s.replace(pat, rep)`: leftmost, non-overlapping occurrences. */
  function Replace(s: string, pat: string, rep: string): (r: string)
    requires |pat| > 0
    decreases |s|
  {
    if IsPrefix(pat, s) then rep + Replace(s[|pat|..], pat, rep)
    else if s == [] then []
    else [s[0]] + Replace(s[1..], pat, rep)
  }

  /** Replacing one character by another maps the text pointwise. */
  lemma {:induction false} ReplaceChar(s: string, a: char, b: char)
    ensures |Replace(s, [a], [b])| == |s|
    ensures forall i :: 0 <= i < |s| ==>
              Replace(s, [a], [b])[i] == (if s[i] == a then b else s[i])
  {
    if s != [] {
      ReplaceChar(s[1..], a, b);
    }
  }

  /** Deleting a character removes every occurrence and keeps the other
      characters; a text without it is left alone. */
  lemma {:induction false} ReplaceDelete(s: string, c: char)
    ensures c !in Replace(s, [c], [])
    ensures forall x :: x != c ==> (x in Replace(s, [c], []) <==> x in s)
    ensures c !in s ==> Replace(s, [c], []) == s
  {
    if s != [] {
      ReplaceDelete(s[1..], c);
      assert IsPrefix([c], s) <==> s[0] == c;
      assert s == [s[0]] + s[1..];
    }
  }

  // ---------------------------------------------------------------- integers

  function DigitChar(d: nat): (c: char)
    requires d < 10
    ensures IsDigit(c)
  {
    ('0' as int + d) as char
  }

  function DigitValue(c: char): (d: nat)
    requires IsDigit(c)
    ensures d < 10 && DigitChar(d) == c
  {
    c as int - '0' as int
  }

  predicate AllDigits(s: string) { forall i :: 0 <= i < |s| ==> IsDigit(s[i]) }

  /** Python's `str(n)` for a natural number. */
  function NatToString(n: nat): (r: string)
    ensures |r| > 0 && AllDigits(r)
    ensures n > 0 ==> r[0] != '0'
  {
    if n < 10 then [DigitChar(n)]
    else NatToString(n / 10) + [DigitChar(n % 10)]
  }

  /** Python's `str(i)` for any integer. */
  function IntToString(i: int): (r: string)
    ensures |r| > 0
  {
    if i < 0 then "-" + NatToString(-i) else NatToString(i)
  }

  /** The value of a non-empty run of decimal digits. */
  function DigitsValue(s: string): nat
    requires AllDigits(s)
  {
    if s == [] then 0
    else DigitsValue(s[..|s| - 1]) * 10 + DigitValue(s[|s| - 1])
  }

  lemma {:induction false} DigitsValueNatToString(n: nat)
    ensures DigitsValue(NatToString(n)) == n
  {
    if n >= 10 {
      var s := NatToString(n);
      assert s[..|s| - 1] == NatToString(n / 10);
      DigitsValueNatToString(n / 10);
    }
  }

  /** Digits of a Python integer literal body: digits with single `_`
      between them (`1_000`), as `int()` accepts. */
  predicate IntBody(s: string) {
    |s| > 0 && IsDigit(s[0]) && IsDigit(s[|s| - 1])
    && (forall i :: 0 <= i < |s| ==> IsDigit(s[i]) || s[i] == '_')
    && (forall i :: 0 <= i < |s| - 1 ==> !(s[i] == '_' && s[i + 1] == '_'))
  }

  function DropUnderscores(s: string): (r: string)
    ensures (forall i :: 0 <= i < |s| ==> IsDigit(s[i]) || s[i] == '_') ==> AllDigits(r)
  {
    if s == [] then []
    else (if s[0] == '_' then [] else [s[0]]) + DropUnderscores(s[1..])
  }

  /** Python's `int(s)`: surrounding whitespace, an optional sign, then
      the digits; anything else is a `ValueError` (`None` here). Only
      ASCII digits are read. */
  function ParseInt(s: string): (r: Option<int>)
  {
    var t := Strip(s);
    if |t| > 0 && (t[0] == '-' || t[0] == '+') then
      var body := t[1..];
      if IntBody(body) then
        var v: int := DigitsValue(DropUnderscores(body));
        Some(if t[0] == '-' then -v else v)
      else None
    else if IntBody(t) then Some(DigitsValue(DropUnderscores(t)))
    else None
  }

  lemma AllDigitsDropUnderscores(s: string)
    requires AllDigits(s)
    ensures DropUnderscores(s) == s
  {
    if s != [] {
      AllDigitsDropUnderscores(s[1..]);
    }
  }

  /** `int(str(i)) == i`. */
  lemma ParseIntToString(i: int)
    ensures ParseInt(IntToString(i)) == Some(i)
  {
    var s := IntToString(i);
    var d := NatToString(if i < 0 then -i else i);
    assert Trimmed(s);
    StripTrimmed(s);
    AllDigitsDropUnderscores(d);
    DigitsValueNatToString(if i < 0 then -i else i);
    if i < 0 {
      assert s[1..] == d;
    }
  }

  // ---------------------------------------------------------------- slicing

  /** Python's `s[:n]`, including negative `n` (counted from the end). */
  function PyPrefix<T>(s: seq<T>, n: int): (r: seq<T>)
    ensures |r| <= |s| && r == s[..|r|]
    ensures n >= 0 ==> |r| == Min(n, |s|)
    ensures n < 0 ==> |r| == Max(0, |s| + n)
  {
    if n >= 0 then s[..Min(n, |s|)] else s[..Max(0, |s| + n)]
  }

  // ---------------------------------------------------------------- ordering

  /** Python's `<=` on strings: lexicographic by code point. */
  predicate StrLe(a: string, b: string)
    decreases |a|
  {
    if a == [] then true
    else if b == [] then false
    else if a[0] != b[0] then a[0] < b[0]
    else StrLe(a[1..], b[1..])
  }

  lemma StrLeTotal(a: string, b: string)
    ensures StrLe(a, b) || StrLe(b, a)
    decreases |a|
  {
    if a != [] && b != [] && a[0] == b[0] {
      StrLeTotal(a[1..], b[1..]);
    }
  }

  lemma StrLeTrans(a: string, b: string, c: string)
    requires StrLe(a, b) && StrLe(b, c)
    ensures StrLe(a, c)
    decreases |a|
  {
    if a != [] && b != [] && c != [] && a[0] == b[0] && b[0] == c[0] {
      StrLeTrans(a[1..], b[1..], c[1..]);
    }
  }

  lemma StrLeAntisym(a: string, b: string)
    requires StrLe(a, b) && StrLe(b, a)
    ensures a == b
    decreases |a|
  {
    if a != [] && b != [] {
      StrLeAntisym(a[1..], b[1..]);
      assert a == [a[0]] + a[1..];
      assert b == [b[0]] + b[1..];
    }
  }
}
