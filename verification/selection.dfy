/** Interactive playlist selection: a set of 1-based playlist indices that
    the user edits with commands (`all`, `none`, `mine`, `liked`, `invert`,
    `help`), `@owner` toggles and number/range toggles. */
module Selection {
  import opened Common
  import opened Text
  import Sorting

  /** A Spotify playlist as the selection and the migration see it. */
  datatype Playlist = Playlist(
    id: string,
    name: string,
    ownerId: string,            // "" when absent, where the source shows "Unknown"
    ownerDisplayName: string,   // "" when absent
    likedSongs: bool,           // the synthetic "Liked Songs" entry
    trackTotal: nat)

  /** The display name of the owner, else the owner id. */
  function OwnerName(p: Playlist): string {
    if p.ownerDisplayName != "" then p.ownerDisplayName else p.ownerId
  }

  function OwnerKey(p: Playlist): string { Lower(OwnerName(p)) }

  /** The user's own playlists: the owner id equals a non-empty user id. */
  predicate OwnedBy(p: Playlist, userId: Option<string>) {
    userId.Some? && userId.value != "" && p.ownerId == userId.value
  }

  // ---------------------------------------------------------------- owners

  /** One entry of the owner map: lower-cased owner and 1-based indices. */
  datatype OwnerEntry = OwnerEntry(owner: string, indices: seq<int>)

  /** The lower-cased owner of every playlist, in order. */
  function Keys(ps: seq<Playlist>): (ks: seq<string>)
    ensures |ks| == |ps|
    ensures forall j :: 0 <= j < |ps| ==> ks[j] == OwnerKey(ps[j])
  {
    seq(|ps|, j requires 0 <= j < |ps| => OwnerKey(ps[j]))
  }

  /** The ascending 1-based indices `<= k` whose key is `key`. */
  function IndicesOf<K(==)>(ks: seq<K>, key: K, k: nat): (r: seq<int>)
    requires k <= |ks|
    ensures forall j :: j in r <==> 1 <= j <= k && ks[j - 1] == key
  {
    if k == 0 then []
    else IndicesOf(ks, key, k - 1) + (if ks[k - 1] == key then [k] else [])
  }

  lemma {:induction false} IndicesOfIncreasing<K>(ks: seq<K>, key: K, k: nat)
    requires k <= |ks|
    ensures StrictlyIncreasing(IndicesOf(ks, key, k))
  {
    if k > 0 {
      IndicesOfIncreasing(ks, key, k - 1);
      var prev := IndicesOf(ks, key, k - 1);
      var r := IndicesOf(ks, key, k);
      forall a, b | 0 <= a < b < |r|
        ensures r[a] < r[b]
      {
        if b == |prev| {
          assert prev[a] in prev;
        }
      }
    }
  }

  /** The keys among the first `k` in order of first appearance, each once. */
  function FirstSeen<K(==)>(ks: seq<K>, k: nat): (r: seq<K>)
    requires k <= |ks|
    ensures forall j :: 0 <= j < k ==> ks[j] in r
    ensures forall a, b :: 0 <= a < b < |r| ==> r[a] != r[b]
  {
    if k == 0 then []
    else
      var prev := FirstSeen(ks, k - 1);
      if ks[k - 1] in prev then prev else prev + [ks[k - 1]]
  }

  /** The position of `x` in `s`. */
  function PositionOf<K(==)>(s: seq<K>, x: K): (a: nat)
    requires x in s
    ensures a < |s| && s[a] == x
  {
    if s[0] == x then 0 else PositionOf(s[1..], x) + 1
  }

  /** Index `i` belongs to the group of exactly one first-seen key: the key
      at `i`, wherever it sits among the first-seen keys. */
  lemma GroupOfIndex<K>(ks: seq<K>, i: int, a: int)
    requires 1 <= i <= |ks|
    requires 0 <= a < |FirstSeen(ks, |ks|)|
    ensures i in IndicesOf(ks, FirstSeen(ks, |ks|)[a], |ks|) <==> a == PositionOf(FirstSeen(ks, |ks|), ks[i - 1])
  {
    var keys := FirstSeen(ks, |ks|);
    assert ks[i - 1] in keys;
    var p := PositionOf(keys, ks[i - 1]);
    if a < p {
      assert keys[a] != keys[p];
    } else if p < a {
      assert keys[p] != keys[a];
    }
  }

  function Entries(ks: seq<string>, keys: seq<string>): (r: seq<OwnerEntry>)
    ensures |r| == |keys|
    ensures forall a :: 0 <= a < |r| ==> r[a].owner == keys[a] && r[a].indices == IndicesOf(ks, keys[a], |ks|)
  {
    if keys == [] then [] else [OwnerEntry(keys[0], IndicesOf(ks, keys[0], |ks|))] + Entries(ks, keys[1..])
  }

  /** `get_unique_owners`: each lower-cased owner, in order of first
      appearance, with its playlist indices. */
  function UniqueOwners(ps: seq<Playlist>): seq<OwnerEntry> {
    var ks := Keys(ps);
    Entries(ks, FirstSeen(ks, |ks|))
  }

  /** The owner map partitions `1..n`: every index is listed under exactly
      one owner — the owner of that playlist. */
  lemma UniqueOwnersPartition(ps: seq<Playlist>, i: int)
    requires 1 <= i <= |ps|
    ensures var owners := UniqueOwners(ps);
            exists a :: 0 <= a < |owners| && i in owners[a].indices
              && owners[a].owner == OwnerKey(ps[i - 1])
    ensures var owners := UniqueOwners(ps);
            forall a, b :: (0 <= a < |owners| && 0 <= b < |owners|
              && i in owners[a].indices && i in owners[b].indices) ==> a == b
  {
    var ks := Keys(ps);
    var keys := FirstSeen(ks, |ks|);
    var owners := Entries(ks, keys);
    assert owners == UniqueOwners(ps);
    assert ks[i - 1] in keys;
    var p := PositionOf(keys, ks[i - 1]);
    GroupOfIndex(ks, i, p);
    assert i in owners[p].indices && owners[p].owner == OwnerKey(ps[i - 1]);
    forall a, b | 0 <= a < |owners| && 0 <= b < |owners| && i in owners[a].indices && i in owners[b].indices
      ensures a == b
    {
      GroupOfIndex(ks, i, a);
      GroupOfIndex(ks, i, b);
    }
  }

  /** Every index list of the owner map ascends and lies inside `1..n`. */
  lemma UniqueOwnersLists(ps: seq<Playlist>, a: int)
    requires 0 <= a < |UniqueOwners(ps)|
    ensures StrictlyIncreasing(UniqueOwners(ps)[a].indices)
    ensures forall j :: j in UniqueOwners(ps)[a].indices ==> 1 <= j <= |ps|
  {
    var ks := Keys(ps);
    assert UniqueOwners(ps)[a].indices == IndicesOf(ks, UniqueOwners(ps)[a].owner, |ks|);
    assert forall j :: j in IndicesOf(ks, UniqueOwners(ps)[a].owner, |ks|) ==> 1 <= j <= |ks|;
    IndicesOfIncreasing(ks, UniqueOwners(ps)[a].owner, |ks|);
  }

  // ---------------------------------------------------------------- messages

  /** The message `parse_selection_input` returns with the new selection. */
  datatype Message =
    | NoMessage
    | SelectedAll
    | DeselectedAll
    | SelectedOwned(count: nat)
    | SelectedLiked
    | NoLiked
    | Inverted
    | Help
    | MissingOwner
    | NoOwnerMatch(query: string)
    | ToggledOwners(count: nat, owners: seq<string>)
    | InvalidNumber(index: int)
    | NoValidNumbers
    | InvalidInput(input: string)
    | ToggledNumbers(listed: seq<int>)   // sorted, without repeats

  /** The indices of `s` without repeats, first occurrences kept. */
  function Unique(s: seq<int>): (r: seq<int>)
    ensures forall x :: x in r <==> x in s
    ensures forall a, b :: 0 <= a < b < |r| ==> r[a] != r[b]
  {
    if s == [] then []
    else
      var rest := Unique(s[..|s| - 1]);
      if s[|s| - 1] in rest then rest else rest + [s[|s| - 1]]
  }

  function IntLe(a: int, b: int): bool { a <= b }

  function JoinInts(xs: seq<int>): string {
    if xs == [] then "" else if |xs| == 1 then IntToString(xs[0])
    else IntToString(xs[0]) + ", " + JoinInts(xs[1..])
  }

  /** `sorted(set(toggled))` */
  function Listed(t: seq<int>): seq<int> {
    Sorting.SortBy(Unique(t), IntLe)
  }

  /** The toggled indices appear in the message once each, ascending. */
  lemma NumbersListed(t: seq<int>)
    ensures var l := Listed(t);
            StrictlyIncreasing(l) && (forall x :: x in l <==> x in t)
  {
    var u := Unique(t);
    var l := Sorting.SortBy(u, IntLe);
    Sorting.SortBySorted(u, IntLe);
    assert multiset(l) == multiset(u);
    forall x ensures x in l <==> x in u {
      assert x in l <==> x in multiset(l);
      assert x in u <==> x in multiset(u);
    }
    forall a, b | 0 <= a < b < |l|
      ensures l[a] < l[b]
    {
      assert IntLe(l[a], l[b]);
      SortedDistinctAt(u, l, a, b);
    }
  }

  /** Two positions of a sorted permutation of a duplicate-free sequence hold different values. */
  lemma SortedDistinctAt(u: seq<int>, l: seq<int>, a: int, b: int)
    requires forall i, j :: 0 <= i < j < |u| ==> u[i] != u[j]
    requires multiset(l) == multiset(u)
    requires 0 <= a < b < |l| && l[a] <= l[b]
    ensures l[a] < l[b]
  {
    if l[a] == l[b] {
      DistinctCount(u, l[a]);
      MultisetTwo(l, a, b);
    }
  }

  lemma DistinctCount(u: seq<int>, x: int)
    requires forall a, b :: 0 <= a < b < |u| ==> u[a] != u[b]
    ensures multiset(u)[x] <= 1
  {
    if u != [] {
      DistinctCount(u[1..], x);
      assert u == [u[0]] + u[1..];
      if u[0] == x {
        assert x !in u[1..];
      }
    }
  }

  lemma MultisetTwo(l: seq<int>, a: int, b: int)
    requires 0 <= a < b < |l| && l[a] == l[b]
    ensures multiset(l)[l[a]] >= 2
  {
    assert l == l[..a] + [l[a]] + l[a + 1..b] + [l[b]] + l[b + 1..];
  }

  /** The words the success messages start with. */
  const ToggledWord: string := "Toggled"
  const SelectedWord: string := "Selected"
  const DeselectedWord: string := "Deselected"
  const InvertedWord: string := "Inverted"

  /** The message text. */
  function Render(m: Message): string {
    match m
    case NoMessage => ""
    case SelectedAll => SelectedWord + " all playlists"
    case DeselectedAll => DeselectedWord + " all playlists"
    case SelectedOwned(k) => SelectedWord + " " + NatToString(k) + " owned playlists"
    case SelectedLiked => SelectedWord + " Liked Songs"
    case NoLiked => "No Liked Songs available"
    case Inverted => InvertedWord + " selection"
    case Help => "help"
    case MissingOwner => "Please specify an owner name after @"
    case NoOwnerMatch(q) => "No owner found matching '" + q + "'"
    case ToggledOwners(k, os) => ToggledWord + " " + NatToString(k) + " playlists by " + Join(os, ", ")
    case InvalidNumber(i) => "Invalid playlist number: " + IntToString(i)
    case NoValidNumbers => "No valid playlist numbers provided"
    case InvalidInput(s) => "Invalid input: '" + s + "'. Type 'help' for commands."
    case ToggledNumbers(l) => ToggledWord + " playlist(s): " + JoinInts(l)
  }

  /** The interactive loop applies a result unless its message is
      non-empty and starts with none of the success words. */
  predicate LoopAccepts(text: string) {
    text == "" || IsPrefix(ToggledWord, text) || IsPrefix(SelectedWord, text)
    || IsPrefix(DeselectedWord, text) || IsPrefix(InvertedWord, text)
  }

  predicate IsSuccess(m: Message) {
    m.NoMessage? || m.SelectedAll? || m.DeselectedAll? || m.SelectedOwned?
    || m.SelectedLiked? || m.Inverted? || m.ToggledOwners? || m.ToggledNumbers?
  }

  /** A text that starts with an accepted word is accepted. */
  lemma AcceptedWord(word: string, rest: string)
    requires word in [ToggledWord, SelectedWord, DeselectedWord, InvertedWord]
    ensures LoopAccepts(word + rest)
  {
    assert (word + rest)[..|word|] == word;
  }

  lemma NotPrefixAt(p: string, t: string, i: nat)
    requires i < |p| && i < |t| && p[i] != t[i]
    ensures !IsPrefix(p, t)
  {
  }

  /** A text whose first letters rule out every success word. */
  lemma Rejected(t: string, i: nat)
    requires i < 7 && i < |t|
    requires t[i] != "Toggled"[i] && t[i] != "Selected"[i]
    requires t[i] != "Deselected"[i] && t[i] != "Inverted"[i]
    ensures !LoopAccepts(t)
  {
    NotPrefixAt("Toggled", t, i);
    NotPrefixAt("Selected", t, i);
    NotPrefixAt("Deselected", t, i);
    NotPrefixAt("Inverted", t, i);
  }

  /** Every success message passes the loop's prefix test. */
  lemma SuccessAccepted(m: Message)
    requires IsSuccess(m)
    ensures LoopAccepts(Render(m))
  {
    match m
    case NoMessage =>
    case SelectedAll => AcceptedWord(SelectedWord, " all playlists");
    case DeselectedAll => AcceptedWord(DeselectedWord, " all playlists");
    case SelectedOwned(k) => OwnedAccepted(k);
    case SelectedLiked => AcceptedWord(SelectedWord, " Liked Songs");
    case Inverted => AcceptedWord(InvertedWord, " selection");
    case ToggledOwners(k, os) => OwnersAccepted(k, os);
    case ToggledNumbers(x) => NumbersAccepted(x);
  }

  lemma OwnedAccepted(k: nat)
    ensures LoopAccepts(Render(SelectedOwned(k)))
  {
    TextAccepted(SelectedWord, " ", NatToString(k) + " owned playlists");
    assert Render(SelectedOwned(k)) == SelectedWord + " " + (NatToString(k) + " owned playlists");
  }

  lemma OwnersAccepted(k: nat, os: seq<string>)
    ensures LoopAccepts(Render(ToggledOwners(k, os)))
  {
    TextAccepted(ToggledWord, " ", NatToString(k) + " playlists by " + Join(os, ", "));
    assert Render(ToggledOwners(k, os)) == ToggledWord + " " + (NatToString(k) + " playlists by " + Join(os, ", "));
  }

  lemma NumbersAccepted(x: seq<int>)
    ensures LoopAccepts(Render(ToggledNumbers(x)))
  {
    TextAccepted(ToggledWord, " playlist(s): ", JoinInts(x));
  }

  /** A word, a literal and any text: accepted when the word is. */
  lemma TextAccepted(word: string, lit: string, rest: string)
    requires word in [ToggledWord, SelectedWord, DeselectedWord, InvertedWord]
    ensures LoopAccepts(word + lit + rest)
  {
    AcceptedWord(word, lit + rest);
    assert word + lit + rest == word + (lit + rest);
  }

  /** Every error message, and "help", fails the loop's prefix test. */
  lemma ErrorRejected(m: Message)
    requires !IsSuccess(m)
    ensures !LoopAccepts(Render(m))
  {
    match m
    case NoLiked => Rejected(Render(m), 0);
    case Help => Rejected(Render(m), 0);
    case MissingOwner => Rejected(Render(m), 0);
    case NoOwnerMatch(q) => Rejected(Render(m), 0);
    case NoValidNumbers => Rejected(Render(m), 0);
    case InvalidNumber(i) => Rejected(Render(m), 3);
    case InvalidInput(x) => Rejected(Render(m), 3);
  }

  /** The loop's prefix test on the text picks out exactly the success
      messages (and never "help"). */
  lemma LoopAcceptsSuccess(m: Message)
    ensures LoopAccepts(Render(m)) <==> IsSuccess(m)
  {
    if IsSuccess(m) {
      SuccessAccepted(m);
    } else {
      ErrorRejected(m);
    }
  }

  // ---------------------------------------------------------------- toggling

  function Toggle(sel: set<int>, i: int): (r: set<int>)
    ensures r == SymDiff(sel, {i})
  {
    if i in sel then sel - {i} else sel + {i}
  }

  /** Toggle each index of `idxs` in turn. */
  function ToggleAll(sel: set<int>, idxs: seq<int>): set<int>
    decreases |idxs|
  {
    if idxs == [] then sel else ToggleAll(Toggle(sel, idxs[0]), idxs[1..])
  }

  /** Toggling a list acts on any selection like toggling the empty one
      and taking the symmetric difference. */
  lemma {:induction false} ToggleAllShift(sel: set<int>, idxs: seq<int>)
    ensures ToggleAll(sel, idxs) == SymDiff(sel, ToggleAll({}, idxs))
    decreases |idxs|
  {
    if idxs != [] {
      var x := idxs[0];
      ToggleAllShift(Toggle(sel, x), idxs[1..]);
      ToggleAllShift({x}, idxs[1..]);
      assert Toggle({}, x) == {x};
      SymDiffAssoc(sel, {x}, ToggleAll({}, idxs[1..]));
    }
  }

  /** Toggling the same list twice restores the selection. */
  lemma ToggleAllTwice(sel: set<int>, idxs: seq<int>)
    ensures ToggleAll(ToggleAll(sel, idxs), idxs) == sel
  {
    ToggleAllShift(sel, idxs);
    ToggleAllShift(ToggleAll(sel, idxs), idxs);
    SymDiffSelf(sel, ToggleAll({}, idxs));
  }

  /** Toggling distinct indices toggles exactly the set of them. */
  lemma {:induction false} ToggleAllDistinct(sel: set<int>, idxs: seq<int>)
    requires forall a, b :: 0 <= a < b < |idxs| ==> idxs[a] != idxs[b]
    ensures ToggleAll(sel, idxs) == SymDiff(sel, Elems(idxs))
    decreases |idxs|
  {
    if idxs != [] {
      ToggleAllDistinct(Toggle(sel, idxs[0]), idxs[1..]);
      assert idxs[0] !in Elems(idxs[1..]);
      assert Elems(idxs) == {idxs[0]} + Elems(idxs[1..]);
      SymDiffAssoc(sel, {idxs[0]}, Elems(idxs[1..]));
    }
  }

  /** Toggling indices of `1..n` keeps a selection inside `1..n`. */
  lemma {:induction false} ToggleAllIn(sel: set<int>, idxs: seq<int>, n: int)
    requires forall i :: i in sel ==> 1 <= i <= n
    requires forall i :: i in idxs ==> 1 <= i <= n
    ensures forall i :: i in ToggleAll(sel, idxs) ==> 1 <= i <= n
    decreases |idxs|
  {
    if idxs != [] {
      assert idxs[0] in idxs;
      assert forall i :: i in idxs[1..] ==> i in idxs;
      ToggleAllIn(Toggle(sel, idxs[0]), idxs[1..], n);
    }
  }

  /** `for idx in range(lo, hi + 1): if 1 <= idx <= n` — the indices a range
      toggles, in the order it toggles them. */
  function RangeIndices(lo: int, hi: int, n: int): (r: seq<int>)
    ensures forall x :: x in r <==> Max(lo, 1) <= x <= Min(hi, n)
    decreases if lo <= hi then hi - lo + 1 else 0
  {
    if lo > hi then []
    else (if 1 <= lo <= n then [lo] else []) + RangeIndices(lo + 1, hi, n)
  }

  lemma {:induction false} RangeIndicesIncreasing(lo: int, hi: int, n: int)
    ensures StrictlyIncreasing(RangeIndices(lo, hi, n))
    decreases if lo <= hi then hi - lo + 1 else 0
  {
    if lo <= hi {
      RangeIndicesIncreasing(lo + 1, hi, n);
      var rest := RangeIndices(lo + 1, hi, n);
      var r := RangeIndices(lo, hi, n);
      if 1 <= lo <= n {
        forall a, b | 0 <= a < b < |r|
          ensures r[a] < r[b]
        {
          if a == 0 {
            assert rest[b - 1] in rest;
          } else {
            assert r[a] == rest[a - 1] && r[b] == rest[b - 1];
          }
        }
      }
    }
  }

  /** A range toggles exactly its indices inside `1..n`. */
  lemma RangeToggle(sel: set<int>, lo: int, hi: int, n: int)
    ensures ToggleAll(sel, RangeIndices(lo, hi, n)) == SymDiff(sel, Range(Max(lo, 1), Min(hi, n)))
  {
    var r := RangeIndices(lo, hi, n);
    RangeIndicesIncreasing(lo, hi, n);
    ToggleAllDistinct(sel, r);
    assert Elems(r) == Range(Max(lo, 1), Min(hi, n));
  }

  // ---------------------------------------------------------------- numbers

  /** What one part, or all parts, ask for: indices to toggle in order, or
      the message that rejects the whole input. */
  datatype PartResult = Toggles(idxs: seq<int>) | Fails(msg: Message)

  /** One part: a range `a-b` (bounds swapped when reversed, indices outside
      `1..n` skipped) or a single number (outside `1..n` rejects the input);
      anything `int()` refuses rejects it with the invalid-input message. */
  function PartIndices(part: string, input: string, n: int): (r: PartResult)
    ensures r.Toggles? ==> forall i :: i in r.idxs ==> 1 <= i <= n
  {
    if '-' in part then
      var halves := SplitOnce(part, '-');
      match (ParseInt(halves.0), ParseInt(halves.1))
      case (Some(a), Some(b)) => Toggles(RangeIndices(Min(a, b), Max(a, b), n))
      case _ => Fails(InvalidInput(input))
    else
      match ParseInt(part)
      case None => Fails(InvalidInput(input))
      case Some(i) => if 1 <= i <= n then Toggles([i]) else Fails(InvalidNumber(i))
  }

  /** The parts in order; the first rejected part rejects the input. */
  function PartsIndices(parts: seq<string>, input: string, n: int): (r: PartResult)
    ensures r.Toggles? ==> forall i :: i in r.idxs ==> 1 <= i <= n
    ensures r.Toggles? <==> forall k :: 0 <= k < |parts| ==> PartIndices(parts[k], input, n).Toggles?
    ensures r.Fails? ==> exists k :: 0 <= k < |parts| && r == PartIndices(parts[k], input, n)
                                     && forall j :: 0 <= j < k ==> PartIndices(parts[j], input, n).Toggles?
  {
    if parts == [] then Toggles([])
    else
      match PartIndices(parts[0], input, n)
      case Fails(m) => Fails(m)
      case Toggles(xs) =>
        var rest := PartsIndices(parts[1..], input, n);
        assert forall k :: 1 <= k < |parts| ==> parts[k] == parts[1..][k - 1];
        match rest
        case Fails(m) =>
          var k :| 0 <= k < |parts[1..]| && rest == PartIndices(parts[1..][k], input, n)
                   && forall j :: 0 <= j < k ==> PartIndices(parts[1..][j], input, n).Toggles?;
          assert Fails(m) == PartIndices(parts[k + 1], input, n);
          Fails(m)
        case Toggles(ys) => Toggles(xs + ys)
  }

  /** `[p.strip() for p in parts if p.strip()]` */
  function NonBlank(parts: seq<string>): seq<string> {
    if parts == [] then []
    else (if Strip(parts[0]) == "" then [] else [Strip(parts[0])]) + NonBlank(parts[1..])
  }

  /** The number/range branch on the stripped input: spaces act as commas;
      a rejected part leaves the selection untouched even when earlier
      parts toggled something. */
  function ParseNumbers(input: string, n: int, current: set<int>): (set<int>, Message) {
    var parts := NonBlank(Split(Replace(input, " ", ","), ","));
    match PartsIndices(parts, input, n)
    case Fails(m) => (current, m)
    case Toggles(t) =>
      if t != [] then (ToggleAll(current, t), ToggledNumbers(Listed(t))) else (current, NoValidNumbers)
  }

  /** A number/range input that succeeds once succeeds again on its own
      result, with the same message, and restores the selection. */
  lemma ParseNumbersTwice(input: string, n: int, current: set<int>)
    ensures var once := ParseNumbers(input, n, current);
            var twice := ParseNumbers(input, n, once.0);
            once.1.ToggledNumbers? ==> twice.1 == once.1 && twice.0 == current
  {
    var parts := NonBlank(Split(Replace(input, " ", ","), ","));
    var r := PartsIndices(parts, input, n);
    if r.Toggles? {
      ToggleAllTwice(current, r.idxs);
    }
  }

  /** The number/range branch keeps a selection inside `1..n`. */
  lemma ParseNumbersInRange(input: string, n: int, current: set<int>)
    requires forall i :: i in current ==> 1 <= i <= n
    ensures forall i :: i in ParseNumbers(input, n, current).0 ==> 1 <= i <= n
  {
    var parts := NonBlank(Split(Replace(input, " ", ","), ","));
    var r := PartsIndices(parts, input, n);
    if r.Toggles? {
      ToggleAllIn(current, r.idxs, n);
    }
  }

  // ---------------------------------------------------------------- commands

  function Owned(ps: seq<Playlist>, userId: Option<string>): set<int> {
    IndicesWhere(ps, p => OwnedBy(p, userId), |ps|)
  }

  function Liked(ps: seq<Playlist>): set<int> {
    IndicesWhere(ps, (p: Playlist) => p.likedSongs, |ps|)
  }

  /** The `@owner` branch: toggle every playlist of every owner whose name
      contains the query. */
  function ParseOwner(input: string, current: set<int>, owners: seq<OwnerEntry>): (set<int>, Message)
    requires |input| > 0
  {
    var q := Strip(Lower(input[1..]));
    if q == "" then (current, MissingOwner)
    else
      var hits := MatchingOwners(owners, q);
      if hits.0 == [] then (current, NoOwnerMatch(q))
      else (ToggleAll(current, hits.0), ToggledOwners(|hits.0|, hits.1))
  }

  /** The indices and names of the owners whose name contains `q`. */
  function MatchingOwners(owners: seq<OwnerEntry>, q: string): (seq<int>, seq<string>) {
    if owners == [] then ([], [])
    else
      var rest := MatchingOwners(owners[1..], q);
      if Contains(owners[0].owner, q) then (owners[0].indices + rest.0, [owners[0].owner] + rest.1)
      else rest
  }

  /** What the stripped input asks for; commands are case-insensitive. */
  datatype Command = Done | All | Clear | Mine | LikedCmd | Invert | HelpCmd | Owner | Numbers

  function Classify(s: string): (c: Command)
    ensures c == Owner ==> |s| > 0 && s[0] == '@'
  {
    ClassifyLowered(s == "", Lower(s), |s| > 0 && s[0] == '@')
  }

  /** The command for the lower-cased input `cmd`, given whether the input
      is empty and whether it starts with '@'. */
  function ClassifyLowered(empty: bool, cmd: string, at: bool): (c: Command)
    ensures c == Owner ==> at
  {
    if empty || cmd == "done" then Done
    else if cmd == "all" then All
    else if cmd == "none" then Clear
    else if cmd == "mine" then Mine
    else if cmd == "liked" then LikedCmd
    else if cmd == "invert" then Invert
    else if cmd == "help" then HelpCmd
    else if at then Owner
    else Numbers
  }

  /** `parse_selection_input`. */
  function ParseSelection(input: string, ps: seq<Playlist>, current: set<int>,
                          userId: Option<string>, owners: seq<OwnerEntry>): (r: (set<int>, Message))
    // a selection inside `1..n` stays inside, given an owner map inside it
    ensures (forall i :: i in current ==> 1 <= i <= |ps|)
            && (forall a, j :: 0 <= a < |owners| && j in owners[a].indices ==> 1 <= j <= |ps|)
            ==> forall i :: i in r.0 ==> 1 <= i <= |ps|
  {
    var s := Strip(input);
    var n := |ps|;
    var inRange := (forall i :: i in current ==> 1 <= i <= n)
                   && (forall a, j :: 0 <= a < |owners| && j in owners[a].indices ==> 1 <= j <= n);
    match Classify(s)
    case Done => (current, NoMessage)
    case All => (Range(1, n), SelectedAll)
    case Clear => ({}, DeselectedAll)
    case Mine =>
      var m := Owned(ps, userId);
      (m, SelectedOwned(|m|))
    case LikedCmd =>
      var l := Liked(ps);
      if l != {} then (l, SelectedLiked) else (current, NoLiked)
    case Invert => (Range(1, n) - current, Inverted)
    case HelpCmd => (current, Help)
    case Owner =>
      if inRange then ParseOwnerInRange(s, current, owners, n); ParseOwner(s, current, owners)
      else ParseOwner(s, current, owners)
    case Numbers =>
      if inRange then ParseNumbersInRange(s, n, current); ParseNumbers(s, n, current)
      else ParseNumbers(s, n, current)
  }

  /** An empty input or `done` changes nothing; `all` selects `1..n`,
      `none` clears the selection and `invert` complements it within
      `1..n`. */
  lemma ParseSelectionCommands(input: string, ps: seq<Playlist>, current: set<int>,
                               userId: Option<string>, owners: seq<OwnerEntry>)
    ensures var c := Classify(Strip(input));
            var r := ParseSelection(input, ps, current, userId, owners);
            (c == Done ==> r == (current, NoMessage))
            && (c == All ==> r.0 == Range(1, |ps|))
            && (c == Clear ==> r.0 == {})
            && (c == Invert ==> r.0 == Range(1, |ps|) - current)
  {
  }

  /** `mine` selects exactly the user's own playlists, and none without a
      user id. */
  lemma ParseSelectionMine(input: string, ps: seq<Playlist>, current: set<int>,
                           userId: Option<string>, owners: seq<OwnerEntry>)
    requires Classify(Strip(input)) == Mine
    ensures var r := ParseSelection(input, ps, current, userId, owners);
            (forall i :: i in r.0 <==> 1 <= i <= |ps| && OwnedBy(ps[i - 1], userId))
            && r.1 == SelectedOwned(|r.0|)
            && (userId.None? ==> r.0 == {})
  {
    var r := ParseSelection(input, ps, current, userId, owners);
    assert r == (Owned(ps, userId), SelectedOwned(|Owned(ps, userId)|));
    OwnedExact(ps, userId);
  }

  /** `{i for i, p in enumerate(playlists, 1) if user_id and p.owner.id ==
      user_id}`: nothing without a user id. */
  lemma OwnedExact(ps: seq<Playlist>, userId: Option<string>)
    ensures forall i :: i in Owned(ps, userId) <==> 1 <= i <= |ps| && OwnedBy(ps[i - 1], userId)
    ensures userId.None? ==> Owned(ps, userId) == {}
  {
    if userId.None? {
      assert forall i :: i in Owned(ps, userId) ==> false;
    }
  }

  /** `liked` selects exactly the Liked Songs entries when there are any,
      and otherwise changes nothing and says so. */
  lemma ParseSelectionLiked(input: string, ps: seq<Playlist>, current: set<int>,
                            userId: Option<string>, owners: seq<OwnerEntry>)
    requires Classify(Strip(input)) == LikedCmd
    ensures var r := ParseSelection(input, ps, current, userId, owners);
            ((exists j :: 0 <= j < |ps| && ps[j].likedSongs) ==>
               (forall i :: i in r.0 <==> 1 <= i <= |ps| && ps[i - 1].likedSongs) && r.1 == SelectedLiked)
            && ((forall j :: 0 <= j < |ps| ==> !ps[j].likedSongs) ==> r == (current, NoLiked))
  {
    if exists j :: 0 <= j < |ps| && ps[j].likedSongs {
      var j :| 0 <= j < |ps| && ps[j].likedSongs;
      assert j + 1 in Liked(ps);
    } else {
      assert Liked(ps) == {};
    }
  }

  /** The commands are matched case-insensitively. */
  lemma ClassifyCaseInsensitive(s: string)
    requires Trimmed(s)
    requires s == [] || s[0] != '@'
    ensures Classify(s) == Classify(Lower(s))
  {
    var l := Lower(s);
    LowerIdempotent(s);
    LowerAt(s);
    if |s| > 0 {
      assert l[0] == LowerChar(s[0]);
    }
    assert (s == "") == (l == "") && !(|l| > 0 && l[0] == '@');
  }

  /** Any rejected input (an error message or "help") leaves the selection
      as it was: a bad part rejects the whole input even after earlier parts
      toggled something. */
  lemma ParseSelectionAtomic(input: string, ps: seq<Playlist>, current: set<int>,
                             userId: Option<string>, owners: seq<OwnerEntry>)
    ensures var r := ParseSelection(input, ps, current, userId, owners);
            !LoopAccepts(Render(r.1)) ==> r.0 == current
  {
    var r := ParseSelection(input, ps, current, userId, owners);
    LoopAcceptsSuccess(r.1);
  }

  /** An `@owner` query that matches no owner changes nothing. */
  lemma ParseOwnerNoMatch(input: string, current: set<int>, owners: seq<OwnerEntry>)
    requires |input| > 0
    requires forall a :: 0 <= a < |owners| ==> !Contains(owners[a].owner, Strip(Lower(input[1..])))
    ensures ParseOwner(input, current, owners).0 == current
  {
    var q := Strip(Lower(input[1..]));
    if q != "" {
      NoMatchingOwners(owners, q);
    }
  }

  lemma {:induction false} NoMatchingOwners(owners: seq<OwnerEntry>, q: string)
    requires forall a :: 0 <= a < |owners| ==> !Contains(owners[a].owner, q)
    ensures MatchingOwners(owners, q).0 == []
  {
    if owners != [] {
      NoMatchingOwners(owners[1..], q);
    }
  }

  lemma {:induction false} MatchingOwnersIn(owners: seq<OwnerEntry>, q: string, n: int)
    requires forall a, j :: 0 <= a < |owners| && j in owners[a].indices ==> 1 <= j <= n
    ensures forall j :: j in MatchingOwners(owners, q).0 ==> 1 <= j <= n
  {
    if owners != [] {
      MatchingOwnersIn(owners[1..], q, n);
    }
  }

  /** The `@owner` branch keeps a selection inside `1..n` when the owner
      map lists only indices of `1..n`. */
  lemma ParseOwnerInRange(input: string, current: set<int>, owners: seq<OwnerEntry>, n: int)
    requires |input| > 0
    requires forall i :: i in current ==> 1 <= i <= n
    requires forall a, j :: 0 <= a < |owners| && j in owners[a].indices ==> 1 <= j <= n
    ensures forall i :: i in ParseOwner(input, current, owners).0 ==> 1 <= i <= n
  {
    var q := Strip(Lower(input[1..]));
    MatchingOwnersIn(owners, q, n);
    ToggleAllIn(current, MatchingOwners(owners, q).0, n);
  }

  lemma UniqueOwnersIn(ps: seq<Playlist>)
    ensures var owners := UniqueOwners(ps);
            forall a, j :: 0 <= a < |owners| && j in owners[a].indices ==> 1 <= j <= |ps|
  {
  }

  /** Starting inside `1..n`, every input keeps the selection inside
      `1..n` (with the owner map built from the same playlists). */
  lemma ParseSelectionInRange(input: string, ps: seq<Playlist>, current: set<int>, userId: Option<string>)
    requires forall i :: i in current ==> 1 <= i <= |ps|
    ensures var r := ParseSelection(input, ps, current, userId, UniqueOwners(ps));
            forall i :: i in r.0 ==> 1 <= i <= |ps|
  {
    var s := Strip(input);
    match Classify(s)
    case Owner =>
      UniqueOwnersIn(ps);
      ParseOwnerInRange(s, current, UniqueOwners(ps), |ps|);
    case Numbers =>
      ParseNumbersInRange(s, |ps|, current);
    case _ =>
  }

  /** `invert` twice restores a selection inside `1..n`. */
  lemma InvertTwice(input: string, ps: seq<Playlist>, current: set<int>, userId: Option<string>,
                    owners: seq<OwnerEntry>)
    requires Classify(Strip(input)) == Invert
    requires forall i :: i in current ==> 1 <= i <= |ps|
    ensures var once := ParseSelection(input, ps, current, userId, owners);
            ParseSelection(input, ps, once.0, userId, owners).0 == current
  {
  }

  // ---------------------------------------------------------------- loop

  /** The initial selection: the owned playlists when `default_mine` and a
      user id are given, else nothing. */
  function InitialSelection(ps: seq<Playlist>, userId: Option<string>, defaultMine: bool): set<int> {
    if defaultMine && userId.Some? && userId.value != "" then Owned(ps, userId) else {}
  }

  /** One line of the loop on the current selection: `None` when the loop
      ends (an empty line or "done"), otherwise the selection after it. */
  function LoopStep(line: string, ps: seq<Playlist>, sel: set<int>, userId: Option<string>,
                    owners: seq<OwnerEntry>): Option<set<int>>
  {
    var l := Strip(line);
    if l == "" || Lower(l) == "done" then None
    else
      var r := ParseSelection(l, ps, sel, userId, owners);
      if r.1 == Help then Some(sel)
      else if !LoopAccepts(Render(r.1)) then Some(sel)
      else Some(r.0)
  }

  /** Run the loop over the typed lines; running out of lines (end of input
      or an interrupt) cancels the selection. */
  function RunLoop(lines: seq<string>, ps: seq<Playlist>, sel: set<int>, userId: Option<string>,
                   owners: seq<OwnerEntry>): Option<set<int>>
  {
    if lines == [] then None
    else
      match LoopStep(lines[0], ps, sel, userId, owners)
      case None => Some(sel)
      case Some(next) => RunLoop(lines[1..], ps, next, userId, owners)
  }

  /** The playlists among the first `k` whose 1-based index is selected,
      in order. */
  function SelectedUpTo(ps: seq<Playlist>, sel: set<int>, k: nat): (r: seq<Playlist>)
    requires k <= |ps|
    ensures |r| <= k
  {
    if k == 0 then []
    else SelectedUpTo(ps, sel, k - 1) + (if k in sel then [ps[k - 1]] else [])
  }

  /** `[p for i, p in enumerate(playlists, 1) if i in selected]` */
  function SelectedPlaylists(ps: seq<Playlist>, sel: set<int>): seq<Playlist> {
    SelectedUpTo(ps, sel, |ps|)
  }

  /** The number of selected indices in `1..k`. */
  function SelectedCount(sel: set<int>, k: nat): (n: nat)
    ensures n <= k
  {
    if k == 0 then 0 else SelectedCount(sel, k - 1) + (if k in sel then 1 else 0)
  }

  /** The selected indices within `1..k`. */
  function SelectedIn(sel: set<int>, k: int): (r: set<int>)
    ensures forall i :: i in r <==> i in sel && 1 <= i <= k
  {
    set i | i in sel && 1 <= i <= k
  }

  /** The count is the size of the selection within `1..k`. */
  lemma {:induction false} SelectedCountSize(sel: set<int>, k: nat)
    ensures SelectedCount(sel, k) == |SelectedIn(sel, k)|
  {
    if k == 0 {
      assert SelectedIn(sel, 0) == {};
    } else {
      SelectedCountSize(sel, k - 1);
      SelectedCountStep(sel, k);
    }
  }

  /** Index `k` adds one to the selected count exactly when it is
      selected. */
  lemma SelectedCountStep(sel: set<int>, k: nat)
    requires k > 0
    ensures |SelectedIn(sel, k)| == |SelectedIn(sel, k - 1)| + (if k in sel then 1 else 0)
  {
    var before := SelectedIn(sel, k - 1);
    var after := SelectedIn(sel, k);
    if k in sel {
      assert after == before + {k};
    } else {
      assert after == before;
    }
  }

  /** One entry per selected index in `1..k`. */
  lemma {:induction false} SelectedUpToCount(ps: seq<Playlist>, sel: set<int>, k: nat)
    requires k <= |ps|
    ensures |SelectedUpTo(ps, sel, k)| == SelectedCount(sel, k)
  {
    if k > 0 {
      SelectedUpToCount(ps, sel, k - 1);
    }
  }

  /** The first `k` playlists contribute the playlist of every selected
      index in `1..k` and nothing else. */
  lemma {:induction false} SelectedUpToMembers(ps: seq<Playlist>, sel: set<int>, k: nat)
    requires k <= |ps|
    ensures forall i :: 1 <= i <= k && i in sel ==> ps[i - 1] in SelectedUpTo(ps, sel, k)
    ensures forall p :: p in SelectedUpTo(ps, sel, k) ==>
              exists i :: 1 <= i <= k && i in sel && ps[i - 1] == p
  {
    if k > 0 {
      SelectedUpToMembers(ps, sel, k - 1);
      var rInit := SelectedUpTo(ps, sel, k - 1);
      var r := SelectedUpTo(ps, sel, k);
      forall i | 1 <= i <= k && i in sel
        ensures ps[i - 1] in r
      {
        if i < k {
          assert ps[i - 1] in rInit;
        }
      }
      forall p | p in r
        ensures exists i :: 1 <= i <= k && i in sel && ps[i - 1] == p
      {
        if p in rInit {
          var i :| 1 <= i <= k - 1 && i in sel && ps[i - 1] == p;
        } else {
          assert ps[k - 1] == p;
        }
      }
    }
  }

  /** The result holds exactly the playlists of the selected indices, one
      entry per selected index in `1..n`. */
  lemma SelectedPlaylistsExact(ps: seq<Playlist>, sel: set<int>)
    ensures |SelectedPlaylists(ps, sel)| == |sel * Range(1, |ps|)|
    ensures forall i :: 1 <= i <= |ps| && i in sel ==> ps[i - 1] in SelectedPlaylists(ps, sel)
    ensures forall p :: p in SelectedPlaylists(ps, sel) ==>
              exists i :: 1 <= i <= |ps| && i in sel && ps[i - 1] == p
  {
    SelectedUpToCount(ps, sel, |ps|);
    SelectedCountSize(sel, |ps|);
    assert SelectedIn(sel, |ps|) == sel * Range(1, |ps|);
    SelectedUpToMembers(ps, sel, |ps|);
  }

  /** The loop's selection never leaves `1..n`. */
  lemma {:induction false} RunLoopInRange(lines: seq<string>, ps: seq<Playlist>, sel: set<int>,
                                          userId: Option<string>)
    requires forall i :: i in sel ==> 1 <= i <= |ps|
    ensures var r := RunLoop(lines, ps, sel, userId, UniqueOwners(ps));
            r.Some? ==> forall i :: i in r.value ==> 1 <= i <= |ps|
  {
    if lines != [] {
      var l := Strip(lines[0]);
      ParseSelectionInRange(l, ps, sel, userId);
      var step := LoopStep(lines[0], ps, sel, userId, UniqueOwners(ps));
      if step.Some? {
        RunLoopInRange(lines[1..], ps, step.value, userId);
      }
    }
  }

  /** `interactive_playlist_selection`. */
  function InteractiveSelection(ps: seq<Playlist>, userId: Option<string>, defaultMine: bool,
                                lines: seq<string>): seq<Playlist>
  {
    var owners := UniqueOwners(ps);
    match RunLoop(lines, ps, InitialSelection(ps, userId, defaultMine), userId, owners)
    case None => []
    case Some(sel) => SelectedPlaylists(ps, sel)
  }

  /** Finishing at once keeps the initial selection; running out of input
      returns nothing. */
  lemma InteractiveSelectionEnds(ps: seq<Playlist>, userId: Option<string>, defaultMine: bool,
                                 lines: seq<string>)
    ensures lines == [] ==> InteractiveSelection(ps, userId, defaultMine, lines) == []
    ensures (|lines| > 0 && Strip(lines[0]) == "") ==>
              InteractiveSelection(ps, userId, defaultMine, lines)
                == SelectedPlaylists(ps, InitialSelection(ps, userId, defaultMine))
  {
  }
}
