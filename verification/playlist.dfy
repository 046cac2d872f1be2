/** Tidal playlist maintenance in the migration: reading a playlist's
    tracks page by page, finding and removing duplicates, adding tracks in
    batches with the failure bookkeeping, and the per-playlist log name. */
module Playlist {
  import opened Common
  import opened Text
  import Sorting
  import TidalApi
  import Tracks

  // ---------------------------------------------------------------- pages

  /** One page of `get_playlist_items`: the call raised, or the items (each
      may lack a track) and the total when the response has one. */
  datatype PageResponse =
    | PageRaised
    | Page(items: Option<seq<Option<Tracks.TidalTrack>>>, total: Option<int>)

  const PageSize: nat := 100

  /** The tracks of a page that carry one, in page order. */
  function PresentTracks(items: Option<seq<Option<Tracks.TidalTrack>>>): seq<Tracks.TidalTrack> {
    match items
    case None => []
    case Some(xs) => Present(xs)
  }

  function Present(xs: seq<Option<Tracks.TidalTrack>>): (r: seq<Tracks.TidalTrack>)
    ensures |r| <= |xs|
    ensures forall t :: t in r <==> Some(t) in xs
  {
    if xs == [] then []
    else (if xs[0].Some? then [xs[0].value] else []) + Present(xs[1..])
  }

  function IdSet(ts: seq<Tracks.TidalTrack>): (r: set<string>)
    ensures forall x :: x in r <==> exists t :: t in ts && t.id == x
  {
    set t | t in ts :: t.id
  }

  /** `_fetch_all_playlist_tracks` from `offset` on: while the offset is
      below the expected count, fetch a page of 100; stop on an error or a
      page without tracks. Returns the ids and the metadata in order. */
  function FetchAllFrom(expected: int, page: nat -> PageResponse, offset: nat): (r: (set<string>, seq<Tracks.TidalTrack>))
    decreases expected - offset
  {
    if offset >= expected then ({}, [])
    else match page(offset)
      case PageRaised => ({}, [])
      case Page(items, _) =>
        var tracks := PresentTracks(items);
        if tracks == [] then ({}, [])
        else
          var rest := FetchAllFrom(expected, page, offset + PageSize);
          (IdSet(tracks) + rest.0, tracks + rest.1)
  }

  /** The offsets that loop requests, in order. */
  function FetchAllOffsets(expected: int, page: nat -> PageResponse, offset: nat): seq<nat>
    decreases expected - offset
  {
    if offset >= expected then []
    else match page(offset)
      case PageRaised => [offset]
      case Page(items, _) =>
        if PresentTracks(items) == [] then [offset]
        else [offset] + FetchAllOffsets(expected, page, offset + PageSize)
  }

  /** Every offset is a multiple of 100 in `lo..expected - 1`, and the
      offsets increase. */
  predicate OffsetsOk(os: seq<nat>, lo: int, expected: int) {
    (forall i :: 0 <= i < |os| ==> os[i] % PageSize == 0 && lo <= os[i] < expected)
    && StrictlyIncreasing(os)
  }

  /** The id set is exactly the ids of the metadata list, and every
      requested offset is a multiple of 100 below the expected count, in
      increasing order. */
  lemma FetchAllConsistent(expected: int, page: nat -> PageResponse, offset: nat)
    requires offset % PageSize == 0
    ensures var r := FetchAllFrom(expected, page, offset);
            r.0 == IdSet(r.1)
    ensures var os := FetchAllOffsets(expected, page, offset);
            (forall i :: 0 <= i < |os| ==> os[i] % PageSize == 0 && offset <= os[i] < expected)
            && StrictlyIncreasing(os)
  {
    FetchAllIds(expected, page, offset);
    FetchAllOffsetsIncreasing(expected, page, offset);
  }

  lemma {:induction false} FetchAllIds(expected: int, page: nat -> PageResponse, offset: nat)
    ensures var r := FetchAllFrom(expected, page, offset);
            r.0 == IdSet(r.1)
    decreases expected - offset
  {
    if offset < expected && page(offset).Page? && PresentTracks(page(offset).items) != [] {
      FetchAllIds(expected, page, offset + PageSize);
      var tracks := PresentTracks(page(offset).items);
      var rest := FetchAllFrom(expected, page, offset + PageSize);
      assert IdSet(tracks + rest.1) == IdSet(tracks) + IdSet(rest.1);
    }
  }

  lemma {:induction false} FetchAllOffsetsIncreasing(expected: int, page: nat -> PageResponse, offset: nat)
    requires offset % PageSize == 0
    ensures OffsetsOk(FetchAllOffsets(expected, page, offset), offset, expected)
    decreases expected - offset
  {
    if offset < expected && page(offset).Page? && PresentTracks(page(offset).items) != [] {
      FetchAllOffsetsIncreasing(expected, page, offset + PageSize);
      OffsetsStep(expected, page, offset);
    } else {
      OffsetsLast(expected, page, offset);
    }
  }

  /** A loop that stops at `offset` requests at most that offset. */
  lemma OffsetsLast(expected: int, page: nat -> PageResponse, offset: nat)
    requires offset % PageSize == 0
    ensures !(offset < expected && page(offset).Page? && PresentTracks(page(offset).items) != []) ==>
              OffsetsOk(FetchAllOffsets(expected, page, offset), offset, expected)
  {
    var os := FetchAllOffsets(expected, page, offset);
    if offset < expected {
      if !(page(offset).Page? && PresentTracks(page(offset).items) != []) {
        assert os == [offset];
      }
    }
  }

  lemma OffsetsStep(expected: int, page: nat -> PageResponse, offset: nat)
    requires offset % PageSize == 0
    requires offset < expected && page(offset).Page? && PresentTracks(page(offset).items) != []
    requires OffsetsOk(FetchAllOffsets(expected, page, offset + PageSize), offset + PageSize, expected)
    ensures OffsetsOk(FetchAllOffsets(expected, page, offset), offset, expected)
  {
    var tail := FetchAllOffsets(expected, page, offset + PageSize);
    assert FetchAllOffsets(expected, page, offset) == [offset] + tail;
    OffsetsCons(offset, tail, expected);
  }

  lemma OffsetsCons(offset: nat, tail: seq<nat>, expected: int)
    requires offset % PageSize == 0 && offset < expected
    requires OffsetsOk(tail, offset + PageSize, expected)
    ensures OffsetsOk([offset] + tail, offset, expected)
  {
    ConsIncreasing(offset, tail);
  }

  /** A track of a playlist with its 0-based position. */
  datatype IndexedTrack = IndexedTrack(index: int, trackId: string, title: string, artists: seq<string>)

  /** The present tracks of a page, numbered from `offset`. */
  function Numbered(tracks: seq<Tracks.TidalTrack>, offset: int): (r: seq<IndexedTrack>)
    ensures |r| == |tracks|
    ensures forall j :: 0 <= j < |r| ==> r[j].index == offset + j && r[j].trackId == tracks[j].id
  {
    if tracks == [] then []
    else [IndexedTrack(offset, tracks[0].id, tracks[0].title, tracks[0].artists)]
         + Numbered(tracks[1..], offset + 1)
  }

  /** `fetch_playlist_tracks_with_indices` from `offset` on: the total is
      taken from the first response that has one; with a total the loop
      stops once the offset reaches it, without one it stops on a page with
      no tracks; an error stops it too. `fuel` bounds the number of pages. */
  function IndexedFrom(page: nat -> PageResponse, offset: nat, total: Option<int>, fuel: nat): seq<IndexedTrack>
    decreases fuel
  {
    if fuel == 0 then []
    else match page(offset)
      case PageRaised => []
      case Page(items, t) =>
        var known := if total.None? then t else total;
        var tracks := PresentTracks(items);
        var entries := Numbered(tracks, offset);
        var next := offset + PageSize;
        if known.Some? && next >= known.value then entries
        else if known.None? && tracks == [] then entries
        else entries + IndexedFrom(page, next, known, fuel - 1)
  }

  /** Each page returns at most `PageSize` tracks. */
  ghost predicate PagesBounded(page: nat -> PageResponse) {
    forall o :: page(o).Page? ==> |PresentTracks(page(o).items)| <= PageSize
  }

  /** The entries' indices increase strictly and start at `lo` or later. */
  predicate AscendingFrom(r: seq<IndexedTrack>, lo: int) {
    (forall i, j :: 0 <= i < j < |r| ==> r[i].index < r[j].index)
    && (forall i :: 0 <= i < |r| ==> r[i].index >= lo)
  }

  /** The indices are position-in-page plus the page offset, so with pages
      of at most 100 tracks they are increasing and never below the start
      offset. */
  lemma {:induction false} IndexedIncreasing(page: nat -> PageResponse, offset: nat, total: Option<int>, fuel: nat)
    requires PagesBounded(page)
    ensures AscendingFrom(IndexedFrom(page, offset, total, fuel), offset)
    decreases fuel
  {
    if fuel > 0 && page(offset).Page? {
      var known := if total.None? then page(offset).total else total;
      IndexedIncreasing(page, offset + PageSize, known, fuel - 1);
      IndexedPageAscending(page, offset, total, fuel);
    }
  }

  /** The step of the induction: a bounded page followed by an ascending
      rest from the next offset is ascending from this one. */
  lemma IndexedPageAscending(page: nat -> PageResponse, offset: nat, total: Option<int>, fuel: nat)
    requires fuel > 0 && page(offset).Page? && |PresentTracks(page(offset).items)| <= PageSize
    requires var known := if total.None? then page(offset).total else total;
             AscendingFrom(IndexedFrom(page, offset + PageSize, known, fuel - 1), offset + PageSize)
    ensures AscendingFrom(IndexedFrom(page, offset, total, fuel), offset)
  {
    var known := if total.None? then page(offset).total else total;
    var tracks := PresentTracks(page(offset).items);
    var next := offset + PageSize;
    var stop := (known.Some? && next >= known.value) || (known.None? && tracks == []);
    var entries := Numbered(tracks, offset);
    var tail: seq<IndexedTrack> := if stop then [] else IndexedFrom(page, next, known, fuel - 1);
    AscendingAppend(entries, tail, offset, next);
    IndexedUnfold(page, offset, total, fuel);
  }

  /** One page of the loop: its numbered tracks, then the rest unless the
      loop stops there. */
  lemma IndexedUnfold(page: nat -> PageResponse, offset: nat, total: Option<int>, fuel: nat)
    requires fuel > 0 && page(offset).Page?
    ensures var known := if total.None? then page(offset).total else total;
            var tracks := PresentTracks(page(offset).items);
            var next := offset + PageSize;
            var stop := (known.Some? && next >= known.value) || (known.None? && tracks == []);
            IndexedFrom(page, offset, total, fuel)
            == Numbered(tracks, offset) + (if stop then [] else IndexedFrom(page, next, known, fuel - 1))
  {
  }

  lemma AscendingAppend(a: seq<IndexedTrack>, b: seq<IndexedTrack>, lo: int, mid: int)
    requires forall i :: 0 <= i < |a| ==> a[i].index == lo + i
    requires lo + |a| <= mid
    requires AscendingFrom(b, mid)
    ensures AscendingFrom(a, lo)
    ensures AscendingFrom(a + b, lo)
  {
    var r := a + b;
    forall i, j | 0 <= i < j < |r|
      ensures r[i].index < r[j].index
    {
      if j >= |a| {
        assert r[j] == b[j - |a|];
        if i >= |a| {
          assert r[i] == b[i - |a|];
        }
      }
    }
    forall i | 0 <= i < |r|
      ensures r[i].index >= lo
    {
      if i >= |a| {
        assert r[i] == b[i - |a|];
      }
    }
  }

  // ---------------------------------------------------------------- duplicates

  /** The ids of the first `k` tracks. */
  function IdsUpTo(ts: seq<IndexedTrack>, k: nat): set<string>
    requires k <= |ts|
  {
    if k == 0 then {} else IdsUpTo(ts, k - 1) + {ts[k - 1].trackId}
  }

  /** Track `i` repeats the id of an earlier track. */
  predicate RepeatsEarlier(ts: seq<IndexedTrack>, i: nat)
    requires i < |ts|
  {
    exists j :: 0 <= j < i && ts[j].trackId == ts[i].trackId
  }

  /** The seen set holds exactly the ids of the tracks before `k`. */
  lemma {:induction false} IdsUpToSeen(ts: seq<IndexedTrack>, k: nat)
    requires k < |ts|
    ensures ts[k].trackId in IdsUpTo(ts, k) <==> RepeatsEarlier(ts, k)
  {
    IdsUpToMembers(ts, k);
  }

  lemma {:induction false} IdsUpToMembers(ts: seq<IndexedTrack>, k: nat)
    requires k <= |ts|
    ensures forall x :: x in IdsUpTo(ts, k) <==> exists j :: 0 <= j < k && ts[j].trackId == x
  {
    if k > 0 {
      IdsUpToMembers(ts, k - 1);
    }
  }

  /** The tracks among the first `k` that repeat an earlier id, in order. */
  function Repeats(ts: seq<IndexedTrack>, k: nat): (r: seq<IndexedTrack>)
    requires k <= |ts|
    ensures |r| <= k
  {
    if k == 0 then []
    else Repeats(ts, k - 1) + (if RepeatsEarlier(ts, k - 1) then [ts[k - 1]] else [])
  }

  /** `find_duplicate_indices`: one pass with a set of seen ids. Every
      track is either a repeat or contributes a new id. */
  method FindDuplicates(ts: seq<IndexedTrack>) returns (dups: seq<IndexedTrack>)
    ensures dups == Repeats(ts, |ts|)
    ensures |dups| + |IdsUpTo(ts, |ts|)| == |ts|
  {
    var seen: set<string> := {};
    dups := [];
    var i := 0;
    while i < |ts|
      invariant 0 <= i <= |ts|
      invariant seen == IdsUpTo(ts, i)
      invariant dups == Repeats(ts, i)
      invariant |dups| + |seen| == i
    {
      var id := ts[i].trackId;
      IdsUpToSeen(ts, i);
      if id in seen {
        dups := dups + [ts[i]];
      } else {
        seen := seen + {id};
      }
      i := i + 1;
    }
  }

  /** With distinct positions, a track is reported iff an earlier track has
      its id: every first occurrence is kept. */
  lemma {:induction false} RepeatsExact(ts: seq<IndexedTrack>, k: nat)
    requires k <= |ts|
    requires forall a, b :: 0 <= a < b < |ts| ==> ts[a].index != ts[b].index
    ensures forall i :: 0 <= i < k ==> (ts[i] in Repeats(ts, k) <==> RepeatsEarlier(ts, i))
    ensures forall t :: t in Repeats(ts, k) ==> exists i :: 0 <= i < k && ts[i] == t
  {
    if k > 0 {
      RepeatsExact(ts, k - 1);
      var prev := Repeats(ts, k - 1);
      forall i | 0 <= i < k
        ensures ts[i] in Repeats(ts, k) <==> RepeatsEarlier(ts, i)
      {
        if i < k - 1 {
          assert ts[i] != ts[k - 1];
        }
      }
    }
  }

  // ---------------------------------------------------------------- removal

  const DeleteBatchSize: nat := 50

  /** `key=lambda x: x['index'], reverse=True` */
  function ByIndexDesc(a: IndexedTrack, b: IndexedTrack): bool { a.index >= b.index }

  function IndexList(ts: seq<IndexedTrack>): (r: seq<int>)
    ensures |r| == |ts|
    ensures forall i :: 0 <= i < |ts| ==> r[i] == ts[i].index
  {
    if ts == [] then [] else [ts[0].index] + IndexList(ts[1..])
  }

  /** The index lists sent to `delete_playlist_tracks`, one per batch. */
  function DeleteBatches(dups: seq<IndexedTrack>): seq<seq<int>> {
    BatchIndices(Chunks(Sorting.SortBy(dups, ByIndexDesc), DeleteBatchSize))
  }

  function BatchIndices(batches: seq<seq<IndexedTrack>>): (r: seq<seq<int>>)
    ensures |r| == |batches|
    ensures forall i :: 0 <= i < |r| ==> r[i] == IndexList(batches[i])
  {
    if batches == [] then [] else [IndexList(batches[0])] + BatchIndices(batches[1..])
  }

  /** The result of `remove_duplicates_from_playlist`: the track count, the
      removed (or, in a dry run, found) count, and the delete calls made. */
  datatype Removal = Removal(total: nat, removed: nat, calls: seq<seq<int>>)

  /** The duplicates removed by the delete calls that succeed. */
  function RemovedBy(batches: seq<seq<int>>, deleteOk: seq<int> -> bool): (r: nat)
    ensures r <= |Flatten(batches)|
  {
    if batches == [] then 0
    else (if deleteOk(batches[0]) then |batches[0]| else 0) + RemovedBy(batches[1..], deleteOk)
  }

  /** `remove_duplicates_from_playlist` on the fetched tracks. */
  function RemoveDuplicates(ts: seq<IndexedTrack>, dryRun: bool, deleteOk: seq<int> -> bool): Removal {
    if ts == [] then Removal(0, 0, [])
    else
      var dups := Repeats(ts, |ts|);
      if dups == [] then Removal(|ts|, 0, [])
      else if dryRun then Removal(|ts|, |dups|, [])
      else
        var batches := DeleteBatches(dups);
        Removal(|ts|, RemovedBy(batches, deleteOk), batches)
  }

  lemma FlattenIndexList(batches: seq<seq<IndexedTrack>>)
    ensures Flatten(BatchIndices(batches)) == IndexList(Flatten(batches))
  {
    if batches != [] {
      FlattenIndexList(batches[1..]);
      IndexListAppend(batches[0], Flatten(batches[1..]));
    }
  }

  lemma IndexListAppend(a: seq<IndexedTrack>, b: seq<IndexedTrack>)
    ensures IndexList(a + b) == IndexList(a) + IndexList(b)
  {
  }

  /** The delete calls send every duplicate's index once, highest first,
      at most 50 per call; the removed count never exceeds the duplicates;
      an empty playlist, a playlist without duplicates and a dry run make no
      delete call. */
  lemma RemoveDuplicatesShape(ts: seq<IndexedTrack>, dryRun: bool, deleteOk: seq<int> -> bool)
    ensures var r := RemoveDuplicates(ts, dryRun, deleteOk);
            r.total == |ts| && r.removed <= |Repeats(ts, |ts|)|
    ensures var r := RemoveDuplicates(ts, dryRun, deleteOk);
            (ts == [] || Repeats(ts, |ts|) == [] || dryRun) ==> r.calls == []
    ensures var r := RemoveDuplicates(ts, dryRun, deleteOk);
            ts != [] && dryRun ==> r.removed == |Repeats(ts, |ts|)|
    ensures var r := RemoveDuplicates(ts, dryRun, deleteOk);
            forall i :: 0 <= i < |r.calls| ==> 0 < |r.calls[i]| <= DeleteBatchSize
    ensures var r := RemoveDuplicates(ts, dryRun, deleteOk);
            var sent := Flatten(r.calls);
            (forall a, b :: 0 <= a < b < |sent| ==> sent[a] >= sent[b])
            && |sent| == (if ts == [] || dryRun then 0 else |Repeats(ts, |ts|)|)
            && (forall x :: x in sent ==> exists d :: d in Repeats(ts, |ts|) && d.index == x)
  {
    if ts != [] && !dryRun {
      var dups := Repeats(ts, |ts|);
      if dups != [] {
        DeleteBatchesShape(dups);
      }
    }
  }

  /** The batches hold every duplicate's index once, highest first, at most
      50 per batch. */
  lemma DeleteBatchesShape(dups: seq<IndexedTrack>)
    ensures forall i :: 0 <= i < |DeleteBatches(dups)| ==> 0 < |DeleteBatches(dups)[i]| <= DeleteBatchSize
    ensures var sent := Flatten(DeleteBatches(dups));
            (forall a, b :: 0 <= a < b < |sent| ==> sent[a] >= sent[b])
            && |sent| == |dups|
            && (forall x :: x in sent ==> exists d :: d in dups && d.index == x)
  {
    var sorted := Sorting.SortBy(dups, ByIndexDesc);
    var chunks := Chunks(sorted, DeleteBatchSize);
    ChunksFlatten(sorted, DeleteBatchSize);
    FlattenIndexList(chunks);
    Sorting.SortBySorted(dups, ByIndexDesc);
    var sent := IndexList(sorted);
    assert Flatten(DeleteBatches(dups)) == sent;
    forall x | x in sent
      ensures exists d :: d in dups && d.index == x
    {
      var k :| 0 <= k < |sent| && sent[k] == x;
      assert sorted[k] in multiset(dups);
    }
    forall a, b | 0 <= a < b < |sent|
      ensures sent[a] >= sent[b]
    {
      assert ByIndexDesc(sorted[a], sorted[b]);
    }
  }

  // ---------------------------------------------------------------- adding

  const AddBatchSize: nat := 50

  /** How one `add_tracks_to_playlist` call for a batch ended. */
  datatype BatchResult = BatchOk | BatchApiError(userMessage: string) | BatchOtherError

  /** The length of the run of digits starting at `k`. */
  function DigitRun(s: string, k: nat): (n: nat)
    requires k <= |s|
    ensures k + n <= |s|
    ensures forall i :: k <= i < k + n ==> IsDigit(s[i])
    ensures k + n == |s| || !IsDigit(s[k + n])
    decreases |s| - k
  {
    if k < |s| && IsDigit(s[k]) then 1 + DigitRun(s, k + 1) else 0
  }

  const FailedWord := TidalApi.FailedWord
  const TracksWord := TidalApi.TracksWord

  /** The regular expression `Failed to add (\d+) track\(s\)` matched at
      position `k`: the digit run is maximal, as backtracking to a shorter
      run would need a digit to be a space. */
  function FailedCountAt(s: string, k: nat): Option<nat>
    requires k <= |s|
  {
    if !IsPrefix(FailedWord, s[k..]) then None
    else
      var d := k + |FailedWord|;
      var n := DigitRun(s, d);
      if n > 0 && IsPrefix(TracksWord, s[d + n..]) then Some(DigitsValue(s[d..d + n]))
      else None
  }

  /** `re.search`: the leftmost match at or after `k`. */
  function SearchFailedCount(s: string, k: nat): (r: Option<nat>)
    requires k <= |s|
    decreases |s| - k
  {
    if FailedCountAt(s, k).Some? then FailedCountAt(s, k)
    else if k == |s| then None
    else SearchFailedCount(s, k + 1)
  }

  /** The guard before the regular expression is tried. */
  predicate MentionsFailure(msg: string) {
    Contains(msg, "Failed to add") && Contains(msg, "track(s)")
  }

  /** The added and failed counts of one batch. A parsed count moves that
      many tracks to failed and the rest to added; any other error fails
      the whole batch. */
  function BatchCounts(batch: seq<string>, res: BatchResult): (r: (int, int))
    ensures res.BatchOk? ==> r == (|batch|, 0)
    ensures res.BatchOtherError? ==> r == (0, |batch|)
    ensures r.0 + r.1 == |batch|
  {
    match res
    case BatchOk => (|batch|, 0)
    case BatchOtherError => (0, |batch|)
    case BatchApiError(msg) =>
      match ParsedFailures(msg)
      case Some(n) => (|batch| - n, n)
      case None => (0, |batch|)
  }

  /** The failed count an error message yields: none unless the guard
      holds and the regular expression matches. */
  function ParsedFailures(msg: string): Option<nat> {
    if MentionsFailure(msg) then SearchFailedCount(msg, 0) else None
  }

  /** The message the one-by-one fallback raises is read back exactly:
      the guard holds and the regular expression finds the failed count. */
  lemma FailedMessageParses(failed: seq<string>)
    ensures MentionsFailure(TidalApi.FailedMessage(failed))
    ensures SearchFailedCount(TidalApi.FailedMessage(failed), 0) == Some(|failed|)
    ensures ParsedFailures(TidalApi.FailedMessage(failed)) == Some(|failed|)
  {
    var digits := NatToString(|failed|);
    var after := TidalApi.IdsWord + Join(failed, ", ");
    CountMessageParses(digits, after);
    DigitsValueNatToString(|failed|);
  }

  /** A message of the shape `Failed to add <digits> track(s)<after>`
      passes the guard and its count is the digits' value. */
  lemma CountMessageParses(digits: string, after: string)
    requires |digits| > 0 && AllDigits(digits)
    ensures MentionsFailure(FailedWord + digits + (TracksWord + after))
    ensures FailedCountAt(FailedWord + digits + (TracksWord + after), 0) == Some(DigitsValue(digits))
  {
    CountMessageMentions(digits, after);
    CountMessageMatches(digits, after);
  }

  lemma CountMessageMatches(digits: string, after: string)
    requires |digits| > 0 && AllDigits(digits)
    ensures FailedCountAt(FailedWord + digits + (TracksWord + after), 0) == Some(DigitsValue(digits))
  {
    var tail := TracksWord + after;
    var msg := FailedWord + digits + tail;
    var d := |FailedWord|;
    Pieces(FailedWord, digits, tail);
    assert msg[d + |digits|] == tail[0];
    DigitRunExact(msg, d, |digits|);
    assert msg[0..] == msg;
    assert IsPrefix(TracksWord, msg[d + |digits|..]);
  }

  lemma CountMessageMentions(digits: string, after: string)
    ensures MentionsFailure(FailedWord + digits + (TracksWord + after))
  {
    var tail := TracksWord + after;
    var msg := FailedWord + digits + tail;
    var k := |FailedWord| + |digits|;
    Pieces(FailedWord, digits, tail);
    assert msg[0..] == msg;
    assert OccursAt(msg, FailedWord, 0);
    OccursWithin(msg, FailedWord, 0, 0, 13);
    assert FailedWord[0..13] == "Failed to add";
    assert tail[..|TracksWord|] == TracksWord;
    assert OccursAt(msg, TracksWord, k);
    OccursWithin(msg, TracksWord, k, 1, 9);
    assert TracksWord[1..9] == "track(s)";
    assert OccursAt(msg, "track(s)", k + 1);
  }

  /** Slicing a concatenation of three pieces. */
  lemma Pieces(a: string, b: string, c: string)
    ensures (a + b + c)[..|a|] == a
    ensures (a + b + c)[|a|..] == b + c
    ensures (a + b + c)[|a|..|a| + |b|] == b
    ensures (a + b + c)[|a| + |b|..] == c
  {
  }

  lemma DigitRunExact(s: string, k: nat, n: nat)
    requires k + n <= |s|
    requires forall i :: k <= i < k + n ==> IsDigit(s[i])
    requires k + n == |s| || !IsDigit(s[k + n])
    ensures DigitRun(s, k) == n
    decreases n
  {
    if n > 0 {
      DigitRunExact(s, k + 1, n - 1);
    }
  }

  /** A batch that the API answered with the fallback's error is split
      into the tracks that went in and the ones that did not. */
  lemma BatchCountsFromApi(batch: seq<string>, failed: seq<string>)
    requires |failed| <= |batch|
    ensures BatchCounts(batch, BatchApiError(TidalApi.FailedMessage(failed))) == (|batch| - |failed|, |failed|)
  {
    FailedMessageParses(failed);
  }

  /** The batch results the API itself can produce: success, the
      fallback's error for at most the batch's tracks, or another error. */
  ghost predicate FromApi(batch: seq<string>, res: BatchResult) {
    res.BatchApiError? ==> exists f: seq<string> :: |f| <= |batch| && res.userMessage == TidalApi.FailedMessage(f)
  }

  /** The added and failed totals over the batches. */
  function AddBatches(batches: seq<seq<string>>, addBatch: seq<string> -> BatchResult): (r: (int, int))
    ensures r.0 + r.1 == |Flatten(batches)|
  {
    if batches == [] then (0, 0)
    else
      var c := BatchCounts(batches[0], addBatch(batches[0]));
      var rest := AddBatches(batches[1..], addBatch);
      (c.0 + rest.0, c.1 + rest.1)
  }

  /** `add_tracks_to_tidal_playlist`: the added and failed totals and the
      number of batches. */
  function AddTracksToPlaylist(ids: seq<string>, addBatch: seq<string> -> BatchResult): (int, int, nat) {
    var totalBatches := (|ids| + AddBatchSize - 1) / AddBatchSize;
    var r := AddBatches(Chunks(ids, AddBatchSize), addBatch);
    (r.0, r.1, totalBatches)
  }

  /** There are ceil(n/50) batches of at most 50 ids that together are the
      ids in order; the two totals add up to n; and when the API produced
      every batch result, neither total is negative. */
  lemma AddTracksAccounting(ids: seq<string>, addBatch: seq<string> -> BatchResult)
    ensures var r := AddTracksToPlaylist(ids, addBatch);
            r.0 + r.1 == |ids| && r.2 == |Chunks(ids, AddBatchSize)|
    ensures Flatten(Chunks(ids, AddBatchSize)) == ids
    ensures (forall b :: b in Chunks(ids, AddBatchSize) ==> FromApi(b, addBatch(b))) ==>
              AddTracksToPlaylist(ids, addBatch).0 >= 0 && AddTracksToPlaylist(ids, addBatch).1 >= 0
  {
    ChunksFlatten(ids, AddBatchSize);
    if forall b :: b in Chunks(ids, AddBatchSize) ==> FromApi(b, addBatch(b)) {
      AddBatchesNonNegative(Chunks(ids, AddBatchSize), addBatch);
    }
  }

  lemma {:induction false} AddBatchesNonNegative(batches: seq<seq<string>>, addBatch: seq<string> -> BatchResult)
    requires forall b :: b in batches ==> FromApi(b, addBatch(b))
    ensures AddBatches(batches, addBatch).0 >= 0 && AddBatches(batches, addBatch).1 >= 0
  {
    if batches != [] {
      var b := batches[0];
      assert b in batches;
      if addBatch(b).BatchApiError? {
        var f: seq<string> :| |f| <= |b| && addBatch(b).userMessage == TidalApi.FailedMessage(f);
        BatchCountsFromApi(b, f);
      }
      AddBatchesNonNegative(batches[1..], addBatch);
    }
  }

  // ---------------------------------------------------------------- log name

  /** Alphanumerics, space, '-' and '_' are kept, anything else becomes
      '_'. */
  function SafeChar(c: char): (r: char)
    ensures IsAlnum(r) || r == ' ' || r == '-' || r == '_'
  {
    if IsAlnum(c) || c == ' ' || c == '-' || c == '_' then c else '_'
  }

  function SafeChars(s: string): (r: string)
    ensures |r| == |s|
    ensures forall i :: 0 <= i < |s| ==> r[i] == SafeChar(s[i])
  {
    if s == [] then [] else [SafeChar(s[0])] + SafeChars(s[1..])
  }

  /** The sanitised stem shared by the log and CSV names: safe characters,
      trimmed, spaces turned into '-', at most 100 characters. */
  function SafeStem(name: string): string {
    PyPrefix(Replace(Strip(SafeChars(name)), " ", "-"), 100)
  }

  predicate StemChar(c: char) { IsAlnum(c) || c == '-' || c == '_' }

  /** The stem has at most 100 characters, each alphanumeric, '-' or
      '_'. */
  lemma SafeStemShape(name: string)
    ensures |SafeStem(name)| <= 100
    ensures forall i :: 0 <= i < |SafeStem(name)| ==> StemChar(SafeStem(name)[i])
  {
    var a := SafeChars(name);
    var b := Strip(a);
    var c := Replace(b, " ", "-");
    ReplaceChar(b, ' ', '-');
    forall i | 0 <= i < |c|
      ensures StemChar(c[i])
    {
      var x := b[i];
      if !StemChar(x) && x != ' ' {
        assert x !in a;
        StripSub(a, x);
      }
    }
  }

  /** `pl-{safe_name}.txt` */
  function LogFileName(playlistName: string): string {
    "pl-" + SafeStem(playlistName) + ".txt"
  }
}
