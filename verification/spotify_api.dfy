/** The Spotify Web API reads the migration needs: the user's playlists,
    a playlist's tracks and the saved ("liked") tracks, each gathered page
    by page with a limit and an offset. The HTTP request is an oracle
    keyed by endpoint, limit and offset; the number of pages a loop may
    fetch is bounded by a parameter. */
module SpotifyApi {
  import opened Common

  /** One page of a listing: its items, the `next` link (absent or "" on
      the last page) and the `total` count if given. */
  datatype Page<T> = Page(items: seq<T>, next: Option<string>, total: Option<int>)

  /** When a listing loop stops after a page: as soon as `next` is absent,
      or also when `next` is "" or the items gathered so far reach
      `total` (0 when absent). */
  datatype StopRule = NextMissing | NextOrTotal

  predicate Stops<T>(rule: StopRule, p: Page<T>, gathered: nat) {
    match rule
      case NextMissing => p.next.None?
      case NextOrTotal => p.next.None? || p.next.value == [] || gathered >= p.total.GetOr(0)
  }

  /** The items `keep` maps to a value, in order. */
  function Kept<T, U>(items: seq<T>, keep: T -> Option<U>): (r: seq<U>)
    ensures |r| <= |items|
    ensures forall j :: 0 <= j < |r| ==> exists i :: 0 <= i < |items| && keep(items[i]) == Some(r[j])
    ensures (forall i :: 0 <= i < |items| ==> keep(items[i]).Some?) ==> |r| == |items|
  {
    if items == [] then []
    else
      var rest := Kept(items[1..], keep);
      assert forall j :: 0 <= j < |rest| ==> exists i :: 0 <= i < |items| && keep(items[i]) == Some(rest[j]) by {
        forall j | 0 <= j < |rest|
          ensures exists i :: 0 <= i < |items| && keep(items[i]) == Some(rest[j])
        {
          var i :| 0 <= i < |items[1..]| && keep(items[1..][i]) == Some(rest[j]);
          assert keep(items[i + 1]) == Some(rest[j]);
        }
      }
      match keep(items[0])
        case Some(u) => [u] + rest
        case None => rest
  }

  function KeepAll<T>(x: T): Option<T> { Some(x) }

  /** Keeping everything keeps the page as it is. */
  lemma {:induction false} KeptAll<T>(items: seq<T>)
    ensures Kept(items, KeepAll) == items
  {
    if items != [] {
      KeptAll(items[1..]);
    }
  }

  /** `request(limit, offset)`: the page of the listing's endpoint ("me/playlists",
      "playlists/{id}/tracks" or "me/tracks") at that offset. */
  type Request<T> = (int, int) -> Page<T>

  /** The reference: what the first `n` pages hold, the page `i` being the
      one at offset `i * limit`. */
  function Gathered<T, U>(request: Request<T>, keep: T -> Option<U>, limit: int, n: nat): seq<U> {
    if n == 0 then []
    else Gathered(request, keep, limit, n - 1) + Kept(request(limit, (n - 1) * limit).items, keep)
  }

  /** The loop stops after page `i`. */
  predicate StopsAt<T, U>(request: Request<T>, keep: T -> Option<U>, limit: int, rule: StopRule, i: nat) {
    Stops(rule, request(limit, i * limit), |Gathered(request, keep, limit, i + 1)|)
  }

  /** The paging loop shared by the three listings: fetch at offsets 0,
      `limit`, `2 * limit`, ..., gather the kept items, and stop after the
      first page the rule stops at, or after `maxPages` pages. */
  method Collect<T, U>(request: Request<T>, keep: T -> Option<U>, limit: int, rule: StopRule, maxPages: nat)
    returns (r: seq<U>, pages: nat, finished: bool)
    ensures pages <= maxPages && r == Gathered(request, keep, limit, pages)
    ensures finished ==> pages >= 1 && StopsAt(request, keep, limit, rule, pages - 1)
    ensures !finished ==> pages == maxPages
    ensures forall i :: 0 <= i < pages - 1 ==> !StopsAt(request, keep, limit, rule, i)
  {
    r := [];
    pages := 0;
    finished := false;
    var offset := 0;
    while !finished && pages < maxPages
      invariant pages <= maxPages && (!finished ==> offset == pages * limit)
      invariant r == Gathered(request, keep, limit, pages)
      invariant finished ==> pages >= 1 && StopsAt(request, keep, limit, rule, pages - 1)
      invariant forall i :: 0 <= i < pages - 1 ==> !StopsAt(request, keep, limit, rule, i)
      invariant !finished ==> forall i :: 0 <= i < pages ==> !StopsAt(request, keep, limit, rule, i)
      decreases maxPages - pages, if finished then 0 else 1
    {
      var page := request(limit, offset);
      r := r + Kept(page.items, keep);
      pages := pages + 1;
      if Stops(rule, page, |r|) {
        finished := true;
      } else {
        offset := offset + limit;
      }
    }
  }

  // ---------------------------------------------------------------- the listings

  const PlaylistLimit: int := 50
  const TrackLimit: int := 100
  const SavedLimit: int := 50

  /** A playlist or saved-tracks item: its track, `None` for local files
      and unavailable tracks. */
  datatype Item<T> = Item(track: Option<T>)

  function TrackOf<T>(it: Item<T>): Option<T> { it.track }

  /** `get_user_playlists`: every playlist of every page fetched, 50 at a
      time; the loop stops at a falsy `next` or once `total` is reached. */
  method GetUserPlaylists<P>(request: Request<P>, maxPages: nat) returns (r: seq<P>, pages: nat, finished: bool)
    ensures pages <= maxPages
    ensures r == Gathered(request, KeepAll, PlaylistLimit, pages)
    ensures finished ==> pages >= 1 && StopsAt(request, KeepAll, PlaylistLimit, NextOrTotal, pages - 1)
    ensures forall i :: 0 <= i < pages - 1 ==> !StopsAt(request, KeepAll, PlaylistLimit, NextOrTotal, i)
  {
    r, pages, finished := Collect(request, KeepAll, PlaylistLimit, NextOrTotal, maxPages);
  }

  /** `get_playlist_tracks`: the tracks of every page, 100 at a time,
      skipping items without one; only an absent `next` stops the loop. */
  method GetPlaylistTracks<T>(request: Request<Item<T>>, maxPages: nat) returns (r: seq<T>, pages: nat, finished: bool)
    ensures pages <= maxPages && r == Gathered(request, TrackOf, TrackLimit, pages)
    ensures finished ==> pages >= 1 && request(TrackLimit, (pages - 1) * TrackLimit).next.None?
    ensures forall i :: 0 <= i < pages - 1 ==> request(TrackLimit, i * TrackLimit).next.Some?
  {
    r, pages, finished := Collect(request, TrackOf, TrackLimit, NextMissing, maxPages);
    forall i | 0 <= i < pages - 1
      ensures request(TrackLimit, i * TrackLimit).next.Some?
    {
      assert !StopsAt(request, TrackOf, TrackLimit, NextMissing, i);
    }
  }

  /** `get_saved_tracks`: as for playlists, 50 at a time, skipping items
      without a track; `total` is compared with the tracks kept. */
  method GetSavedTracks<T>(request: Request<Item<T>>, maxPages: nat) returns (r: seq<T>, pages: nat, finished: bool)
    ensures pages <= maxPages && r == Gathered(request, TrackOf, SavedLimit, pages)
    ensures finished ==> pages >= 1 && StopsAt(request, TrackOf, SavedLimit, NextOrTotal, pages - 1)
    ensures forall i :: 0 <= i < pages - 1 ==> !StopsAt(request, TrackOf, SavedLimit, NextOrTotal, i)
  {
    r, pages, finished := Collect(request, TrackOf, SavedLimit, NextOrTotal, maxPages);
  }

  /** `get_saved_tracks_count`: the `total` of a one-item page, 0 when
      absent. */
  function GetSavedTracksCount<T>(request: Request<Item<T>>): (n: int)
    ensures request(1, 0).total.None? ==> n == 0
    ensures request(1, 0).total.Some? ==> n == request(1, 0).total.value
  {
    request(1, 0).total.GetOr(0)
  }

  // ---------------------------------------------------------------- properties

  /** Gathering is append-only: the first `m` pages' items are a prefix of
      the first `n` pages'. */
  lemma {:induction false} GatheredPrefix<T, U>(request: Request<T>, keep: T -> Option<U>, limit: int, m: nat, n: nat)
    requires m <= n
    ensures Gathered(request, keep, limit, m) <= Gathered(request, keep, limit, n)
    decreases n
  {
    if m < n {
      GatheredPrefix(request, keep, limit, m, n - 1);
    }
  }

  /** With everything kept, the playlists gathered are the pages' items
      concatenated, no more and no fewer. */
  lemma {:induction false} GatheredAll<T>(request: Request<T>, limit: int, n: nat)
    ensures Gathered(request, KeepAll, limit, n) == Flatten(Pages(request, limit, n))
  {
    if n > 0 {
      GatheredAll(request, limit, n - 1);
      var last := request(limit, (n - 1) * limit).items;
      var prev := Pages(request, limit, n - 1);
      KeptAll(last);
      assert Gathered(request, KeepAll, limit, n) == Flatten(prev) + last;
      assert Pages(request, limit, n) == prev + [last];
      FlattenAppend(prev, [last]);
      assert Flatten([last]) == last + Flatten([]);
    }
  }

  /** The items of the first `n` pages, page by page. */
  function Pages<T>(request: Request<T>, limit: int, n: nat): (r: seq<seq<T>>)
    ensures |r| == n
    ensures forall i :: 0 <= i < n ==> r[i] == request(limit, i * limit).items
  {
    if n == 0 then [] else Pages(request, limit, n - 1) + [request(limit, (n - 1) * limit).items]
  }

  /** With no `total` in the response the rule stops after the first
      page, whatever `next` says. */
  lemma NoTotalOnePage<T, U>(request: Request<T>, keep: T -> Option<U>, limit: int)
    requires request(limit, 0).total.None?
    ensures StopsAt(request, keep, limit, NextOrTotal, 0)
  {
  }
}
