/** The Spotify to Tidal migration of one playlist, track by track, and the
    choice of playlists before it. Odesli, the Tidal search and the add
    request are oracles: the model receives what they answer. */
module Migration {
  import opened Common
  import opened Text
  import Sorting
  import Tracks
  import Selection

  /** Python truthiness of an optional id: present and non-empty. */
  predicate Truthy(o: Option<string>) { o.Some? && o.value != "" }

  /** The answers of the services one track consults. */
  datatype Services = Services(
    odesli: string -> Option<string>,          // `convert_spotify_to_tidal`; None also when it raises
    search: string -> Tracks.SearchResponse,   // the Tidal search behind `search_tidal_track`
    addOk: (nat, string) -> bool)              // `add_single_track_to_playlist` for track i succeeds

  /** Which of the three lists a track ends in. */
  datatype Kind = AddedTrack | SkippedTrack | FailedTrack

  /** The id, status and source the report collector receives. */
  datatype Entry = Entry(tidalId: Option<string>, status: string, source: string)

  /** How one track ended; `found` is what it adds to `fallback_found`. */
  datatype Outcome = Outcome(kind: Kind, entry: Entry, byMetadata: bool, found: nat)

  /** The outcome's list agrees with the status it reports. */
  predicate StatusAgrees(o: Outcome) {
    && (o.kind == AddedTrack <==> o.entry.status == "added")
    && (o.kind == SkippedTrack <==> o.entry.status == "skipped")
    && (o.kind == FailedTrack <==> o.entry.status in {"failed_to_add", "not_found"})
  }

  /** What the loop asks about one track, fixed for the whole playlist:
      the metadata match against the playlist's tracks, the Odesli id, the
      search result, and whether adding an id as track `i` succeeds. */
  datatype Lookups = Lookups(
    matched: Tracks.SpotifyTrack -> Option<string>,    // `match_existing_track`
    odesli: string -> Option<string>,
    searched: Tracks.SpotifyTrack -> Option<string>,   // `search_tidal_track`
    addOk: (nat, string) -> bool)

  /** The lookups of a playlist whose tracks have metadata `meta`. */
  function LookupsOf(meta: seq<Tracks.TidalTrack>, sv: Services): (lk: Lookups)
    ensures forall t :: lk.matched(t) == Tracks.MatchExisting(t, meta)
    ensures forall t :: lk.searched(t) == Tracks.SearchTidalTrack(t, sv.search)
    ensures lk.odesli == sv.odesli && lk.addOk == sv.addOk
  {
    Lookups(t => Tracks.MatchExisting(t, meta), sv.odesli, t => Tracks.SearchTidalTrack(t, sv.search), sv.addOk)
  }

  /** Steps 1 and 2: the Odesli id when truthy, else the search result. */
  function Resolve(t: Tracks.SpotifyTrack, lk: Lookups): Option<string> {
    var o := lk.odesli(t.id);
    if Truthy(o) then o else lk.searched(t)
  }

  /** Steps 3 and 4 for a resolved id: skip it when the playlist has it,
      else add it; when that fails and the id came from Odesli, try the
      search result once if it is a different id. */
  function Place(i: nat, t: Tracks.SpotifyTrack, id: string, source: string, found: nat,
                 ids: set<string>, lk: Lookups): (r: (Outcome, set<string>))
    ensures StatusAgrees(r.0) && !r.0.byMetadata
    ensures r.0.kind == AddedTrack ==> r.0.entry.tidalId.Some? && r.1 == ids + {r.0.entry.tidalId.value}
    ensures r.0.kind != AddedTrack ==> r.1 == ids
    ensures r.0.kind == SkippedTrack <==> id in ids
  {
    if id in ids then (Outcome(SkippedTrack, Entry(Some(id), "skipped", source), false, found), ids)
    else if lk.addOk(i, id) then (Outcome(AddedTrack, Entry(Some(id), "added", source), false, found), ids + {id})
    else
      var f := if source == "odesli" then lk.searched(t) else None;
      if Truthy(f) && f.value != id && lk.addOk(i, f.value) then
        (Outcome(AddedTrack, Entry(f, "added", "tidal_search_fallback"), false, found + 1), ids + {f.value})
      else (Outcome(FailedTrack, Entry(Some(id), "failed_to_add", source), false, found), ids)
  }

  /** One iteration of the per-track loop for track `i`: the metadata match
      first, then Odesli, then the search, then placing the id. Returns the
      outcome and the playlist's ids afterwards. */
  function Step(i: nat, t: Tracks.SpotifyTrack, ids: set<string>, lk: Lookups): (r: (Outcome, set<string>))
    ensures StatusAgrees(r.0) && ids <= r.1
    ensures r.0.kind == AddedTrack ==> Truthy(r.0.entry.tidalId)
    ensures r.0.byMetadata ==> r.0.kind == SkippedTrack
    ensures r.0.kind == AddedTrack ==> r.0.entry.tidalId.Some? && r.1 == ids + {r.0.entry.tidalId.value}
    ensures r.0.kind != AddedTrack ==> r.1 == ids
  {
    var m := lk.matched(t);
    if Truthy(m) then (Outcome(SkippedTrack, Entry(m, "skipped", "metadata_match"), true, 0), ids)
    else
      var o := lk.odesli(t.id);
      if Truthy(o) then Place(i, t, o.value, "odesli", 0, ids, lk)
      else
        var s := lk.searched(t);
        if Truthy(s) then Place(i, t, s.value, "tidal_search", 1, ids, lk)
        else (Outcome(FailedTrack, Entry(None, "not_found", ""), false, 0), ids)
  }

  /** The loop's lists and counters. */
  datatype Progress = Progress(
    ids: set<string>,        // existing_track_ids
    added: seq<string>,      // added_tracks
    skipped: nat,
    byMetadata: nat,         // skipped_by_metadata
    failed: nat,
    fallbackFound: nat,
    entries: seq<Entry>)     // the report collector's entries

  /** The counters after one more track with outcome `r`. */
  function Advance(p: Progress, r: (Outcome, set<string>)): (q: Progress)
    requires r.0.kind == AddedTrack ==> r.0.entry.tidalId.Some?
    ensures q.entries == p.entries + [r.0.entry] && q.ids == r.1
    ensures |q.added| + q.skipped + q.failed == |p.added| + p.skipped + p.failed + 1
    ensures q.byMetadata - q.skipped <= p.byMetadata - p.skipped + (if r.0.byMetadata && r.0.kind != SkippedTrack then 1 else 0)
    ensures q.added == p.added + (if r.0.kind == AddedTrack then [r.0.entry.tidalId.value] else [])
    // exactly the outcome's own list grows, by one
    ensures q.skipped == p.skipped + (if r.0.kind == SkippedTrack then 1 else 0)
    ensures q.failed == p.failed + (if r.0.kind == FailedTrack then 1 else 0)
    ensures q.byMetadata == p.byMetadata + (if r.0.byMetadata then 1 else 0)
    ensures q.fallbackFound == p.fallbackFound + r.0.found
  {
    var o := r.0;
    Progress(
      r.1,
      p.added + (if o.kind == AddedTrack then [o.entry.tidalId.value] else []),
      p.skipped + (if o.kind == SkippedTrack then 1 else 0),
      p.byMetadata + (if o.byMetadata then 1 else 0),
      p.failed + (if o.kind == FailedTrack then 1 else 0),
      p.fallbackFound + o.found,
      p.entries + [o.entry])
  }

  /** The per-track loop of `migrate_playlist` after the first `k` tracks.
      Every track lands in exactly one of the three lists, and the
      playlist's ids grow by the added ones. */
  function Run(ts: seq<Tracks.SpotifyTrack>, k: nat, ids0: set<string>, lk: Lookups): (s: Progress)
    requires k <= |ts|
    ensures |s.added| + s.skipped + s.failed == k
    ensures |s.entries| == k
    ensures s.byMetadata <= s.skipped
    ensures s.ids == ids0 + Elems(s.added)
    ensures forall i :: 0 <= i < k && s.entries[i].status == "added" ==>
              Truthy(s.entries[i].tidalId) && s.entries[i].tidalId.value in s.ids
  {
    if k == 0 then Progress(ids0, [], 0, 0, 0, 0, [])
    else
      var p := Run(ts, k - 1, ids0, lk);
      Advance(p, Step(k - 1, ts[k - 1], p.ids, lk))
  }

  /** A metadata match is skipped with source "metadata_match" before any
      service is asked: the outcome is the same whatever the services say. */
  lemma MetadataMatchSkips(i: nat, t: Tracks.SpotifyTrack, ids: set<string>, lk1: Lookups, lk2: Lookups)
    requires lk1.matched(t) == lk2.matched(t) && Truthy(lk1.matched(t))
    ensures Step(i, t, ids, lk1) == Step(i, t, ids, lk2)
    ensures var r := Step(i, t, ids, lk1);
            r.0.kind == SkippedTrack && r.0.entry.source == "metadata_match" && r.0.byMetadata && r.1 == ids
  {
  }

  /** The search is not consulted when Odesli gives an id that is already
      in the playlist or that is added: the outcome is the same for any
      search answers, and its source is Odesli's. */
  lemma SearchOnlyWithoutOdesli(i: nat, t: Tracks.SpotifyTrack, ids: set<string>, lk: Lookups,
                                searched: Tracks.SpotifyTrack -> Option<string>)
    requires !Truthy(lk.matched(t))
    requires Truthy(lk.odesli(t.id))
    requires lk.odesli(t.id).value in ids || lk.addOk(i, lk.odesli(t.id).value)
    ensures Step(i, t, ids, lk) == Step(i, t, ids, lk.(searched := searched))
    ensures Step(i, t, ids, lk).0.entry
            == Entry(lk.odesli(t.id), if lk.odesli(t.id).value in ids then "skipped" else "added", "odesli")
  {
  }

  /** A resolved id the playlist already holds is skipped and nothing is
      added. */
  lemma ExistingSkipped(i: nat, t: Tracks.SpotifyTrack, ids: set<string>, lk: Lookups)
    requires !Truthy(lk.matched(t))
    requires Truthy(Resolve(t, lk)) && Resolve(t, lk).value in ids
    ensures Step(i, t, ids, lk).0.kind == SkippedTrack
    ensures Step(i, t, ids, lk).0.entry.tidalId == Resolve(t, lk)
    ensures Step(i, t, ids, lk).1 == ids
  {
  }

  /** The fallback adds a track exactly when the id came from Odesli, its
      add failed, and the search found a different id whose add succeeds. */
  lemma FallbackCondition(i: nat, t: Tracks.SpotifyTrack, ids: set<string>, lk: Lookups)
    ensures Step(i, t, ids, lk).0.entry.source == "tidal_search_fallback" <==>
              !Truthy(lk.matched(t))
              && Truthy(lk.odesli(t.id))
              && lk.odesli(t.id).value !in ids
              && !lk.addOk(i, lk.odesli(t.id).value)
              && Truthy(lk.searched(t))
              && lk.searched(t).value != lk.odesli(t.id).value
              && lk.addOk(i, lk.searched(t).value)
  {
    var o := lk.odesli(t.id);
    if !Truthy(lk.matched(t)) && Truthy(o) {
      PlaceFallback(i, t, o.value, "odesli", 0, ids, lk);
    } else if !Truthy(lk.matched(t)) {
      var s := lk.searched(t);
      if Truthy(s) {
        PlaceFallback(i, t, s.value, "tidal_search", 1, ids, lk);
      }
    }
  }

  lemma PlaceFallback(i: nat, t: Tracks.SpotifyTrack, id: string, source: string, found: nat,
                      ids: set<string>, lk: Lookups)
    requires source != "tidal_search_fallback"
    ensures Place(i, t, id, source, found, ids, lk).0.entry.source == "tidal_search_fallback" <==>
              source == "odesli" && id !in ids && !lk.addOk(i, id)
              && Truthy(lk.searched(t))
              && lk.searched(t).value != id
              && lk.addOk(i, lk.searched(t).value)
  {
  }

  /** One more track appends its entry and applies its step to the ids. */
  lemma RunLast(ts: seq<Tracks.SpotifyTrack>, k: nat, ids0: set<string>, lk: Lookups)
    requires 0 < k <= |ts|
    ensures var p := Run(ts, k - 1, ids0, lk);
            var r := Step(k - 1, ts[k - 1], p.ids, lk);
            Run(ts, k, ids0, lk).entries == p.entries + [r.0.entry] && Run(ts, k, ids0, lk).ids == r.1
            && p.ids <= r.1
  {
  }

  /** Once a track is added, a later track resolving to the same id is
      skipped as already in the playlist. */
  lemma LaterSameIdSkipped(ts: seq<Tracks.SpotifyTrack>, a: nat, b: nat, ids0: set<string>, lk: Lookups)
    requires a < b < |ts|
    requires Run(ts, b, ids0, lk).entries[a].status == "added"
    requires !Truthy(lk.matched(ts[b]))
    requires Resolve(ts[b], lk) == Run(ts, b, ids0, lk).entries[a].tidalId
    ensures Run(ts, b + 1, ids0, lk).entries[b].status == "skipped"
  {
    var p := Run(ts, b, ids0, lk);
    RunLast(ts, b + 1, ids0, lk);
    ExistingSkipped(b, ts[b], p.ids, lk);
  }

  // ---------------------------------------------------------------- one playlist

  /** The Tidal playlist found or created for the Spotify one: its uuid,
      the ids it holds and their metadata. */
  datatype Target = Target(uuid: string, ids: set<string>, meta: seq<Tracks.TidalTrack>)

  /** `migrate_playlist`: None when fetching the tracks or the target
      failed or in a dry run; after the loop, None when nothing was added,
      the playlist is not already up to date, and it is still empty. */
  function MigratePlaylist(fetched: Option<seq<Tracks.SpotifyTrack>>, dryRun: bool, target: Option<Target>,
                           sv: Services): (r: Option<string>)
    ensures fetched.None? || dryRun || target.None? ==> r.None?
    ensures r.Some? ==> target.Some? && r.value == target.value.uuid
  {
    if fetched.None? || dryRun || target.None? then None
    else
      var ts := fetched.value;
      var tg := target.value;
      var p := Run(ts, |ts|, tg.ids, LookupsOf(tg.meta, sv));
      if p.added != [] then Some(tg.uuid)
      else if p.skipped > 0 && p.failed == 0 then Some(tg.uuid)
      else if p.ids == {} && p.added == [] then None
      else Some(tg.uuid)
  }

  /** The uuid comes back unless a step before the loop failed, or the
      loop added nothing, left the playlist not up to date, and the target
      started empty. */
  lemma MigratePlaylistResult(fetched: Option<seq<Tracks.SpotifyTrack>>, dryRun: bool, target: Option<Target>,
                              sv: Services)
    ensures var r := MigratePlaylist(fetched, dryRun, target, sv);
            r.Some? ==> target.Some? && r.value == target.value.uuid
    ensures MigratePlaylist(fetched, dryRun, target, sv).None? <==>
              fetched.None? || dryRun || target.None? ||
              (var p := Run(fetched.value, |fetched.value|, target.value.ids, LookupsOf(target.value.meta, sv));
               p.added == [] && (p.skipped == 0 || p.failed > 0) && target.value.ids == {})
    ensures fetched == Some([]) && !dryRun && target.Some? && target.value.ids == {} ==>
              MigratePlaylist(fetched, dryRun, target, sv).None?
  {
    if fetched.Some? && !dryRun && target.Some? {
      var p := Run(fetched.value, |fetched.value|, target.value.ids, LookupsOf(target.value.meta, sv));
      if p.added == [] {
        assert Elems(p.added) == {};
      }
    }
  }

  // ---------------------------------------------------------------- choosing playlists

  /** 0 for a playlist the user owns, 1 otherwise. */
  function OwnerRank(p: Selection.Playlist, userId: Option<string>): int {
    if Selection.OwnedBy(p, userId) then 0 else 1
  }

  /** The sort key `(0 if owned else 1, name.lower())`, compared as a
      tuple. */
  predicate KeyLe(a: Selection.Playlist, b: Selection.Playlist, userId: Option<string>) {
    OwnerRank(a, userId) < OwnerRank(b, userId)
    || (OwnerRank(a, userId) == OwnerRank(b, userId) && StrLe(Lower(a.name), Lower(b.name)))
  }

  function KeyOrder(userId: Option<string>): (Selection.Playlist, Selection.Playlist) -> bool {
    (a, b) => KeyLe(a, b, userId)
  }

  /** `playlists.sort(key=sort_key)` */
  function SortPlaylists(ps: seq<Selection.Playlist>, userId: Option<string>): (r: seq<Selection.Playlist>)
    ensures |r| == |ps| && multiset(r) == multiset(ps)
  {
    Sorting.SortBy(ps, KeyOrder(userId))
  }

  lemma KeyOrderPreorder(userId: Option<string>)
    ensures Sorting.Total(KeyOrder(userId)) && Sorting.Transitive(KeyOrder(userId))
  {
    forall a, b
      ensures KeyLe(a, b, userId) || KeyLe(b, a, userId)
    {
      StrLeTotal(Lower(a.name), Lower(b.name));
    }
    forall a, b, c | KeyLe(a, b, userId) && KeyLe(b, c, userId)
      ensures KeyLe(a, c, userId)
    {
      if OwnerRank(a, userId) == OwnerRank(b, userId) == OwnerRank(c, userId) {
        StrLeTrans(Lower(a.name), Lower(b.name), Lower(c.name));
      }
    }
  }

  /** The sorted list holds the same playlists; owned ones come first;
      within each group the lower-cased names are in order. */
  lemma SortPlaylistsOrder(ps: seq<Selection.Playlist>, userId: Option<string>)
    ensures multiset(SortPlaylists(ps, userId)) == multiset(ps)
    ensures var r := SortPlaylists(ps, userId);
            forall i, j :: 0 <= i < j < |r| ==>
              (Selection.OwnedBy(r[j], userId) ==> Selection.OwnedBy(r[i], userId))
              && (Selection.OwnedBy(r[i], userId) == Selection.OwnedBy(r[j], userId) ==>
                    StrLe(Lower(r[i].name), Lower(r[j].name)))
  {
    KeyOrderPreorder(userId);
    Sorting.SortBySorted(ps, KeyOrder(userId));
    var r := SortPlaylists(ps, userId);
    forall i, j | 0 <= i < j < |r|
      ensures KeyLe(r[i], r[j], userId)
    {
      assert KeyOrder(userId)(r[i], r[j]);
    }
  }

  /** The playlists the user owns, in order. */
  function OwnedPlaylists(ps: seq<Selection.Playlist>, userId: Option<string>): (r: seq<Selection.Playlist>)
    ensures |r| <= |ps|
    ensures forall p :: p in r <==> p in ps && Selection.OwnedBy(p, userId)
    ensures r == [] <==> forall i :: 0 <= i < |ps| ==> !Selection.OwnedBy(ps[i], userId)
  {
    if ps == [] then []
    else (if Selection.OwnedBy(ps[0], userId) then [ps[0]] else []) + OwnedPlaylists(ps[1..], userId)
  }

  /** `[int(x.strip()) for x in selection.split(',')]`; None when a part is
      not an integer. */
  function ParseNumbers(parts: seq<string>): (r: Option<seq<int>>)
    ensures r.Some? ==> |r.value| == |parts|
    ensures r.Some? ==> forall j :: 0 <= j < |parts| ==> ParseInt(Strip(parts[j])) == Some(r.value[j])
    ensures r.None? <==> exists j :: 0 <= j < |parts| && ParseInt(Strip(parts[j])).None?
  {
    if parts == [] then Some([])
    else
      match ParseInt(Strip(parts[0]))
      case None => None
      case Some(v) =>
        match ParseNumbers(parts[1..])
        case None => None
        case Some(rest) => Some([v] + rest)
  }

  /** The numbers within `1..n`, in order. */
  function InRange(nums: seq<int>, n: int): (r: seq<int>)
    ensures forall j :: 0 <= j < |r| ==> 1 <= r[j] <= n
    ensures forall x :: x in r <==> x in nums && 1 <= x <= n
  {
    if nums == [] then []
    else (if 1 <= nums[0] <= n then [nums[0]] else []) + InRange(nums[1..], n)
  }

  /** The playlists the numbers pick, skipping the ones out of range. */
  function Pick(nums: seq<int>, ps: seq<Selection.Playlist>): (r: seq<Selection.Playlist>)
  {
    if nums == [] then []
    else (if 1 <= nums[0] <= |ps| then [ps[nums[0] - 1]] else []) + Pick(nums[1..], ps)
  }

  /** The picks are the playlists at the kept numbers. */
  predicate PicksAt(r: seq<Selection.Playlist>, k: seq<int>, ps: seq<Selection.Playlist>) {
    |r| == |k| && forall j :: 0 <= j < |r| ==> 1 <= k[j] <= |ps| && r[j] == ps[k[j] - 1]
  }

  lemma {:induction false} PickInRange(nums: seq<int>, ps: seq<Selection.Playlist>)
    ensures var r := Pick(nums, ps);
            var k := InRange(nums, |ps|);
            |r| == |k| && forall j :: 0 <= j < |r| ==> r[j] == ps[k[j] - 1]
  {
    PicksAtAll(nums, ps);
  }

  lemma {:induction false} PicksAtAll(nums: seq<int>, ps: seq<Selection.Playlist>)
    ensures PicksAt(Pick(nums, ps), InRange(nums, |ps|), ps)
  {
    if nums != [] {
      PicksAtAll(nums[1..], ps);
      var r', k' := Pick(nums[1..], ps), InRange(nums[1..], |ps|);
      if 1 <= nums[0] <= |ps| {
        assert Pick(nums, ps) == [ps[nums[0] - 1]] + r';
        assert InRange(nums, |ps|) == [nums[0]] + k';
        PicksAtCons(ps[nums[0] - 1], nums[0], r', k', ps);
      } else {
        assert Pick(nums, ps) == [] + r';
        assert InRange(nums, |ps|) == [] + k';
      }
    }
  }

  lemma PicksAtCons(a: Selection.Playlist, x: int, r: seq<Selection.Playlist>, k: seq<int>,
                    ps: seq<Selection.Playlist>)
    requires 1 <= x <= |ps| && a == ps[x - 1] && PicksAt(r, k, ps)
    ensures PicksAt([a] + r, [x] + k, ps)
  {
    forall j | 1 <= j < |r| + 1
      ensures ([a] + r)[j] == ps[([x] + k)[j] - 1]
    {
      assert ([a] + r)[j] == r[j - 1] && ([x] + k)[j] == k[j - 1];
    }
  }

  /** The answer to the "Your selection" prompt: None means the command
      exits. "none" cancels, "all" takes every playlist, "mine" the owned
      ones (exiting when there are none), anything else is a list of
      numbers; an empty choice exits too. */
  function PromptSelection(selection: string, ps: seq<Selection.Playlist>, userId: Option<string>)
    : Option<seq<Selection.Playlist>>
  {
    var l := Lower(selection);
    if l == "none" then None
    else
      var chosen :=
        if l == "all" then ps
        else if l == "mine" then OwnedPlaylists(ps, userId)
        else match ParseNumbers(Split(selection, ","))
          case None => []
          case Some(nums) => Pick(nums, ps);
      if chosen == [] then None else Some(chosen)
  }

  /** A list of numbers picks, in order, the playlist of each number in
      `1..n` and skips the others; a part that is not an integer, or no
      number in range, makes the command exit. */
  lemma PromptNumbers(selection: string, ps: seq<Selection.Playlist>, userId: Option<string>)
    requires Lower(selection) !in {"none", "all", "mine"}
    ensures var r := PromptSelection(selection, ps, userId);
            var nums := ParseNumbers(Split(selection, ","));
            (r.None? <==> nums.None? || InRange(nums.value, |ps|) == [])
            && (r.Some? ==>
                  (|r.value| == |InRange(nums.value, |ps|)|
                   && forall j :: 0 <= j < |r.value| ==> r.value[j] == ps[InRange(nums.value, |ps|)[j] - 1]))
  {
    var nums := ParseNumbers(Split(selection, ","));
    if nums.Some? {
      PickInRange(nums.value, ps);
    }
  }

  /** "mine" takes exactly the owned playlists in their order and exits
      when there are none; "all" takes every playlist unless there are
      none; "none" always exits. */
  lemma PromptWords(selection: string, ps: seq<Selection.Playlist>, userId: Option<string>)
    ensures Lower(selection) == "none" ==> PromptSelection(selection, ps, userId).None?
    ensures Lower(selection) == "all" ==> PromptSelection(selection, ps, userId) == (if ps == [] then None else Some(ps))
    ensures Lower(selection) == "mine" ==>
              (PromptSelection(selection, ps, userId).None? <==> forall p :: p in ps ==> !Selection.OwnedBy(p, userId))
    ensures Lower(selection) == "mine" && PromptSelection(selection, ps, userId).Some? ==>
              forall p :: p in PromptSelection(selection, ps, userId).value <==> p in ps && Selection.OwnedBy(p, userId)
  {
  }
}
