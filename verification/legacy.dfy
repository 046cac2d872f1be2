/** The single-module migration command, an older copy of the migration
    package. Its matching helpers, per-track loop, playlist prompt and
    batch add are the ones modelled in `Tracks`, `Migration` and
    `Playlist`; what it adds is the background downloader that queues every
    added track. */
module Legacy {
  import opened Common
  import Text
  import Tracks
  import Selection
  import Migration
  import Playlist
  import TidalApi

  // ---------------------------------------------------------------- background downloader

  /** The downloader's state, its worker thread taken sequentially. */
  datatype Downloader = Downloader(enabled: bool, queue: seq<string>, downloaded: nat, failed: nat)

  /** `add_track`: queue the id when enabled, otherwise do nothing. */
  function AddTrack(d: Downloader, id: string): (r: Downloader)
    ensures r.enabled == d.enabled && r.downloaded == d.downloaded && r.failed == d.failed
    ensures d.enabled ==> r.queue == d.queue + [id]
    ensures !d.enabled ==> r == d
  {
    if d.enabled then d.(queue := d.queue + [id]) else d
  }

  /** One iteration of the worker: take the oldest id and count it as
      downloaded or failed; an empty queue leaves everything as it is. */
  function WorkOnce(d: Downloader, downloadOk: string -> bool): (r: Downloader)
    ensures r.downloaded + r.failed + |r.queue| == d.downloaded + d.failed + |d.queue|
    ensures d.queue != [] ==> r.queue == d.queue[1..]
  {
    if d.queue == [] then d
    else if downloadOk(d.queue[0]) then d.(queue := d.queue[1..], downloaded := d.downloaded + 1)
    else d.(queue := d.queue[1..], failed := d.failed + 1)
  }

  /** `stats`: downloaded, failed, and the ids still queued. */
  function Stats(d: Downloader): (nat, nat, nat) {
    (d.downloaded, d.failed, |d.queue|)
  }

  /** The per-track loop with the downloader fed by every added id. */
  function LegacyRun(ts: seq<Tracks.SpotifyTrack>, k: nat, ids0: set<string>, lk: Migration.Lookups,
                     d0: Downloader): (r: (Migration.Progress, Downloader))
    requires k <= |ts|
    ensures r.0 == Migration.Run(ts, k, ids0, lk)
    ensures r.1.queue == d0.queue + (if d0.enabled then r.0.added else [])
    ensures r.1.enabled == d0.enabled && r.1.downloaded == d0.downloaded && r.1.failed == d0.failed
  {
    if k == 0 then (Migration.Run(ts, 0, ids0, lk), d0)
    else
      var prev := LegacyRun(ts, k - 1, ids0, lk, d0);
      var step := Migration.Step(k - 1, ts[k - 1], prev.0.ids, lk);
      var d := if step.0.kind == Migration.AddedTrack then AddTrack(prev.1, step.0.entry.tidalId.value) else prev.1;
      (Migration.Run(ts, k, ids0, lk), d)
  }

  /** A disabled downloader never queues anything, whatever the loop adds;
      an enabled one queues exactly the added ids, in order. And every
      track lands in exactly one of added, skipped and failed. */
  lemma DownloaderGate(ts: seq<Tracks.SpotifyTrack>, ids0: set<string>, lk: Migration.Lookups)
    ensures var r := LegacyRun(ts, |ts|, ids0, lk, Downloader(false, [], 0, 0));
            r.1.queue == [] && Stats(r.1) == (0, 0, 0)
    ensures var r := LegacyRun(ts, |ts|, ids0, lk, Downloader(true, [], 0, 0));
            r.1.queue == r.0.added && |r.1.queue| <= |ts|
    ensures var p := Migration.Run(ts, |ts|, ids0, lk);
            |p.added| + p.skipped + p.failed == |ts|
  {
  }

  /** Working off the queue keeps downloaded + failed + queued constant,
      so once the queue is empty every queued id was counted once. */
  lemma {:induction false} WorkDrains(d: Downloader, downloadOk: string -> bool, n: nat)
    requires n == |d.queue|
    ensures var r := WorkAll(d, downloadOk, n);
            r.queue == [] && r.downloaded + r.failed == d.downloaded + d.failed + |d.queue|
    decreases n
  {
    if n > 0 {
      WorkDrains(WorkOnce(d, downloadOk), downloadOk, n - 1);
    }
  }

  function WorkAll(d: Downloader, downloadOk: string -> bool, n: nat): Downloader
    decreases n
  {
    if n == 0 then d else WorkAll(WorkOnce(d, downloadOk), downloadOk, n - 1)
  }

  // ---------------------------------------------------------------- shared helpers

  /** The module's own name simplification and fuzzy predicates keep the
      laws of the package's: simplification is idempotent and leaves no
      '-', '(' or '['; name and artist matching are symmetric. */
  lemma HelperLaws(name: string, a: string, b: string, xs: seq<string>, ys: seq<string>)
    ensures Tracks.SimplifyName(Tracks.SimplifyName(name)) == Tracks.SimplifyName(name)
    ensures '-' !in Tracks.SimplifyName(name) && '(' !in Tracks.SimplifyName(name) && '[' !in Tracks.SimplifyName(name)
    ensures Tracks.NameMatch(a, b) == Tracks.NameMatch(b, a)
    ensures Tracks.ArtistMatch(xs, ys) == Tracks.ArtistMatch(ys, xs)
  {
    Tracks.SimplifyNameIdempotent(name);
    Tracks.NameMatchSymmetric(a, b);
    Tracks.ArtistMatchSymmetric(xs, ys);
  }

  // ---------------------------------------------------------------- prompt

  /** "mine" without an owned playlist exits; a list of numbers skips the
      out-of-range ones, so each pick is a playlist of the list. */
  lemma PromptSkips(selection: string, ps: seq<Selection.Playlist>, userId: Option<string>)
    ensures Text.Lower(selection) == "mine" && (forall p :: p in ps ==> !Selection.OwnedBy(p, userId)) ==>
              Migration.PromptSelection(selection, ps, userId).None?
    ensures Text.Lower(selection) !in {"none", "all", "mine"} && Migration.PromptSelection(selection, ps, userId).Some? ==>
              (forall p :: p in Migration.PromptSelection(selection, ps, userId).value ==> p in ps)
  {
    Migration.PromptWords(selection, ps, userId);
    if Text.Lower(selection) !in {"none", "all", "mine"} && Migration.PromptSelection(selection, ps, userId).Some? {
      Migration.PromptNumbers(selection, ps, userId);
      var r := Migration.PromptSelection(selection, ps, userId).value;
      var nums := Migration.ParseNumbers(Text.Split(selection, ",")).value;
      var k := Migration.InRange(nums, |ps|);
      forall p | p in r
        ensures p in ps
      {
        var j :| 0 <= j < |r| && r[j] == p;
        assert 1 <= k[j] <= |ps|;
      }
    }
  }

  // ---------------------------------------------------------------- batch add

  /** The batch add of this module: ceil(n/50) batches, and a batch the API
      answered with the one-by-one fallback's error for `f` failed ids adds
      the rest and fails those. */
  lemma BatchAccounting(ids: seq<string>, addBatch: seq<string> -> Playlist.BatchResult, batch: seq<string>,
                        f: seq<string>)
    requires |f| <= |batch|
    ensures Playlist.AddTracksToPlaylist(ids, addBatch).2 == CeilDiv(|ids|, Playlist.AddBatchSize)
    ensures Playlist.AddTracksToPlaylist(ids, addBatch).0 + Playlist.AddTracksToPlaylist(ids, addBatch).1 == |ids|
    ensures Playlist.BatchCounts(batch, Playlist.BatchApiError(TidalApi.FailedMessage(f))) == (|batch| - |f|, |f|)
  {
    Playlist.AddTracksAccounting(ids, addBatch);
    ChunksFlatten(ids, Playlist.AddBatchSize);
    Playlist.BatchCountsFromApi(batch, f);
  }
}
