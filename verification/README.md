# tiddl migration core, modelled in Dafny

tiddl copies a user's Spotify playlists and liked songs to Tidal. It can
then queue the migrated playlists for download with the tiddl CLI, tag the
downloaded files with enriched metadata, and write M3U playlists and CSV
reports.

This project models the decision logic of that pipeline as pure Dafny
functions over immutable datatypes, and proves the properties the code and
its docstrings promise. There is one module per source file:

| module | models |
|---|---|
| `Tracks` | `tiddl/cli/commands/migrate/tracks.py`: name simplification, the fuzzy duration, name and artist tests, the metadata match, the Tidal search |
| `Selection` | `tiddl/cli/commands/migrate/selection.py`: the interactive selection language (`all`, `none`, `mine`, `liked`, `invert`, `@owner`, numbers and ranges) and its loop |
| `Migration` | `tiddl/cli/commands/migrate/command.py`: playlist ordering, the prompt, and the per-track loop of `migrate_playlist` (metadata match → Odesli → search → add, with the search fallback) |
| `Legacy` | `tiddl/cli/commands/migrate.py`: the single-file variant; shown to run the same loop, plus its background download queue |
| `Playlist` | `tiddl/cli/commands/migrate/playlist.py`: paged fetching, duplicate detection and deletion batches, batched adds with failure accounting, log file names |
| `Report` | `tiddl/cli/commands/migrate/report.py`: the report collector, text normalisation, the downloaded-file search, CSV rows and finalisation |
| `Downloader` | `tiddl/cli/commands/migrate/downloader.py`: the tiddl command line, its timeout, failure messages, queueing and the sequential download run |
| `Ui` | `tiddl/cli/commands/migrate/ui.py`: emoji stripping, width truncation, the activity log, timing windows, counters and ETA text |
| `TidalApi` | `tiddl/core/api/api.py`: page-size clamping, adding tracks with the one-by-one fallback, the delete path, playlist updates |
| `SpotifyApi` | `tiddl/core/spotify/api.py`: the three paged listings and the saved-track count |
| `Odesli` | `tiddl/core/odesli/client.py`: the sliding-window rate limiter and the extraction of the Tidal id |
| `MusicBrainz` | `tiddl/core/musicbrainz/client.py`: recording parsing (top genres and tags by votes), the ISRC lookup and the duration-windowed search |
| `GetSongBpm` | `tiddl/core/getsongbpm/client.py`: integer parsing of tempo values, song parsing, best-match choice, the search |
| `Enrichment` | `tiddl/core/metadata/enrichment.py`: source priority when merging MusicBrainz, GetSongBPM and Tidal data, failure containment, the cached service |
| `Tagging` | `tiddl/core/metadata/track.py`: credits sorting, the metadata record, and the FLAC and M4A tag sets |
| `M3u` | `tiddl/core/utils/m3u.py`: file-name sanitising, M3U writing and the relative-path rewrite |
| `Ffmpeg` | `tiddl/core/utils/ffmpeg.py`: the ordered checks of `verify_audio_file` |

Three shared modules support them:
- `Common`: `Option`, sets, chunking and ceiling division.
- `Text`: Python's `strip`, `split`, `lower`, `int` and `str` on strings.
- `Sorting`: a stable insertion sort, standing for Python's `list.sort` and `sorted`.

Everything outside the process is a parameter: HTTP responses, the tiddl
and ffprobe subprocesses, the clock, `unicodedata.category`,
`os.path.relpath`, `datetime.fromisoformat`, and the file system's answers. A
result of the form "raises" is a constructor of a result datatype.

Behaviour worth noting:
- Odesli's `entityUniqueId.split('::')[1]` is the text between the first and
  the second `::`, not everything after the first.
- A GetSongBPM search hit that is the empty object `{}` passes the match test
  (an empty title is in every title) but is false in Python. So the search
  falls back to the first hit, and finds nothing when that is `{}` too.
- The M3U rewrite keeps a blank line that directly follows a directive, as an
  empty path line; only other blank lines are dropped.
- `migrate.py` runs the same per-track loop as the package's `command.py`.
  The only differences are the report calls and the feeding of its
  background download queue. `Legacy.LegacyRun` is defined through
  `Migration.Run` for that reason. Its private copies of the name
  simplification, the fuzzy tests and the metadata match
  (migrate.py 688-722 and 805-845) are the same code as `Tracks`, so the
  model uses the `Tracks` functions for them.

## Model

| member | source | states |
|---|---|---|
| Common.Chunks | tiddl/cli/commands/migrate/playlist.py:349-350 | every batch is non-empty and holds at most the batch size |
| Common.ChunksFlatten | tiddl/cli/commands/migrate/playlist.py:386-396 | the batches put together are the input, and there are ceil(n / size) of them |
| Common.CeilDiv | tiddl/cli/commands/migrate/playlist.py:387 | the result is the least multiple count covering n: (r-1)·d < n ≤ r·d |
| Sorting.SortBy | tiddl/core/metadata/track.py:166-169 | the sort returns a permutation of its input |
| Sorting.SortBySorted | tiddl/core/metadata/track.py:166-169 | under a total preorder the result is sorted |
| Sorting.SortByStable | tiddl/cli/commands/migrate/command.py:138-142 | elements with equal keys keep their input order (Python's sort is stable) |
| Text.Strip | tiddl/cli/commands/migrate/tracks.py:14 | `strip()` leaves no whitespace at either end and only removes characters |
| Text.StripEmpty | tiddl/cli/commands/migrate/tracks.py:14 | a stripped string is empty exactly when the input was all whitespace |
| Text.Split | tiddl/cli/commands/migrate/tracks.py:14 | the first part is the text before the first separator, and the rest is the split of what follows it |
| Text.SplitJoinChar | tiddl/core/api/api.py:419 | joining separator-free parts and splitting again gives back the parts |
| Text.ParseIntToString | tiddl/core/api/api.py:419 | `int(str(i)) == i` for every integer |
| Text.PyPrefix | tiddl/cli/commands/migrate/ui.py:53 | `s[:n]` has length min(n, len) for n ≥ 0 and counts from the end for negative n |
| Tracks.SimplifyName | tiddl/cli/commands/migrate/tracks.py:9-14 | a simplified name has no '-', '(' or '[', no upper case and no surrounding whitespace |
| Tracks.SimplifyNameIdempotent | tiddl/cli/commands/migrate/tracks.py:9-14 | simplifying twice is simplifying once |
| Tracks.DurationMatchMillis | tiddl/cli/commands/migrate/tracks.py:17-20 | the float test on seconds equals an integer test on milliseconds |
| Tracks.NameMatchSymmetric | tiddl/cli/commands/migrate/tracks.py:23-29 | the fuzzy name match is symmetric |
| Tracks.NameMatchReflexive | tiddl/cli/commands/migrate/tracks.py:23-29 | every name matches itself |
| Tracks.NameMatch | tiddl/cli/commands/migrate/tracks.py:23-29 | equal simplified names match, and a name that simplifies to "" matches every name, on either side |
| Tracks.ArtistParts | tiddl/cli/commands/migrate/tracks.py:40 | "&", " x " and " X " split like ","; there is always at least one part |
| Tracks.ArtistMatchSymmetric | tiddl/cli/commands/migrate/tracks.py:32-47 | the artist match is symmetric |
| Tracks.ArtistMatch | tiddl/cli/commands/migrate/tracks.py:32-47 | a track without artists on either side never matches on artists |
| Tracks.ArtistMatchShared | tiddl/cli/commands/migrate/tracks.py:32-47 | two tracks credited with the same non-blank artist match on artists |
| Tracks.MatchExisting | tiddl/cli/commands/migrate/tracks.py:50-84 | the id of the first playlist track passing the duration, name and artist tests; None exactly when none passes |
| Tracks.PickHit | tiddl/cli/commands/migrate/tracks.py:111-127 | the first of the top ten hits accepted by ISRC or by the fuzzy tests; None exactly when none of them is |
| Tracks.SearchTidalTrack | tiddl/cli/commands/migrate/tracks.py:87-134 | nothing without a name or artist or when the search raises; with both and a result, exactly the picked hit of the query's results |
| Selection.Keys | tiddl/cli/commands/migrate/selection.py:15-23 | one lower-cased owner key per playlist, in order |
| Selection.IndicesOf | tiddl/cli/commands/migrate/selection.py:15-23 | exactly the 1-based indices whose owner key is the given one |
| Selection.UniqueOwnersPartition | tiddl/cli/commands/migrate/selection.py:15-23 | the owner map partitions 1..n: each index is listed under exactly its playlist's owner |
| Selection.UniqueOwnersLists | tiddl/cli/commands/migrate/selection.py:15-23 | every owner's index list ascends and lies in 1..n |
| Selection.NumbersListed | tiddl/cli/commands/migrate/selection.py:207-208 | the toggled indices appear in the message once each, ascending |
| Selection.LoopAcceptsSuccess | tiddl/cli/commands/migrate/selection.py:262-271 | the loop's prefix test accepts exactly the success messages, never errors or "help" |
| Selection.SuccessAccepted | tiddl/cli/commands/migrate/selection.py:262-271 | every success message passes the prefix test |
| Selection.ErrorRejected | tiddl/cli/commands/migrate/selection.py:262-271 | every error message, and help, fails the prefix test |
| Selection.ToggleAllTwice | tiddl/cli/commands/migrate/selection.py:188-203 | toggling the same indices twice restores the selection |
| Selection.ToggleAllDistinct | tiddl/cli/commands/migrate/selection.py:188-203 | toggling distinct indices is the symmetric difference with their set |
| Selection.RangeIndices | tiddl/cli/commands/migrate/selection.py:181-194 | a range toggles exactly the indices of [max(lo,1), min(hi,n)] |
| Selection.RangeToggle | tiddl/cli/commands/migrate/selection.py:181-194 | toggling a range is the symmetric difference with its clipped interval |
| Selection.PartsIndices | tiddl/cli/commands/migrate/selection.py:180-205 | all parts are accepted iff each one is, and then only indices of 1..n are toggled; otherwise the result is the first rejected part's error |
| Selection.ParseNumbersTwice | tiddl/cli/commands/migrate/selection.py:176-209 | a numbers input that succeeds succeeds again with the same message and restores the selection |
| Selection.ParseNumbersInRange | tiddl/cli/commands/migrate/selection.py:176-209 | the numbers branch keeps a selection inside 1..n |
| Selection.ClassifyCaseInsensitive | tiddl/cli/commands/migrate/selection.py:113-146 | commands are recognised regardless of case |
| Selection.ParseSelectionCommands | tiddl/cli/commands/migrate/selection.py:113-143 | empty and done change nothing; all selects 1..n; none clears; invert complements within 1..n |
| Selection.ParseSelectionMine | tiddl/cli/commands/migrate/selection.py:129-132 | mine selects exactly the user's own playlists, none without a user id |
| Selection.OwnedExact | tiddl/cli/commands/migrate/selection.py:129-132 | the owned set is exactly the indices whose owner id is the user's |
| Selection.ParseSelectionLiked | tiddl/cli/commands/migrate/selection.py:134-139 | liked selects exactly the Liked Songs entries, or changes nothing and says so |
| Selection.ParseSelectionAtomic | tiddl/cli/commands/migrate/selection.py:196-212 | a rejected input leaves the selection unchanged, even after earlier good parts |
| Selection.ParseOwnerNoMatch | tiddl/cli/commands/migrate/selection.py:162-163 | an @owner query that matches no owner changes nothing |
| Selection.ParseOwnerInRange | tiddl/cli/commands/migrate/selection.py:149-173 | the @owner branch keeps a selection inside 1..n |
| Selection.ParseSelectionInRange | tiddl/cli/commands/migrate/selection.py:100-212 | from a selection inside 1..n, every input keeps it inside 1..n |
| Selection.ParseSelection | tiddl/cli/commands/migrate/selection.py:100-212 | given a selection and an owner map inside 1..n, the new selection stays inside 1..n |
| Selection.InvertTwice | tiddl/cli/commands/migrate/selection.py:141-143 | invert twice restores a selection inside 1..n |
| Selection.SelectedPlaylistsExact | tiddl/cli/commands/migrate/selection.py:281 | the result holds exactly the playlists of the selected indices, one per index in 1..n |
| Selection.RunLoopInRange | tiddl/cli/commands/migrate/selection.py:248-278 | the selection never leaves 1..n however many commands are entered |
| Selection.InteractiveSelectionEnds | tiddl/cli/commands/migrate/selection.py:248-256 | done at once keeps the initial selection; running out of input selects nothing |
| Migration.Place | tiddl/cli/commands/migrate/command.py:520-598 | an id the playlist holds is skipped; else it is added; a failed Odesli add falls back to a different search hit |
| Migration.Step | tiddl/cli/commands/migrate/command.py:483-598 | one track lands in exactly one outcome, its status agrees with its kind, and the playlist's ids only grow |
| Migration.Advance | tiddl/cli/commands/migrate/command.py:473-601 | one more entry; exactly the list of the track's own outcome grows, by one, and the added, skipped and failed counts move with it |
| Migration.Run | tiddl/cli/commands/migrate/command.py:473-601 | after k tracks, added + skipped + failed = k, with one report entry per track in order |
| Migration.MetadataMatchSkips | tiddl/cli/commands/migrate/command.py:484-498 | a metadata match is skipped before any service is asked: the outcome ignores Odesli and the search |
| Migration.SearchOnlyWithoutOdesli | tiddl/cli/commands/migrate/command.py:501-516 | when Odesli's id is placed successfully, the search result does not matter |
| Migration.ExistingSkipped | tiddl/cli/commands/migrate/command.py:521-531 | a resolved id already in the playlist is skipped and nothing is added |
| Migration.FallbackCondition | tiddl/cli/commands/migrate/command.py:552-590 | the fallback adds a track iff the id came from Odesli, its add failed, and a different search id is added |
| Migration.PlaceFallback | tiddl/cli/commands/migrate/command.py:552-590 | the same condition stated on the placing step |
| Migration.LaterSameIdSkipped | tiddl/cli/commands/migrate/command.py:534-538 | once a track is added, a later track resolving to the same id is skipped |
| Migration.MigratePlaylistResult | tiddl/cli/commands/migrate/command.py:371-671 | the uuid comes back unless a setup step failed or the loop added nothing to a new, not up-to-date playlist |
| Migration.MigratePlaylist | tiddl/cli/commands/migrate/command.py:371-671 | nothing when the tracks could not be fetched, on a dry run, or without a target playlist; any uuid returned is the target's |
| Migration.KeyOrderPreorder | tiddl/cli/commands/migrate/command.py:138-142 | the (owned first, lower-cased name) key is a total preorder |
| Migration.SortPlaylistsOrder | tiddl/cli/commands/migrate/command.py:138-142 | same playlists, owned ones first, names in order within each group |
| Migration.SortPlaylists | tiddl/cli/commands/migrate/command.py:138-142 | the sorted list is a permutation of the playlists |
| Migration.OwnedPlaylists | tiddl/cli/commands/migrate/command.py:197-201 | exactly the playlists the user owns, in order |
| Migration.ParseNumbers | tiddl/cli/commands/migrate/command.py:204 | each comma part stripped and parsed, None when one is not an integer |
| Migration.InRange | tiddl/cli/commands/migrate/command.py:203-212 | exactly the numbers within 1..n, in order |
| Migration.PickInRange | tiddl/cli/commands/migrate/command.py:203-212 | each pick is the playlist at its number |
| Migration.PromptNumbers | tiddl/cli/commands/migrate/command.py:203-212 | numbers pick their playlists in order, skipping out-of-range ones; a bad part or no valid number exits |
| Migration.PromptWords | tiddl/cli/commands/migrate/command.py:186-201 | mine takes the owned playlists or exits when there are none; all takes every playlist; none exits |
| Legacy.AddTrack | tiddl/cli/commands/migrate.py:752-755 | an enabled downloader queues the id at the end; a disabled one is unchanged |
| Legacy.WorkOnce | tiddl/cli/commands/migrate.py:768-799 | the oldest id becomes downloaded or failed; downloaded + failed + queued is preserved |
| Legacy.WorkDrains | tiddl/cli/commands/migrate.py:768-799 | once the queue is drained every queued id was counted exactly once |
| Legacy.LegacyRun | tiddl/cli/commands/migrate.py:324-403 | the loop is the package's loop, and the queue receives exactly the added ids when enabled |
| Legacy.DownloaderGate | tiddl/cli/commands/migrate.py:324-403 | a disabled downloader queues nothing; an enabled one queues the added ids in order |
| Legacy.HelperLaws | tiddl/cli/commands/migrate.py:807-845 | the module's own name and fuzzy helpers obey the package's laws (idempotence, symmetry) |
| Legacy.PromptSkips | tiddl/cli/commands/migrate.py:156-184 | mine without owned playlists exits; numbers skip out-of-range picks |
| Legacy.BatchAccounting | tiddl/cli/commands/migrate.py:623-685 | ceil(n/50) batches; a batch answered with the fallback's error for f ids counts f failed and the rest added |
| Playlist.FetchAllConsistent | tiddl/cli/commands/migrate/playlist.py:111-196 | the id set equals the ids of the metadata list, and offsets are increasing multiples of 100 |
| Playlist.FetchAllIds | tiddl/cli/commands/migrate/playlist.py:111-196 | the id set is exactly the ids of the gathered tracks |
| Playlist.FetchAllOffsetsIncreasing | tiddl/cli/commands/migrate/playlist.py:111-196 | the requested offsets are strictly increasing multiples of 100 below the expected count |
| Playlist.Numbered | tiddl/cli/commands/migrate/playlist.py:259-264 | the present tracks of a page are numbered from the page offset |
| Playlist.IndexedIncreasing | tiddl/cli/commands/migrate/playlist.py:216-280 | the playlist indices ascend and never fall below the start offset |
| Playlist.FindDuplicates | tiddl/cli/commands/migrate/playlist.py:283-298 | every track is a repeat or contributes one new id: repeats + distinct ids = tracks |
| Playlist.RepeatsExact | tiddl/cli/commands/migrate/playlist.py:283-298 | a track is reported iff an earlier track has its id; first occurrences are kept |
| Playlist.RemoveDuplicatesShape | tiddl/cli/commands/migrate/playlist.py:301-370 | every duplicate index sent once, highest first, at most 50 per call; removed ≤ duplicates |
| Playlist.DeleteBatchesShape | tiddl/cli/commands/migrate/playlist.py:343-353 | the batches hold every duplicate's index once, highest first, ≤ 50 each |
| Playlist.BatchCounts | tiddl/cli/commands/migrate/playlist.py:406-424 | a parsed failure count splits the batch; any other error fails all of it; success adds all |
| Playlist.FailedMessageParses | tiddl/cli/commands/migrate/playlist.py:406-424 | the fallback's error message passes the guard and its count is read back exactly |
| Playlist.CountMessageParses | tiddl/cli/commands/migrate/playlist.py:410-417 | "Failed to add <digits> track(s)…" yields the digits' value |
| Playlist.BatchCountsFromApi | tiddl/cli/commands/migrate/playlist.py:406-424 | a batch with f refused ids counts f failed and the rest added |
| Playlist.AddTracksAccounting | tiddl/cli/commands/migrate/playlist.py:373-435 | ceil(n/50) batches that are the ids in order; added + failed = n |
| Playlist.SafeChar | tiddl/cli/commands/migrate/playlist.py:202 | a kept character is alphanumeric, space, '-' or '_' |
| Playlist.SafeStemShape | tiddl/cli/commands/migrate/playlist.py:202-204 | the log file stem has at most 100 characters, each alphanumeric, '-' or '_' |
| Report.NewReport | tiddl/cli/commands/migrate/report.py:213-229 | Spotify columns filled in, migration pending, download not attempted, no Tidal data |
| Report.CollectorUpdates | tiddl/cli/commands/migrate/report.py:325-357 | starting a playlist empties only its list; adding appends one report to it; other playlists unchanged |
| Report.RowFields | tiddl/cli/commands/migrate/report.py:343-357 | the row carries status and source, a pending download, and a Tidal link iff an id is given |
| Report.MarkAll | tiddl/cli/commands/migrate/report.py:359-367 | found and added reports become downloaded; others stay |
| Report.MarkChangesOnlyFound | tiddl/cli/commands/migrate/report.py:359-367 | only the download status of found or added reports changes |
| Report.NormalizeShape | tiddl/cli/commands/migrate/report.py:146-150 | the normal form has no upper case or dropped characters and is a fixed point |
| Report.NormalIsFixed | tiddl/cli/commands/migrate/report.py:146-150 | a text already in normal form is its own normal form |
| Report.FindDownloadedFirst | tiddl/cli/commands/migrate/report.py:124-210 | a found file matches and no earlier candidate does; nothing found iff guards fail or no candidate matches |
| Report.MatchesTrackTitle | tiddl/cli/commands/migrate/report.py:160-186 | with an unknown artist, or one naming the parent folder, only the title decides |
| Report.UpdateWithDownload | tiddl/cli/commands/migrate/report.py:267-311 | only a downloaded report with a Tidal id changes, and only its file and audio columns; the file path is set exactly when a file is found, with the probed audio data |
| Report.WritePlaylistCsvShape | tiddl/cli/commands/migrate/report.py:232-264 | nothing for an empty list, otherwise one row per report in order under a safe stem |
| Report.ScanAll | tiddl/cli/commands/migrate/report.py:381-384 | each report is completed from its file, in place, list length kept |
| Report.Finalize | tiddl/cli/commands/migrate/report.py:369-389 | at most one file per name, none empty |
| Report.FinalizeFiles | tiddl/cli/commands/migrate/report.py:369-389 | one file per playlist with reports, one row per report; without the scan the rows are the reports |
| Report.NonEmpty | tiddl/cli/commands/migrate/report.py:376-378 | exactly the names with a non-empty report list, in order |
| Downloader.TiddlCommand | tiddl/cli/commands/migrate/downloader.py:12-19 | the executable on the path, else the interpreter running the package |
| Downloader.CommandLayout | tiddl/cli/commands/migrate/downloader.py:86-93 | --skip-errors appears iff asked for; the command ends with url playlist/<uuid> |
| Downloader.TimeoutBounds | tiddl/cli/commands/migrate/downloader.py:95-100 | at least ten minutes, 30 s per known track, monotone, two hours when unknown |
| Downloader.ErrorLinesHead | tiddl/cli/commands/migrate/downloader.py:119-128 | the filtered list is empty iff no line names an error, and otherwise starts with the first line that does |
| Downloader.FailureMessageChoice | tiddl/cli/commands/migrate/downloader.py:119-128 | first error line, else stderr, else stdout, else the exit code, cut to 200 characters |
| Downloader.NewDownloader | tiddl/cli/commands/migrate/downloader.py:25-61 | the pool exists exactly in enabled parallel mode; all counters start at zero |
| Downloader.AddPlaylist | tiddl/cli/commands/migrate/downloader.py:63-77 | disabled: unchanged; parallel with a pool: submitted; otherwise queued |
| Downloader.DownloadPlaylist | tiddl/cli/commands/migrate/downloader.py:79-156 | exactly one of completed or failed grows, and success iff completed grows |
| Downloader.DownloadSuccess | tiddl/cli/commands/migrate/downloader.py:104-156 | success is exactly a zero exit; a timeout or crash fails |
| Downloader.RunJobs | tiddl/cli/commands/migrate/downloader.py:158-171 | the jobs run in order, one result each, and the counters grow by the job count |
| Downloader.DownloadQueued | tiddl/cli/commands/migrate/downloader.py:158-171 | nothing outside enabled sequential mode; otherwise every queued playlist runs and the queue empties |
| Downloader.Shutdown | tiddl/cli/commands/migrate/downloader.py:222-226 | the pool goes away, nothing else changes, and the downloader stays well-formed |
| Downloader.PendingCounts | tiddl/cli/commands/migrate/downloader.py:229-237 | pending grows by one per accepted playlist and equals the queued count in sequential mode |
| Downloader.SequentialAndShutdown | tiddl/cli/commands/migrate/downloader.py:158-171 | a sequential downloader downloads what it queued; after shutdown a parallel one queues |
| Ui.StripEmojis | tiddl/cli/commands/migrate/ui.py:26-43 | no dropped-category characters and no surrounding whitespace remain, and every kept non-space character of the text survives |
| Ui.StripEmojisIdempotent | tiddl/cli/commands/migrate/ui.py:26-43 | stripping twice is stripping once; clean text is unchanged |
| Ui.SafeTextWidth | tiddl/cli/commands/migrate/ui.py:46-53 | as written: the text when it fits; else, for a width ≥ 1, exactly width-1 characters and an ellipsis, and for width 0 all but the last character and an ellipsis |
| Ui.SafeTextWidthFits | tiddl/cli/commands/migrate/ui.py:46-53 | for a width ≥ 1 the result fits and ends with an ellipsis iff cut or already ending with one |
| Ui.SafeTextWidthZero | tiddl/cli/commands/migrate/ui.py:46-53 | for width 0 the as-written result is as long as the text |
| Ui.SafeWidth | tiddl/cli/commands/migrate/ui.py:46-53 | corrected: never longer than the width, equal to the source's for widths ≥ 1 |
| Ui.Record | tiddl/cli/commands/migrate/ui.py:97-102 | the sample is appended and the window stays within its bound |
| Ui.RecordAllKeepsNewest | tiddl/cli/commands/migrate/ui.py:97-102 | the window holds exactly the newest cap samples, oldest first |
| Ui.Push | tiddl/cli/commands/migrate/ui.py:90-95 | the new entry first, at most twenty entries |
| Ui.PushAllNewestFirst | tiddl/cli/commands/migrate/ui.py:90-95 | the log holds the newest twenty entries, newest first |
| Ui.Activity | tiddl/cli/commands/migrate/ui.py:92-95 | the icon, a space, then the message within the width; the cut is the corrected one, equal to the source's at the widths ≥ 1 its callers pass (Ui.SafeWidth) |
| Ui.RecordTrack | tiddl/cli/commands/migrate/ui.py:574-596 | exactly one counter grows by one and one activity line is logged |
| Ui.MigrationPendingCounts | tiddl/cli/commands/migrate/ui.py:104-107 | pending never goes negative, and pending + processed = total while within it |
| Ui.RecordTrackTime | tiddl/cli/commands/migrate/ui.py:97-102 | the last sample is the new duration; the window stays bounded |
| Ui.QueueDownload | tiddl/cli/commands/migrate/ui.py:599-608 | pending, total playlists and queued tracks grow; the count is remembered |
| Ui.DownloadCompleteCounts | tiddl/cli/commands/migrate/ui.py:629-651 | pending drops by one but not below zero; completed or failed grows with the track count |
| Ui.DownloadCompleteForgets | tiddl/cli/commands/migrate/ui.py:633-635 | the playlist's track count is forgotten, the others kept |
| Ui.QueueThenComplete | tiddl/cli/commands/migrate/ui.py:599-664 | queue then complete restores pending and moves the tracks to completed or failed |
| Ui.FormatEtaParts | tiddl/cli/commands/migrate/ui.py:214-227 | the printed parts recompose the time, exactly below an hour, to the minute above |
| TidalApi.SentLimitClamped | tiddl/core/api/api.py:34-50 | every endpoint but artist videos caps the page size at 100 |
| TidalApi.AddOneByOne | tiddl/core/api/api.py:379-397 | successes + refused = ids; the refused ids in order |
| TidalApi.AddTracks | tiddl/core/api/api.py:330-406 | a 200/201 adds all; otherwise one by one, raising with the refused count and ids when any are refused |
| TidalApi.IndicesPathRoundTrip | tiddl/core/api/api.py:419-427 | the server reads the comma-joined indices back as the same list |
| TidalApi.DeleteOutcome | tiddl/core/api/api.py:432-442 | as written: statuses 200, 201, 204 succeed; any other raises the generic message |
| TidalApi.DeleteOutcomeHidesBody | tiddl/core/api/api.py:432-442 | the server's own error never reaches the caller |
| TidalApi.DeleteOutcomeIntended | tiddl/core/api/api.py:432-442 | corrected: a parsable error body is raised as it is; only an unparsable one falls back |
| TidalApi.UpdatePlaylistFields | tiddl/core/api/api.py:446-489 | the ETag GET is always sent first; the POST follows iff a field is given, carries each field iff given and If-None-Match iff the ETag is truthy; done iff no fields or status 200/201 |
| SpotifyApi.Kept | tiddl/core/spotify/api.py:58-60 | the mapped items in order; everything when every item maps |
| SpotifyApi.Collect | tiddl/core/spotify/api.py:14-110 | the result is the gathered pages, and the loop stopped at the first page where the rule says stop |
| SpotifyApi.GetUserPlaylists | tiddl/core/spotify/api.py:14-44 | all playlists of every page fetched 50 at a time; stop on falsy next or total reached |
| SpotifyApi.GetPlaylistTracks | tiddl/core/spotify/api.py:46-67 | the tracks of every page, 100 at a time, skipping items without one |
| SpotifyApi.GetSavedTracks | tiddl/core/spotify/api.py:77-110 | as playlists, 50 at a time, skipping items without a track |
| SpotifyApi.GatheredPrefix | tiddl/core/spotify/api.py:26-27 | gathering is append-only |
| SpotifyApi.GatheredAll | tiddl/core/spotify/api.py:26-27 | with everything kept, the result is the pages concatenated |
| SpotifyApi.Pages | tiddl/core/spotify/api.py:20-41 | page i is the response at offset i·limit |
| SpotifyApi.NoTotalOnePage | tiddl/core/spotify/api.py:33-39 | without a total the playlist rule stops after the first page |
| Odesli.Young | tiddl/core/odesli/client.py:26 | exactly the stamps younger than the window, in order |
| Odesli.WaitForRateLimit | tiddl/core/odesli/client.py:21-41 | the new stamp is recorded last; an empty window at a limit ≤ 0 raises |
| Odesli.WaitPositive | tiddl/core/odesli/client.py:21-41 | whenever the limit is reached the wait is positive |
| Odesli.WindowBound | tiddl/core/odesli/client.py:21-41 | at most limit stamps in the window afterwards |
| Odesli.YoungSorted | tiddl/core/odesli/client.py:26 | stamps in time order stay in order |
| Odesli.EntityTrackId | tiddl/core/odesli/client.py:73-78 | None iff the id has no "::" |
| Odesli.EntityTrackIdOf | tiddl/core/odesli/client.py:73-78 | "TIDAL_TRACK::123" gives the text up to the next "::" |
| Odesli.TidalIdOf | tiddl/core/odesli/client.py:62-85 | with a Tidal entry that has an id, exactly the extracted id; None for a 404, an error, a missing entry or id |
| Odesli.NewClient | tiddl/core/odesli/client.py:16-19 | a new client has no request stamps |
| Odesli.ConvertUrl | tiddl/core/odesli/client.py:87-126 | the limiter's error propagates; otherwise the links of the URL, and the client keeps the limiter's new stamps |
| Odesli.ConvertTrack | tiddl/core/odesli/client.py:43-85 | the same for the track's Spotify URL: the limiter's error, else the link's Tidal id and the client with the request time recorded |
| Odesli.ConvertTrackKeepsWindow | tiddl/core/odesli/client.py:26-85 | with a positive limit, at most that many stamps and a full sleep, a conversion succeeds and keeps at most `limit` stamps: the request time last, the others inside the window |
| MusicBrainz.ByCountOrder | tiddl/core/musicbrainz/client.py:203-211 | "more votes first" is a total preorder |
| MusicBrainz.Named | tiddl/core/musicbrainz/client.py:189-212 | exactly the entries with a non-empty name, in order |
| MusicBrainz.TopShape | tiddl/core/musicbrainz/client.py:206-219 | at most n named input entries, most votes first; nothing dropped outranks a kept one |
| MusicBrainz.ParseRecording | tiddl/core/musicbrainz/client.py:176-220 | id and title copied; at most five genres and ten tags |
| MusicBrainz.ParseRecordingShape | tiddl/core/musicbrainz/client.py:176-220 | the genres and tags are the top-voted named entries |
| MusicBrainz.LookupByIsrc | tiddl/core/musicbrainz/client.py:85-114 | nothing for an empty ISRC; otherwise the first recording of the response |
| MusicBrainz.SearchQuery | tiddl/core/musicbrainz/client.py:138-145 | the base query, extended by a window iff a duration is known |
| MusicBrainz.WindowMeaning | tiddl/core/musicbrainz/client.py:140-145 | the window admits exactly the durations within three seconds |
| MusicBrainz.SearchTrack | tiddl/core/musicbrainz/client.py:116-174 | nothing without title and artist; otherwise the detail of the first hit |
| GetSongBpm.NewClient | tiddl/core/getsongbpm/client.py:46-58 | an empty key is an error |
| GetSongBpm.CreateClient | tiddl/core/getsongbpm/client.py:254-262 | a client iff a key is stored, never the constructor's error |
| GetSongBpm.ParseIntAsWritten | tiddl/core/getsongbpm/client.py:237-244 | as written: raises `OverflowError` iff the value is an infinite float string or a number beyond the float range; otherwise an integer iff the value is a finite number |
| GetSongBpm.InfinityRaises | tiddl/core/getsongbpm/client.py:237-244 | "inf" raises as written and is None when corrected |
| GetSongBpm.HugeDecimalRaises | tiddl/core/getsongbpm/client.py:237-244 | a decimal string beyond the float range raises as written and is None when corrected |
| GetSongBpm.ParseIntValue | tiddl/core/getsongbpm/client.py:237-244 | corrected: an integer iff the value is a finite number; a number is truncated, a bool is 1 or 0 |
| GetSongBpm.ParseIntCorrected | tiddl/core/getsongbpm/client.py:237-244 | the corrected parse agrees wherever the written one returns |
| GetSongBpm.ParseIntPrinted | tiddl/core/getsongbpm/client.py:237-244 | a printed integer within the exact float range (|i| ≤ 2^53, or < 2^49 with a fraction) parses back to that integer |
| GetSongBpm.ParseGenres | tiddl/core/getsongbpm/client.py:207-218 | only non-empty names, in order |
| GetSongBpm.ParseGenresAppend | tiddl/core/getsongbpm/client.py:207-218 | the genres of a list are the genres of its parts, in order |
| GetSongBpm.ParseGenresTexts | tiddl/core/getsongbpm/client.py:207-218 | non-empty plain strings are kept as they are |
| GetSongBpm.ParseSong | tiddl/core/getsongbpm/client.py:202-235 | corrected: a BPM iff the tempo is a finite number; id, title, key, Camelot key and time signature copied; the artist's genres |
| GetSongBpm.ParseSearchResult | tiddl/core/getsongbpm/client.py:187-200 | a song without genres |
| GetSongBpm.ParseSongAsWritten | tiddl/core/getsongbpm/client.py:187-235 | as written: raises iff the tempo overflows; otherwise the corrected parse |
| GetSongBpm.Query | tiddl/core/getsongbpm/client.py:118-120 | the title, then the artist when there is one |
| GetSongBpm.EmptyObjectMatches | tiddl/core/getsongbpm/client.py:141-148 | an empty `{}` hit passes the match test, its title and artist reading as "" |
| GetSongBpm.BestMatch | tiddl/core/getsongbpm/client.py:138-155 | a hit from the list, never `{}`: the first matching hit when it is not `{}`; otherwise the first hit, or nothing when that is `{}` or the list is empty |
| GetSongBpm.EmptyObjectShadows | tiddl/core/getsongbpm/client.py:138-155 | a `{}` with no earlier match shadows the hits after it: the choice is the first hit, or nothing when that is `{}` |
| GetSongBpm.ExactHitMatches | tiddl/core/getsongbpm/client.py:138-155 | a case-insensitively exact hit matches; with no `{}` before it, the choice is a matching hit |
| GetSongBpm.GetTrackById | tiddl/core/getsongbpm/client.py:165-185 | a song iff the id is non-empty and the response has one |
| GetSongBpm.GetTrackByIdAsWritten | tiddl/core/getsongbpm/client.py:165-185 | as written: raises iff the fetched song's tempo overflows; otherwise the corrected lookup |
| GetSongBpm.SearchTrack | tiddl/core/getsongbpm/client.py:99-163 | corrected: nothing without a title, without hits or when the choice is `{}`; otherwise the chosen song, fetched by id when it has one, else parsed from the search |
| GetSongBpm.SearchTrackAsWritten | tiddl/core/getsongbpm/client.py:99-163 | as written: nothing without a title or hits; raises iff there is a chosen song and its parse raises; otherwise the corrected search |
| GetSongBpm.EmptyObjectSearch | tiddl/core/getsongbpm/client.py:138-163 | `[{}]` and `[{}, hit]` find nothing; `[non-matching hit, {}]` falls back to that hit |
| GetSongBpm.InfinityTempoRaises | tiddl/core/getsongbpm/client.py:99-163 | a lone hit with tempo "inf" makes the written search raise, while the corrected one returns it without a BPM and with its key |
| Enrichment.Capitalized | tiddl/core/metadata/enrichment.py:126 | the length is kept, the first character upper-cased and the rest lower-cased |
| Enrichment.CapitalizedLower | tiddl/core/metadata/enrichment.py:126 | capitalising only changes case |
| Enrichment.MoodOf | tiddl/core/metadata/enrichment.py:123-127 | the title-cased first mood tag; "" iff no tag is a mood |
| Enrichment.MbLookup | tiddl/core/metadata/enrichment.py:102-116 | by ISRC when given, then search when that found nothing |
| Enrichment.ApplyMusicBrainz | tiddl/core/metadata/enrichment.py:118-127 | only genres, tags and mood change |
| Enrichment.ApplyGetSongBpm | tiddl/core/metadata/enrichment.py:139-150 | BPM only when unset; genres only when empty |
| Enrichment.EnrichTrack | tiddl/core/metadata/enrichment.py:74-157 | Tidal's BPM wins; any mood is a known mood tag |
| Enrichment.BpmPriority | tiddl/core/metadata/enrichment.py:97-99 | Tidal's BPM, else GetSongBPM's, else none |
| Enrichment.SourcePriority | tiddl/core/metadata/enrichment.py:118-150 | MusicBrainz genres first; GetSongBPM only fills what is empty |
| Enrichment.IsrcFirst | tiddl/core/metadata/enrichment.py:106-116 | a successful ISRC lookup makes the search irrelevant |
| Enrichment.FailuresContained | tiddl/core/metadata/enrichment.py:131-155 | an exception from one source costs only that source's data |
| Enrichment.BpmSearchOutcome | tiddl/core/metadata/enrichment.py:136-155 | the GetSongBPM search raises exactly when the written client raises, and otherwise returns the corrected search |
| Enrichment.OverflowLosesGetSongBpm | tiddl/core/metadata/enrichment.py:136-155 | when the search raises on a tempo, the track keeps no GetSongBPM key, Camelot key or time signature, and no BPM beyond Tidal's |
| Enrichment.NoTitleNoData | tiddl/core/metadata/enrichment.py:74-157 | no title and no ISRC: only Tidal's BPM |
| Enrichment.NewService | tiddl/core/metadata/enrichment.py:48-72 | GetSongBPM is used iff asked for and a key is stored |
| Enrichment.GetService | tiddl/core/metadata/enrichment.py:164-181 | the cached instance, built on first use |
| Enrichment.SingletonLaw | tiddl/core/metadata/enrichment.py:164-187 | later calls return the first instance; after a reset the next call builds anew |
| Tagging.Surname | tiddl/core/metadata/track.py:162-164 | the last whitespace-free word, "" iff the name is blank |
| Tagging.SurnameOfLastWord | tiddl/core/metadata/track.py:162-164 | a final word is the surname |
| Tagging.SortCredits | tiddl/core/metadata/track.py:153-169 | each entry's contributors are a sorted permutation; roles unchanged |
| Tagging.SortCreditsStable | tiddl/core/metadata/track.py:166-169 | contributors sharing a surname keep their order |
| Tagging.FullTitle | tiddl/core/metadata/track.py:199 | the title, then the version in parentheses when truthy |
| Tagging.ArtistListShape | tiddl/core/metadata/track.py:204 | the stripped names, sorted, as a permutation |
| Tagging.BpmText | tiddl/core/metadata/track.py:208 | "" iff the BPM is missing or zero |
| Tagging.BpmTextRoundTrip | tiddl/core/metadata/track.py:208 | the tag reads back as the track's BPM |
| Tagging.BuildMetadata | tiddl/core/metadata/track.py:198-217 | each metadata field from its track field: title, artists, numbers, album, album artist, copyright, ISRC, date, comment, BPM, key, Camelot key, mood and cover |
| Tagging.ApplyCredits | tiddl/core/metadata/track.py:90-91 | one upper-cased key per role, the last entry winning |
| Tagging.FlacTags | tiddl/core/metadata/track.py:36-93 | None iff the date does not parse; the cover is a JPEG front cover |
| Tagging.FlacOptionalTags | tiddl/core/metadata/track.py:36-93 | each optional tag is set iff its value is truthy |
| Tagging.FlacDateTags | tiddl/core/metadata/track.py:36-93 | DATE and YEAR from the parsed release date |
| Tagging.FlacFixedTags | tiddl/core/metadata/track.py:36-93 | the eleven fixed tags, title through year, are always set from their fields |
| Tagging.M4aTags | tiddl/core/metadata/track.py:96-150 | a cover iff cover data is non-empty |
| Tagging.M4aGenreBpm | tiddl/core/metadata/track.py:96-150 | only the first genre is written; BPM iff known |
| Tagging.M4aOptionalTags | tiddl/core/metadata/track.py:96-150 | lyrics, key and mood iff truthy |
| Tagging.M4aFixedTags | tiddl/core/metadata/track.py:96-150 | the fixed atoms, and no credits |
| Tagging.FormatOf | tiddl/core/metadata/track.py:219-226 | the writer chosen by the lower-cased suffix |
| Tagging.ExtensionCaseInsensitive | tiddl/core/metadata/track.py:219-226 | "Song.FLAC" is a FLAC file |
| Tagging.AddTrackMetadata | tiddl/core/metadata/track.py:172-226 | the FLAC or M4A writer by format, otherwise unsupported |
| M3u.Collapse | tiddl/core/utils/m3u.py:81-84 | no pair remains and no character is introduced |
| M3u.ReplaceEach | tiddl/core/utils/m3u.py:76-79 | same length; no replaced character remains |
| M3u.SanitizeForPath | tiddl/core/utils/m3u.py:71-85 | non-empty, no invalid character, no "__" or double space; "Unknown" for "" |
| M3u.CleanedShape | tiddl/core/utils/m3u.py:71-85 | cleaning removes every invalid character and every run |
| M3u.SanitizeKeepsSafe | tiddl/core/utils/m3u.py:71-85 | an already safe name comes back unchanged |
| M3u.UnknownSafe | tiddl/core/utils/m3u.py:71-85 | the fallback name is itself safe |
| M3u.Suffix | tiddl/core/utils/m3u.py:27-35 | "" or a '.'-led proper ending of the name |
| M3u.WithSuffix | tiddl/core/utils/m3u.py:27-35 | None iff the path has no name; directories kept |
| M3u.M3uFile | tiddl/core/utils/m3u.py:27-35 | None iff the path has no name and no owner is given |
| M3u.M3uFileShape | tiddl/core/utils/m3u.py:27-35 | in the owner's folder iff an owner is given and the path has a name; named after the owner when it has none; the stem kept, suffix ".m3u" |
| M3u.M3uFileName | tiddl/core/utils/m3u.py:27-35 | the written name's suffix is ".m3u" |
| M3u.M3uSuffixKept | tiddl/core/utils/m3u.py:27-35 | a name ending in ".m3u" keeps it |
| M3u.TrackLines | tiddl/core/utils/m3u.py:47-61 | two lines per track: its #EXTINF and its path |
| M3u.TrackLinesAt | tiddl/core/utils/m3u.py:47-61 | track i's lines are at 2i and 2i+1 |
| M3u.SaveTracksToM3u | tiddl/core/utils/m3u.py:11-68 | a name error iff the path has no name and no owner; otherwise nothing for no tracks, and the header and the track lines for some |
| M3u.SavedLines | tiddl/core/utils/m3u.py:45-61 | the written text reads back as the header then each track's lines |
| M3u.SavedSplit | tiddl/core/utils/m3u.py:45-61 | splitting at newlines gives the lines and a final "" |
| M3u.SplitLines | tiddl/core/utils/m3u.py:112 | no line holds a line break |
| M3u.SplitLinesTerminated | tiddl/core/utils/m3u.py:112 | newline-terminated lines read back as themselves |
| M3u.RewriteLines | tiddl/core/utils/m3u.py:116-149 | no more lines than the input |
| M3u.RewriteKeepsDirectives | tiddl/core/utils/m3u.py:116-149 | when no path line is converted into a directive, the rewrite keeps exactly the directives, in order |
| M3u.RewriteCanAddDirective | tiddl/core/utils/m3u.py:123-141 | an indented "#EXTINF:" path line is stripped and kept, so the rewrite adds a directive |
| M3u.RewriteKeepsCanonical | tiddl/core/utils/m3u.py:116-149 | lines already in written form come back unchanged |
| M3u.RegenerateM3u | tiddl/core/utils/m3u.py:88-158 | None for a missing file; otherwise a newline-terminated text |
| M3u.RegenerateRelative | tiddl/core/utils/m3u.py:88-158 | a file written with relative paths is rewritten to itself |
| Ffmpeg.AudioStreams | tiddl/core/utils/ffmpeg.py:115-119 | exactly the audio streams, in order |
| Ffmpeg.ExitMessage | tiddl/core/utils/ffmpeg.py:103-106 | "ffprobe error: " and the stripped stderr cut to exactly its first 200 characters, or the exit code when stderr is blank |
| Ffmpeg.VerifyAudioFile | tiddl/core/utils/ffmpeg.py:49-156 | valid iff the message is empty; a missing file is reported first |
| Ffmpeg.ProbeIsChain | tiddl/core/utils/ffmpeg.py:86-156 | the `try` block (probe run, exit code, output parse, report checks) is the chain of checks from the timeout check on |
| Ffmpeg.ReportIsChain | tiddl/core/utils/ffmpeg.py:114-149 | the checks on a parsed report (audio stream, duration, mismatch, codec) are the chain from the audio-stream check on |
| Ffmpeg.ReportVerdict | tiddl/core/utils/ffmpeg.py:114-149 | a parsed report is valid exactly when no message is given |
| Ffmpeg.ChainFirst | tiddl/core/utils/ffmpeg.py:74-149 | the verdict is decided by the first failing check |
| Ffmpeg.VerifyIsChain | tiddl/core/utils/ffmpeg.py:74-149 | the function runs the twelve checks in order |
| Ffmpeg.VerifyValid | tiddl/core/utils/ffmpeg.py:74-149 | valid exactly when no check fails |
| Ffmpeg.VerifyFirstFailure | tiddl/core/utils/ffmpeg.py:74-149 | a failing file gets the first failing check's message |
| Ffmpeg.FailureMessage | tiddl/core/utils/ffmpeg.py:74-149 | every failing check has a non-empty message |
| Ffmpeg.ExpectedIgnored | tiddl/core/utils/ffmpeg.py:134-140 | without a positive expected duration the mismatch check never fails |

## Left out

- `find_or_reuse_tidal_playlist` (playlist.py 13-108, migrate.py 490-603): the existing playlist's ids and metadata are an input to `Migration.MigratePlaylist`; the name-matching of reuse is not modelled.
- `cleanup_duplicates` orchestration (command.py 675-821): only its parts are modelled (fetching, duplicate finding, deletion batches).
- The `spotify_to_tidal` orchestration beyond sorting and the prompt: threads, workers, and the wiring of the report and the downloader.
- Thread pools, executors, locks, `wait_for_completion` and the background worker's start, stop and wait: concurrency is not modelled. The legacy worker is modelled as a sequential queue.
- The Rich display: panels, tables, `display_playlists_with_selection`, `display_help`, and the `start_playlist`, `finish_playlist`, `update_track`, `set_migration_config`, `start_download` and `update_download_track` renderers. They are output only.
- `get_eta_seconds`: floating-point averaging. `Ui.FormatEta` takes whole seconds.
- `extract_audio_metadata`: float parsing of ffprobe output. Audio metadata is an input.
- `find_downloaded_file`: the directory walk is an input list of candidates.
- Writing the log and CSV files to disk: only the file names and rows are modelled.
- HTTP retries on 429 and 503, `_request`, and the rate-limit sleeps of MusicBrainz and GetSongBPM: the responses are oracles.
- Odesli's clock is integer milliseconds, not float seconds.
- Ffmpeg.VerifyAudioFile: durations are integer milliseconds. The printing of seconds (`{x:.1f}`) is an oracle parameter.
- Tagging.FlacTags: mutagen's own behaviour and `datetime.fromisoformat` are oracles; so is the text `str()` gives the parsed datetime for DATE ("2020-01-02 00:00:00" for "2020-01-02").
- Tagging.SortCredits: the model returns a new list instead of sorting in place.
- Sorting.SortBy: stands for Python's Timsort; only its promised result (a stable, sorted permutation) is relied upon.
- `get_track_info`, `get_current_user`, `create_playlist` and the other API getters: they pass responses through unchanged.
- Text.Lower: `lower`, `upper`, `title` and `isalnum` are ASCII-only; Unicode case mapping is not modelled. Likewise the digits `int()` reads (Text.ParseInt, used by the selection and prompt parsers) are ASCII-only: Python also reads other Unicode decimal digits, such as full-width "１", which the model rejects as not a number.
- Selection.OwnerName: an absent owner id is held as "", so an owner without display name or id is shown and keyed as "" rather than "Unknown".
- GetSongBpm.ParseIntValue: `float()` reads a signed decimal exactly and then truncates it; the rounding to the nearest double is modelled only at the top of the range, where it gives infinity. Below that, a decimal that rounds across an integer ("2.9999999999999999" is 3.0) or an integer above 2^53 that is not a double ("9007199254740993") gives a different integer in the source. Exponent forms are not modelled.
- GetSongBpm.ParseIntPrinted: the round trip is stated only within the exact range of doubles (at most 2^53, or below 2^49 with a fraction not starting with '9'), because beyond it the source's own round trip fails.
- GetSongBpm.ParseIntAsWritten: a JSON number tempo is its truncated value (`Number(trunc)`); whether it overflows is decided on that integer, so a JSON float within one unit of the float limit is not told apart.
- Playlist.IndexedFrom: the page loop is bounded by a page budget (`fuel`). Without a total, and with pages that are never empty, the source's loop does not end.
- Downloader.DownloadPlaylist: the `on_complete` callback is left out. In the source it runs inside the `try` after a count has grown, so a callback that raises grows the failed count once more (after a success, both counts grow); the model promises that exactly one of the two grows, by one.
- Ffmpeg.ReportVerdict: the printing of the measured and expected seconds (`{x:.1f}`) is an oracle parameter; the minimum is printed with `str()` and is carried as its text (`Limits.minText`).
- SpotifyApi.Collect: the paging loop is bounded by a page budget (`maxPages`), which the source does not have.
- `is_configured`, `convert_to_mp4`, `extract_flac` and `is_ffmpeg_installed`: subprocess wrappers with no decision logic of their own.
- `os.path.relpath` is an oracle, and paths are POSIX.
- Ui.StripEmojis: `unicodedata.category` is an oracle parameter.

## Findings

| source | as written | input that shows it | evidently intended | confidence | as-written member | corrected member |
|---|---|---|---|---|---|---|
| tiddl/core/api/api.py:432-442 | `raise ApiError(**error_data)` sits inside `try/except Exception`, so the raised error is caught and replaced by the generic one | a 400 response whose JSON body is a valid error | the server's error is raised to the caller | not executed | TidalApi.DeleteOutcomeHidesBody | TidalApi.DeleteOutcomeIntended |
| tiddl/cli/commands/migrate/ui.py:46-53 | `text[:max_width - 1] + "…"` with `max_width == 0` keeps all but the last character | any text of two or more characters with width 0 | the result never exceeds the width | not executed | Ui.SafeTextWidthZero | Ui.SafeWidth |
| tiddl/core/getsongbpm/client.py:237-244 | `int(float(value))` raises `OverflowError` for "inf" or a decimal beyond the float range, which the `(ValueError, TypeError)` handler does not catch; the error escapes `search_track`, and the enrichment service then drops all of GetSongBPM's data for the track | a search hit without an id whose tempo is "inf" | None for any tempo that is not a finite number, the rest of the hit kept | not executed | GetSongBpm.InfinityTempoRaises | GetSongBpm.SearchTrack |
