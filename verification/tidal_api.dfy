/** The parts of the Tidal API client the migration relies on: page-size
    clamping, adding tracks with the one-by-one fallback and its error
    message, deleting tracks by index, and updating a playlist. The HTTP
    exchange itself is an oracle: the model receives the status codes. */
module TidalApi {
  import opened Common
  import opened Text

  // ---------------------------------------------------------------- limits

  const ArtistAlbumsDefault: int := 10
  const ArtistAlbumsMax: int := 100
  const ArtistVideosDefault: int := 10
  const ArtistVideosMax: int := 100
  const AlbumItemsDefault: int := 20
  const AlbumItemsMax: int := 100
  const PlaylistItemsDefault: int := 20
  const PlaylistItemsMax: int := 100
  const MixItemsDefault: int := 20
  const MixItemsMax: int := 100

  /** The paged endpoints. */
  datatype Endpoint = AlbumItems | AlbumItemsCredits | ArtistVideos | ArtistAlbums | MixItems | PlaylistItems

  function DefaultLimit(e: Endpoint): int {
    match e
    case AlbumItems => AlbumItemsDefault
    case AlbumItemsCredits => AlbumItemsDefault
    case ArtistVideos => ArtistVideosDefault
    case ArtistAlbums => ArtistAlbumsDefault
    case MixItems => MixItemsDefault
    case PlaylistItems => PlaylistItemsDefault
  }

  /** The `limit` query parameter sent for a requested page size. */
  function SentLimit(e: Endpoint, limit: int): int {
    match e
    case AlbumItems => Min(limit, AlbumItemsMax)
    case AlbumItemsCredits => Min(limit, AlbumItemsMax)
    case ArtistVideos => limit
    case ArtistAlbums => Min(limit, ArtistAlbumsMax)
    case MixItems => Min(limit, MixItemsMax)
    case PlaylistItems => Min(limit, PlaylistItemsMax)
  }

  /** Every endpoint but artist videos caps the page size at 100 and
      otherwise sends what was asked; artist videos send it unchanged; the
      defaults are sent as they are. */
  lemma SentLimitClamped(e: Endpoint, limit: int)
    ensures e != ArtistVideos ==> SentLimit(e, limit) <= 100 && SentLimit(e, limit) <= limit
    ensures e != ArtistVideos ==> (SentLimit(e, limit) == limit <==> limit <= 100)
    ensures e == ArtistVideos ==> SentLimit(e, limit) == limit
    ensures SentLimit(e, DefaultLimit(e)) == DefaultLimit(e)
  {
  }

  // ---------------------------------------------------------------- errors

  /** The fields of an `ApiError`. */
  datatype ApiError = ApiError(status: int, subStatus: string, userMessage: string)

  // ---------------------------------------------------------------- add tracks

  /** The outcome of `add_tracks_to_playlist`. */
  datatype AddResult = Added | AddRaised(error: ApiError)

  /** The message raised when some tracks could not be added one by one. */
  function FailedMessage(failed: seq<string>): string {
    FailedWord + NatToString(|failed|) + (TracksWord + (IdsWord + Join(failed, ", ")))
  }

  const FailedWord: string := "Failed to add "
  const TracksWord: string := " track(s)"
  const IdsWord: string := ". Track IDs: "

  /** The ids whose single-track request was refused, in order. */
  function Refused(ids: seq<string>, singleOk: (nat, string) -> bool, k: nat): (r: seq<string>)
    requires k <= |ids|
    ensures |r| <= k
  {
    if k == 0 then []
    else Refused(ids, singleOk, k - 1) + (if singleOk(k - 1, ids[k - 1]) then [] else [ids[k - 1]])
  }

  /** The one-by-one fallback: one request per track, counting the
      successes and collecting the refused ids. */
  method AddOneByOne(ids: seq<string>, singleOk: (nat, string) -> bool)
    returns (successCount: nat, failed: seq<string>)
    ensures failed == Refused(ids, singleOk, |ids|)
    ensures successCount + |failed| == |ids|
    ensures forall t :: t in failed ==> t in ids
  {
    successCount := 0;
    failed := [];
    var i := 0;
    while i < |ids|
      invariant 0 <= i <= |ids|
      invariant failed == Refused(ids, singleOk, i)
      invariant successCount + |failed| == i
      invariant forall t :: t in failed ==> t in ids[..i]
    {
      if singleOk(i, ids[i]) {
        successCount := successCount + 1;
      } else {
        failed := failed + [ids[i]];
      }
      i := i + 1;
    }
    assert ids[..i] == ids;
  }

  /** `add_tracks_to_playlist`: one request for all tracks; when it is
      refused, one request per track, raising with the count and the ids
      of the refused ones. Success is status 200 or 201. */
  method AddTracks(ids: seq<string>, batchStatus: int, singleOk: (nat, string) -> bool)
    returns (r: AddResult)
    ensures batchStatus in {200, 201} ==> r == Added
    ensures r.AddRaised? <==>
              !(batchStatus in {200, 201}) && Refused(ids, singleOk, |ids|) != []
    ensures r.AddRaised? ==>
              r.error == ApiError(404, "2001", FailedMessage(Refused(ids, singleOk, |ids|)))
  {
    if batchStatus in {200, 201} {
      return Added;
    }
    var successCount, failed := AddOneByOne(ids, singleOk);
    if failed != [] {
      return AddRaised(ApiError(404, "2001", FailedMessage(failed)));
    }
    return Added;
  }

  // ---------------------------------------------------------------- delete tracks

  function IndexStrings(xs: seq<int>): (r: seq<string>)
    ensures |r| == |xs|
    ensures forall i :: 0 <= i < |xs| ==> r[i] == IntToString(xs[i])
  {
    if xs == [] then [] else [IntToString(xs[0])] + IndexStrings(xs[1..])
  }

  /** The `{indices}` path segment: the indices joined with ",". */
  function IndicesPath(xs: seq<int>): string {
    Join(IndexStrings(xs), ",")
  }

  function ParseAll(parts: seq<string>): (r: seq<Option<int>>)
    ensures |r| == |parts|
    ensures forall i :: 0 <= i < |parts| ==> r[i] == ParseInt(parts[i])
  {
    if parts == [] then [] else [ParseInt(parts[0])] + ParseAll(parts[1..])
  }

  function Somes(xs: seq<int>): (r: seq<Option<int>>)
    ensures |r| == |xs|
    ensures forall i :: 0 <= i < |xs| ==> r[i] == Some(xs[i])
  {
    if xs == [] then [] else [Some(xs[0])] + Somes(xs[1..])
  }

  lemma NoCommaInInt(i: int)
    ensures ',' !in IntToString(i)
  {
    var s := IntToString(i);
    var d := NatToString(if i < 0 then -i else i);
    assert forall k :: 0 <= k < |d| ==> IsDigit(d[k]);
    if i < 0 {
      assert s == "-" + d;
    }
  }

  /** The server reads the indices back: splitting the path segment on ","
      and parsing each part gives the indices in order. */
  lemma IndicesPathRoundTrip(xs: seq<int>)
    requires |xs| >= 1
    ensures ParseAll(Split(IndicesPath(xs), ",")) == Somes(xs)
  {
    var parts := IndexStrings(xs);
    forall i | 0 <= i < |parts|
      ensures ',' !in parts[i]
    {
      NoCommaInInt(xs[i]);
    }
    SplitJoinChar(parts, ',');
    assert Split(IndicesPath(xs), ",") == parts;
    var parsed := ParseAll(parts);
    forall i | 0 <= i < |xs|
      ensures parsed[i] == Some(xs[i])
    {
      ParseIntToString(xs[i]);
    }
    assert parsed == Somes(xs);
  }

  /** The outcome of `delete_playlist_tracks` or `update_playlist`. */
  datatype CallResult = Done | Raised(error: ApiError)

  /** `delete_playlist_tracks` as written: statuses 200, 201 and 204
      succeed. On any other status the code raises the parsed error body
      inside a `try` whose `except Exception` catches that very raise, so
      the generic message is raised whatever the body says. */
  function DeleteOutcome(status: int, body: Option<ApiError>, text: string): (r: CallResult)
    ensures r.Done? <==> status in {200, 201, 204}
    ensures r.Raised? ==> r.error.userMessage == "Failed to delete tracks: " + text
  {
    if status in {200, 201, 204} then Done
    else Raised(ApiError(status, "0", "Failed to delete tracks: " + text))
  }

  /** The server's own error never reaches the caller, even when the
      response carries one with a different message. */
  lemma DeleteOutcomeHidesBody(status: int, e: ApiError, text: string)
    requires !(status in {200, 201, 204})
    requires e.userMessage != "Failed to delete tracks: " + text
    ensures DeleteOutcome(status, Some(e), text) != Raised(e)
  {
  }

  /** `delete_playlist_tracks` as evidently intended: a parsable error body
      is raised as it is, and only an unparsable one falls back to the
      generic message. */
  function DeleteOutcomeIntended(status: int, body: Option<ApiError>, text: string): (r: CallResult)
    ensures r.Done? <==> status in {200, 201, 204}
    ensures r.Raised? && body.Some? ==> r.error == body.value
    ensures r.Raised? && body.None? ==> r == DeleteOutcome(status, body, text)
  {
    if status in {200, 201, 204} then Done
    else match body
      case Some(e) => Raised(e)
      case None => Raised(ApiError(status, "0", "Failed to delete tracks: " + text))
  }

  // ---------------------------------------------------------------- update playlist

  /** The form fields `update_playlist` posts: the given ones, title
      first. */
  function UpdateFields(title: Option<string>, description: Option<string>): (r: seq<(string, string)>)
  {
    (if title.Some? then [("title", title.value)] else [])
    + (if description.Some? then [("description", description.value)] else [])
  }

  /** The requests `update_playlist` sends: the GET that reads the
      playlist's ETag, and the form post with its `If-None-Match` header. */
  datatype Request = EtagGet | Post(fields: seq<(string, string)>, ifNoneMatch: Option<string>)

  /** What `update_playlist` sends and how it ends. */
  datatype UpdateCall = UpdateCall(sent: seq<Request>, result: CallResult)

  /** `update_playlist`: the ETag is read first, whatever the fields;
      nothing is posted when no field is given; the post carries the ETag
      when the GET gave a non-empty one and succeeds on 200 or 201. */
  function UpdatePlaylist(title: Option<string>, description: Option<string>, etag: Option<string>,
                          status: int, text: string): (r: UpdateCall)
  {
    var fields := UpdateFields(title, description);
    if fields == [] then UpdateCall([EtagGet], Done)
    else
      var post := Post(fields, if etag.Some? && etag.value != [] then etag else None);
      if status in {200, 201} then UpdateCall([EtagGet, post], Done)
      else UpdateCall([EtagGet, post], Raised(ApiError(status, "0", "Failed to update playlist: " + text)))
  }

  /** The ETag GET always goes first; the post follows exactly when a
      field is given, carrying each given field with its value and the
      ETag when there is one; without fields the call succeeds. */
  lemma UpdatePlaylistFields(title: Option<string>, description: Option<string>, etag: Option<string>,
                             status: int, text: string)
    ensures var r := UpdatePlaylist(title, description, etag, status, text);
            r.sent != [] && r.sent[0] == EtagGet
            && (|r.sent| == 1 <==> title.None? && description.None?)
            && (|r.sent| == 1 ==> r.result == Done)
            && (|r.sent| > 1 ==> |r.sent| == 2 && r.sent[1].Post?
                                 && (r.sent[1].ifNoneMatch.Some? <==> etag.Some? && etag.value != [])
                                 && (r.result.Done? <==> status in {200, 201}))
    ensures forall k, v :: (k, v) in UpdateFields(title, description) <==>
              (k == "title" && title == Some(v)) || (k == "description" && description == Some(v))
  {
  }
}
