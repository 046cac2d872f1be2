/** The Odesli (song.link) client: a sliding-window rate limiter over
    request time stamps, and the extraction of the Tidal track id from a
    link response. Time is in integer milliseconds; the clock readings and
    the HTTP response are parameters. */
module Odesli {
  import opened Common
  import opened Text

  /** Length of the window, in milliseconds. */
  const WindowMs: int := 60000
  /** Extra wait after the oldest stamp leaves the window. */
  const BufferMs: int := 100
  const DefaultRateLimit: int := 10

  // ---------------------------------------------------------------- rate limiter

  /** The stamps younger than the window at time `now`, in order. */
  function Young(stamps: seq<int>, now: int): (r: seq<int>)
    ensures |r| <= |stamps|
    ensures forall i :: 0 <= i < |r| ==> now - r[i] < WindowMs && r[i] in stamps
    ensures forall t :: t in stamps && now - t < WindowMs ==> t in r
  {
    if stamps == [] then []
    else (if now - stamps[0] < WindowMs then [stamps[0]] else []) + Young(stamps[1..], now)
  }

  /** The readings of the clock during one call: on entry, after the
      sleep (when there is one), and when the stamp is recorded. */
  datatype Clock = Clock(now: int, afterSleep: int, stampTime: int)

  /** The outcome of `_wait_for_rate_limit`: the new stamps and the time
      slept, or the `IndexError` of a limit of zero or less with no stamp
      in the window. */
  datatype Wait = Waited(stamps: seq<int>, sleptMs: int) | IndexErrorRaised

  /** `_wait_for_rate_limit`. */
  function WaitForRateLimit(stamps: seq<int>, limit: int, c: Clock): (r: Wait)
    ensures r.Waited? ==> |r.stamps| >= 1 && r.stamps[|r.stamps| - 1] == c.stampTime
    ensures r.IndexErrorRaised? <==> |Young(stamps, c.now)| == 0 && limit <= 0
  {
    var young := Young(stamps, c.now);
    if |young| >= limit then
      if young == [] then IndexErrorRaised
      else
        var wait := WindowMs - (c.now - young[0]) + BufferMs;
        if wait > 0 then Waited(Young(young, c.afterSleep) + [c.stampTime], wait)
        else Waited(young + [c.stampTime], 0)
    else Waited(young + [c.stampTime], 0)
  }

  /** Whenever the limit is reached, the wait is positive: the oldest
      stamp in the window is younger than the window, so some time
      remains. */
  lemma WaitPositive(stamps: seq<int>, limit: int, c: Clock)
    requires limit > 0 && |Young(stamps, c.now)| >= limit
    ensures WaitForRateLimit(stamps, limit, c).sleptMs > 0
  {
  }

  /** The window bound: with at most `limit` stamps before, and a sleep
      that lasted as long as asked, at most `limit` stamps after; every
      kept stamp is younger than the window at the last reading before
      the new stamp, and the new stamp is the last. */
  lemma {:induction false} WindowBound(stamps: seq<int>, limit: int, c: Clock)
    requires limit > 0 && |stamps| <= limit
    requires WaitForRateLimit(stamps, limit, c).Waited?
    requires c.afterSleep >= c.now + WaitForRateLimit(stamps, limit, c).sleptMs
    ensures var r := WaitForRateLimit(stamps, limit, c).stamps;
            var slept := WaitForRateLimit(stamps, limit, c).sleptMs;
            |r| <= limit && r[|r| - 1] == c.stampTime
            && (forall i :: 0 <= i < |r| - 1 ==> r[i] in stamps && c.now - r[i] < WindowMs)
            && (slept > 0 ==> forall i :: 0 <= i < |r| - 1 ==> c.afterSleep - r[i] < WindowMs)
  {
    var young := Young(stamps, c.now);
    var r := WaitForRateLimit(stamps, limit, c).stamps;
    if |young| >= limit {
      var wait := WindowMs - (c.now - young[0]) + BufferMs;
      var kept := Young(young, c.afterSleep);
      assert young[0] !in kept;
      YoungWithout(young, c.afterSleep);
      assert r == kept + [c.stampTime];
      forall i | 0 <= i < |r| - 1
        ensures r[i] in stamps && c.now - r[i] < WindowMs && c.afterSleep - r[i] < WindowMs
      {
        assert r[i] == kept[i];
      }
    } else {
      assert r == young + [c.stampTime];
      forall i | 0 <= i < |r| - 1
        ensures r[i] in stamps && c.now - r[i] < WindowMs
      {
        assert r[i] == young[i];
      }
    }
  }

  /** Filtering out an element that is not kept shortens the list. */
  lemma YoungWithout(s: seq<int>, now: int)
    requires s != [] && now - s[0] >= WindowMs
    ensures |Young(s, now)| <= |s| - 1
  {
  }

  /** Time stamps in the order they were taken. */
  predicate Ascending(s: seq<int>) {
    forall i, j :: 0 <= i < j < |s| ==> s[i] <= s[j]
  }

  /** Stamps recorded in time order stay in order. */
  lemma {:induction false} YoungSorted(s: seq<int>, now: int)
    requires Ascending(s)
    ensures Ascending(Young(s, now))
  {
    if s != [] {
      assert Ascending(s[1..]);
      YoungSorted(s[1..], now);
      var t := Young(s[1..], now);
      forall j | 0 <= j < |t|
        ensures s[0] <= t[j]
      {
        var k :| 0 <= k < |s[1..]| && s[1..][k] == t[j];
        assert s[k + 1] == t[j];
      }
      if now - s[0] < WindowMs {
        ConsAscending(s[0], t);
        assert Young(s, now) == [s[0]] + t;
      } else {
        assert Young(s, now) == t;
      }
    }
  }

  lemma ConsAscending(x: int, t: seq<int>)
    requires Ascending(t) && forall j :: 0 <= j < |t| ==> x <= t[j]
    ensures Ascending([x] + t)
  {
    var r := [x] + t;
    forall i, j | 0 <= i < j < |r|
      ensures r[i] <= r[j]
    {
      assert r[j] == t[j - 1];
      if i > 0 {
        assert r[i] == t[i - 1];
      }
    }
  }

  // ---------------------------------------------------------------- conversion

  /** The Tidal entry of a links response. */
  datatype TidalLink = TidalLink(entityUniqueId: Option<string>)

  /** A response: HTTP 404, another HTTP or network error, or a body with
      the Tidal entry of `linksByPlatform` if there is one. */
  datatype Response = NotFound | HttpError | Body(tidal: Option<TidalLink>)

  const Sep: string := "::"

  /** The id in `entityUniqueId`: `split('::')[1]`, the text between the
      first and the second "::". */
  function EntityTrackId(entity: string): (r: Option<string>)
    ensures r.None? <==> !Contains(entity, Sep)
  {
    if Contains(entity, Sep) then
      var parts := Split(entity, Sep);
      SplitHasSecond(entity, Sep);
      Some(parts[1])
    else None
  }

  lemma SplitHasSecond(s: string, sep: string)
    requires |sep| > 0 && Contains(s, sep)
    ensures |Split(s, sep)| >= 2
  {
    HeadAbsent(s, sep);
  }

  /** For "TIDAL_TRACK::123456" style ids: a type free of ':' followed by
      "::" gives the text up to the next "::", so the number itself when
      it holds none. */
  lemma {:induction false} EntityTrackIdOf(kind: string, rest: string)
    requires ':' !in kind
    ensures EntityTrackId(kind + Sep + rest) == Some(Head(rest, Sep))
    ensures !Contains(rest, Sep) ==> EntityTrackId(kind + Sep + rest) == Some(rest)
  {
    var s := kind + Sep + rest;
    assert OccursAt(s, Sep, |kind|) by { assert s[|kind|..][..2] == Sep; }
    var h := Head(s, Sep);
    HeadFirst(s, Sep);
    assert |h| <= |kind|;
    assert OccursAt(s, Sep, |h|);
    assert s[|h|] == ':' by { assert s[|h|..][..2] == Sep; }
    forall k | 0 <= k < |kind|
      ensures s[k] != ':'
    {
      assert s[k] == kind[k];
    }
    assert h == kind;
    assert s[|h| + |Sep|..] == rest;
    assert Split(s, Sep)[1] == Split(rest, Sep)[0];
    if !Contains(rest, Sep) {
      HeadAbsent(rest, Sep);
    }
  }

  /** The Tidal id of a response: `None` for a 404 or error, a missing
      Tidal entry or id, or an id without "::". */
  function TidalIdOf(resp: Response): (r: Option<string>)
    ensures resp.Body? && resp.tidal.Some? && resp.tidal.value.entityUniqueId.Some? ==>
              r == EntityTrackId(resp.tidal.value.entityUniqueId.value)
    ensures !(resp.Body? && resp.tidal.Some? && resp.tidal.value.entityUniqueId.Some?) ==> r.None?
  {
    match resp
      case Body(Some(TidalLink(Some(entity)))) => EntityTrackId(entity)
      case _ => None
  }

  /** The client's state: the limit and the recorded stamps. */
  datatype OdesliClient = OdesliClient(rateLimit: int, requestTimes: seq<int>)

  function NewClient(rateLimit: int): (c: OdesliClient)
    ensures c.requestTimes == []
  {
    OdesliClient(rateLimit, [])
  }

  const SpotifyTrackUrl: string := "https://open.spotify.com/track/"

  /** `convert_spotify_url_to_tidal`: wait for the limiter, then ask for
      the URL's links; the limiter's error propagates (`None` here). */
  function ConvertUrl(cl: OdesliClient, url: string, c: Clock, fetch: string -> Response):
    (r: Option<(Option<string>, OdesliClient)>)
    ensures r.Some? <==> WaitForRateLimit(cl.requestTimes, cl.rateLimit, c).Waited?
    ensures r.Some? ==> r.value.0 == TidalIdOf(fetch(url))
                        && r.value.1 == cl.(requestTimes := WaitForRateLimit(cl.requestTimes, cl.rateLimit, c).stamps)
  {
    match WaitForRateLimit(cl.requestTimes, cl.rateLimit, c)
      case IndexErrorRaised => None
      case Waited(stamps, _) => Some((TidalIdOf(fetch(url)), cl.(requestTimes := stamps)))
  }

  /** `convert_spotify_to_tidal`: the same for the track's Spotify URL. */
  function ConvertTrack(cl: OdesliClient, trackId: string, c: Clock, fetch: string -> Response):
    (r: Option<(Option<string>, OdesliClient)>)
    ensures r.Some? <==> WaitForRateLimit(cl.requestTimes, cl.rateLimit, c).Waited?
    ensures r.Some? ==> r.value.0 == TidalIdOf(fetch(SpotifyTrackUrl + trackId))
                        && r.value.1 == cl.(requestTimes := WaitForRateLimit(cl.requestTimes, cl.rateLimit, c).stamps)
  {
    ConvertUrl(cl, SpotifyTrackUrl + trackId, c, fetch)
  }

  /** The client keeps the window: with a positive limit, at most `limit`
      recorded stamps before, and a sleep that lasted as long as asked, a
      conversion succeeds and leaves at most `limit` stamps, the request
      time last and every older one younger than the window when the call
      began; so the invariant holds from call to call. */
  lemma ConvertTrackKeepsWindow(cl: OdesliClient, trackId: string, c: Clock, fetch: string -> Response)
    requires cl.rateLimit > 0 && |cl.requestTimes| <= cl.rateLimit
    requires c.afterSleep >= c.now + WaitForRateLimit(cl.requestTimes, cl.rateLimit, c).sleptMs
    ensures ConvertTrack(cl, trackId, c, fetch).Some?
    ensures var next := ConvertTrack(cl, trackId, c, fetch).value.1;
            next.rateLimit == cl.rateLimit && 1 <= |next.requestTimes| <= cl.rateLimit
            && next.requestTimes[|next.requestTimes| - 1] == c.stampTime
            && forall i :: 0 <= i < |next.requestTimes| - 1 ==> c.now - next.requestTimes[i] < WindowMs
  {
    WindowBound(cl.requestTimes, cl.rateLimit, c);
  }
}
