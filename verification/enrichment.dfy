/** The metadata enrichment service: merges Tidal's BPM, MusicBrainz
    genres, tags and mood, and GetSongBPM tempo, key and genres into one
    record, each source optional and each failure contained. The clients
    are given as their outcomes per call. */
module Enrichment {
  import opened Common
  import opened Text
  import MusicBrainz
  import GetSongBpm

  /** What a client call gives: a value, nothing, or an exception. */
  datatype Outcome<T> = Returned(value: Option<T>) | Raised

  /** `EnrichedMetadata`. */
  datatype Enriched = Enriched(bpm: Option<int>, key: string, keyCamelot: string, timeSignature: string,
                               genres: seq<string>, tags: seq<string>, mood: string)

  /** The service: which clients it holds. */
  datatype Service = Service(musicbrainz: bool, getsongbpm: bool)

  /** The client calls: MusicBrainz ISRC lookup and search, GetSongBPM
      search. */
  datatype Sources = Sources(isrcLookup: string -> Outcome<MusicBrainz.TrackInfo>,
                             mbSearch: (string, string, Option<int>) -> Outcome<MusicBrainz.TrackInfo>,
                             bpmSearch: (string, string) -> Outcome<GetSongBpm.BpmInfo>)

  /** Tags that name a mood. */
  const MoodTags: set<string> := {
    "happy", "sad", "melancholic", "uplifting", "dark", "aggressive",
    "calm", "relaxing", "energetic", "romantic", "dreamy", "nostalgic",
    "intense", "peaceful", "euphoric", "mellow", "groovy", "hypnotic",
    "atmospheric", "emotional", "powerful", "gentle", "driving"
  }

  /** Python truthiness of an optional number. */
  predicate TruthyInt(x: Option<int>) { x.Some? && x.value != 0 }

  predicate TruthyText(x: Option<string>) { x.Some? && x.value != [] }

  // ---------------------------------------------------------------- mood

  /** `str.title()` of a single ASCII word: first letter upper, the rest
      lower. */
  function Capitalized(w: string): (r: string)
    ensures |r| == |w|
    ensures w != [] ==> r[0] == UpperChar(w[0])
    ensures forall i :: 1 <= i < |w| ==> r[i] == LowerChar(w[i])
  {
    if w == [] then []
    else
      LowerAt(w[1..]);
      [UpperChar(w[0])] + Lower(w[1..])
  }

  /** Capitalising changes only case. */
  lemma CapitalizedLower(w: string)
    ensures Lower(Capitalized(w)) == Lower(w)
  {
    if w != [] {
      var c := Capitalized(w);
      assert c[1..] == Lower(w[1..]);
      LowerIdempotent(w[1..]);
    }
  }

  predicate IsMood(tag: string) { Lower(tag) in MoodTags }

  /** The title-cased first mood tag, or "". */
  function MoodOf(tags: seq<string>): (r: string)
    ensures r == [] <==> forall i :: 0 <= i < |tags| ==> !IsMood(tags[i])
    ensures r != [] ==> exists i :: 0 <= i < |tags| && IsMood(tags[i]) && r == Capitalized(tags[i])
                                    && forall j :: 0 <= j < i ==> !IsMood(tags[j])
    ensures r != [] ==> Lower(r) in MoodTags
  {
    match FirstIn(tags, IsMood, 0, |tags|)
    case None => []
    case Some(i) =>
      assert tags[i] != [] by { assert Lower(tags[i]) != []; }
      CapitalizedLower(tags[i]);
      Capitalized(tags[i])
  }

  // ---------------------------------------------------------------- merge

  /** The MusicBrainz lookup: by ISRC when one is given, then by search
      when that found nothing; an exception in either ends the lookup. */
  function MbLookup(title: string, artist: string, isrc: Option<string>, durationMs: Option<int>,
                    src: Sources): (r: Outcome<MusicBrainz.TrackInfo>)
    ensures TruthyText(isrc) && src.isrcLookup(isrc.value).Returned? && src.isrcLookup(isrc.value).value.Some? ==>
              r == src.isrcLookup(isrc.value)
    ensures !TruthyText(isrc) || src.isrcLookup(isrc.value) == Returned(None) ==>
              r == src.mbSearch(title, artist, durationMs)
    ensures TruthyText(isrc) && src.isrcLookup(isrc.value).Raised? ==> r.Raised?
  {
    var first := if TruthyText(isrc) then src.isrcLookup(isrc.value) else Returned(None);
    if first.Raised? then Raised
    else if first.value.Some? then first
    else src.mbSearch(title, artist, durationMs)
  }

  /** What a MusicBrainz hit sets: genres, tags and mood. */
  function ApplyMusicBrainz(e: Enriched, info: MusicBrainz.TrackInfo): (r: Enriched)
    ensures r.bpm == e.bpm && r.key == e.key && r.keyCamelot == e.keyCamelot && r.timeSignature == e.timeSignature
  {
    e.(genres := info.genres, tags := info.tags, mood := MoodOf(info.tags))
  }

  /** What a GetSongBPM hit sets: its BPM only when none is set yet, key,
      Camelot key and time signature always, and its genres only when
      there are none yet. */
  function ApplyGetSongBpm(e: Enriched, b: GetSongBpm.BpmInfo): (r: Enriched)
    ensures TruthyInt(e.bpm) ==> r.bpm == e.bpm
    ensures e.genres != [] ==> r.genres == e.genres
    ensures r.tags == e.tags && r.mood == e.mood
  {
    e.(bpm := if !TruthyInt(e.bpm) && TruthyInt(b.bpm) then b.bpm else e.bpm,
       key := b.key, keyCamelot := b.keyCamelot, timeSignature := b.timeSignature,
       genres := if b.genres != [] && e.genres == [] then b.genres else e.genres)
  }

  /** The record before any client is asked: Tidal's BPM when it has one. */
  function Initial(tidalBpm: Option<int>): Enriched {
    Enriched(if TruthyInt(tidalBpm) then tidalBpm else None, "", "", "", [], [], "")
  }

  function AfterMusicBrainz(svc: Service, title: string, artist: string, isrc: Option<string>,
                            durationMs: Option<int>, src: Sources, e: Enriched): Enriched {
    if !svc.musicbrainz then e
    else match MbLookup(title, artist, isrc, durationMs, src)
      case Returned(Some(info)) => ApplyMusicBrainz(e, info)
      case _ => e
  }

  function AfterGetSongBpm(svc: Service, title: string, artist: string, src: Sources, e: Enriched): Enriched {
    if !svc.getsongbpm then e
    else match src.bpmSearch(title, artist)
      case Returned(Some(b)) => ApplyGetSongBpm(e, b)
      case _ => e
  }

  /** `enrich_track`. */
  function EnrichTrack(svc: Service, title: string, artist: string, isrc: Option<string>,
                       durationMs: Option<int>, tidalBpm: Option<int>, src: Sources): (r: Enriched)
    ensures TruthyInt(tidalBpm) ==> r.bpm == tidalBpm
    ensures r.mood != [] ==> Lower(r.mood) in MoodTags
  {
    var e := AfterMusicBrainz(svc, title, artist, isrc, durationMs, src, Initial(tidalBpm));
    AfterGetSongBpm(svc, title, artist, src, e)
  }

  // ---------------------------------------------------------------- properties

  /** The MusicBrainz hit, if the lookup found one. */
  function MbHit(svc: Service, title: string, artist: string, isrc: Option<string>, durationMs: Option<int>,
                 src: Sources): Option<MusicBrainz.TrackInfo> {
    if !svc.musicbrainz then None
    else match MbLookup(title, artist, isrc, durationMs, src)
      case Returned(o) => o
      case Raised => None
  }

  /** The GetSongBPM hit, if the search found one. */
  function BpmHit(svc: Service, title: string, artist: string, src: Sources): Option<GetSongBpm.BpmInfo> {
    if !svc.getsongbpm then None
    else match src.bpmSearch(title, artist)
      case Returned(o) => o
      case Raised => None
  }

  /** BPM: Tidal's when it has one, else GetSongBPM's when that has one,
      else none. */
  lemma BpmPriority(svc: Service, title: string, artist: string, isrc: Option<string>,
                    durationMs: Option<int>, tidalBpm: Option<int>, src: Sources)
    ensures var b := BpmHit(svc, title, artist, src);
            EnrichTrack(svc, title, artist, isrc, durationMs, tidalBpm, src).bpm ==
              if TruthyInt(tidalBpm) then tidalBpm
              else if b.Some? && TruthyInt(b.value.bpm) then b.value.bpm
              else None
  {
  }

  /** Genres: MusicBrainz's when it found the track; GetSongBPM's only
      when that left them empty. Tags and mood come from MusicBrainz
      alone, and the key fields from GetSongBPM alone. */
  lemma SourcePriority(svc: Service, title: string, artist: string, isrc: Option<string>,
                       durationMs: Option<int>, tidalBpm: Option<int>, src: Sources)
    ensures var m := MbHit(svc, title, artist, isrc, durationMs, src);
            var b := BpmHit(svc, title, artist, src);
            var g := if m.Some? then m.value.genres else [];
            var r := EnrichTrack(svc, title, artist, isrc, durationMs, tidalBpm, src);
            r.genres == (if b.Some? && b.value.genres != [] && g == [] then b.value.genres else g)
            && r.tags == (if m.Some? then m.value.tags else [])
            && r.mood == (if m.Some? then MoodOf(m.value.tags) else "")
            && r.key == (if b.Some? then b.value.key else "")
            && r.keyCamelot == (if b.Some? then b.value.keyCamelot else "")
            && r.timeSignature == (if b.Some? then b.value.timeSignature else "")
  {
  }

  /** ISRC first: a lookup by ISRC that finds the track makes the search
      irrelevant; without an ISRC, or when the lookup finds nothing, the
      search decides. */
  lemma IsrcFirst(svc: Service, title: string, artist: string, isrc: Option<string>, durationMs: Option<int>,
                  tidalBpm: Option<int>, src: Sources,
                  otherSearch: (string, string, Option<int>) -> Outcome<MusicBrainz.TrackInfo>)
    ensures TruthyText(isrc) && src.isrcLookup(isrc.value).Returned? && src.isrcLookup(isrc.value).value.Some? ==>
              EnrichTrack(svc, title, artist, isrc, durationMs, tidalBpm, src) ==
              EnrichTrack(svc, title, artist, isrc, durationMs, tidalBpm, src.(mbSearch := otherSearch))
    ensures svc.musicbrainz && (!TruthyText(isrc) || src.isrcLookup(isrc.value) == Returned(None)) ==>
              MbHit(svc, title, artist, isrc, durationMs, src) ==
                (match src.mbSearch(title, artist, durationMs) case Returned(o) => o case Raised => None)
  {
  }

  /** An exception from one source costs only that source's data: the
      result is the one the service would give without that client. */
  lemma FailuresContained(svc: Service, title: string, artist: string, isrc: Option<string>,
                          durationMs: Option<int>, tidalBpm: Option<int>, src: Sources)
    ensures MbLookup(title, artist, isrc, durationMs, src).Raised? ==>
              EnrichTrack(svc, title, artist, isrc, durationMs, tidalBpm, src) ==
              EnrichTrack(svc.(musicbrainz := false), title, artist, isrc, durationMs, tidalBpm, src)
    ensures src.bpmSearch(title, artist).Raised? ==>
              EnrichTrack(svc, title, artist, isrc, durationMs, tidalBpm, src) ==
              EnrichTrack(svc.(getsongbpm := false), title, artist, isrc, durationMs, tidalBpm, src)
  {
  }

  /** The GetSongBPM search as the client runs it: the `OverflowError` of
      its tempo parse is the exception the service catches. */
  function BpmSearchOutcome(title: string, artist: string, search: string -> Option<seq<GetSongBpm.Hit>>,
                            byId: string -> Option<GetSongBpm.Song>): (r: Outcome<GetSongBpm.BpmInfo>)
    ensures r.Raised? <==> GetSongBpm.SearchTrackAsWritten(title, artist, search, byId).OverflowRaised?
    ensures r.Returned? ==> r.value == GetSongBpm.SearchTrack(title, artist, search, byId)
  {
    match GetSongBpm.SearchTrackAsWritten(title, artist, search, byId)
      case OverflowRaised => Raised
      case Parsed(o) => Returned(o)
  }

  /** The sources backed by the modelled clients: the MusicBrainz calls
      return, and the GetSongBPM search returns or raises as written. */
  function ClientSources(mbRequest: string -> Option<seq<MusicBrainz.Recording>>,
                         mbSearch: string -> Option<seq<MusicBrainz.Recording>>,
                         mbDetail: string -> Option<MusicBrainz.Recording>,
                         bpmSearch: string -> Option<seq<GetSongBpm.Hit>>,
                         bpmById: string -> Option<GetSongBpm.Song>): (src: Sources)
    ensures forall isrc :: src.isrcLookup(isrc) == Returned(MusicBrainz.LookupByIsrc(isrc, mbRequest))
    ensures forall t, a, d :: src.mbSearch(t, a, d) == Returned(MusicBrainz.SearchTrack(t, a, d, mbSearch, mbDetail))
    ensures forall t, a :: src.bpmSearch(t, a) == BpmSearchOutcome(t, a, bpmSearch, bpmById)
  {
    Sources(isrc => Returned(MusicBrainz.LookupByIsrc(isrc, mbRequest)),
            (t, a, d) => Returned(MusicBrainz.SearchTrack(t, a, d, mbSearch, mbDetail)),
            (t, a) => BpmSearchOutcome(t, a, bpmSearch, bpmById))
  }

  /** When the GetSongBPM search raises on its tempo, the track keeps no
      GetSongBPM data at all: no key, Camelot key or time signature, and
      no BPM beyond Tidal's. */
  lemma OverflowLosesGetSongBpm(svc: Service, title: string, artist: string, isrc: Option<string>,
                                durationMs: Option<int>, tidalBpm: Option<int>,
                                mbRequest: string -> Option<seq<MusicBrainz.Recording>>,
                                mbSearch: string -> Option<seq<MusicBrainz.Recording>>,
                                mbDetail: string -> Option<MusicBrainz.Recording>,
                                bpmSearch: string -> Option<seq<GetSongBpm.Hit>>,
                                bpmById: string -> Option<GetSongBpm.Song>)
    ensures GetSongBpm.SearchTrackAsWritten(title, artist, bpmSearch, bpmById).OverflowRaised? ==>
              var r := EnrichTrack(svc, title, artist, isrc, durationMs, tidalBpm,
                                   ClientSources(mbRequest, mbSearch, mbDetail, bpmSearch, bpmById));
              r.key == "" && r.keyCamelot == "" && r.timeSignature == ""
              && r.bpm == (if TruthyInt(tidalBpm) then tidalBpm else None)
  {
    var src := ClientSources(mbRequest, mbSearch, mbDetail, bpmSearch, bpmById);
    BpmPriority(svc, title, artist, isrc, durationMs, tidalBpm, src);
    SourcePriority(svc, title, artist, isrc, durationMs, tidalBpm, src);
  }

  /** With the modelled clients, a track without title or ISRC gets
      nothing from either service: Tidal's BPM, and empty fields. */
  lemma NoTitleNoData(svc: Service, artist: string, isrc: Option<string>, durationMs: Option<int>,
                      tidalBpm: Option<int>,
                      mbRequest: string -> Option<seq<MusicBrainz.Recording>>,
                      mbSearch: string -> Option<seq<MusicBrainz.Recording>>,
                      mbDetail: string -> Option<MusicBrainz.Recording>,
                      bpmSearch: string -> Option<seq<GetSongBpm.Hit>>,
                      bpmById: string -> Option<GetSongBpm.Song>)
    requires !TruthyText(isrc)
    ensures EnrichTrack(svc, "", artist, isrc, durationMs, tidalBpm,
                        ClientSources(mbRequest, mbSearch, mbDetail, bpmSearch, bpmById)) == Initial(tidalBpm)
  {
    var src := ClientSources(mbRequest, mbSearch, mbDetail, bpmSearch, bpmById);
    assert src.mbSearch("", artist, durationMs) == Returned(None);
    assert src.bpmSearch("", artist) == Returned(None);
  }

  // ---------------------------------------------------------------- singleton

  /** The service `__init__` builds: the GetSongBPM client only with a
      stored key. */
  function NewService(useMusicBrainz: bool, useGetSongBpm: bool, storedKey: string): (s: Service)
    ensures s.musicbrainz == useMusicBrainz
    ensures s.getsongbpm <==> useGetSongBpm && storedKey != []
  {
    Service(useMusicBrainz, useGetSongBpm && GetSongBpm.CreateClient(storedKey).Some?)
  }

  /** `get_enrichment_service`: the cached instance, built on first use. */
  function GetService(cache: Option<Service>, useMusicBrainz: bool, useGetSongBpm: bool,
                      storedKey: string): (r: (Option<Service>, Service))
    ensures r.0 == Some(r.1)
    ensures cache.Some? ==> r.1 == cache.value
  {
    match cache
      case Some(s) => (cache, s)
      case None => var s := NewService(useMusicBrainz, useGetSongBpm, storedKey); (Some(s), s)
  }

  /** `reset_enrichment_service`. */
  function ResetService(cache: Option<Service>): (r: Option<Service>)
    ensures r.None?
  {
    None
  }

  /** Later calls return the first instance whatever their arguments;
      after a reset the next call builds a service from its own. */
  lemma SingletonLaw(cache: Option<Service>, m1: bool, b1: bool, k1: string, m2: bool, b2: bool, k2: string)
    ensures var first := GetService(cache, m1, b1, k1);
            GetService(first.0, m2, b2, k2).1 == first.1
    ensures GetService(ResetService(cache), m2, b2, k2).1 == NewService(m2, b2, k2)
  {
  }
}
