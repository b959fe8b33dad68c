/** The macOS now-playing cache of the worker library: one global cache,
    refreshed from the system's now-playing information at most every
    200 ms, that merges rapid updates of the same track so a briefer artist
    string does not replace a fuller one, and reuses decoded artwork while
    the track stays the same.

    Instants are integer milliseconds; base64 decoding is the `decode`
    parameter; durations, rates and positions are carried as opaque reals. */
module MacMedia {
  import opened Common
  import Utf8

  datatype PlaybackState = PlaybackState(playing: bool, playbackRate: real, elapsedTime: real)

  datatype MediaMetadata = MediaMetadata(
    bundleIdentifier: Option<string>,
    title: Option<string>,
    artist: Option<string>,
    album: Option<string>,
    duration: real,
    artworkData: Option<seq<byte>>,
    artworkMimeType: Option<string>,
    contentItemIdentifier: Option<string>)

  /** What the system reports; artwork arrives base64-encoded. */
  datatype NowPlayingInfo = NowPlayingInfo(
    bundleIdentifier: string,
    title: string,
    artist: Option<string>,
    album: Option<string>,
    duration: Option<real>,
    artworkData: Option<string>,
    artworkMimeType: Option<string>,
    playing: bool,
    playbackRate: Option<real>,
    elapsedTime: Option<real>)

  /** The fields of `MediaCache`. */
  datatype CacheState = CacheState(
    metadata: Option<MediaMetadata>,
    playbackState: Option<PlaybackState>,
    lastUpdate: int,
    artworkKey: Option<string>,
    lastFullMetadataTime: Option<int>)

  type Decoder = string -> Option<seq<byte>>

  const CacheDurationMs: int := 200
  const RapidUpdateMs: int := 3000
  /** A fresh cache pretends its last update was this long ago. */
  const DefaultAgeMs: int := 10000

  /** `Instant::elapsed`: time since `t`, zero if `t` lies ahead. */
  function Elapsed(now: int, t: int): (d: nat)
    ensures t <= now ==> d == now - t
  {
    if t <= now then now - t else 0
  }

  /** `MediaCache::default`. */
  function DefaultCache(now: int): CacheState
  {
    CacheState(None, None, now - DefaultAgeMs, None, None)
  }

  /** `is_cache_valid`: updated less than 200 ms ago, or at an instant
      that lies ahead. */
  function IsCacheValid(c: CacheState, now: int): (valid: bool)
    ensures valid <==> c.lastUpdate > now - CacheDurationMs
  {
    Elapsed(now, c.lastUpdate) < CacheDurationMs
  }

  /** A fresh cache is never valid. */
  lemma DefaultCacheInvalid(now: int)
    ensures !IsCacheValid(DefaultCache(now), now)
  {
  }

  /** The key that tells tracks apart: `bundle:title:album`, a missing
      album written as empty. */
  function TrackKey(info: NowPlayingInfo): (key: string)
    ensures |key| == |info.bundleIdentifier| + |info.title| + |info.album.GetOr("")| + 2
  {
    info.bundleIdentifier + ":" + info.title + ":" + info.album.GetOr("")
  }

  /** The position of the first colon, or the length when there is none. */
  function FirstColon(s: string): (i: nat)
    ensures i <= |s|
  {
    if s == [] || s[0] == ':' then 0 else 1 + FirstColon(s[1..])
  }

  /** The first colon after a colon-free string is the one that follows it. */
  lemma {:induction false} FirstColonAfter(x: string, r: string)
    requires ':' !in x
    ensures FirstColon(x + ":" + r) == |x|
  {
    if x != [] {
      assert (x + ":" + r)[1..] == x[1..] + ":" + r;
      FirstColonAfter(x[1..], r);
    }
  }

  /** Two strings without a colon, each followed by one, split a string
      the same way. */
  lemma ColonSplit(x: string, y: string, r: string, q: string)
    requires ':' !in x && ':' !in y && x + ":" + r == y + ":" + q
    ensures x == y && r == q
  {
    var k := x + ":" + r;
    FirstColonAfter(x, r);
    FirstColonAfter(y, q);
    assert x == k[..|x|] && y == k[..|y|];
    assert r == k[|x| + 1..] && q == k[|y| + 1..];
  }

  /** The key tells tracks apart when bundle identifiers and titles hold no
      colon: equal keys mean the same bundle, title and album (a missing
      album counting as empty). */
  lemma TrackKeyDistinguishes(a: NowPlayingInfo, b: NowPlayingInfo)
    requires ':' !in a.bundleIdentifier && ':' !in b.bundleIdentifier
    requires ':' !in a.title && ':' !in b.title
    requires TrackKey(a) == TrackKey(b)
    ensures a.bundleIdentifier == b.bundleIdentifier && a.title == b.title
    ensures a.album.GetOr("") == b.album.GetOr("")
  {
    var ra := a.title + ":" + a.album.GetOr("");
    var rb := b.title + ":" + b.album.GetOr("");
    assert TrackKey(a) == a.bundleIdentifier + ":" + ra;
    assert TrackKey(b) == b.bundleIdentifier + ":" + rb;
    ColonSplit(a.bundleIdentifier, b.bundleIdentifier, ra, rb);
    ColonSplit(a.title, b.title, a.album.GetOr(""), b.album.GetOr(""));
  }

  /** The patterns that separate several artists in one string. */
  const Separators: seq<string> := ["/", "&", " feat", " ft.", " ft ", "、"]

  /** `count_artist_separators`: the non-overlapping occurrences of each
      separator, added up; zero exactly when no separator occurs. */
  function CountArtistSeparators(artist: string): (n: nat)
    ensures n == 0 <==> !HasArtistSeparator(artist)
  {
    CountMatchesZero(artist, "/");
    CountMatchesZero(artist, "&");
    CountMatchesZero(artist, " feat");
    CountMatchesZero(artist, " ft.");
    CountMatchesZero(artist, " ft ");
    CountMatchesZero(artist, "、");
    CountMatches(artist, "/") + CountMatches(artist, "&") + CountMatches(artist, " feat")
    + CountMatches(artist, " ft.") + CountMatches(artist, " ft ") + CountMatches(artist, "、")
  }

  /** Some separator occurs in the artist string. */
  predicate HasArtistSeparator(artist: string)
  {
    Contains(artist, "/") || Contains(artist, "&") || Contains(artist, " feat")
    || Contains(artist, " ft.") || Contains(artist, " ft ") || Contains(artist, "、")
  }

  /** The track differs from the one whose artwork is cached. */
  function KeyChanged(c: CacheState, info: NowPlayingInfo): (changed: bool)
    ensures c.artworkKey.None? ==> changed
  {
    c.artworkKey != Some(TrackKey(info))
  }

  /** The same track was fully described less than three seconds ago. */
  function IsRapidUpdate(c: CacheState, info: NowPlayingInfo, now: int): (rapid: bool)
    ensures rapid <==> !KeyChanged(c, info) && c.lastFullMetadataTime.Some?
                       && c.lastFullMetadataTime.value > now - RapidUpdateMs
  {
    !KeyChanged(c, info) && c.lastFullMetadataTime.Some?
    && Elapsed(now, c.lastFullMetadataTime.value) < RapidUpdateMs
  }

  /** The new artist string looks like a degraded form of the old one: it
      has fewer separators than an old one that has some, or it is non-empty
      and under three fifths of the old one's UTF-8 length (integer
      arithmetic). */
  function LooksDegraded(oldArtist: string, newArtist: string): (degraded: bool)
    ensures degraded ==> newArtist != oldArtist
    ensures newArtist == "" ==> (degraded <==> HasArtistSeparator(oldArtist))
  {
    var oldSep := CountArtistSeparators(oldArtist);
    var newSep := CountArtistSeparators(newArtist);
    var oldLen := Utf8.ByteLength(oldArtist);
    var newLen := Utf8.ByteLength(newArtist);
    (oldSep > 0 && newSep < oldSep) || (newLen > 0 && newLen < oldLen * 3 / 5)
  }

  function CachedArtist(c: CacheState): Option<string>
  {
    if c.metadata.Some? then c.metadata.value.artist else None
  }

  function CachedArtwork(c: CacheState): Option<seq<byte>>
  {
    if c.metadata.Some? then c.metadata.value.artworkData else None
  }

  function CachedMimeType(c: CacheState): Option<string>
  {
    if c.metadata.Some? then c.metadata.value.artworkMimeType else None
  }

  /** `should_preserve_artist`: only on a rapid update, and only for a
      reported artist that differs from the cached one. */
  function ShouldPreserveArtist(c: CacheState, info: NowPlayingInfo, now: int): (preserve: bool)
    ensures preserve ==> IsRapidUpdate(c, info, now) && CachedArtist(c).Some? && info.artist.Some?
                         && info.artist != CachedArtist(c)
  {
    IsRapidUpdate(c, info, now) && CachedArtist(c).Some? && info.artist.Some?
    && LooksDegraded(CachedArtist(c).value, info.artist.value)
  }

  /** The artwork and its type after an update, and the artwork key. */
  function ArtworkAfter(c: CacheState, info: NowPlayingInfo, decode: Decoder)
    : (r: (Option<seq<byte>>, Option<string>, Option<string>))
    ensures r.2 == Some(TrackKey(info))
    ensures !KeyChanged(c, info) && CachedArtwork(c).Some? ==> r.0 == CachedArtwork(c) && r.1 == CachedMimeType(c)
    ensures (KeyChanged(c, info) || CachedArtwork(c).None?) && info.artworkData.Some? ==>
      r.0 == decode(info.artworkData.value) && r.1 == (if r.0.Some? then info.artworkMimeType else None)
    ensures (KeyChanged(c, info) || CachedArtwork(c).None?) && info.artworkData.None? ==> r.0 == None && r.1 == None
  {
    if !KeyChanged(c, info) && CachedArtwork(c).Some? then
      (CachedArtwork(c), CachedMimeType(c), c.artworkKey)
    else if info.artworkData.Some? then
      match decode(info.artworkData.value)
      case Some(bytes) => (Some(bytes), info.artworkMimeType, Some(TrackKey(info)))
      case None => (None, None, Some(TrackKey(info)))
    else (None, None, Some(TrackKey(info)))
  }

  /** `update_cache_from_info` on the cache's fields. */
  function Update(c: CacheState, info: NowPlayingInfo, now: int, decode: Decoder): (r: CacheState)
    ensures r.artworkKey == Some(TrackKey(info))
    ensures r.metadata.Some? && r.metadata.value.contentItemIdentifier == Some(TrackKey(info))
    ensures r.metadata.value.bundleIdentifier == (if info.bundleIdentifier == "" then None else Some(info.bundleIdentifier))
    ensures r.metadata.value.title == (if info.title == "" then None else Some(info.title))
    ensures r.metadata.value.artist != info.artist ==> ShouldPreserveArtist(c, info, now)
    ensures ShouldPreserveArtist(c, info, now) ==> r.metadata.value.artist == CachedArtist(c)
    ensures r.lastUpdate == now
    ensures r.lastFullMetadataTime ==
      if KeyChanged(c, info) || (info.artist.Some? && info.artist.value != "") then Some(now) else c.lastFullMetadataTime
    ensures r.playbackState.Some? && r.playbackState.value.playing == info.playing
  {
    var artist := if ShouldPreserveArtist(c, info, now) then CachedArtist(c) else info.artist;
    var (artwork, mime, artworkKey) := ArtworkAfter(c, info, decode);
    var metadata := MediaMetadata(
      if info.bundleIdentifier == "" then None else Some(info.bundleIdentifier),
      if info.title == "" then None else Some(info.title),
      artist,
      info.album,
      info.duration.GetOr(0.0),
      artwork,
      mime,
      Some(TrackKey(info)));
    var playback := PlaybackState(
      info.playing,
      info.playbackRate.GetOr(if info.playing then 1.0 else 0.0),
      info.elapsedTime.GetOr(0.0));
    var refreshed := KeyChanged(c, info) || (info.artist.Some? && info.artist.value != "");
    CacheState(Some(metadata), Some(playback), now, artworkKey,
               if refreshed then Some(now) else c.lastFullMetadataTime)
  }

  /** The same information applied twice at the same instant leaves the
      cache as one application does: the second is never rapid-merged into
      something else, and artwork is not decoded into something new. */
  lemma UpdateIdempotent(c: CacheState, info: NowPlayingInfo, now: int, decode: Decoder)
    ensures Update(Update(c, info, now, decode), info, now, decode) == Update(c, info, now, decode)
  {
    var once := Update(c, info, now, decode);
    assert !KeyChanged(once, info);
    assert ShouldPreserveArtist(c, info, now) ==> IsRapidUpdate(once, info, now);
    assert CachedArtist(once) == once.metadata.value.artist;
  }

  /** On a rapid update, a cached artist list is kept against a reported
      artist string with fewer separators. */
  lemma FewerSeparatorsKeepCachedArtist(c: CacheState, info: NowPlayingInfo, now: int, decode: Decoder)
    requires IsRapidUpdate(c, info, now) && CachedArtist(c).Some? && info.artist.Some?
    requires HasArtistSeparator(CachedArtist(c).value)
    requires CountArtistSeparators(info.artist.value) < CountArtistSeparators(CachedArtist(c).value)
    ensures Update(c, info, now, decode).metadata.value.artist == CachedArtist(c)
  {
    assert LooksDegraded(CachedArtist(c).value, info.artist.value);
  }

  /** On a rapid update, a cached artist is kept against a non-empty
      reported string under three fifths of its UTF-8 length. */
  lemma ShorterArtistKeepsCachedArtist(c: CacheState, info: NowPlayingInfo, now: int, decode: Decoder)
    requires IsRapidUpdate(c, info, now) && CachedArtist(c).Some? && info.artist.Some?
    requires 0 < Utf8.ByteLength(info.artist.value) < Utf8.ByteLength(CachedArtist(c).value) * 3 / 5
    ensures Update(c, info, now, decode).metadata.value.artist == CachedArtist(c)
  {
    assert LooksDegraded(CachedArtist(c).value, info.artist.value);
  }

  /** Otherwise the reported artist is taken: outside a rapid update, with
      nothing cached or reported, or when the reported string has as many
      separators as a cached list and at least three fifths of its length. */
  lemma ReportedArtistTaken(c: CacheState, info: NowPlayingInfo, now: int, decode: Decoder)
    requires !IsRapidUpdate(c, info, now) || CachedArtist(c).None? || info.artist.None?
      || ((!HasArtistSeparator(CachedArtist(c).value)
           || CountArtistSeparators(info.artist.value) >= CountArtistSeparators(CachedArtist(c).value))
          && (Utf8.ByteLength(info.artist.value) == 0
              || Utf8.ByteLength(info.artist.value) >= Utf8.ByteLength(CachedArtist(c).value) * 3 / 5))
    ensures Update(c, info, now, decode).metadata.value.artist == info.artist
  {
    assert !ShouldPreserveArtist(c, info, now);
  }

  /** The global cache's cell: `MediaCache`. */
  class MediaCache {
    var metadata: Option<MediaMetadata>
    var playbackState: Option<PlaybackState>
    var lastUpdate: int
    var artworkKey: Option<string>
    var lastFullMetadataTime: Option<int>

    function State(): CacheState
      reads this
    {
      CacheState(metadata, playbackState, lastUpdate, artworkKey, lastFullMetadataTime)
    }

    constructor (now: int)
      ensures State() == DefaultCache(now)
    {
      metadata := None;
      playbackState := None;
      lastUpdate := now - DefaultAgeMs;
      artworkKey := None;
      lastFullMetadataTime := None;
    }

    /** `update_cache_from_info`, field by field. */
    method UpdateFromInfo(info: NowPlayingInfo, now: int, decode: Decoder)
      modifies this
      ensures State() == Update(old(State()), info, now, decode)
    {
      var newKey := TrackKey(info);
      var keyChanged := KeyChanged(State(), info);
      var artist := if ShouldPreserveArtist(State(), info, now) then CachedArtist(State()) else info.artist;
      var artwork, mime := TakeArtwork(info, decode);
      metadata := Some(MediaMetadata(
        if info.bundleIdentifier == "" then None else Some(info.bundleIdentifier),
        if info.title == "" then None else Some(info.title),
        artist,
        info.album,
        info.duration.GetOr(0.0),
        artwork,
        mime,
        Some(newKey)));
      playbackState := Some(PlaybackState(
        info.playing,
        info.playbackRate.GetOr(if info.playing then 1.0 else 0.0),
        info.elapsedTime.GetOr(0.0)));
      lastUpdate := now;
      if keyChanged || (info.artist.Some? && info.artist.value != "") {
        lastFullMetadataTime := Some(now);
      }
    }

    /** The artwork step of `update_cache_from_info`: the cached artwork is
        kept for the same track, otherwise the new artwork is decoded and the
        artwork key moves to the new track. */
    method TakeArtwork(info: NowPlayingInfo, decode: Decoder) returns (artwork: Option<seq<byte>>, mime: Option<string>)
      modifies this`artworkKey
      ensures (artwork, mime, artworkKey) == ArtworkAfter(old(State()), info, decode)
    {
      if !KeyChanged(State(), info) && metadata.Some? && metadata.value.artworkData.Some? {
        artwork, mime := metadata.value.artworkData, metadata.value.artworkMimeType;
      } else if info.artworkData.Some? {
        artworkKey := Some(TrackKey(info));
        match decode(info.artworkData.value) {
          case Some(bytes) => artwork, mime := Some(bytes), info.artworkMimeType;
          case None => artwork, mime := None, None;
        }
      } else {
        artworkKey := Some(TrackKey(info));
        artwork, mime := None, None;
      }
    }

    /** The `None` branch of `get_playback_state`: no track is playing. */
    method Clear(now: int)
      modifies this`metadata, this`playbackState, this`lastUpdate
      ensures State() == old(State()).(metadata := None, playbackState := None, lastUpdate := now)
    {
      metadata := None;
      playbackState := None;
      lastUpdate := now;
    }
  }

  /** `MEDIA_CACHE`, the global cell, and the two readers over it. */
  class MediaSource {
    var cache: MediaCache?

    constructor ()
      ensures cache == null
    {
      cache := null;
    }

    /** The refresh both readers share: a valid cache is left alone; with
        now-playing information the cache (created if missing) is updated;
        without it an existing cache is cleared. */
    method Refresh(now: int, info: Option<NowPlayingInfo>, decode: Decoder) returns (hit: bool)
      modifies this, cache
      ensures hit <==> old(cache) != null && IsCacheValid(old(cache.State()), now)
      ensures hit ==> cache == old(cache) && cache.State() == old(cache.State())
      ensures !hit && info.Some? ==>
        cache != null && (old(cache) != null ==> cache == old(cache)) &&
        cache.State() == Update(if old(cache) == null then DefaultCache(now) else old(cache.State()), info.value, now, decode)
      ensures !hit && info.None? ==> cache == old(cache)
      ensures !hit && info.None? && cache != null ==>
        cache.State() == old(cache.State()).(metadata := None, playbackState := None, lastUpdate := now)
    {
      if cache != null && IsCacheValid(cache.State(), now) {
        return true;
      }
      hit := false;
      if info.Some? {
        if cache == null {
          cache := new MediaCache(now);
        }
        cache.UpdateFromInfo(info.value, now, decode);
      } else if cache != null {
        cache.Clear(now);
      }
    }

    /** `get_playback_state`: the cached state while valid; otherwise the
        refreshed state, or none when nothing is playing. */
    method GetPlaybackState(now: int, info: Option<NowPlayingInfo>, decode: Decoder) returns (r: Option<PlaybackState>)
      modifies this, cache
      ensures old(cache) != null && IsCacheValid(old(cache.State()), now) ==> r == old(cache.playbackState)
      ensures !(old(cache) != null && IsCacheValid(old(cache.State()), now)) ==>
        r == if info.Some? then Some(PlaybackOf(info.value)) else None
    {
      var hit := Refresh(now, info, decode);
      if hit || info.Some? {
        r := cache.playbackState;
      } else {
        r := None;
      }
    }

    /** `get_media_metadata`: as `get_playback_state`, for the metadata. */
    method GetMediaMetadata(now: int, info: Option<NowPlayingInfo>, decode: Decoder) returns (r: Option<MediaMetadata>)
      modifies this, cache
      ensures old(cache) != null && IsCacheValid(old(cache.State()), now) ==> r == old(cache.metadata)
      ensures !(old(cache) != null && IsCacheValid(old(cache.State()), now)) && info.None? ==> r == None
      ensures !(old(cache) != null && IsCacheValid(old(cache.State()), now)) && info.Some? ==>
        r.Some? && r.value.contentItemIdentifier == Some(TrackKey(info.value))
        && r == Update(if old(cache) == null then DefaultCache(now) else old(cache.State()), info.value, now, decode).metadata
    {
      var hit := Refresh(now, info, decode);
      if hit || info.Some? {
        r := cache.metadata;
      } else {
        r := None;
      }
    }
  }

  /** The playback state an update records. */
  function PlaybackOf(info: NowPlayingInfo): (p: PlaybackState)
    ensures p.playing == info.playing
    ensures info.playbackRate.None? ==> p.playbackRate == if info.playing then 1.0 else 0.0
  {
    PlaybackState(info.playing, info.playbackRate.GetOr(if info.playing then 1.0 else 0.0), info.elapsedTime.GetOr(0.0))
  }
}
