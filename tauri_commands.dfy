/** The desktop app's commands over its shared state: the optional
    reporter, replaced or updated when the configuration is saved, and the
    set of track ids whose cover has already been sent, which keeps a cover
    from being sent twice.

    The configuration file, the platform's now-playing readers and the
    reporter's network side are outside: the save outcome and what the
    readers return are parameters, and the calls made on the reporter are
    recorded in a ghost list. Lock poisoning is not modelled. */
module TauriCommands {
  import opened Common
  import Base64

  datatype ReporterConfig = ReporterConfig(enabled: bool, wsUrl: string, token: string)

  /** A running reporter: which instance it is, and its current config. */
  datatype Reporter = Reporter(instance: nat, config: ReporterConfig)

  /** The parts of the platform's playback state and metadata the commands
      look at; artwork arrives base64-encoded. */
  datatype PlaybackState = PlaybackState(playing: bool, playbackRate: real, elapsedTime: real)

  datatype MediaMetadata = MediaMetadata(
    title: Option<string>,
    artist: Option<string>,
    contentItemIdentifier: Option<string>,
    artworkData: Option<string>,
    artworkMimeType: Option<string>)

  /** A call made on the reporter. */
  datatype ReporterCall =
    | UploadArtwork(instance: nat, contentId: string, bytes: seq<byte>, mimeType: string)
    | SendMediaPlayback(instance: nat, metadata: MediaMetadata, state: PlaybackState)

  const DecodeFailedPrefix: string := "Base64 解码失败: "
  const ReporterDisabledMessage: string := "上报功能未启用"

  /** The metadata names a track id, carries artwork and its type, and the
      id has not been sent before. */
  predicate WantsUpload(m: MediaMetadata, uploaded: set<string>)
  {
    m.contentItemIdentifier.Some? && m.artworkData.Some? && m.artworkMimeType.Some?
    && m.contentItemIdentifier.value !in uploaded
  }

  /** The cover step sends the metadata's artwork: it is wanted, a reporter
      exists, and the artwork decodes. */
  predicate SendsCover(m: MediaMetadata, uploaded: set<string>, reporter: Option<Reporter>)
  {
    WantsUpload(m, uploaded) && reporter.Some? && Base64.Decode(m.artworkData.value).Some?
  }

  /** The upload call the cover step makes. */
  function CoverUpload(m: MediaMetadata, uploaded: set<string>, reporter: Option<Reporter>): (c: ReporterCall)
    requires SendsCover(m, uploaded, reporter)
    ensures c.UploadArtwork? && c.contentId == m.contentItemIdentifier.value && c.contentId !in uploaded
  {
    UploadArtwork(reporter.value.instance, m.contentItemIdentifier.value,
                  Base64.Decode(m.artworkData.value).value, m.artworkMimeType.value)
  }

  /** The reporter slot and the sent-cover set managed by the app. */
  class AppState {
    var reporter: Option<Reporter>
    var uploadedArtworks: set<string>
    /** Instances created so far; a new reporter gets the next number. */
    var instances: nat
    ghost var calls: seq<ReporterCall>

    /** Every reporter instance was created by this state. */
    ghost predicate Valid()
      reads this
    {
      reporter.Some? ==> reporter.value.instance < instances
    }

    /** `run`'s setup: a reporter is created at start-up exactly when the
        stored configuration enables it. */
    constructor (stored: ReporterConfig)
      ensures Valid()
      ensures reporter.Some? <==> stored.enabled
      ensures reporter.Some? ==> reporter.value.config == stored
      ensures uploadedArtworks == {} && calls == []
    {
      if stored.enabled {
        reporter := Some(Reporter(0, stored));
        instances := 1;
      } else {
        reporter := None;
        instances := 0;
      }
      uploadedArtworks := {};
      calls := [];
    }

    /** `update_reporter_config`: a failed save changes nothing; an enabled
        config updates the running reporter in place or starts one; a
        disabled config drops the reporter. */
    method UpdateReporterConfig(config: ReporterConfig, saved: Result<(), string>) returns (r: Result<(), string>)
      requires Valid()
      modifies this`reporter, this`instances
      ensures Valid()
      ensures r.Err? <==> saved.Err?
      ensures saved.Err? ==> r == saved && reporter == old(reporter) && instances == old(instances)
      ensures saved.Ok? && config.enabled && old(reporter).Some? ==>
        reporter == Some(old(reporter).value.(config := config)) && instances == old(instances)
      ensures saved.Ok? && config.enabled && old(reporter).None? ==>
        reporter == Some(Reporter(old(instances), config)) && instances == old(instances) + 1
      ensures saved.Ok? && !config.enabled ==> reporter.None? && instances == old(instances)
    {
      if saved.Err? {
        return saved;
      }
      if config.enabled {
        if reporter.Some? {
          reporter := Some(reporter.value.(config := config));
        } else {
          reporter := Some(Reporter(instances, config));
          instances := instances + 1;
        }
      } else {
        reporter := None;
      }
      r := Ok(());
    }

    /** `get_reporter_status`: whether a reporter exists. */
    method GetReporterStatus() returns (running: bool)
      ensures running <==> reporter.Some?
    {
      running := reporter.Some?;
    }

    /** `upload_media_artwork`: the artwork is decoded first, so invalid
        base64 fails whether or not a reporter exists; without a reporter
        the call fails after decoding; otherwise the cover is handed to
        the reporter. */
    method UploadMediaArtwork(contentId: string, artworkBase64: string, mimeType: string)
      returns (r: Result<(), string>)
      modifies this`calls
      ensures Base64.Decode(artworkBase64).None? ==> r.Err? && calls == old(calls)
      ensures Base64.Decode(artworkBase64).Some? && reporter.None? ==>
        r == Err(ReporterDisabledMessage) && calls == old(calls)
      ensures r.Ok? <==> Base64.Decode(artworkBase64).Some? && reporter.Some?
      ensures r.Ok? ==>
        calls == old(calls) + [UploadArtwork(reporter.value.instance, contentId, Base64.Decode(artworkBase64).value, mimeType)]
    {
      var decoded := Base64.Decode(artworkBase64);
      if decoded.None? {
        return Err(DecodeFailedPrefix);
      }
      if reporter.None? {
        return Err(ReporterDisabledMessage);
      }
      calls := calls + [UploadArtwork(reporter.value.instance, contentId, decoded.value, mimeType)];
      r := Ok(());
    }

    /** The cover step of `get_playback_state_cmd`: a cover not sent before
        is decoded and handed to the reporter, and only then is its id
        recorded. */
    method UploadNewArtwork(m: MediaMetadata)
      modifies this`calls, this`uploadedArtworks
      ensures SendsCover(m, old(uploadedArtworks), reporter) ==>
        uploadedArtworks == old(uploadedArtworks) + {m.contentItemIdentifier.value}
        && calls == old(calls) + [CoverUpload(m, old(uploadedArtworks), reporter)]
      ensures !SendsCover(m, old(uploadedArtworks), reporter) ==>
        uploadedArtworks == old(uploadedArtworks) && calls == old(calls)
    {
      if m.contentItemIdentifier.Some? && m.artworkData.Some? && m.artworkMimeType.Some? {
        var contentId := m.contentItemIdentifier.value;
        var shouldUpload := contentId !in uploadedArtworks;
        if shouldUpload && reporter.Some? {
          match Base64.Decode(m.artworkData.value) {
            case Some(bytes) =>
              calls := calls + [UploadArtwork(reporter.value.instance, contentId, bytes, m.artworkMimeType.value)];
              uploadedArtworks := uploadedArtworks + {contentId};
            case None =>
          }
        }
      }
    }

    /** `get_playback_state_cmd`: the platform's state is returned as read;
        while something plays and metadata is available, a new cover is
        sent once and the playback is reported. */
    method GetPlaybackStateCmd(state: Result<Option<PlaybackState>, string>,
                               metadata: Result<Option<MediaMetadata>, string>)
      returns (r: Result<Option<PlaybackState>, string>)
      modifies this`calls, this`uploadedArtworks
      ensures r == state
      ensures old(uploadedArtworks) <= uploadedArtworks
      ensures uploadedArtworks != old(uploadedArtworks) <==>
        state.Ok? && state.value.Some? && state.value.value.playing && metadata.Ok? && metadata.value.Some?
        && SendsCover(metadata.value.value, old(uploadedArtworks), reporter)
      ensures !(state.Ok? && state.value.Some? && state.value.value.playing && metadata.Ok? && metadata.value.Some?) ==>
        calls == old(calls) && uploadedArtworks == old(uploadedArtworks)
      ensures state.Ok? && state.value.Some? && state.value.value.playing && metadata.Ok? && metadata.value.Some? ==>
        var m, sent := metadata.value.value, SendsCover(metadata.value.value, old(uploadedArtworks), reporter);
        && uploadedArtworks == old(uploadedArtworks) + (if sent then {m.contentItemIdentifier.value} else {})
        && calls == old(calls) + (if sent then [CoverUpload(m, old(uploadedArtworks), reporter)] else [])
                    + (if reporter.Some? then [SendMediaPlayback(reporter.value.instance, m, state.value.value)] else [])
    {
      if state.Err? {
        return state;
      }
      if state.value.Some? && state.value.value.playing && metadata.Ok? && metadata.value.Some? {
        var m := metadata.value.value;
        UploadNewArtwork(m);
        if reporter.Some? {
          calls := calls + [SendMediaPlayback(reporter.value.instance, m, state.value.value)];
        }
      }
      r := state;
    }
  }
}
