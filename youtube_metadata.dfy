/** `YouTubeMetadataExtractor`: a yt-dlp info dictionary mapped onto the
    paper metadata schema. The yt-dlp call is an input (`VideoFetch`). */
module YouTubeMetadata {
  import opened Py
  import PaperMetadata

  const YoutubeBaseWatchUrl: string := "https://www.youtube.com/watch?v="

  /** `self.video_url`, set by `__init__`. */
  function VideoUrl(videoId: string): (r: string)
    ensures |r| == |YoutubeBaseWatchUrl| + |videoId|
    ensures r[..|YoutubeBaseWatchUrl|] == YoutubeBaseWatchUrl && r[|YoutubeBaseWatchUrl|..] == videoId
  {
    YoutubeBaseWatchUrl + videoId
  }

  /** What `ydl.extract_info` did: raised, or returned a value. */
  datatype VideoFetch = FetchRaised | FetchReturned(info: Value)

  /** The keys of `video_info`: the paper schema plus three video keys. */
  const VideoKeys: set<string> := PaperMetadata.HfKeys + {"view_count", "duration", "source_type"}

  /** The dictionary literal of lines 72-93: the paper schema's sixteen keys, then three video keys. */
  function VideoInfo(paperShaped: map<string, Value>, viewCount: Value, duration: Value): (r: map<string, Value>)
    requires paperShaped.Keys == PaperMetadata.HfKeys
    ensures r.Keys == VideoKeys
    ensures forall k :: k in PaperMetadata.HfKeys ==> r[k] == paperShaped[k]
    ensures r["view_count"] == viewCount && r["duration"] == duration && r["source_type"] == Str("youtube")
  {
    paperShaped["view_count" := viewCount]["duration" := duration]["source_type" := Str("youtube")]
  }

  /** Lines 56-93 on a non-empty info dictionary. */
  function MapInfo(videoId: string, info: map<string, Value>): (r: map<string, Value>)
    ensures r.Keys == VideoKeys
    ensures r["id"] == Str(videoId) && r["title"] == Get(info, "title", Null)
    ensures r["publishedAt"] == Get(info, "upload_date", Null) && r["submittedOnDailyAt"] == Get(info, "upload_date", Null)
    ensures r["hf_paper_url"] == Str(VideoUrl(videoId)) && r["arxiv_pdf_url"] == Str(VideoUrl(videoId))
    ensures r["github_repo"] == Null && r["upvotes"] == Get(info, "like_count", Int(0))
    ensures r["authors_names"] == ChannelName(info) && r["submitter_fullname"] == ChannelName(info)
    ensures r["ai_summary"] == Null && r["ai_keywords"] == Get(info, "tags", List([]))
    ensures r["summary"] == Get(info, "description", Str(""))
    ensures r["submitter_username"] == Get(info, "uploader_id", Null) && r["submitter_isPro"] == Bool(false)
    ensures r["submitter_followerCount"] == Get(info, "channel_follower_count", Int(0))
    ensures r["view_count"] == Get(info, "view_count", Int(0)) && r["duration"] == Get(info, "duration", Null)
    ensures r["source_type"] == Str("youtube")
  {
    var channelName := ChannelName(info);
    var uploadDate := Get(info, "upload_date", Null);
    var paperShaped := PaperMetadata.HfInfo(
      Str(videoId), Get(info, "title", Null), uploadDate, uploadDate,
      Str(VideoUrl(videoId)), Str(VideoUrl(videoId)), Null, Get(info, "like_count", Int(0)),
      channelName, Null, Get(info, "tags", List([])), Get(info, "description", Str("")),
      channelName, Get(info, "uploader_id", Null), Bool(false), Get(info, "channel_follower_count", Int(0)));
    VideoInfo(paperShaped, Get(info, "view_count", Int(0)), Get(info, "duration", Null))
  }

  /** `uploader or channel or "Unknown Channel"`. */
  function ChannelName(info: map<string, Value>): (r: Value)
    ensures Truthy(r)
    ensures Truthy(Get(info, "uploader", Null)) ==> r == Get(info, "uploader", Null)
    ensures !Truthy(Get(info, "uploader", Null)) && Truthy(Get(info, "channel", Null)) ==> r == Get(info, "channel", Null)
    ensures !Truthy(Get(info, "uploader", Null)) && !Truthy(Get(info, "channel", Null)) ==> r == Str("Unknown Channel")
  {
    Or(Or(Get(info, "uploader", Null), Get(info, "channel", Null)), Str("Unknown Channel"))
  }

  /** `extract_metadata()`: Ok(None) is None; a truthy non-dictionary `info`
      fails on `.get`, outside the `try`. */
  function ExtractMetadata(videoId: string, fetch: VideoFetch): (r: Result<Option<map<string, Value>>>)
    ensures fetch.FetchRaised? ==> r == Ok(None)
    ensures fetch.FetchReturned? && !Truthy(fetch.info) ==> r == Ok(None)
    ensures fetch.FetchReturned? && Truthy(fetch.info) && !fetch.info.Dict? ==> r == Raise(AttributeError)
    ensures r.Ok? && r.value.Some? ==> fetch.FetchReturned? && fetch.info.Dict? && fetch.info.entries != map[]
  {
    match fetch
    case FetchRaised => Ok(None)
    case FetchReturned(info) =>
      if !Truthy(info) then Ok(None)
      else if !info.Dict? then Raise(AttributeError)
      else Ok(Some(MapInfo(videoId, info.entries)))
  }

  /** A non-empty info dictionary gives the mapped record: the channel heads both author
      fields, both URLs are the watch URL, both dates are the upload date. */
  lemma VideoMapping(videoId: string, info: map<string, Value>)
    requires info != map[]
    ensures var r := ExtractMetadata(videoId, FetchReturned(Dict(info)));
      r.Ok? && r.value.Some? &&
      var md := r.value.value;
      md.Keys == VideoKeys &&
      md["authors_names"] == md["submitter_fullname"] && Truthy(md["authors_names"]) &&
      md["hf_paper_url"] == md["arxiv_pdf_url"] == Str(YoutubeBaseWatchUrl + videoId) &&
      md["publishedAt"] == md["submittedOnDailyAt"] &&
      md["source_type"] == Str("youtube") && md["github_repo"] == Null && md["submitter_isPro"] == Bool(false)
  {
  }

  /** The video record carries every key of the Hugging Face record, and exactly three more. */
  lemma VideoKeysExtendPaperKeys()
    ensures PaperMetadata.HfKeys <= VideoKeys
    ensures VideoKeys - PaperMetadata.HfKeys == {"view_count", "duration", "source_type"}
  {
  }

  /** Without tags or description the keywords are `[]` and the summary is `""`. */
  lemma VideoDefaults(videoId: string, info: map<string, Value>)
    requires info != map[] && "tags" !in info && "description" !in info && "like_count" !in info
    ensures var md := ExtractMetadata(videoId, FetchReturned(Dict(info))).value.value;
      md["ai_keywords"] == List([]) && md["summary"] == Str("") && md["upvotes"] == Int(0)
  {
  }
}
