/** The browser extension (content.js) and the caption script
    (process_captions.py) extract video IDs independently; on an ordinary
    watch URL they agree. */
module LinkAgreement {
  import opened Wrappers
  import ProcessCaptions
  import VideoId
  import VideoIdProperties

  /** A watch URL is its page path, `?v=`, the ID and the query. */
  lemma WatchUrlParts(host: string, id: string, query: string)
    requires '?' !in host && '&' !in host
    ensures var page := host + "youtube.com/watch";
      '?' !in page && '&' !in page &&
      host + ProcessCaptions.WatchLink + id + query == page + "?v=" + id + query
  {
  }

  /** For `host` + `youtube.com/watch?v=` + ID + an optional `&...` query,
      with no `?` or `&` in the host and no `?`, `&` or `#` in the ID, both
      extractors return the ID. */
  lemma WatchLinksAgree(host: string, id: string, query: string)
    requires '?' !in host && '&' !in host
    requires |id| > 0 && '&' !in id && '#' !in id && '?' !in id
    requires query == [] || query[0] == '&'
    ensures var url := host + ProcessCaptions.WatchLink + id + query;
      ProcessCaptions.GetVideoId(url) == id && VideoId.GetYouTubeVideoId(url) == Some(id)
  {
    ProcessCaptions.WatchLinkRoundTrip(host, id, query);
    WatchUrlParts(host, id, query);
    VideoIdProperties.WatchUrlRoundTrip(host + "youtube.com/watch", id, query);
  }
}
