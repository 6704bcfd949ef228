/** `get_video_id` in process_captions.py: the video ID is cut out of a watch
    link or a short link with Python's `in` and `str.split`, and anything else
    is taken to be a video ID already. */
module ProcessCaptions {
  import opened Wrappers
  import opened Strings

  const WatchLink := "youtube.com/watch?v="
  const WatchMarker := "watch?v="
  const ShortLink := "youtu.be/"

  lemma WatchLinkHasMarker(url: string)
    requires Contains(url, WatchLink)
    ensures Contains(url, WatchMarker)
  {
    var i :| 0 <= i <= |url| - |WatchLink| && OccursAt(url, WatchLink, i);
    assert url[i + 12..i + 20] == url[i..i + 20][12..20];
    assert OccursAt(url, WatchMarker, i + 12);
  }

  /** The ID in a watch link is the text between the first and the second
      `watch?v=`, cut at the first `&`; in a short link it is the text between
      the first and the second `youtu.be/`, cut at the first `?`. */
  function GetVideoId(url: string): (id: string)
    ensures !Contains(url, WatchLink) && !Contains(url, ShortLink) ==> id == url
  {
    if Contains(url, WatchLink) then
      WatchLinkHasMarker(url);
      Split(Split(url, WatchMarker)[1], "&")[0]
    else if Contains(url, ShortLink) then
      Split(Split(url, ShortLink)[1], "?")[0]
    else
      url
  }

  /** `id` is the field that follows the first occurrence of `marker` in
      `url`: it starts right after that occurrence, contains neither `stop`
      nor `marker`, and is followed by `stop`, by another `marker`, or by the
      end of `url`. */
  predicate FieldAfter(url: string, marker: string, stop: char, id: string)
  {
    match Find(url, marker)
    case None => false
    case Some(i) =>
      var tail := url[i + |marker|..];
      id <= tail && stop !in id && !Contains(id, marker) &&
      (|id| == |tail| || tail[|id|] == stop || OccursAt(tail, marker, |id|))
  }

  /** Cutting `tail` at the first `marker` and then at the first `stop`
      leaves a prefix of `tail` with neither in it, ended by `stop`, by
      `marker`, or by the end of `tail`. */
  lemma CutTwice(tail: string, marker: string, stop: char)
    requires |marker| > 0
    ensures var id := Split(Split(tail, marker)[0], [stop])[0];
      id <= tail && stop !in id && !Contains(id, marker) &&
      (|id| == |tail| || tail[|id|] == stop || OccursAt(tail, marker, |id|))
  {
    var piece := Split(tail, marker)[0];
    SplitHead(tail, marker);
    var id := Split(piece, [stop])[0];
    SplitHead(piece, [stop]);
    CharContains(id, stop);
    if Contains(id, marker) {
      ContainsInPrefix(id, piece, marker);
    }
    if |id| < |piece| {
      assert piece[|id|..|id| + 1] == [stop];
      assert tail[|id|] == piece[|id|];
    }
  }

  /** Splitting at the marker, taking piece 1, splitting that at `stop` and
      taking piece 0 yields the field after the first marker. */
  lemma SplitField(url: string, marker: string, stop: char)
    requires |marker| > 0 && Contains(url, marker)
    ensures |Split(url, marker)| >= 2
    ensures FieldAfter(url, marker, stop, Split(Split(url, marker)[1], [stop])[0])
  {
    SplitSecond(url, marker);
    CutTwice(url[Find(url, marker).value + |marker|..], marker, stop);
  }

  /** For a watch link, whether or not it also contains `youtu.be/`, the ID
      is the field after the first `watch?v=`, ended by `&`. */
  lemma WatchLinkId(url: string)
    requires Contains(url, WatchLink)
    ensures FieldAfter(url, WatchMarker, '&', GetVideoId(url))
    ensures '&' !in GetVideoId(url)
  {
    WatchLinkHasMarker(url);
    SplitField(url, WatchMarker, '&');
  }

  /** For a short link that is not a watch link, the ID is the field after
      the first `youtu.be/`, ended by `?`. */
  lemma ShortLinkId(url: string)
    requires !Contains(url, WatchLink) && Contains(url, ShortLink)
    ensures FieldAfter(url, ShortLink, '?', GetVideoId(url))
    ensures '?' !in GetVideoId(url)
  {
    SplitField(url, ShortLink, '?');
  }

  /** A field candidate that ends where a field must end leaves no room for a
      longer one, provided `stop` is not part of the marker and the marker's
      first character does not recur in it. */
  lemma FieldNotLonger(tail: string, marker: string, stop: char, a: string, b: string)
    requires |marker| > 0 && stop !in marker && marker[0] !in marker[1..]
    requires a <= tail && b <= tail
    requires |a| == |tail| || tail[|a|] == stop || OccursAt(tail, marker, |a|)
    requires stop !in b && !Contains(b, marker)
    requires |b| == |tail| || tail[|b|] == stop || OccursAt(tail, marker, |b|)
    ensures |b| <= |a|
  {
    assert |a| < |b| ==> b[|a|] == tail[|a|];
    assert |a| + |marker| <= |b| ==> b[|a|..|a| + |marker|] == tail[|a|..|a| + |marker|];
    assert |a| + |marker| <= |b| && OccursAt(tail, marker, |a|) ==> OccursAt(b, marker, |a|);

  }

  /** The field after a marker is unique. */
  lemma FieldAfterUnique(url: string, marker: string, stop: char, a: string, b: string)
    requires |marker| > 0 && stop !in marker && marker[0] !in marker[1..]
    requires FieldAfter(url, marker, stop, a) && FieldAfter(url, marker, stop, b)
    ensures a == b
  {
    var i := Find(url, marker).value;
    var tail := url[i + |marker|..];
    FieldNotLonger(tail, marker, stop, a, b);
    FieldNotLonger(tail, marker, stop, b, a);
  }

  /** No occurrence of a marker that contains `c` fits in a string without
      `c`. */
  lemma MissingCharBlocks(s: string, marker: string, k: nat)
    requires k < |marker| && marker[k] !in s
    ensures !Contains(s, marker)
  {
  }

  /** In a watch link whose host part has no `?`, the first `watch?v=` is
      the one inside `youtube.com/watch?v=`. */
  lemma FirstWatchMarker(host: string, rest: string)
    requires '?' !in host
    ensures Contains(host + WatchLink + rest, WatchLink)
    ensures Find(host + WatchLink + rest, WatchMarker) == Some(|host| + 12)
  {
    var url := host + WatchLink + rest;
    var p := |host| + 12;
    assert url[|host|..|host| + 20] == WatchLink;
    assert OccursAt(url, WatchLink, |host|);
    assert url[p..p + 8] == WatchMarker;
    assert WatchLink[..17] == "youtube.com/watch";
    forall k | 0 <= k < p + 5 ensures url[k] != '?' {
      if k < |host| {
        assert url[k] == host[k];
      } else {
        assert url[k] == WatchLink[..17][k - |host|];
      }
    }
    forall j | 0 <= j < p ensures !OccursAt(url, WatchMarker, j) {
      if j + 8 <= |url| {
        assert url[j..j + 8][5] == url[j + 5];
        assert WatchMarker[5] == '?';
      }
    }
    FindIs(url, WatchMarker, p);
  }

  /** In a short link whose host part has no `y`, the first `youtu.be/` is
      the one after the host part. */
  lemma FirstShortLink(host: string, rest: string)
    requires 'y' !in host
    ensures Find(host + ShortLink + rest, ShortLink) == Some(|host|)
  {
    var url := host + ShortLink + rest;
    var p := |host|;
    assert url[p..p + 9] == ShortLink;
    forall j | 0 <= j < p ensures url[j] != 'y' {
      assert url[j] == host[j];
    }
    forall j | 0 <= j < p ensures !OccursAt(url, ShortLink, j) {
      if j + 9 <= |url| {
        assert url[j..j + 9][0] == url[j];
      }
    }
    FindIs(url, ShortLink, p);
  }

  /** An ID placed right after the first marker, and followed by nothing or
      by `stop`, is the field after that marker. */
  lemma PlacedField(url: string, marker: string, stop: char, id: string, query: string)
    requires Find(url, marker).Some?
    requires url[Find(url, marker).value + |marker|..] == id + query
    requires stop !in id && !Contains(id, marker)
    requires query == [] || query[0] == stop
    ensures FieldAfter(url, marker, stop, id)
  {
  }

  /** A watch link's ID is the field after its first `watch?v=`. */
  lemma WatchIdIs(url: string, id: string)
    requires Contains(url, WatchLink) && FieldAfter(url, WatchMarker, '&', id)
    ensures GetVideoId(url) == id
  {
    WatchLinkId(url);
    FieldAfterUnique(url, WatchMarker, '&', id, GetVideoId(url));
  }

  /** A short link's ID is the field after its first `youtu.be/`. */
  lemma ShortIdIs(url: string, id: string)
    requires !Contains(url, WatchLink) && Contains(url, ShortLink) && FieldAfter(url, ShortLink, '?', id)
    ensures GetVideoId(url) == id
  {
    ShortLinkId(url);
    FieldAfterUnique(url, ShortLink, '?', id, GetVideoId(url));
  }

  /** Building a watch link around an ID and extracting the ID gives it
      back, for IDs without `&` or `?` and a query that is absent or starts
      with `&`. */
  lemma WatchLinkRoundTrip(host: string, id: string, query: string)
    requires '?' !in host && '&' !in id && '?' !in id
    requires query == [] || query[0] == '&'
    ensures GetVideoId(host + WatchLink + id + query) == id
  {
    var url := host + WatchLink + id + query;
    assert url == host + WatchLink + (id + query);
    FirstWatchMarker(host, id + query);
    assert url[|host| + 20..] == id + query;
    MissingCharBlocks(id, WatchMarker, 5);
    PlacedField(url, WatchMarker, '&', id, query);
    WatchIdIs(url, id);
  }

  /** Building a short link around an ID and extracting the ID gives it
      back, for IDs without `?` or `/`, a query that is absent or starts with
      `?`, and a link that is not also a watch link. */
  lemma ShortLinkRoundTrip(host: string, id: string, query: string)
    requires 'y' !in host && '?' !in id && '/' !in id
    requires query == [] || query[0] == '?'
    requires !Contains(host + ShortLink + id + query, WatchLink)
    ensures GetVideoId(host + ShortLink + id + query) == id
  {
    var url := host + ShortLink + id + query;
    assert url == host + ShortLink + (id + query);
    FirstShortLink(host, id + query);
    assert url[|host| + 9..] == id + query;
    MissingCharBlocks(id, ShortLink, 8);
    PlacedField(url, ShortLink, '?', id, query);
    ShortIdIs(url, id);
  }
}
