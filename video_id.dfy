/** `getYouTubeVideoId` in content.js, with the page URL as a parameter. Each
    of its three regular expressions is modelled as a predicate saying where
    a match may begin, a leftmost search (the first match `String.match`
    reports), and the captured group. */
module VideoId {
  import opened Wrappers
  import opened Strings

  /** The three patterns, in the order they are tried:
      `[?&]v=([^&#]+)`, `youtu\.be\/([\w-]{11})` and `embed\/([\w-]{11})`. */
  datatype Pattern = WatchParam | ShortLink | Embed

  const ShortLinkText: string := "youtu.be/"
  const EmbedText: string := "embed/"
  /** Length of the fixed-size IDs of the second and third patterns. */
  const IdLength: nat := 11

  /** `[\w-]`: an ASCII letter or digit, `_` or `-`. */
  predicate IdChar(c: char)
  {
    'a' <= c <= 'z' || 'A' <= c <= 'Z' || '0' <= c <= '9' || c == '_' || c == '-'
  }

  /** The end of the run of characters other than `&` and `#` that begins at
      `i` (the greedy `[^&#]+`). */
  function RunEnd(s: string, i: nat): (e: nat)
    requires i <= |s|
    decreases |s| - i
    ensures i <= e <= |s|
    ensures forall j :: i <= j < e ==> s[j] != '&' && s[j] != '#'
    ensures e == |s| || s[e] == '&' || s[e] == '#'
  {
    if i == |s| || s[i] == '&' || s[i] == '#' then i else RunEnd(s, i + 1)
  }

  /** `literal` occurs at `p` and is followed by 11 ID characters. */
  predicate FixedIdAt(url: string, p: nat, literal: string)
  {
    OccursAt(url, literal, p) && p + |literal| + IdLength <= |url| &&
    forall j :: p + |literal| <= j < p + |literal| + IdLength ==> IdChar(url[j])
  }

  /** A match of `pat` begins at `p`. */
  predicate MatchAt(pat: Pattern, url: string, p: nat)
    ensures MatchAt(pat, url, p) ==> p + 3 < |url|
    ensures MatchAt(pat, url, p) && pat == WatchParam ==>
      OccursAt(url, "?v=", p) || OccursAt(url, "&v=", p)
    ensures MatchAt(pat, url, p) && pat == ShortLink ==> OccursAt(url, ShortLinkText, p)
    ensures MatchAt(pat, url, p) && pat == Embed ==> OccursAt(url, EmbedText, p)
  {
    match pat
    case WatchParam =>
      p + 3 < |url| && (url[p] == '?' || url[p] == '&') && url[p + 1] == 'v' && url[p + 2] == '=' &&
      url[p + 3] != '&' && url[p + 3] != '#'
    case ShortLink => FixedIdAt(url, p, ShortLinkText)
    case Embed => FixedIdAt(url, p, EmbedText)
  }

  /** The first position at or after `p` where a match of `pat` begins. */
  function Leftmost(pat: Pattern, url: string, p: nat): (r: Option<nat>)
    requires p <= |url|
    decreases |url| - p
    ensures r.Some? ==> p <= r.value < |url| && MatchAt(pat, url, r.value)
    ensures r.Some? ==> forall q :: p <= q < r.value ==> !MatchAt(pat, url, q)
    ensures r.None? ==> forall q :: p <= q < |url| ==> !MatchAt(pat, url, q)
  {
    if p == |url| then None
    else if MatchAt(pat, url, p) then Some(p)
    else Leftmost(pat, url, p + 1)
  }

  /** The first capture group of the match that begins at `p`. */
  function Capture(pat: Pattern, url: string, p: nat): (id: string)
    requires MatchAt(pat, url, p)
    ensures |id| > 0
    ensures pat == WatchParam ==> forall j :: 0 <= j < |id| ==> id[j] != '&' && id[j] != '#'
    ensures pat == WatchParam ==> p + 3 + |id| <= |url| && id == url[p + 3..p + 3 + |id|]
    ensures pat == WatchParam && p + 3 + |id| < |url| ==> url[p + 3 + |id|] == '&' || url[p + 3 + |id|] == '#'
    ensures pat != WatchParam ==> |id| == IdLength && forall j :: 0 <= j < |id| ==> IdChar(id[j])
  {
    match pat
    case WatchParam => url[p + 3..RunEnd(url, p + 3)]
    case ShortLink => url[p + |ShortLinkText|..p + |ShortLinkText| + IdLength]
    case Embed => url[p + |EmbedText|..p + |EmbedText| + IdLength]
  }

  /** The ID captured by the first pattern that matches anywhere, or None
      (`null`) when none does. */
  function GetYouTubeVideoId(url: string): (id: Option<string>)
    ensures id.Some? ==> |id.value| > 0
    ensures id.None? <==> forall q :: 0 <= q < |url| ==>
      !MatchAt(WatchParam, url, q) && !MatchAt(ShortLink, url, q) && !MatchAt(Embed, url, q)
  {
    match Leftmost(WatchParam, url, 0)
    case Some(p) => Some(Capture(WatchParam, url, p))
    case None =>
      match Leftmost(ShortLink, url, 0)
      case Some(p) => Some(Capture(ShortLink, url, p))
      case None =>
        match Leftmost(Embed, url, 0)
        case Some(p) => Some(Capture(Embed, url, p))
        case None => None
  }
}

/** What the extraction yields for each kind of link. */
module VideoIdProperties {
  import opened Wrappers
  import opened Strings
  import opened VideoId

  /** The leftmost search finds the first match when there is one. */
  lemma LeftmostIs(pat: Pattern, url: string, p: nat)
    requires p < |url| && MatchAt(pat, url, p)
    requires forall q :: 0 <= q < p ==> !MatchAt(pat, url, q)
    ensures Leftmost(pat, url, 0) == Some(p)
  {
  }

  /** With a `?v=` or `&v=` parameter at `p` and none earlier, the ID is the
      non-empty run after `v=` that stops at the first `&` or `#` or at the
      end, whatever else the URL contains. */
  lemma WatchParamId(url: string, p: nat)
    requires p < |url| && MatchAt(WatchParam, url, p)
    requires forall q :: 0 <= q < p ==> !MatchAt(WatchParam, url, q)
    ensures GetYouTubeVideoId(url).Some?
    ensures var id := GetYouTubeVideoId(url).value;
      |id| > 0 && p + 3 + |id| <= |url| && id == url[p + 3..p + 3 + |id|] &&
      '&' !in id && '#' !in id &&
      (p + 3 + |id| == |url| || url[p + 3 + |id|] == '&' || url[p + 3 + |id|] == '#')
  {
    LeftmostIs(WatchParam, url, p);
  }

  /** Without any `v=` parameter, the first `youtu.be/` followed by 11 ID
      characters gives those 11 characters. */
  lemma ShortLinkId(url: string, p: nat)
    requires p < |url| && MatchAt(ShortLink, url, p)
    requires forall q :: 0 <= q < p ==> !MatchAt(ShortLink, url, q)
    requires forall q :: 0 <= q < |url| ==> !MatchAt(WatchParam, url, q)
    ensures GetYouTubeVideoId(url) == Some(url[p + 9..p + 20])
    ensures forall c :: c in GetYouTubeVideoId(url).value ==> IdChar(c)
  {
    LeftmostIs(ShortLink, url, p);
  }

  /** Without a `v=` parameter or a short link, the first `embed/` followed
      by 11 ID characters gives those 11 characters. */
  lemma EmbedId(url: string, p: nat)
    requires p < |url| && MatchAt(Embed, url, p)
    requires forall q :: 0 <= q < p ==> !MatchAt(Embed, url, q)
    requires forall q :: 0 <= q < |url| ==> !MatchAt(WatchParam, url, q) && !MatchAt(ShortLink, url, q)
    ensures GetYouTubeVideoId(url) == Some(url[p + 6..p + 17])
    ensures forall c :: c in GetYouTubeVideoId(url).value ==> IdChar(c)
  {
    LeftmostIs(Embed, url, p);
  }

  /** A run of non-`&`, non-`#` characters that ends at a boundary is the
      greedy run. */
  lemma RunIs(url: string, start: nat, id: string)
    requires start + |id| <= |url| && url[start..start + |id|] == id
    requires '&' !in id && '#' !in id
    requires start + |id| == |url| || url[start + |id|] == '&' || url[start + |id|] == '#'
    ensures RunEnd(url, start) == start + |id|
  {
  }

  /** A watch URL whose path before the query holds no `?` or `&` yields
      the `v` value, up to the next `&` or `#`. */
  lemma WatchUrlRoundTrip(page: string, id: string, rest: string)
    requires '?' !in page && '&' !in page
    requires |id| > 0 && '&' !in id && '#' !in id
    requires rest == [] || rest[0] == '&' || rest[0] == '#'
    ensures GetYouTubeVideoId(page + "?v=" + id + rest) == Some(id)
  {
    var url := page + "?v=" + id + rest;
    var p := |page|;
    assert url[p..p + 3] == "?v=" && url[p + 3..p + 3 + |id|] == id;
    assert MatchAt(WatchParam, url, p);
    forall q | 0 <= q < p
      ensures !MatchAt(WatchParam, url, q)
    {
      assert url[q] == page[q];
    }
    LeftmostIs(WatchParam, url, p);
    RunIs(url, p + 3, id);
  }

  /** A watch-parameter match in `rest` is one in any URL that ends with it,
      and the other way round. */
  lemma ParamInSuffix(front: string, rest: string, q: nat)
    requires q < |rest|
    ensures MatchAt(WatchParam, front + rest, |front| + q) <==> MatchAt(WatchParam, rest, q)
  {
  }

  /** A short link whose page part holds no `?`, `&` or `y`, followed by an
      11-character ID and a tail without a `v=` parameter, yields that ID. */
  lemma ShortUrlRoundTrip(page: string, id: string, rest: string)
    requires '?' !in page && '&' !in page && 'y' !in page
    requires |id| == IdLength && forall j :: 0 <= j < |id| ==> IdChar(id[j])
    requires forall q :: 0 <= q < |rest| ==> !MatchAt(WatchParam, rest, q)
    ensures GetYouTubeVideoId(page + ShortLinkText + id + rest) == Some(id)
  {
    var front := page + ShortLinkText + id;
    var url := front + rest;
    var p := |page|;
    assert url[p..p + 9] == ShortLinkText && url[p + 9..p + 20] == id;
    assert MatchAt(ShortLink, url, p);
    forall q | 0 <= q < |url|
      ensures !MatchAt(WatchParam, url, q)
    {
      if q < p {
        assert url[q] == page[q];
      } else if q < |front| {
        assert q < p + 9 ==> url[q] == ShortLinkText[q - p];
        assert p + 9 <= q ==> url[q] == id[q - p - 9];
      } else {
        ParamInSuffix(front, rest, q - |front|);
      }
    }
    forall q | 0 <= q < p
      ensures !MatchAt(ShortLink, url, q)
    {
      assert url[q] == page[q];
    }
    LeftmostIs(ShortLink, url, p);
  }
}
