/** Video-identifier extraction from a YouTube page URL (the first step of
    `get_youtube_transcript`). */
module VideoIds {
  import opened Results
  import opened Text

  /** The message of the `ValueError` raised for an unrecognised URL. */
  const InvalidUrlMessage := "Invalid YouTube URL format"

  lemma WatchMarkerHasV(url: string)
    requires Contains(url, "watch?v=")
    ensures Contains(url, "v=")
  {
    var k := Find(url, "watch?v=").value;
    assert url[k + 6..k + 8] == url[k..k + 8][6..8];
    ContainsAt(url, "v=", k + 6);
  }

  /** A watch URL takes the text between the first `v=` and the next `v=`,
      cut at the first `&`; a short link takes the last `/`-segment, cut at
      the first `?`; anything else is an error. The identifier itself is not
      validated. The ensures pin the identifier down: it is the prefix that
      ends at the first `&` or `v=` after the first `v=` (or at the end),
      respectively at the first `?` of the last segment (or at its end). */
  function ExtractVideoId(url: string): (r: Result<string, string>)
    ensures r.Failure? <==> !Contains(url, "watch?v=") && !Contains(url, "youtu.be/")
    ensures r.Failure? ==> r.error == InvalidUrlMessage
    ensures Contains(url, "watch?v=") ==> Contains(url, "v=")
    ensures r.Success? && Contains(url, "watch?v=") ==>
              && r.value <= url[Find(url, "v=").value + 2..]
              && !Contains(r.value, "&") && !Contains(r.value, "v=")
              && var after := url[Find(url, "v=").value + 2..];
                 (|r.value| == |after| || OccursAt(after, "&", |r.value|) || OccursAt(after, "v=", |r.value|))
    ensures r.Success? && !Contains(url, "watch?v=") ==>
              && r.value <= Last(Split(url, "/"))
              && !Contains(r.value, "/") && !Contains(r.value, "?")
              && var segment := Last(Split(url, "/"));
                 (|r.value| == |segment| || segment[|r.value|] == '?')
  {
    if Contains(url, "watch?v=") then
      WatchMarkerHasV(url);
      var k := Find(url, "v=").value;
      SplitSecond(url, "v=", k);
      var afterV := Split(url, "v=")[1];
      var id := Split(afterV, "&")[0];
      SplitHeadIsPrefix(url[k + 2..], "v=");
      SplitHeadIsPrefix(afterV, "&");
      SplitPiecesLackSeparator(url, "v=");
      SplitPiecesLackSeparator(afterV, "&");
      PrefixAbsent(afterV, "v=", |id|);
      assert afterV[..|id|] == id;
      WatchIdEnd(url[k + 2..]);
      Success(id)
    else if Contains(url, "youtu.be/") then
      var segment := Last(Split(url, "/"));
      var id := Split(segment, "?")[0];
      SplitHeadIsPrefix(segment, "?");
      SplitPiecesLackSeparator(url, "/");
      SplitPiecesLackSeparator(segment, "?");
      PrefixAbsent(segment, "/", |id|);
      assert segment[..|id|] == id;
      ShortIdEnd(segment);
      Success(id)
    else
      Failure(InvalidUrlMessage)
  }

  /** After the first `v=`, the identifier ends at the end of the URL or
      where the next `&` or `v=` starts. */
  lemma WatchIdEnd(after: string)
    ensures var id := Split(Split(after, "v=")[0], "&")[0];
            |id| == |after| || OccursAt(after, "&", |id|) || OccursAt(after, "v=", |id|)
  {
    var afterV := Split(after, "v=")[0];
    var id := Split(afterV, "&")[0];
    SplitHeadIsPrefix(after, "v=");
    SplitHeadEnd(after, "v=");
    SplitHeadEnd(afterV, "&");
    if |id| < |afterV| {
      OccursInPrefix(afterV, after, "&", |id|);
    }
  }

  /** In the last segment of a short link, the identifier ends at the end
      of the segment or at its first `?`. */
  lemma ShortIdEnd(segment: string)
    ensures var id := Split(segment, "?")[0];
            |id| == |segment| || (|id| < |segment| && segment[|id|] == '?')
  {
    var id := Split(segment, "?")[0];
    SplitHeadEnd(segment, "?");
    if |id| < |segment| {
      assert segment[|id|..|id| + 1][0] == segment[|id|];
    }
  }

  /** The first `v=` of a watch URL is the one inside `watch?v=` when the
      text before it holds none. */
  lemma FirstVInWatch(prefix: string, tail: string)
    requires !Contains(prefix, "v=")
    ensures Find(prefix + "watch?v=" + tail, "v=") == Some(|prefix| + 6)
  {
    var url := prefix + "watch?v=" + tail;
    var p := |prefix|;
    assert url[p + 6..p + 8] == "v=";
    forall j | 0 <= j < p + 6
      ensures !OccursAt(url, "v=", j)
    {
      if j + 2 <= p {
        assert url[j..j + 2] == prefix[j..j + 2];
        assert !OccursAt(prefix, "v=", j);
      } else {
        assert url[j + 1] == "watch?v="[j + 1 - p];
        assert url[j..j + 2][1] == url[j + 1];
      }
    }
    FindFirst(url, "v=", p + 6);
  }

  /** After `v=`, no further `v=` starts inside the identifier. */
  lemma NoVInsideId(id: string, rest: string)
    requires !Contains(id, "v=")
    requires rest == "" || rest[0] == '&'
    ensures forall j :: 0 <= j < |id| ==> !OccursAt(id + rest, "v=", j)
  {
    var tail := id + rest;
    forall j | 0 <= j < |id|
      ensures !OccursAt(tail, "v=", j)
    {
      if j + 2 <= |id| {
        assert tail[j..j + 2] == id[j..j + 2];
        assert !OccursAt(id, "v=", j);
      } else if j + 2 <= |tail| {
        assert tail[j + 1] == rest[0];
        assert tail[j..j + 2][1] == tail[j + 1];
      }
    }
  }

  /** The piece after `v=`, cut at `&`, is exactly the identifier. */
  lemma IdAfterV(id: string, rest: string)
    requires !Contains(id, "v=") && '&' !in id
    requires rest == "" || rest[0] == '&'
    ensures Split(Split(id + rest, "v=")[0], "&")[0] == id
  {
    var tail := id + rest;
    NoVInsideId(id, rest);
    SplitHeadCovers(tail, "v=", |id|);
    var afterV := Split(tail, "v=")[0];
    SplitHeadIsPrefix(tail, "v=");
    assert afterV[..|id|] == id;
    NoCharBefore(afterV, '&', |id|);
    if |afterV| > |id| {
      assert afterV[|id|] == rest[0];
      assert afterV[|id|..|id| + 1] == "&";
    }
    SplitHeadExact(afterV, "&", |id|);
  }

  /** `.../watch?v=ID&...`: the identifier comes back exactly, provided the
      text before `watch?v=` holds no `v=` and the identifier holds neither
      `v=` nor `&`. */
  lemma WatchUrlId(prefix: string, id: string, rest: string)
    requires !Contains(prefix, "v=")
    requires !Contains(id, "v=") && '&' !in id
    requires rest == "" || rest[0] == '&'
    ensures ExtractVideoId(prefix + "watch?v=" + id + rest) == Success(id)
  {
    var url := prefix + "watch?v=" + id + rest;
    var p := |prefix|;
    var tail := id + rest;
    MarkerInside(prefix, "watch?v=", id + rest);
    assert url == prefix + "watch?v=" + (id + rest);
    assert Split(url, "v=")[1] == Split(tail, "v=")[0] by {
      assert url == prefix + "watch?v=" + tail;
      FirstVInWatch(prefix, tail);
      SplitSecond(url, "v=", p + 6);
      assert url[p + 8..] == tail;
    }
    IdAfterV(id, rest);
  }

  /** `.../youtu.be/ID?...`: the identifier comes back exactly, provided the
      URL holds no `watch?v=`, the identifier neither `/` nor `?`, and the
      query after it no `/`. */
  lemma ShortUrlId(prefix: string, id: string, rest: string)
    requires !Contains(prefix + "youtu.be/" + id + rest, "watch?v=")
    requires '/' !in id && '?' !in id && '/' !in rest
    requires rest == "" || rest[0] == '?'
    ensures ExtractVideoId(prefix + "youtu.be/" + id + rest) == Success(id)
  {
    var url := prefix + "youtu.be/" + id + rest;
    var p := |prefix|;
    var segment := id + rest;
    MarkerInside(prefix, "youtu.be/", id + rest);
    assert url == prefix + "youtu.be/" + (id + rest);
    assert Last(Split(url, "/")) == segment by {
      assert url == (prefix + "youtu.be") + ['/'] + segment;
      SplitLastAfter(prefix + "youtu.be", '/', segment);
    }
    assert Split(segment, "?")[0] == id by {
      NoCharBefore(segment, '?', |id|);
      if |rest| > 0 {
        assert segment[|id|..|id| + 1] == "?";
      } else {
        assert segment == id;
      }
      SplitHeadExact(segment, "?", |id|);
      assert segment[..|id|] == id;
    }
  }

  /** A marker placed inside a URL is found there. */
  lemma MarkerInside(prefix: string, marker: string, tail: string)
    ensures Contains(prefix + marker + tail, marker)
  {
    var url := prefix + marker + tail;
    assert url[|prefix|..|prefix| + |marker|] == marker;
    ContainsAt(url, marker, |prefix|);
  }

  /** A string that is no YouTube URL at all is rejected. */
  lemma NotAUrlRejected()
    ensures ExtractVideoId("not a url") == Failure(InvalidUrlMessage)
  {
    assert 'w' !in "not a url" && 'y' !in "not a url";
    MarkerlessRejected("not a url");
  }

  /** A string holding neither a `w` nor a `y` holds no marker, so it is
      rejected. */
  lemma MarkerlessRejected(url: string)
    requires 'w' !in url && 'y' !in url
    ensures ExtractVideoId(url) == Failure(InvalidUrlMessage)
  {
    AbsentHeadNotContained(url, "watch?v=");
    AbsentHeadNotContained(url, "youtu.be/");
  }

  /** The identifier is not validated: a short link with nothing after the
      host yields the empty identifier. */
  lemma EmptyShortIdAccepted(prefix: string)
    requires !Contains(prefix + "youtu.be/", "watch?v=")
    ensures ExtractVideoId(prefix + "youtu.be/") == Success("")
  {
    assert prefix + "youtu.be/" + "" + "" == prefix + "youtu.be/";
    ShortUrlId(prefix, "", "");
  }
}
