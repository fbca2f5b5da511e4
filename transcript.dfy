/** Choosing and fetching a caption track (`get_youtube_transcript`). The
    video metadata and the HTTP exchange for each track are inputs; the
    method tries up to four tiers of tracks and returns the first non-empty
    transcript, or an error message. */
module TranscriptFetch {
  import opened Results
  import opened Text
  import opened VideoIds
  import opened SubtitleDownload
  import opened CueParsers
  import opened JsonEvents

  /** One downloadable form of a caption track. */
  datatype TrackRef = TrackRef(url: string)

  /** Language code to its forms, in the metadata's order. */
  type TrackMap = seq<(string, seq<TrackRef>)>

  /** The parts of the metadata the selection reads: the uploader's
      subtitles and the automatic captions. */
  datatype VideoInfo = VideoInfo(subtitles: TrackMap, automatic: TrackMap)

  const ErrorPrefix := "Error fetching transcript: "
  const NoSubtitlesMessage := "Error: No subtitles or captions available for this video."

  /** The forms listed for `lang`. */
  function RefsOf(m: TrackMap, lang: string): (r: Option<seq<TrackRef>>)
    ensures r.None? <==> forall i :: 0 <= i < |m| ==> m[i].0 != lang
    ensures r.Some? ==> exists i :: 0 <= i < |m| && m[i] == (lang, r.value)
  {
    if m == [] then None
    else if m[0].0 == lang then Some(m[0].1)
    else RefsOf(m[1..], lang)
  }

  /** `lang in m and m[lang]`. */
  predicate HasRefs(m: TrackMap, lang: string)
  {
    RefsOf(m, lang).Some? && RefsOf(m, lang).value != []
  }

  /** The track tried for English: the first form, if there is one. */
  function EnglishUrls(m: TrackMap): (us: seq<string>)
    ensures |us| <= 1
    ensures us != [] <==> HasRefs(m, "en")
  {
    if HasRefs(m, "en") then [RefsOf(m, "en").value[0].url] else []
  }

  /** The first form of one language, unless it has none. */
  function FirstUrl(entry: (string, seq<TrackRef>)): seq<string>
  {
    if entry.1 == [] then [] else [entry.1[0].url]
  }

  /** The first forms of the given languages, in order, skipping languages
      without forms. */
  function TierUrls(entries: TrackMap): (us: seq<string>)
    ensures |us| <= |entries|
  {
    if entries == [] then []
    else TierUrls(entries[..|entries| - 1]) + FirstUrl(entries[|entries| - 1])
  }

  /** The first three languages of a map, or all of them. */
  function FirstThree(m: TrackMap): (r: TrackMap)
    ensures |r| <= 3 && r <= m
    ensures |m| >= 3 ==> |r| == 3
  {
    if |m| <= 3 then m else m[..3]
  }

  /** The URLs the selection would try if every track failed, tier by tier:
      English subtitles, English automatic captions, then the first three
      languages of each map, English included again. */
  function Candidates(v: VideoInfo): seq<string>
  {
    EnglishUrls(v.subtitles) + EnglishUrls(v.automatic)
      + TierUrls(FirstThree(v.subtitles)) + TierUrls(FirstThree(v.automatic))
  }

  /** Downloading and parsing the track at each URL, given the HTTP
      exchange that URL meets. */
  function Downloader(http: string -> HttpResult): string -> Option<string>
  {
    u => SubtitleText(u, http(u))
  }

  /** Python's truth test on the downloaded text. */
  predicate Usable(t: Option<string>)
  {
    t.Some? && t.value != ""
  }

  /** The first usable text among the URLs, in order. */
  function FirstHit(urls: seq<string>, fetch: string -> Option<string>): Option<string>
  {
    if urls == [] then None
    else if Usable(fetch(urls[0])) then fetch(urls[0])
    else FirstHit(urls[1..], fetch)
  }

  /** The URLs downloaded: all up to and including the first usable one. */
  function Tried(urls: seq<string>, fetch: string -> Option<string>): seq<string>
  {
    if urls == [] then []
    else if Usable(fetch(urls[0])) then [urls[0]]
    else [urls[0]] + Tried(urls[1..], fetch)
  }

  /** The text of the first usable track, or the no-subtitles message. */
  function Selection(v: VideoInfo, fetch: string -> Option<string>): string
  {
    match FirstHit(Candidates(v), fetch)
    case Some(t) => t
    case None => NoSubtitlesMessage
  }

  /** The string `get_youtube_transcript` returns. */
  function Outcome(url: string, info: Result<VideoInfo, string>, fetch: string -> Option<string>): string
  {
    match ExtractVideoId(url)
    case Failure(e) => ErrorPrefix + e
    case Success(_) =>
      match info
      case Failure(e) => ErrorPrefix + e
      case Success(v) => Selection(v, fetch)
  }

  /** The URLs `get_youtube_transcript` downloads, in order. */
  function Attempts(url: string, info: Result<VideoInfo, string>, fetch: string -> Option<string>): seq<string>
  {
    if ExtractVideoId(url).Failure? || info.Failure? then []
    else Tried(Candidates(info.value), fetch)
  }

  // Facts about the walk over candidate URLs.

  /** After URLs that all failed, the walk goes on with the rest. */
  lemma {:induction false} PastMisses(done: seq<string>, rest: seq<string>, fetch: string -> Option<string>)
    requires FirstHit(done, fetch) == None
    ensures FirstHit(done + rest, fetch) == FirstHit(rest, fetch)
    ensures Tried(done + rest, fetch) == done + Tried(rest, fetch)
    decreases |done|
  {
    if done == [] {
      assert done + rest == rest;
    } else {
      assert (done + rest)[0] == done[0];
      assert (done + rest)[1..] == done[1..] + rest;
      assert !Usable(fetch(done[0]));
      PastMisses(done[1..], rest, fetch);
      assert done == [done[0]] + done[1..];
      assert [done[0]] + (done[1..] + Tried(rest, fetch)) == done + Tried(rest, fetch);
    }
  }

  /** After URLs that all failed, one more failure keeps the walk empty. */
  lemma MissAgain(done: seq<string>, u: string, fetch: string -> Option<string>)
    requires FirstHit(done, fetch) == None && !Usable(fetch(u))
    ensures FirstHit(done + [u], fetch) == None
  {
    PastMisses(done, [u], fetch);
    assert [u][1..] == [];
  }

  /** After URLs that all failed, a usable one ends the walk. */
  lemma HitAfterMisses(done: seq<string>, u: string, rest: seq<string>, fetch: string -> Option<string>)
    requires FirstHit(done, fetch) == None && Usable(fetch(u))
    ensures FirstHit(done + [u] + rest, fetch) == fetch(u)
    ensures Tried(done + [u] + rest, fetch) == done + [u]
  {
    assert done + [u] + rest == done + ([u] + rest);
    PastMisses(done, [u] + rest, fetch);
    assert ([u] + rest)[0] == u;
  }

  lemma {:induction false} TierUrlsAppend(a: TrackMap, b: TrackMap)
    ensures TierUrls(a + b) == TierUrls(a) + TierUrls(b)
    decreases |b|
  {
    if b == [] {
      assert a + b == a;
    } else {
      var b0 := b[..|b| - 1];
      assert (a + b)[..|a + b| - 1] == a + b0;
      assert (a + b)[|a + b| - 1] == b[|b| - 1];
      TierUrlsAppend(a, b0);
    }
  }

  lemma TierUrlsStep(entries: TrackMap, k: nat)
    requires k < |entries|
    ensures TierUrls(entries[..k + 1]) == TierUrls(entries[..k]) + FirstUrl(entries[k])
  {
    assert entries[..k + 1][..k] == entries[..k];
  }

  /** A tier's URLs are those before the `k`-th language, its own, and
      those after it. */
  lemma TierUrlsAround(langs: TrackMap, k: nat)
    requires k < |langs|
    ensures TierUrls(langs) == TierUrls(langs[..k]) + FirstUrl(langs[k]) + TierUrls(langs[k + 1..])
  {
    var head, tail := langs[..k + 1], langs[k + 1..];
    Halves(langs, k + 1);
    calc {
      TierUrls(langs);
      TierUrls(head + tail);
      { TierUrlsAppend(head, tail); }
      TierUrls(head) + TierUrls(tail);
      { TierUrlsStep(langs, k); }
      TierUrls(langs[..k]) + FirstUrl(langs[k]) + TierUrls(tail);
    }
  }

  lemma Halves(langs: TrackMap, j: nat)
    requires j <= |langs|
    ensures langs[..j] + langs[j..] == langs
  {
  }

  lemma Regroup(a: seq<string>, b: seq<string>, c: seq<string>, d: seq<string>, e: seq<string>)
    ensures a + (b + c + d) + e == (a + b) + c + (d + e)
  {
  }

  /** The plan seen from each tier onwards. */
  lemma FourTiers(t1: seq<string>, t2: seq<string>, t3: seq<string>, t4: seq<string>)
    ensures [] + t1 == t1 && [] + t1 + (t2 + t3 + t4) == t1 + t2 + t3 + t4
    ensures t1 + t2 + (t3 + t4) == t1 + t2 + t3 + t4
    ensures t1 + t2 + t3 + t4 + [] == t1 + t2 + t3 + t4
  {
  }

  /** The plan seen from the `k`-th language of a tier onwards. */
  lemma TierSplit(before: seq<string>, langs: TrackMap, k: nat, after: seq<string>)
    requires k < |langs|
    ensures before + TierUrls(langs) + after
              == (before + TierUrls(langs[..k])) + FirstUrl(langs[k]) + (TierUrls(langs[k + 1..]) + after)
  {
    TierUrlsAround(langs, k);
    Regroup(before, TierUrls(langs[..k]), FirstUrl(langs[k]), TierUrls(langs[k + 1..]), after);
  }

  /** The URLs tried so far grow by one language's first form. */
  lemma NextLanguage(before: seq<string>, langs: TrackMap, k: nat)
    requires k < |langs|
    ensures before + TierUrls(langs[..k]) + FirstUrl(langs[k]) == before + TierUrls(langs[..k + 1])
  {
    TierUrlsStep(langs, k);
  }

  /** The selection state after a tier: either a usable text ended the walk
      over `plan`, or every URL tried so far, `done`, failed. */
  ghost predicate After(plan: seq<string>, done: seq<string>, fetched: seq<string>,
                        transcript: Option<string>, fetch: string -> Option<string>)
  {
    if Usable(transcript) then FirstHit(plan, fetch) == transcript && Tried(plan, fetch) == fetched
    else fetched == done && FirstHit(done, fetch) == None
  }

  /** Once a tier has succeeded, the state is final whatever follows. */
  lemma AfterHitStays(plan: seq<string>, done: seq<string>, done2: seq<string>, fetched: seq<string>,
                      transcript: Option<string>, fetch: string -> Option<string>)
    requires Usable(transcript) && After(plan, done, fetched, transcript, fetch)
    ensures After(plan, done2, fetched, transcript, fetch)
  {
  }

  /** One download within a tier: `done` failed so far, `u` is next, and
      `rest` is what the plan holds after it. */
  lemma Step(done: seq<string>, u: string, rest: seq<string>, t: Option<string>, fetch: string -> Option<string>)
    requires FirstHit(done, fetch) == None && t == fetch(u)
    ensures After(done + [u] + rest, done + [u], done + [u], t, fetch)
  {
    if Usable(t) {
      HitAfterMisses(done, u, rest, fetch);
    } else {
      MissAgain(done, u, fetch);
    }
  }

  /** Tries one language's first form, if it lists any. */
  method TryLanguage(entry: (string, seq<TrackRef>), fetch: string -> Option<string>,
                     ghost plan: seq<string>, ghost before: seq<string>, ghost after: seq<string>)
    returns (transcript: Option<string>, ghost fetched: seq<string>)
    requires FirstHit(before, fetch) == None && plan == before + FirstUrl(entry) + after
    ensures After(plan, before + FirstUrl(entry), fetched, transcript, fetch)
  {
    transcript := None;
    fetched := before;
    var refs := entry.1;
    if refs != [] {
      var u := refs[0].url;
      transcript := fetch(u);
      Step(before, u, after, transcript, fetch);
      fetched := before + [u];
    } else {
      assert before + FirstUrl(entry) == before;
    }
  }

  /** Tries the tracks of one map's first three languages, stopping at the
      first usable text. */
  method TryFirstLanguages(m: TrackMap, fetch: string -> Option<string>,
                           ghost plan: seq<string>, ghost before: seq<string>, ghost after: seq<string>)
    returns (transcript: Option<string>, ghost fetched: seq<string>)
    requires FirstHit(before, fetch) == None && plan == before + TierUrls(FirstThree(m)) + after
    ensures After(plan, before + TierUrls(FirstThree(m)), fetched, transcript, fetch)
  {
    var langs := FirstThree(m);
    transcript := None;
    fetched := before;
    for k := 0 to |langs|
      invariant fetched == before + TierUrls(langs[..k])
      invariant FirstHit(fetched, fetch) == None
      invariant !Usable(transcript)
    {
      ghost var done := fetched;
      TierSplit(before, langs, k, after);
      NextLanguage(before, langs, k);
      transcript, fetched := TryLanguage(langs[k], fetch, plan, done, TierUrls(langs[k + 1..]) + after);
      if Usable(transcript) {
        AfterHitStays(plan, done + FirstUrl(langs[k]), before + TierUrls(langs), fetched, transcript, fetch);
        return;
      }
    }
    assert langs[..|langs|] == langs;
  }

  /** Tries one map's English track, if it lists one. */
  method TryEnglish(m: TrackMap, fetch: string -> Option<string>,
                    ghost plan: seq<string>, ghost before: seq<string>, ghost after: seq<string>)
    returns (transcript: Option<string>, ghost fetched: seq<string>)
    requires FirstHit(before, fetch) == None && plan == before + EnglishUrls(m) + after
    ensures After(plan, before + EnglishUrls(m), fetched, transcript, fetch)
  {
    transcript := None;
    fetched := before;
    if HasRefs(m, "en") {
      var u := RefsOf(m, "en").value[0].url;
      transcript := fetch(u);
      Step(before, u, after, transcript, fetch);
      fetched := before + [u];
    } else {
      assert before + EnglishUrls(m) == before;
    }
  }

  /** The first two tiers: English subtitles, then English automatic
      captions. */
  method EnglishTiers(v: VideoInfo, fetch: string -> Option<string>)
    returns (transcript: Option<string>, ghost fetched: seq<string>)
    ensures After(Candidates(v), EnglishUrls(v.subtitles) + EnglishUrls(v.automatic), fetched, transcript, fetch)
  {
    var subtitles, automatic := v.subtitles, v.automatic;
    ghost var t1, t2 := EnglishUrls(subtitles), EnglishUrls(automatic);
    ghost var t3, t4 := TierUrls(FirstThree(subtitles)), TierUrls(FirstThree(automatic));
    ghost var plan := Candidates(v);
    assert plan == t1 + t2 + t3 + t4;
    FourTiers(t1, t2, t3, t4);

    // Tier 1: the uploader's English subtitles.
    transcript, fetched := TryEnglish(subtitles, fetch, plan, [], t2 + t3 + t4);

    // Tier 2: the automatic English captions.
    if !Usable(transcript) {
      transcript, fetched := TryEnglish(automatic, fetch, plan, t1, t3 + t4);
    } else {
      AfterHitStays(plan, [] + t1, t1 + t2, fetched, transcript, fetch);
    }
  }

  /** The four tiers, then the no-subtitles message when all failed. */
  method SelectTrack(v: VideoInfo, fetch: string -> Option<string>)
    returns (r: string, ghost fetched: seq<string>)
    ensures r == Selection(v, fetch)
    ensures fetched == Tried(Candidates(v), fetch)
  {
    var subtitles, automatic := v.subtitles, v.automatic;
    ghost var t1, t2 := EnglishUrls(subtitles), EnglishUrls(automatic);
    ghost var t3, t4 := TierUrls(FirstThree(subtitles)), TierUrls(FirstThree(automatic));
    ghost var plan := Candidates(v);
    assert plan == t1 + t2 + t3 + t4;

    var transcript;
    transcript, fetched := EnglishTiers(v, fetch);

    // Tier 3: the first three languages of the subtitles.
    if !Usable(transcript) && subtitles != [] {
      transcript, fetched := TryFirstLanguages(subtitles, fetch, plan, t1 + t2, t4);
    }
    assert After(plan, t1 + t2 + t3, fetched, transcript, fetch) by {
      if !Usable(transcript) && subtitles == [] {
        assert t1 + t2 + t3 == t1 + t2;
      }
    }

    // Tier 4: the first three languages of the automatic captions.
    if !Usable(transcript) && automatic != [] {
      assert t1 + t2 + t3 + t4 + [] == plan;
      transcript, fetched := TryFirstLanguages(automatic, fetch, plan, t1 + t2 + t3, []);
    }
    assert After(plan, plan, fetched, transcript, fetch) by {
      if !Usable(transcript) && automatic == [] {
        assert t1 + t2 + t3 + t4 == t1 + t2 + t3;
      }
    }

    if Usable(transcript) {
      r := transcript.value;
    } else {
      assert Tried(plan, fetch) == plan by {
        PastMisses(plan, [], fetch);
        assert plan + [] == plan;
      }
      r := NoSubtitlesMessage;
    }
  }

  /** The four tiers, then the error message when all failed; any error
      before the tiers becomes an `Error fetching transcript` message. */
  method GetYoutubeTranscript(url: string, info: Result<VideoInfo, string>, fetch: string -> Option<string>)
    returns (r: string, ghost fetched: seq<string>)
    ensures r == Outcome(url, info, fetch)
    ensures fetched == Attempts(url, info, fetch)
  {
    fetched := [];
    var id := ExtractVideoId(url);
    if id.Failure? {
      return ErrorPrefix + id.error, [];
    }
    if info.Failure? {
      return ErrorPrefix + info.error, [];
    }
    r, fetched := SelectTrack(info.value, fetch);
  }

  // Properties of the selection.

  /** No usable text exactly when every download fails; then every URL is
      downloaded. */
  lemma {:induction false} FirstHitNone(urls: seq<string>, fetch: string -> Option<string>)
    ensures FirstHit(urls, fetch).None? <==> forall i :: 0 <= i < |urls| ==> !Usable(fetch(urls[i]))
    ensures FirstHit(urls, fetch).None? ==> Tried(urls, fetch) == urls
    decreases |urls|
  {
    if urls != [] {
      FirstHitNone(urls[1..], fetch);
      assert forall i :: 1 <= i < |urls| ==> urls[i] == urls[1..][i - 1];
      assert urls == [urls[0]] + urls[1..];
    }
  }

  /** The earliest usable download is the first hit, and the walk stops
      right after it. */
  lemma {:induction false} FirstHitAt(urls: seq<string>, fetch: string -> Option<string>, i: nat)
    requires i < |urls| && Usable(fetch(urls[i]))
    requires forall j :: 0 <= j < i ==> !Usable(fetch(urls[j]))
    ensures FirstHit(urls, fetch) == fetch(urls[i])
    ensures Tried(urls, fetch) == urls[..i + 1]
    decreases i
  {
    if i > 0 {
      assert forall j :: 0 <= j < i - 1 ==> urls[1..][j] == urls[j + 1];
      FirstHitAt(urls[1..], fetch, i - 1);
      assert urls[..i + 1] == [urls[0]] + urls[1..][..i];
    } else {
      assert urls[..1] == [urls[0]];
    }
  }

  /** A first hit comes from some earliest usable download. */
  lemma {:induction false} FirstHitSome(urls: seq<string>, fetch: string -> Option<string>)
    requires FirstHit(urls, fetch).Some?
    ensures exists i :: 0 <= i < |urls| && Usable(fetch(urls[i]))
              && forall j :: 0 <= j < i ==> !Usable(fetch(urls[j]))
    decreases |urls|
  {
    if !Usable(fetch(urls[0])) {
      FirstHitSome(urls[1..], fetch);
      var i :| 0 <= i < |urls[1..]| && Usable(fetch(urls[1..][i]))
                && forall j :: 0 <= j < i ==> !Usable(fetch(urls[1..][j]));
      assert urls[i + 1] == urls[1..][i];
      forall j | 0 <= j < i + 1
        ensures !Usable(fetch(urls[j]))
      {
        if j > 0 {
          assert urls[j] == urls[1..][j - 1];
        }
      }
    }
  }

  /** With every candidate failing, all of them are downloaded, in order,
      and the no-subtitles message is returned. */
  lemma AllTracksFail(v: VideoInfo, fetch: string -> Option<string>)
    requires forall i :: 0 <= i < |Candidates(v)| ==> !Usable(fetch(Candidates(v)[i]))
    ensures Selection(v, fetch) == NoSubtitlesMessage
    ensures Tried(Candidates(v), fetch) == Candidates(v)
  {
    FirstHitNone(Candidates(v), fetch);
  }

  /** A URL that is not a YouTube URL is refused before anything is
      downloaded. */
  lemma InvalidUrlNoFetch(url: string, info: Result<VideoInfo, string>, fetch: string -> Option<string>)
    requires !Contains(url, "watch?v=") && !Contains(url, "youtu.be/")
    ensures Outcome(url, info, fetch) == ErrorPrefix + InvalidUrlMessage
    ensures Attempts(url, info, fetch) == []
  {
  }

  /** A metadata failure becomes an error message carrying its text. */
  lemma InfoFailureMessage(url: string, msg: string, fetch: string -> Option<string>)
    requires Contains(url, "watch?v=") || Contains(url, "youtu.be/")
    ensures Outcome(url, Failure(msg), fetch) == ErrorPrefix + msg
    ensures Attempts(url, Failure(msg), fetch) == []
  {
  }

  /** Languages without forms contribute no candidate. */
  ghost predicate NoForms(m: TrackMap)
  {
    forall i :: 0 <= i < |m| ==> m[i].1 == []
  }

  lemma {:induction false} TierUrlsNoForms(m: TrackMap)
    requires NoForms(m)
    ensures TierUrls(m) == []
    decreases |m|
  {
    if m != [] {
      TierUrlsNoForms(m[..|m| - 1]);
    }
  }

  /** When neither map lists any form (in particular when both are empty),
      nothing is downloaded and the no-subtitles message is returned. */
  lemma NoTracksNoFetch(v: VideoInfo, fetch: string -> Option<string>)
    requires NoForms(v.subtitles) && NoForms(v.automatic)
    ensures Candidates(v) == []
    ensures Selection(v, fetch) == NoSubtitlesMessage
    ensures Tried(Candidates(v), fetch) == []
  {
    TierUrlsNoForms(FirstThree(v.subtitles));
    TierUrlsNoForms(FirstThree(v.automatic));
  }

  /** A language's first form is a candidate of its tier exactly when the
      language lists a form; languages without forms are skipped. */
  lemma {:induction false} TierUrlsMembers(entries: TrackMap, u: string)
    ensures u in TierUrls(entries) <==>
              exists i :: 0 <= i < |entries| && entries[i].1 != [] && entries[i].1[0].url == u
    decreases |entries|
  {
    if entries != [] {
      var init := entries[..|entries| - 1];
      TierUrlsMembers(init, u);
      if exists i :: 0 <= i < |init| && init[i].1 != [] && init[i].1[0].url == u {
        var i :| 0 <= i < |init| && init[i].1 != [] && init[i].1[0].url == u;
        assert entries[i] == init[i];
      }
      if exists i :: 0 <= i < |entries| && entries[i].1 != [] && entries[i].1[0].url == u {
        var i :| 0 <= i < |entries| && entries[i].1 != [] && entries[i].1[0].url == u;
        if i < |init| {
          assert init[i] == entries[i];
        }
      }
    }
  }

  /** A usable English subtitle track is the only download. */
  lemma ManualEnglishFirst(v: VideoInfo, fetch: string -> Option<string>)
    requires HasRefs(v.subtitles, "en")
    requires Usable(fetch(RefsOf(v.subtitles, "en").value[0].url))
    ensures Selection(v, fetch) == fetch(RefsOf(v.subtitles, "en").value[0].url).value
    ensures Tried(Candidates(v), fetch) == [RefsOf(v.subtitles, "en").value[0].url]
  {
  }

  /** When the English subtitles are missing, empty or unusable, the
      automatic English captions come next. */
  lemma FallThroughToAutomaticEnglish(v: VideoInfo, fetch: string -> Option<string>)
    requires !HasRefs(v.subtitles, "en") || !Usable(fetch(RefsOf(v.subtitles, "en").value[0].url))
    requires HasRefs(v.automatic, "en")
    requires Usable(fetch(RefsOf(v.automatic, "en").value[0].url))
    ensures Selection(v, fetch) == fetch(RefsOf(v.automatic, "en").value[0].url).value
    ensures Tried(Candidates(v), fetch) == EnglishUrls(v.subtitles) + [RefsOf(v.automatic, "en").value[0].url]
  {
    var t1 := EnglishUrls(v.subtitles);
    var u := RefsOf(v.automatic, "en").value[0].url;
    ghost var rest := TierUrls(FirstThree(v.subtitles)) + TierUrls(FirstThree(v.automatic));
    assert Candidates(v) == t1 + [u] + rest;
    assert FirstHit(t1, fetch) == None by {
      if t1 != [] {
        assert t1[1..] == [];
      }
    }
    HitAfterMisses(t1, u, rest, fetch);
  }

  /** English is not excluded from the later tiers: when it is among the
      first three subtitle languages and every track fails, its track is
      downloaded twice. */
  lemma EnglishRetriedInThirdTier(v: VideoInfo, fetch: string -> Option<string>, k: nat)
    requires k < |v.subtitles| && k < 3
    requires v.subtitles[k].0 == "en" && v.subtitles[k].1 != []
    requires forall j :: 0 <= j < k ==> v.subtitles[j].0 != "en"
    requires forall i :: 0 <= i < |Candidates(v)| ==> !Usable(fetch(Candidates(v)[i]))
    ensures multiset(Tried(Candidates(v), fetch))[v.subtitles[k].1[0].url] >= 2
  {
    var m := v.subtitles;
    var u := m[k].1[0].url;
    assert RefsOf(m, "en") == Some(m[k].1) by {
      RefsOfFirst(m, "en", k);
    }
    var langs := FirstThree(m);
    assert langs[k] == m[k];
    TierUrlsMembers(langs, u);
    var t2, t3, t4 := EnglishUrls(v.automatic), TierUrls(langs), TierUrls(FirstThree(v.automatic));
    assert Candidates(v) == EnglishUrls(m) + t2 + t3 + t4;
    RepeatedInLaterTier(u, t2, t3, t4);
    AllTracksFail(v, fetch);
  }

  /** A URL that opens the plan and recurs in a later tier occurs twice. */
  lemma RepeatedInLaterTier(u: string, t2: seq<string>, t3: seq<string>, t4: seq<string>)
    requires u in t3
    ensures multiset([u] + t2 + t3 + t4)[u] >= 2
  {
    assert [u] + t2 + t3 + t4 == [u] + (t2 + t3 + t4);
    assert u in t2 + t3 + t4;
    assert multiset([u] + (t2 + t3 + t4)) == multiset([u]) + multiset(t2 + t3 + t4);
  }

  /** The lookup answers with the first entry for the language. */
  lemma {:induction false} RefsOfFirst(m: TrackMap, lang: string, k: nat)
    requires k < |m| && m[k].0 == lang
    requires forall j :: 0 <= j < k ==> m[j].0 != lang
    ensures RefsOf(m, lang) == Some(m[k].1)
    decreases k
  {
    if k > 0 {
      RefsOfFirst(m[1..], lang, k - 1);
    }
  }

  /** At most eight tracks are ever downloaded: one per English tier and
      three per later tier. */
  lemma AttemptsBounded(url: string, info: Result<VideoInfo, string>, fetch: string -> Option<string>)
    ensures |Attempts(url, info, fetch)| <= 8
  {
    if info.Success? {
      TriedPrefix(Candidates(info.value), fetch);
    }
  }

  lemma {:induction false} TriedPrefix(urls: seq<string>, fetch: string -> Option<string>)
    ensures Tried(urls, fetch) <= urls
    decreases |urls|
  {
    if urls != [] && !Usable(fetch(urls[0])) {
      TriedPrefix(urls[1..], fetch);
      assert urls == [urls[0]] + urls[1..];
    }
  }

  /** `get_youtube_transcript` never returns the empty string: an empty
      download counts as a failure. */
  lemma OutcomeNonEmpty(url: string, info: Result<VideoInfo, string>, fetch: string -> Option<string>)
    ensures Outcome(url, info, fetch) != ""
  {
    if ExtractVideoId(url).Success? && info.Success? {
      var v := info.value;
      if FirstHit(Candidates(v), fetch).Some? {
        FirstHitSome(Candidates(v), fetch);
        var i :| 0 <= i < |Candidates(v)| && Usable(fetch(Candidates(v)[i]))
                  && forall j :: 0 <= j < i ==> !Usable(fetch(Candidates(v)[j]));
        FirstHitAt(Candidates(v), fetch, i);
      }
    }
  }

  /** End to end: an English SRT subtitle track whose body parses to a
      non-empty transcript is what a valid URL yields. */
  lemma EnglishSrtTrackEndToEnd(url: string, v: VideoInfo, http: string -> HttpResult, body: string, decoded: Option<Json>)
    requires Contains(url, "watch?v=") || Contains(url, "youtu.be/")
    requires HasRefs(v.subtitles, "en")
    requires EndsWith(RefsOf(v.subtitles, "en").value[0].url, ".srt")
    requires !JsonName(RefsOf(v.subtitles, "en").value[0].url)
    requires !EndsWith(RefsOf(v.subtitles, "en").value[0].url, ".vtt")
    requires http(RefsOf(v.subtitles, "en").value[0].url) == Response(200, body, decoded)
    requires CueTranscript(Srt, body) != ""
    ensures Outcome(url, Success(v), Downloader(http)) == CueTranscript(Srt, body)
  {
    var u := RefsOf(v.subtitles, "en").value[0].url;
    CueNameWins(u, body, decoded);
    assert Downloader(http)(u) == Some(CueTranscript(Srt, body));
    ManualEnglishFirst(v, Downloader(http));
  }
}
