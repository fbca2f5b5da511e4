/** Downloading one caption track and choosing its parser
    (`download_and_parse_subtitle`). The HTTP exchange is an input: either
    the request failed, or a response arrived with its status, its body
    text and the result of decoding that body as JSON. */
module SubtitleDownload {
  import opened Results
  import opened Text
  import opened JsonEvents
  import opened CueParsers

  /** The outcome of the GET request; `decoded` is None when the body is no
      valid JSON. */
  datatype HttpResult =
    | Response(status: int, text: string, decoded: Option<Json>)
    | NetworkError

  /** The parser a track is handed to. `Fallback` is the last resort: JSON
      when the body decodes, the raw body otherwise. */
  datatype Format = JsonByName | VttByName | SrtByName | VttByContent | SrtByContent | Fallback

  predicate JsonName(url: string)
  {
    EndsWith(url, ".json3") || EndsWith(url, ".json")
  }

  /** The URL's extension decides first; only a URL without a known
      extension has its body sniffed. */
  function Sniff(url: string, content: string): (f: Format)
    ensures JsonName(url) <==> f == JsonByName
    ensures f == VttByName <==> !JsonName(url) && EndsWith(url, ".vtt")
    ensures f == SrtByName <==> !JsonName(url) && !EndsWith(url, ".vtt") && EndsWith(url, ".srt")
    ensures f == VttByContent <==>
              && !JsonName(url) && !EndsWith(url, ".vtt") && !EndsWith(url, ".srt")
              && StartsWith(Strip(content), "WEBVTT")
    ensures f == SrtByContent <==>
              && !JsonName(url) && !EndsWith(url, ".vtt") && !EndsWith(url, ".srt")
              && !StartsWith(Strip(content), "WEBVTT")
              && Contains(content, "-->") && HasDigit(content)
    ensures f == Fallback <==>
              && !JsonName(url) && !EndsWith(url, ".vtt") && !EndsWith(url, ".srt")
              && !StartsWith(Strip(content), "WEBVTT")
              && !(Contains(content, "-->") && HasDigit(content))
  {
    if JsonName(url) then JsonByName
    else if EndsWith(url, ".vtt") then VttByName
    else if EndsWith(url, ".srt") then SrtByName
    else if StartsWith(Strip(content), "WEBVTT") then VttByContent
    else if Contains(content, "-->") && HasDigit(content) then SrtByContent
    else Fallback
  }

  /** What the download yields: None for a failed request, a status other
      than 200, a JSON-named track whose body does not decode, or a JSON
      document the parser refuses. */
  function SubtitleText(url: string, resp: HttpResult): Option<string>
  {
    if resp.NetworkError? || resp.status != 200 then None
    else match Sniff(url, resp.text)
      case JsonByName =>
        (match resp.decoded
         case None => None
         case Some(data) => JsonTranscript(data))
      case VttByName => Some(CueTranscript(WebVtt, resp.text))
      case SrtByName => Some(CueTranscript(Srt, resp.text))
      case VttByContent => Some(CueTranscript(WebVtt, resp.text))
      case SrtByContent => Some(CueTranscript(Srt, resp.text))
      case Fallback =>
        (match resp.decoded
         case None => Some(resp.text)
         case Some(data) => JsonTranscript(data))
  }

  /** Hands the body to the parser the URL or the content calls for. */
  method DownloadAndParseSubtitle(url: string, resp: HttpResult) returns (r: Option<string>)
    ensures r == SubtitleText(url, resp)
  {
    if resp.NetworkError? || resp.status != 200 {
      return None;
    }
    var content := resp.text;
    var format := Sniff(url, content);
    match format {
      case JsonByName =>
        if resp.decoded.None? {
          return None;
        }
        r := ParseJsonSubtitle(resp.decoded.value);
      case VttByName =>
        var text := ParseVttSubtitle(content);
        r := Some(text);
      case SrtByName =>
        var text := ParseSrtSubtitle(content);
        r := Some(text);
      case VttByContent =>
        var text := ParseVttSubtitle(content);
        r := Some(text);
      case SrtByContent =>
        var text := ParseSrtSubtitle(content);
        r := Some(text);
      case Fallback =>
        if resp.decoded.None? {
          return Some(content);
        }
        r := ParseJsonSubtitle(resp.decoded.value);
    }
  }

  // Properties of the dispatch.

  /** No usable response, no text. */
  lemma FailedRequestGivesNone(url: string, resp: HttpResult)
    requires resp.NetworkError? || resp.status != 200
    ensures SubtitleText(url, resp) == None
  {
  }

  /** A JSON-named track goes to the JSON parser whatever its body looks
      like, and a body that does not decode gives nothing. */
  lemma JsonNameWins(url: string, status: int, text: string, decoded: Option<Json>)
    requires status == 200 && JsonName(url)
    ensures decoded.None? ==> SubtitleText(url, Response(status, text, decoded)) == None
    ensures decoded.Some? ==> SubtitleText(url, Response(status, text, decoded)) == JsonTranscript(decoded.value)
  {
  }

  /** A `.vtt` or `.srt` name picks that parser even for a body that looks
      like the other format. */
  lemma CueNameWins(url: string, text: string, decoded: Option<Json>)
    requires !JsonName(url)
    ensures EndsWith(url, ".vtt") ==>
              SubtitleText(url, Response(200, text, decoded)) == Some(CueTranscript(WebVtt, text))
    ensures !EndsWith(url, ".vtt") && EndsWith(url, ".srt") ==>
              SubtitleText(url, Response(200, text, decoded)) == Some(CueTranscript(Srt, text))
  {
  }

  /** Without a known extension, a body whose stripped text opens with
      `WEBVTT` is read as WebVTT, even when the SRT test would also pass. */
  lemma WebVttHeaderSniffed(url: string, text: string, decoded: Option<Json>)
    requires !JsonName(url) && !EndsWith(url, ".vtt") && !EndsWith(url, ".srt")
    requires StartsWith(Strip(text), "WEBVTT")
    ensures SubtitleText(url, Response(200, text, decoded)) == Some(CueTranscript(WebVtt, text))
  {
  }

  /** Otherwise a body holding an arrow and a digit is read as SRT. */
  lemma ArrowAndDigitSniffed(url: string, text: string, decoded: Option<Json>)
    requires !JsonName(url) && !EndsWith(url, ".vtt") && !EndsWith(url, ".srt")
    requires !StartsWith(Strip(text), "WEBVTT")
    requires Contains(text, "-->") && HasDigit(text)
    ensures SubtitleText(url, Response(200, text, decoded)) == Some(CueTranscript(Srt, text))
  {
  }

  /** Anything else is tried as JSON, and a body that does not decode comes
      back as it is. */
  lemma FallbackToJsonOrRaw(url: string, text: string, decoded: Option<Json>)
    requires Sniff(url, text) == Fallback
    ensures decoded.None? ==> SubtitleText(url, Response(200, text, decoded)) == Some(text)
    ensures decoded.Some? ==> SubtitleText(url, Response(200, text, decoded)) == JsonTranscript(decoded.value)
  {
  }

  /** Every text the download yields is either the raw body (only on the
      last-resort path) or a space-joined list of non-empty stripped
      fragments, so it is empty exactly when no fragment was found. */
  lemma SubtitleTextShape(url: string, resp: HttpResult)
    requires SubtitleText(url, resp).Some?
    ensures || (Sniff(url, resp.text) == Fallback && resp.decoded.None?
                && SubtitleText(url, resp).value == resp.text)
            || exists parts :: CleanFragments(parts) && SubtitleText(url, resp).value == Join(parts, " ")
  {
    var f := Sniff(url, resp.text);
    if f == VttByName || f == VttByContent {
      CueFragmentsClean(WebVtt, resp.text);
      assert SubtitleText(url, resp).value == Join(CueFragments(WebVtt, resp.text), " ");
    } else if f == SrtByName || f == SrtByContent {
      CueFragmentsClean(Srt, resp.text);
      assert SubtitleText(url, resp).value == Join(CueFragments(Srt, resp.text), " ");
    } else if resp.decoded.Some? {
      JsonFragmentsClean(resp.decoded.value);
      var parts := JsonFragments(resp.decoded.value).value;
      assert SubtitleText(url, resp).value == Join(parts, " ");
    }
  }
}
