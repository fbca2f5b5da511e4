# Caption acquisition of a YouTube summariser, in Dafny

This project models how `app.py` gets a plain-text transcript for a YouTube
video, and proves properties of that model. There are four pieces:

- **Video-identifier extraction** (`VideoIds`).
  - A watch URL gives the text after the first `v=`, cut at `&`.
  - A `youtu.be/` short link gives its last `/`-segment, cut at `?`.
  - Anything else is refused with `Invalid YouTube URL format`.
- **The four-tier track selection of `get_youtube_transcript`** (`TranscriptFetch`). The tiers are:
  1. the uploader's English subtitles;
  2. the automatic English captions;
  3. the first form of each of the first three subtitle languages;
  4. the same for the automatic captions.

  The first non-empty transcript wins. Otherwise the result is the no-subtitles message, and any earlier error becomes `Error fetching transcript: …`.
- **The format dispatch of `download_and_parse_subtitle`** (`SubtitleDownload`).
  - The URL's extension decides first.
  - Then the stripped body is sniffed: a `WEBVTT` prefix means WebVTT, and an arrow plus a digit means SRT.
  - Otherwise the body is tried as JSON, and a body that does not decode is returned raw.
  - A failed request or a status other than 200 gives nothing.
- **The three caption parsers.**
  - `JsonEvents` covers the JSON3 `events[].segs[].utf8` traversal, with Python's own semantics for `in`, iteration, subscription, `.get` and `.strip()` on a decoded value.
  - `CueParsers` covers the WebVTT and SRT parsers. They are one `in_cue` state machine over stripped lines in two dialects.

`Text` holds the Python string operations the code relies on: `find`, `in`, `split`, `join`, `startswith`, `endswith`, `strip` and `isdigit`.

Each parser loop and each tier loop is a method with invariants. Each method is proved equal to a specification function:

- `CueTranscript` for the cue parsers;
- `JsonTranscript` for the JSON parser;
- `SubtitleText` for the dispatch;
- `Selection`/`Outcome` for the selection.

The ghost out-parameter `fetched` lists the URLs downloaded, in order, and is proved equal to `Tried`/`Attempts`.

Inside the selection, downloading and parsing one track is a parameter `fetch: string -> Option<string>`. `TranscriptFetch.Downloader` builds that parameter from an HTTP exchange and the dispatch, and `TranscriptFetch.EnglishSrtTrackEndToEnd` uses it.

Where the code behaves in ways a reader might not expect, the model follows the code:

- Tiers 3 and 4 do not skip English, so an English track can be downloaded twice (`EnglishRetriedInThirdTier`).
- The body is stripped before the `WEBVTT` test.
- The JSON parser can fail (a document that is not an object, `events` that cannot be iterated, a `utf8` value that is not a string). It then yields nothing rather than an empty transcript.
- A JSON-named track whose body does not decode yields nothing, whereas a track without a known extension returns its raw body.
- The identifier is not validated and may be empty.
- The code splits on `v=`, not on `watch?v=`. The identifier is guaranteed to come back unchanged if the text before `watch?v=` holds no `v=` (`WatchUrlId`). Otherwise the piece after the first `v=`, cut at the next `v=` or `&`, is taken. That piece can still equal the identifier.

## Model

| member | source | states |
|---|---|---|
| VideoIds.ExtractVideoId | app.py:85-91 | It fails exactly when the URL holds neither `watch?v=` nor `youtu.be/`, and the failure carries `Invalid YouTube URL format`. For a watch URL, the identifier is the prefix of the text after the first `v=` that holds no `&` and no `v=` and ends at the end of that text or where an `&` or a `v=` starts. For a short link, it is the prefix of the last `/`-segment that holds no `/` and no `?` and ends at the end of the segment or at a `?`. |
| VideoIds.WatchUrlId | app.py:86-87 | `prefix + "watch?v=" + id + rest` gives exactly `id` when `rest` is empty or starts with `&`, `prefix` holds no `v=`, and `id` holds neither `v=` nor `&`. |
| VideoIds.ShortUrlId | app.py:88-89 | `prefix + "youtu.be/" + id + rest` gives exactly `id` when the URL holds no `watch?v=`, `id` holds no `/` or `?`, and `rest` is empty or a `?`-query without `/`. |
| VideoIds.EmptyShortIdAccepted | app.py:88-89 | A short link with nothing after the host yields the empty identifier: the identifier is not validated. |
| VideoIds.MarkerlessRejected | app.py:86-91 | A URL with neither `w` nor `y` in it is refused with the invalid-URL message. |
| VideoIds.NotAUrlRejected | app.py:90-91 | `"not a url"` is refused with the invalid-URL message. |
| Text.Find | app.py:86 | It returns the index of the first occurrence of the pattern, and None exactly when the pattern occurs nowhere. |
| Text.JoinSplit | app.py:213 | Joining the pieces of a split with the same separator gives back the string. |
| Text.SplitJoin | app.py:213 | Splitting on a one-character separator gives back the joined pieces, provided no piece contains that character. |
| Text.SplitPiecesLackSeparator | app.py:87 | No piece of a split holds the separator. |
| Text.StripSpec | app.py:218 | `strip` removes whitespace only, all of it at both ends, and leaves a stripped string. |
| Text.StrippedFixpoint | app.py:241 | Stripping leaves a string unchanged exactly when it has no whitespace at either end. |
| CueParsers.Classify | app.py:219-226 | A caption line's text is the stripped line, non-empty and stripped. |
| CueParsers.CollectCues | app.py:213-227 | The loop that updates `in_cue` and appends to the parts collects exactly `Collected(ClassifyAll(d, lines), \|lines\|)`. |
| CueParsers.ParseVttSubtitle | app.py:210-231 | The result is `CueTranscript(WebVtt, content)`: the lines split on line feeds, stripped, run through the WebVTT state machine, and the kept lines joined by single spaces. |
| CueParsers.ParseSrtSubtitle | app.py:233-254 | The result is `CueTranscript(Srt, content)`: the same machine without the `WEBVTT` and `NOTE` cases. |
| CueParsers.CueOpenReference | app.py:215-224 | `in_cue` holds before line `i` exactly when some timing line above it has no timing or break line between them. |
| CueParsers.CollectedAtReference | app.py:225-226 | A line is emitted exactly when it is a non-empty caption line inside an open cue in the reference sense. |
| CueParsers.CueFragmentsClean | app.py:218-228 | Every emitted fragment is non-empty and stripped, and the transcript is empty exactly when no fragment was emitted. |
| CueParsers.ClosedWithoutTiming | app.py:215-226 | Without a timing line, `in_cue` never becomes true and nothing is collected. |
| CueParsers.NoTimingNoTranscript | app.py:213-228 | In both dialects, a payload none of whose stripped lines holds `-->` gives the empty transcript. |
| CueParsers.ClassifyAllAppend | app.py:217-218 | Each line is classified on its own, so classifying concatenated blocks concatenates their kinds. |
| CueParsers.CollectedAppend | app.py:219-226 | A block that opens with a timing or break line adds its own fragments after those collected before it. |
| CueParsers.TwoNumberedCues | app.py:236-251 | In either dialect, two numbered one-line cues separated by a blank line give exactly their two texts, joined by a space. A cue text may be any stripped, non-empty line without `-->` that is not all digits, `WEBVTT` or `NOTE`-prefixed, hyphens included. This is the shape of the SRT payload `1\n00:00 --> 00:02\nHello there\n\n2\n00:02 --> 00:04\nworld`. |
| CueParsers.WebVttTwoCues | app.py:213-228 | The `WEBVTT` header, a blank line and two numbered cues give exactly the two cue texts. This is the shape of the WebVTT payload `WEBVTT\n\n1\n00:00:00.000 --> 00:00:02.000\nHello there\n\n2\n00:00:02.000 --> 00:00:04.000\nworld`. |
| CueParsers.DigitCaptionDropped | app.py:222-224 | A caption line made only of digits closes the cue, so it and the rest of that cue are lost. |
| CueParsers.NoteLineInCue | app.py:225-226 | Inside a cue, a `NOTE` line is skipped by the WebVTT parser and kept by the SRT parser. In neither does it close the cue. |
| CueParsers.SrtExampleTimings | app.py:242 | The timing lines `00:00 --> 00:02` and `00:02 --> 00:04` are stripped and hold `-->`. |
| CueParsers.VttExampleTimings | app.py:219 | The timing lines `00:00:00.000 --> 00:00:02.000` and `00:00:02.000 --> 00:00:04.000` are stripped and hold `-->`. |
| CueParsers.ExampleCaptions | app.py:225 | `Hello there` and `world` are caption text for both parsers. |
| JsonEvents.Lookup | app.py:198-201 | None exactly when no entry has the key; otherwise the value of the last entry with that key. |
| JsonEvents.Get | app.py:194 | `.get` fails exactly on a value that is not an object, and it yields the default when the key is missing. |
| JsonEvents.Iter | app.py:197 | Only lists, objects and strings can be iterated, and a list yields its elements. |
| JsonEvents.Has | app.py:198 | `in` fails on values other than lists, objects and strings. On an object it tests the keys; on a list, the elements. |
| JsonEvents.Subscript | app.py:199 | A string subscript succeeds exactly on an object that holds the key. |
| JsonEvents.StripValue | app.py:201 | `.strip()` succeeds exactly on a string and yields a stripped string. |
| JsonEvents.EventParts | app.py:198-203 | The loop over one event's `segs` computes `EventFragments(event)` and stops at the first failing segment. |
| JsonEvents.ParseJsonSubtitle | app.py:191-208 | The nested loops return `JsonTranscript(data)`: the kept segment texts of all events, in order, joined by spaces, or None where Python would raise. |
| JsonEvents.GatherAppend | app.py:197-203 | Consecutive lists contribute their fragments in order, and the whole fails exactly when one part fails. |
| JsonEvents.GatherFailurePersists | app.py:206-208 | Once a prefix of the events fails, the whole parse fails. |
| JsonEvents.JsonFragmentsClean | app.py:201-205 | The parse succeeds exactly when the transcript exists. The fragments are non-empty and stripped, and the transcript is empty exactly when there are none. |
| JsonEvents.KeepAfterStrip | app.py:201-202 | After stripping, the newline and single-space filters reject nothing the emptiness test lets through. |
| JsonEvents.NonObjectFails | app.py:194 | A document that is not an object has no `get`, so the parse fails. |
| JsonEvents.MissingEventsEmpty | app.py:194 | A document without `events` gives the empty transcript. |
| JsonEvents.EventsNotIterableFails | app.py:197 | `events` that cannot be iterated make the parse fail. |
| JsonEvents.EventWithoutSegs | app.py:198 | An event without `segs` contributes nothing. |
| JsonEvents.SegWithoutUtf8 | app.py:200 | A segment without `utf8` contributes nothing. |
| JsonEvents.NonStringTextFails | app.py:201 | A `utf8` value that is not a string makes the whole parse fail, whatever surrounds it. |
| JsonEvents.TextSegFragments | app.py:200-203 | A text segment contributes its stripped text unless that is empty. |
| JsonEvents.HelloWorldTexts | app.py:201-202 | `Hello` and `world` are non-empty and stripped, and a lone space strips to the empty string. |
| JsonEvents.HelloWorldEvents | app.py:194-205 | A document of two events, one with a text segment followed by a blank one and one with a text segment, gives exactly the two texts and their space-joined transcript. |
| SubtitleDownload.Sniff | app.py:168-185 | Six if-and-only-if clauses give the format chosen: JSON by name, VTT by name, SRT by name, VTT by content, SRT by content, or the fallback. Each holds under exactly the source's conditions, in the source's order. |
| SubtitleDownload.DownloadAndParseSubtitle | app.py:161-189 | The result is `SubtitleText(url, resp)`, which runs the parser the sniffed format calls for. |
| SubtitleDownload.FailedRequestGivesNone | app.py:163-186 | A network failure or a status other than 200 gives nothing. |
| SubtitleDownload.JsonNameWins | app.py:168-169 | A `.json3`/`.json` track goes to the JSON parser whatever its body, and a body that does not decode gives nothing. |
| SubtitleDownload.CueNameWins | app.py:170-173 | A `.vtt` or `.srt` name picks that parser, even for a body that looks like the other format. |
| SubtitleDownload.WebVttHeaderSniffed | app.py:176-177 | Without a known extension, a stripped body starting with `WEBVTT` is read as WebVTT. |
| SubtitleDownload.ArrowAndDigitSniffed | app.py:178-179 | Otherwise, a body with `-->` and a digit is read as SRT. |
| SubtitleDownload.FallbackToJsonOrRaw | app.py:181-185 | Otherwise, the decoded body is parsed as JSON, and a body that does not decode is returned raw. |
| SubtitleDownload.SubtitleTextShape | app.py:164-185 | Every downloaded text is either the raw body on the last-resort path or a space-join of non-empty, stripped fragments. |
| TranscriptFetch.RefsOf | app.py:120-121 | None exactly when no entry has the language; otherwise an entry's form list. |
| TranscriptFetch.RefsOfFirst | app.py:120-121 | The lookup answers with the first entry for the language. |
| TranscriptFetch.EnglishUrls | app.py:120-121 | At most one URL, present exactly when `'en' in m and m['en']`. |
| TranscriptFetch.TierUrlsMembers | app.py:135-137 | A URL is a candidate of a later tier exactly when one of the languages lists it as its first form. Languages without forms are skipped. |
| TranscriptFetch.TryEnglish | app.py:120-131 | One English tier downloads the first English form, if there is one, and continues the walk over the plan. |
| TranscriptFetch.TryLanguage | app.py:136-141 | One language of a later tier downloads its first form, if it has one, and continues the walk. |
| TranscriptFetch.TryFirstLanguages | app.py:134-151 | The `for … break` loop over the first three languages continues the walk over their first forms and stops at the first usable text. |
| TranscriptFetch.EnglishTiers | app.py:117-131 | Tiers 1 and 2 leave the walk over all candidates past the two English URLs. |
| TranscriptFetch.SelectTrack | app.py:117-156 | It returns `Selection(v, fetch)`, the first usable text over all candidates or the no-subtitles message. The URLs downloaded are exactly `Tried(Candidates(v), fetch)`. |
| TranscriptFetch.GetYoutubeTranscript | app.py:83-159 | It returns `Outcome(url, info, fetch)` and downloads exactly `Attempts(url, info, fetch)`. |
| TranscriptFetch.FirstHitNone | app.py:153-156 | There is no usable text exactly when every candidate's download fails, and then every candidate is downloaded. |
| TranscriptFetch.FirstHitAt | app.py:123-151 | The earliest usable download is the result, and the walk stops right after it. |
| TranscriptFetch.FirstHitSome | app.py:153-154 | A result comes from some earliest usable download. |
| TranscriptFetch.AllTracksFail | app.py:153-156 | With every candidate failing, all are downloaded in order and the result is exactly the no-subtitles message. |
| TranscriptFetch.NoTracksNoFetch | app.py:120-156 | When neither map lists a form, there are no candidates, nothing is downloaded, and the no-subtitles message is returned. |
| TranscriptFetch.ManualEnglishFirst | app.py:119-124 | A usable English subtitle track is the result and the only download. |
| TranscriptFetch.FallThroughToAutomaticEnglish | app.py:126-131 | If English subtitles are missing, empty or unusable, a usable automatic English track is the result, downloaded right after the English subtitle track, if any. |
| TranscriptFetch.EnglishRetriedInThirdTier | app.py:133-141 | English is not excluded from tier 3. When it is among the first three subtitle languages and every track fails, its URL is downloaded at least twice. |
| TranscriptFetch.InvalidUrlNoFetch | app.py:90-91 | A URL with neither marker gives `Error fetching transcript: Invalid YouTube URL format` and downloads nothing. |
| TranscriptFetch.InfoFailureMessage | app.py:158-159 | A metadata failure gives the error prefix followed by its message, and downloads nothing. |
| TranscriptFetch.AttemptsBounded | app.py:119-151 | At most eight tracks are downloaded. |
| TranscriptFetch.TriedPrefix | app.py:119-151 | The downloads are a prefix of the candidate list. |
| TranscriptFetch.OutcomeNonEmpty | app.py:153-159 | The returned string is never empty. |
| TranscriptFetch.EnglishSrtTrackEndToEnd | app.py:119-124 | From a valid URL, an English `.srt` subtitle track whose body parses to a non-empty transcript yields that transcript: selection, download and dispatch together. |

## Left out

- The Streamlit interface is not modelled: sidebar listings, `st.success` and `st.warning` messages, tabs and downloads. It has no effect on the returned values.
- The LLM setup and summarisation are not modelled. They are calls to an outside service.
- `get_video_info` and `yt_dlp`'s `extract_info` become an input: `Result<VideoInfo, string>`, where a failure carries the exception's message. The model does not cover a metadata value whose `subtitles` or `automatic_captions` is not a mapping.
- `requests.get` with its timeout becomes an `HttpResult` input. A timeout or connection error is `NetworkError`.
- `response.json()` becomes the `decoded` field, where None means the body is not valid JSON. JSON decoding itself is not modelled, and numbers carry no value.
- Exceptions become `Option`/`Result` values. Each `except` clause maps to the corresponding None or error string.
- `strip` and `isdigit` are restricted to ASCII. Whitespace is tab through carriage return, 0x1C-0x1F and space; digits are `0`-`9`. The model does not cover Unicode whitespace or digits.
- TranscriptFetch.TrackRef: a form is its URL only. A form without a `url` key, which raises `KeyError` in the source, is not represented.
- TranscriptFetch.TrackMap: a map is a sequence of (language, forms) pairs in enumeration order. Its keys are taken to be distinct, as in a Python dict.
  - `RefsOf` answers with the first entry for a language.
  - The later tiers read each entry's own forms.
- The video identifier is computed and checked but never used afterwards, since the metadata call receives the whole URL. Only its failure path affects the result.
- Three payloads are stated for lines and texts of their shapes: the SRT payload `1\n00:00 --> 00:02\nHello there\n\n2\n00:02 --> 00:04\nworld` (TwoNumberedCues), the WebVTT payload with a `WEBVTT` header and two numbered cues `Hello there` and `world` (WebVttTwoCues), and the JSON events with segments `Hello`, ` ` and `world` (HelloWorldEvents). The literal strings are shown to have those shapes by SrtExampleNumbers, SrtExampleTimings, VttExampleTimings and ExampleCaptions, and the JSON segment texts by HelloWorldTexts. A lemma that runs the parsers on the full literal payloads is not included.
- Re-parsing a WebVTT or SRT parser's joined output is not modelled as a round trip. CueParsers.NoTimingNoTranscript shows instead that text without timing lines parses to the empty transcript; that a parser's output never holds `-->` is not proved.
- The fetch-and-parse step is a function of the URL, so downloading the same URL twice is assumed to give the same result. A second request that succeeds after a transient failure (the English retry in tiers 3 and 4, `EnglishRetriedInThirdTier`) is not modelled.
