/** The two line-driven caption parsers, `parse_vtt_subtitle` and
    `parse_srt_subtitle`. Both split the payload on line feeds, strip each
    line, and run one boolean `in_cue` state machine over the lines: a
    timing line (one holding `-->`) opens a cue, a break line closes it, and
    any other line is collected while a cue is open. The WebVTT dialect also
    treats the `WEBVTT` header as a break and never collects `NOTE` lines. */
module CueParsers {
  import opened Text

  datatype Dialect = WebVtt | Srt

  /** What a stripped line means to the state machine. `Note` is a line
      that leaves the state alone and is never collected. */
  datatype LineKind = Timing | Break | Note | Caption(text: string)

  /** A stripped line that closes the current cue: blank, a cue number, or
      (WebVTT only) the `WEBVTT` header. */
  predicate IsBreak(d: Dialect, line: string)
  {
    line == "" || IsDigits(line) || (d == WebVtt && line == "WEBVTT")
  }

  /** The tests each parser applies to a line, in the order it applies them. */
  function Classify(d: Dialect, raw: string): (k: LineKind)
    ensures k.Caption? ==> k.text == Strip(raw) && k.text != "" && IsStripped(k.text)
  {
    var line := Strip(raw);
    StripStripped(raw);
    if Contains(line, "-->") then Timing
    else if IsBreak(d, line) then Break
    else if d == WebVtt && StartsWith(line, "NOTE") then Note
    else Caption(line)
  }

  /** The kinds of all lines, in order. */
  function ClassifyAll(d: Dialect, lines: seq<string>): (ks: seq<LineKind>)
    ensures |ks| == |lines|
  {
    if lines == [] then [] else [Classify(d, lines[0])] + ClassifyAll(d, lines[1..])
  }

  lemma {:induction false} ClassifyAllAt(d: Dialect, lines: seq<string>, i: nat)
    requires i < |lines|
    ensures ClassifyAll(d, lines)[i] == Classify(d, lines[i])
  {
    if i > 0 {
      ClassifyAllAt(d, lines[1..], i - 1);
    }
  }

  /** The value of `in_cue` once the first `i` lines have been seen. */
  function CueOpen(kinds: seq<LineKind>, i: nat): bool
    requires i <= |kinds|
  {
    if i == 0 then false
    else
      match kinds[i - 1]
      case Timing => true
      case Break => false
      case _ => CueOpen(kinds, i - 1)
  }

  /** Line `i` is appended to the parts. */
  predicate CollectedAt(kinds: seq<LineKind>, i: nat)
    requires i < |kinds|
  {
    kinds[i].Caption? && kinds[i].text != "" && CueOpen(kinds, i)
  }

  /** The parts collected from the first `n` lines, in input order. */
  function Collected(kinds: seq<LineKind>, n: nat): seq<string>
    requires n <= |kinds|
  {
    if n == 0 then []
    else Collected(kinds, n - 1) + (if CollectedAt(kinds, n - 1) then [kinds[n - 1].text] else [])
  }

  /** The fragments the parser for dialect `d` collects from `content`. */
  function CueFragments(d: Dialect, content: string): seq<string>
  {
    var lines := Split(content, "\n");
    Collected(ClassifyAll(d, lines), |lines|)
  }

  /** The transcript the parser for dialect `d` returns for `content`. */
  function CueTranscript(d: Dialect, content: string): string
  {
    Join(CueFragments(d, content), " ")
  }

  // ---------------------------------------------------------------------
  // The parsers as the source writes them: a loop over the lines that
  // updates `inCue` and appends to `parts`.

  /** The loop the two parsers share. */
  method CollectCues(d: Dialect, lines: seq<string>) returns (parts: seq<string>)
    ensures parts == Collected(ClassifyAll(d, lines), |lines|)
  {
    ghost var kinds := ClassifyAll(d, lines);
    parts := [];
    var inCue := false;
    for i := 0 to |lines|
      invariant parts == Collected(kinds, i)
      invariant inCue == CueOpen(kinds, i)
    {
      var kind := Classify(d, lines[i]);
      ClassifyAllAt(d, lines, i);
      if kind.Timing? {
        inCue := true;
      } else if kind.Break? {
        inCue := false;
      } else if kind.Caption? && inCue && kind.text != "" {
        parts := parts + [kind.text];
      }
    }
  }

  /** `parse_vtt_subtitle`. */
  method ParseVttSubtitle(content: string) returns (r: string)
    ensures r == CueTranscript(WebVtt, content)
  {
    var lines := Split(content, "\n");
    var parts := CollectCues(WebVtt, lines);
    r := Join(parts, " ");
  }

  /** `parse_srt_subtitle`. */
  method ParseSrtSubtitle(content: string) returns (r: string)
    ensures r == CueTranscript(Srt, content)
  {
    var lines := Split(content, "\n");
    var parts := CollectCues(Srt, lines);
    r := Join(parts, " ");
  }

  // ---------------------------------------------------------------------
  // A reference description of when a cue is open, stated without the
  // state machine: the nearest timing or break line above is a timing line.

  /** Line `j` is a timing line and every line strictly between `j` and `i`
      is neither a timing nor a break line. */
  ghost predicate OpenedAt(kinds: seq<LineKind>, j: nat, i: nat)
  {
    j < i <= |kinds|
    && kinds[j].Timing?
    && forall k :: j < k < i ==> !kinds[k].Timing? && !kinds[k].Break?
  }

  /** `in_cue` holds before line `i` exactly when some timing line above it
      has no timing or break line between them. */
  lemma {:induction false} CueOpenReference(kinds: seq<LineKind>, i: nat)
    requires i <= |kinds|
    ensures CueOpen(kinds, i) <==> exists j: nat :: OpenedAt(kinds, j, i)
  {
    if i > 0 {
      var p := i - 1;
      if kinds[p].Timing? {
        assert OpenedAt(kinds, p, i);
      } else if !kinds[p].Break? {
        CueOpenReference(kinds, p);
        if exists j: nat :: OpenedAt(kinds, j, i) {
          var j: nat :| OpenedAt(kinds, j, i);
          assert j < p;
          assert OpenedAt(kinds, j, p);
        }
        if exists j: nat :: OpenedAt(kinds, j, p) {
          var j: nat :| OpenedAt(kinds, j, p);
          assert OpenedAt(kinds, j, i);
        }
      }
    }
  }

  /** A line is collected exactly when it is a non-empty caption line that
      lies inside an open cue in the sense of the reference. */
  lemma CollectedAtReference(kinds: seq<LineKind>, i: nat)
    requires i < |kinds|
    ensures CollectedAt(kinds, i) <==>
              kinds[i].Caption? && kinds[i].text != "" && exists j: nat :: OpenedAt(kinds, j, i)
  {
    CueOpenReference(kinds, i);
  }

  // ---------------------------------------------------------------------
  // Properties of the collected fragments.

  /** Every caption line of the sequence is non-empty and stripped. */
  ghost predicate CaptionsClean(kinds: seq<LineKind>)
  {
    forall i :: 0 <= i < |kinds| && kinds[i].Caption? ==> kinds[i].text != "" && IsStripped(kinds[i].text)
  }

  lemma ClassifyAllClean(d: Dialect, lines: seq<string>)
    ensures CaptionsClean(ClassifyAll(d, lines))
  {
    forall i | 0 <= i < |lines| && ClassifyAll(d, lines)[i].Caption?
      ensures ClassifyAll(d, lines)[i].text != "" && IsStripped(ClassifyAll(d, lines)[i].text)
    {
      ClassifyAllAt(d, lines, i);
    }
  }

  lemma {:induction false} CollectedClean(kinds: seq<LineKind>, n: nat)
    requires n <= |kinds| && CaptionsClean(kinds)
    ensures CleanFragments(Collected(kinds, n))
  {
    if n > 0 {
      CollectedClean(kinds, n - 1);
      if CollectedAt(kinds, n - 1) {
        StrippedFixpoint(kinds[n - 1].text);
      }
    }
  }

  /** Both parsers emit only non-empty, stripped fragments, so the
      transcript is empty exactly when no fragment was collected. */
  lemma CueFragmentsClean(d: Dialect, content: string)
    ensures CleanFragments(CueFragments(d, content))
    ensures CueTranscript(d, content) == "" <==> CueFragments(d, content) == []
  {
    var lines := Split(content, "\n");
    ClassifyAllClean(d, lines);
    CollectedClean(ClassifyAll(d, lines), |lines|);
    JoinEmpty(CueFragments(d, content), " ");
  }

  /** Without a timing line no cue ever opens, so nothing is collected. */
  lemma {:induction false} ClosedWithoutTiming(kinds: seq<LineKind>, n: nat)
    requires n <= |kinds|
    requires forall k :: 0 <= k < n ==> !kinds[k].Timing?
    ensures !CueOpen(kinds, n) && Collected(kinds, n) == []
  {
    if n > 0 {
      ClosedWithoutTiming(kinds, n - 1);
    }
  }

  /** A payload none of whose lines holds `-->` gives the empty transcript,
      in both dialects. */
  lemma NoTimingNoTranscript(d: Dialect, content: string)
    requires forall k :: 0 <= k < |Split(content, "\n")| ==> !Contains(Strip(Split(content, "\n")[k]), "-->")
    ensures CueFragments(d, content) == [] && CueTranscript(d, content) == ""
  {
    var lines := Split(content, "\n");
    var kinds := ClassifyAll(d, lines);
    forall k | 0 <= k < |lines|
      ensures !kinds[k].Timing?
    {
      ClassifyAllAt(d, lines, k);
    }
    ClosedWithoutTiming(kinds, |lines|);
  }

  // ---------------------------------------------------------------------
  // Two-cue payloads, stated for any lines of the shapes involved.

  /** A stripped line holding `-->`. */
  predicate TimingText(line: string)
  {
    IsStripped(line) && Contains(line, "-->")
  }

  /** A stripped, non-empty line that neither parser reads as anything but
      caption text. */
  predicate CaptionText(line: string)
  {
    IsStripped(line) && line != "" && !Contains(line, "-->") && !IsDigits(line)
    && line != "WEBVTT" && !StartsWith(line, "NOTE")
  }

  lemma ClassifyTiming(d: Dialect, line: string)
    requires TimingText(line)
    ensures Classify(d, line) == Timing
  {
    StrippedFixpoint(line);
  }

  lemma ClassifyNumber(d: Dialect, line: string)
    requires IsDigits(line)
    ensures Classify(d, line) == Break
  {
    assert IsStripped(line) by {
      assert IsDigit(line[0]) && IsDigit(line[|line| - 1]);
    }
    StrippedFixpoint(line);
    assert '-' !in line by {
      forall k | 0 <= k < |line| ensures line[k] != '-' {
        assert IsDigit(line[k]);
      }
    }
    AbsentHeadNotContained(line, "-->");
  }

  lemma ClassifyBlank(d: Dialect)
    ensures Classify(d, "") == Break
  {
    StrippedFixpoint("");
    AbsentHeadNotContained("", "-->");
  }

  lemma ClassifyHeader(line: string)
    requires line == "WEBVTT"
    ensures Classify(WebVtt, line) == Break
  {
    StrippedFixpoint(line);
    AbsentHeadNotContained(line, "-->");
  }

  lemma ClassifyCaption(d: Dialect, line: string)
    requires CaptionText(line)
    ensures Classify(d, line) == Caption(line)
  {
    StrippedFixpoint(line);
  }

  lemma ClassifyNote(line: string)
    requires IsStripped(line) && StartsWith(line, "NOTE") && !Contains(line, "-->")
    ensures Classify(WebVtt, line) == Note
    ensures Classify(Srt, line) == Caption(line)
  {
    StrippedFixpoint(line);
    assert !IsDigit(line[0]);
  }

  lemma ClassifyAllCons(d: Dialect, line: string, rest: seq<string>)
    ensures ClassifyAll(d, [line] + rest) == [Classify(d, line)] + ClassifyAll(d, rest)
  {
    assert ([line] + rest)[1..] == rest;
  }

  /** Lines are classified one by one, so classifying a concatenation
      concatenates the kinds. */
  lemma {:induction false} ClassifyAllAppend(d: Dialect, a: seq<string>, b: seq<string>)
    ensures ClassifyAll(d, a + b) == ClassifyAll(d, a) + ClassifyAll(d, b)
    decreases |a|
  {
    if a != [] {
      assert (a + b)[0] == a[0] && (a + b)[1..] == a[1..] + b;
      ClassifyAllAppend(d, a[1..], b);
      calc {
        ClassifyAll(d, a + b);
        [Classify(d, a[0])] + ClassifyAll(d, a[1..] + b);
        [Classify(d, a[0])] + (ClassifyAll(d, a[1..]) + ClassifyAll(d, b));
        ([Classify(d, a[0])] + ClassifyAll(d, a[1..])) + ClassifyAll(d, b);
      }
    } else {
      assert a + b == b;
    }
  }

  /** The first `m` lines of a concatenation behave as they do alone. */
  lemma {:induction false} CollectedPrefix(k1: seq<LineKind>, k2: seq<LineKind>, m: nat)
    requires m <= |k1|
    ensures CueOpen(k1 + k2, m) == CueOpen(k1, m)
    ensures Collected(k1 + k2, m) == Collected(k1, m)
  {
    if m > 0 {
      CollectedPrefix(k1, k2, m - 1);
      assert (k1 + k2)[m - 1] == k1[m - 1];
    }
  }

  /** After a timing or break line the state no longer depends on the
      lines before it. */
  lemma {:induction false} CollectedAfterReset(k1: seq<LineKind>, k2: seq<LineKind>, i: nat)
    requires 1 <= i <= |k2| && (k2[0].Timing? || k2[0].Break?)
    ensures CueOpen(k1 + k2, |k1| + i) == CueOpen(k2, i)
    ensures Collected(k1 + k2, |k1| + i) == Collected(k1, |k1|) + Collected(k2, i)
  {
    var k := k1 + k2;
    assert k[|k1| + i - 1] == k2[i - 1];
    if i == 1 {
      CollectedPrefix(k1, k2, |k1|);
    } else {
      CollectedAfterReset(k1, k2, i - 1);
    }
  }

  /** A block that opens with a timing or break line adds its own fragments
      to those collected before it. */
  lemma CollectedAppend(k1: seq<LineKind>, k2: seq<LineKind>)
    requires |k2| >= 1 && (k2[0].Timing? || k2[0].Break?)
    ensures Collected(k1 + k2, |k1 + k2|) == Collected(k1, |k1|) + Collected(k2, |k2|)
  {
    CollectedAfterReset(k1, k2, |k2|);
  }

  /** A cue number, a timing line and one text line. */
  lemma NumberedCue(d: Dialect, n: string, t: string, c: string)
    requires IsDigits(n) && TimingText(t) && CaptionText(c)
    ensures ClassifyAll(d, [n, t, c]) == [Break, Timing, Caption(c)]
    ensures Collected([Break, Timing, Caption(c)], 3) == [c]
  {
    ClassifyNumber(d, n);
    ClassifyTiming(d, t);
    ClassifyCaption(d, c);
    ClassifyAllCons(d, c, []);
    ClassifyAllCons(d, t, [c]);
    ClassifyAllCons(d, n, [t, c]);
    ThreeCons(n, t, c);
    var kinds := [Break, Timing, Caption(c)];
    assert Collected(kinds, 1) == [] && !CueOpen(kinds, 1);
    assert Collected(kinds, 2) == [] && CueOpen(kinds, 2);
  }

  /** A blank line followed by a numbered cue. */
  lemma BlankThenCue(d: Dialect, n: string, t: string, c: string)
    requires IsDigits(n) && TimingText(t) && CaptionText(c)
    ensures ClassifyAll(d, ["", n, t, c]) == [Break, Break, Timing, Caption(c)]
    ensures Collected([Break, Break, Timing, Caption(c)], 4) == [c]
  {
    NumberedCue(d, n, t, c);
    ClassifyBlank(d);
    ClassifyAllCons(d, "", [n, t, c]);
    OneThenThree("", n, t, c);
    var kinds := [Break, Break, Timing, Caption(c)];
    assert Collected(kinds, 1) == [] && !CueOpen(kinds, 1);
    assert Collected(kinds, 2) == [] && !CueOpen(kinds, 2);
    assert Collected(kinds, 3) == [] && CueOpen(kinds, 3);
  }

  /** Payloads written line by line. */
  lemma SevenLines(l: seq<string>)
    requires |l| == 7
    requires '\n' !in l[0] && '\n' !in l[1] && '\n' !in l[2] && '\n' !in l[3]
    requires '\n' !in l[4] && '\n' !in l[5] && '\n' !in l[6]
    ensures Split(Join(l, "\n"), "\n") == l
  {
    SplitJoin(l, '\n');
  }

  lemma NineLines(l: seq<string>)
    requires |l| == 9
    requires '\n' !in l[0] && '\n' !in l[1] && '\n' !in l[2] && '\n' !in l[3] && '\n' !in l[4]
    requires '\n' !in l[5] && '\n' !in l[6] && '\n' !in l[7] && '\n' !in l[8]
    ensures Split(Join(l, "\n"), "\n") == l
  {
    SplitJoin(l, '\n');
  }

  lemma ThreeLines(l: seq<string>)
    requires |l| == 3
    requires '\n' !in l[0] && '\n' !in l[1] && '\n' !in l[2]
    ensures Split(Join(l, "\n"), "\n") == l
  {
    SplitJoin(l, '\n');
  }

  lemma TwoCuesKinds(d: Dialect, n1: string, t1: string, c1: string, n2: string, t2: string, c2: string)
    requires IsDigits(n1) && IsDigits(n2)
    requires TimingText(t1) && TimingText(t2)
    requires CaptionText(c1) && CaptionText(c2)
    ensures Collected(ClassifyAll(d, [n1, t1, c1, "", n2, t2, c2]), 7) == [c1, c2]
  {
    var b1, b2 := [n1, t1, c1], ["", n2, t2, c2];
    var k1, k2 := [Break, Timing, Caption(c1)], [Break, Break, Timing, Caption(c2)];
    NumberedCue(d, n1, t1, c1);
    BlankThenCue(d, n2, t2, c2);
    ClassifyAllAppend(d, b1, b2);
    CollectedAppend(k1, k2);
    ThreeThenFour(n1, t1, c1, "", n2, t2, c2);
    ThreeThenFour(Break, Timing, Caption(c1), Break, Break, Timing, Caption(c2));
  }

  lemma ThreeCons<T>(a: T, b: T, c: T)
    ensures [a, b, c] == [a] + ([b] + ([c] + []))
  {
  }

  lemma OneThenThree<T>(a: T, b: T, c: T, d: T)
    ensures [a] + [b, c, d] == [a, b, c, d]
  {
  }

  lemma ThreeThenFour<T>(a: T, b: T, c: T, d: T, e: T, f: T, g: T)
    ensures [a, b, c] + [d, e, f, g] == [a, b, c, d, e, f, g]
  {
  }

  lemma FiveThenFour<T>(a: T, b: T, c: T, d: T, e: T, f: T, g: T, h: T, i: T)
    ensures [a, b, c, d, e] + [f, g, h, i] == [a, b, c, d, e, f, g, h, i]
  {
  }

  /** Two numbered cues of one text line each, separated by a blank line,
      give their texts joined by a space, in either dialect (so the SRT
      payload `1`, `00:00 --> 00:02`, `Hello there`, blank, `2`,
      `00:02 --> 00:04`, `world` gives `Hello there world`). */
  lemma TwoNumberedCues(d: Dialect, n1: string, t1: string, c1: string, n2: string, t2: string, c2: string)
    requires IsDigits(n1) && IsDigits(n2)
    requires TimingText(t1) && TimingText(t2)
    requires CaptionText(c1) && CaptionText(c2)
    requires '\n' !in n1 && '\n' !in t1 && '\n' !in c1
    requires '\n' !in n2 && '\n' !in t2 && '\n' !in c2
    ensures CueFragments(d, Join([n1, t1, c1, "", n2, t2, c2], "\n")) == [c1, c2]
    ensures CueTranscript(d, Join([n1, t1, c1, "", n2, t2, c2], "\n")) == c1 + " " + c2
  {
    SevenLines([n1, t1, c1, "", n2, t2, c2]);
    TwoCuesKinds(d, n1, t1, c1, n2, t2, c2);
    assert Join([c1, c2], " ") == c1 + " " + c2;
  }

  /** The `WEBVTT` header and the blank line after it. */
  lemma HeaderLines(h: string)
    requires Classify(WebVtt, h) == Break
    ensures ClassifyAll(WebVtt, [h, ""]) == [Break, Break]
    ensures Collected([Break, Break], 2) == []
  {
    ClassifyBlank(WebVtt);
    ClassifyAllCons(WebVtt, "", []);
    ClassifyAllCons(WebVtt, h, [""]);
    assert [h, ""] == [h] + ([""] + []);
  }

  lemma HeaderThenCue(h: string, n: string, t: string, c: string)
    requires Classify(WebVtt, h) == Break
    requires IsDigits(n) && TimingText(t) && CaptionText(c)
    ensures ClassifyAll(WebVtt, [h, "", n, t, c]) == [Break, Break, Break, Timing, Caption(c)]
    ensures Collected([Break, Break, Break, Timing, Caption(c)], 5) == [c]
  {
    var b0, b1 := [h, ""], [n, t, c];
    var k0, k1 := [Break, Break], [Break, Timing, Caption(c)];
    HeaderLines(h);
    NumberedCue(WebVtt, n, t, c);
    ClassifyAllAppend(WebVtt, b0, b1);
    CollectedAppend(k0, k1);
    TwoThenThree(h, "", n, t, c);
    TwoThenThree(Break, Break, Break, Timing, Caption(c));
  }

  lemma TwoThenThree<T>(a: T, b: T, c: T, d: T, e: T)
    ensures [a, b] + [c, d, e] == [a, b, c, d, e]
  {
  }

  /** A blank line and a numbered cue after any block add that cue's text. */
  lemma CueAfterBlock(d: Dialect, b: seq<string>, k: seq<LineKind>, n: string, t: string, c: string)
    requires ClassifyAll(d, b) == k
    requires IsDigits(n) && TimingText(t) && CaptionText(c)
    ensures Collected(ClassifyAll(d, b + ["", n, t, c]), |b| + 4) == Collected(k, |k|) + [c]
  {
    var k2 := [Break, Break, Timing, Caption(c)];
    BlankThenCue(d, n, t, c);
    ClassifyAllAppend(d, b, ["", n, t, c]);
    CollectedAppend(k, k2);
  }

  lemma WebVttKinds(h: string, n1: string, t1: string, c1: string, n2: string, t2: string, c2: string)
    requires Classify(WebVtt, h) == Break
    requires IsDigits(n1) && IsDigits(n2)
    requires TimingText(t1) && TimingText(t2)
    requires CaptionText(c1) && CaptionText(c2)
    ensures Collected(ClassifyAll(WebVtt, [h, "", n1, t1, c1, "", n2, t2, c2]), 9) == [c1, c2]
  {
    var b := [h, "", n1, t1, c1];
    HeaderThenCue(h, n1, t1, c1);
    CueAfterBlock(WebVtt, b, [Break, Break, Break, Timing, Caption(c1)], n2, t2, c2);
    FiveThenFour(h, "", n1, t1, c1, "", n2, t2, c2);
  }

  /** A WebVTT payload: the `WEBVTT` header, blank lines and cue numbers
      close cues, and the two cue texts are the fragments (for instance the
      payload with timings `00:00:00.000 --> 00:00:02.000` and
      `00:00:02.000 --> 00:00:04.000` and texts `Hello there`, `world`). */
  lemma WebVttTwoCues(h: string, n1: string, t1: string, c1: string, n2: string, t2: string, c2: string)
    requires h == "WEBVTT"
    requires IsDigits(n1) && IsDigits(n2)
    requires TimingText(t1) && TimingText(t2)
    requires CaptionText(c1) && CaptionText(c2)
    requires '\n' !in n1 && '\n' !in t1 && '\n' !in c1
    requires '\n' !in n2 && '\n' !in t2 && '\n' !in c2
    ensures CueFragments(WebVtt, Join([h, "", n1, t1, c1, "", n2, t2, c2], "\n")) == [c1, c2]
  {
    NineLines([h, "", n1, t1, c1, "", n2, t2, c2]);
    ClassifyHeader(h);
    WebVttKinds(h, n1, t1, c1, n2, t2, c2);
  }

  lemma DigitLineKinds(d: Dialect, t: string, n: string, c: string)
    requires TimingText(t) && IsDigits(n) && CaptionText(c)
    ensures ClassifyAll(d, [t, n, c]) == [Timing, Break, Caption(c)]
    ensures Collected([Timing, Break, Caption(c)], 3) == []
  {
    ClassifyTiming(d, t);
    ClassifyNumber(d, n);
    ClassifyCaption(d, c);
    ClassifyAllCons(d, c, []);
    ClassifyAllCons(d, n, [c]);
    ClassifyAllCons(d, t, [n, c]);
    ThreeCons(t, n, c);
    var kinds := [Timing, Break, Caption(c)];
    assert Collected(kinds, 1) == [] && CueOpen(kinds, 1);
    assert Collected(kinds, 2) == [] && !CueOpen(kinds, 2);
  }

  /** A caption line made only of digits is taken for a cue number: it
      closes the cue and is dropped with everything after it in that cue,
      in both dialects (`00:00 --> 00:02`, `100`, `percent` gives the
      empty transcript). */
  lemma DigitCaptionDropped(d: Dialect, t: string, n: string, c: string)
    requires TimingText(t) && IsDigits(n) && CaptionText(c)
    requires '\n' !in t && '\n' !in n && '\n' !in c
    ensures CueTranscript(d, Join([t, n, c], "\n")) == ""
  {
    ThreeLines([t, n, c]);
    DigitLineKinds(d, t, n, c);
  }

  lemma NoteLineKinds(t: string, note: string, c: string)
    requires TimingText(t) && CaptionText(c)
    requires IsStripped(note) && StartsWith(note, "NOTE") && !Contains(note, "-->")
    ensures ClassifyAll(WebVtt, [t, note, c]) == [Timing, Note, Caption(c)]
    ensures ClassifyAll(Srt, [t, note, c]) == [Timing, Caption(note), Caption(c)]
  {
    ClassifyNote(note);
    ClassifyTiming(WebVtt, t);
    ClassifyCaption(WebVtt, c);
    ClassifyTiming(Srt, t);
    ClassifyCaption(Srt, c);
    ThreeCons(t, note, c);
    ClassifyAllCons(WebVtt, c, []);
    ClassifyAllCons(WebVtt, note, [c]);
    ClassifyAllCons(WebVtt, t, [note, c]);
    ClassifyAllCons(Srt, c, []);
    ClassifyAllCons(Srt, note, [c]);
    ClassifyAllCons(Srt, t, [note, c]);
  }

  lemma NoteLineCollected(c: string, note: string)
    requires c != "" && note != ""
    ensures Collected([Timing, Note, Caption(c)], 3) == [c]
    ensures Collected([Timing, Caption(note), Caption(c)], 3) == [note, c]
  {
    var vtt := [Timing, Note, Caption(c)];
    var srt := [Timing, Caption(note), Caption(c)];
    assert Collected(vtt, 1) == [] && CueOpen(vtt, 1);
    assert Collected(vtt, 2) == [] && CueOpen(vtt, 2);
    assert Collected(srt, 1) == [] && CueOpen(srt, 1);
    assert Collected(srt, 2) == [note] && CueOpen(srt, 2);
  }

  /** Inside a cue, a `NOTE` line is skipped by the WebVTT parser but kept
      by the SRT parser, and in neither does it close the cue. */
  lemma NoteLineInCue(t: string, note: string, c: string)
    requires TimingText(t) && CaptionText(c)
    requires IsStripped(note) && StartsWith(note, "NOTE") && !Contains(note, "-->")
    requires '\n' !in t && '\n' !in note && '\n' !in c
    ensures CueFragments(WebVtt, Join([t, note, c], "\n")) == [c]
    ensures CueFragments(Srt, Join([t, note, c], "\n")) == [note, c]
  {
    ThreeLines([t, note, c]);
    NoteLineKinds(t, note, c);
    NoteLineCollected(c, note);
  }

  /** The lines of the two-cue payloads `1\n00:00 --> 00:02\nHello there\n\n2\n00:02 --> 00:04\nworld`
      and its WebVTT counterpart have the shapes the lemmas above ask for. */
  lemma SrtExampleNumbers()
    ensures IsDigits("1") && IsDigits("2")
  {
  }

  lemma SrtExampleTimings()
    ensures TimingText("00:00 --> 00:02") && TimingText("00:02 --> 00:04")
  {
    SrtFirstTiming();
    SrtSecondTiming();
  }

  lemma SrtFirstTiming()
    ensures TimingText("00:00 --> 00:02")
  {
    ContainsAt("00:00 --> 00:02", "-->", 6);
  }

  lemma SrtSecondTiming()
    ensures TimingText("00:02 --> 00:04")
  {
    ContainsAt("00:02 --> 00:04", "-->", 6);
  }

  lemma ExampleCaptions()
    ensures CaptionText("Hello there") && CaptionText("world")
  {
    HelloThereCaption();
    WorldCaption();
  }

  lemma HelloThereCaption()
    ensures CaptionText("Hello there")
  {
    assert !IsDigit("Hello there"[0]);
    AbsentHeadNotContained("Hello there", "-->");
  }

  lemma WorldCaption()
    ensures CaptionText("world")
  {
    assert !IsDigit("world"[0]);
    AbsentHeadNotContained("world", "-->");
  }

  lemma VttExampleTimings()
    ensures TimingText("00:00:00.000 --> 00:00:02.000") && TimingText("00:00:02.000 --> 00:00:04.000")
  {
    VttFirstTiming();
    VttSecondTiming();
  }

  lemma VttFirstTiming()
    ensures TimingText("00:00:00.000 --> 00:00:02.000")
  {
    ContainsAt("00:00:00.000 --> 00:00:02.000", "-->", 13);
  }

  lemma VttSecondTiming()
    ensures TimingText("00:00:02.000 --> 00:00:04.000")
  {
    ContainsAt("00:00:02.000 --> 00:00:04.000", "-->", 13);
  }
}
