/** The JSON3 caption parser (`parse_json_subtitle`). YouTube's JSON3 format
    is an object whose `events` list holds objects with a `segs` list of
    segments, each carrying its text under `utf8`. The parser walks the
    decoded value with Python's own operations (`in`, iteration,
    subscription, `.strip()`), and any operation Python would refuse makes
    the whole parse fail. */
module JsonEvents {
  import opened Results
  import opened Text

  /** A decoded JSON value. An object keeps its entries in document order;
      numbers carry no payload because the parser never looks inside one. */
  datatype Json =
    | JNull
    | JBool(b: bool)
    | JNumber
    | JString(s: string)
    | JArray(elems: seq<Json>)
    | JObject(entries: seq<(string, Json)>)

  /** The value stored under `key`. When a document repeats a key, Python's
      decoder keeps the last occurrence. */
  function Lookup(entries: seq<(string, Json)>, key: string): (r: Option<Json>)
    ensures r.None? <==> forall i :: 0 <= i < |entries| ==> entries[i].0 != key
    ensures r.Some? ==> exists i :: && 0 <= i < |entries| && entries[i] == (key, r.value)
                                    && forall j :: i < j < |entries| ==> entries[j].0 != key
  {
    if entries == [] then None
    else if entries[|entries| - 1].0 == key then Some(entries[|entries| - 1].1)
    else Lookup(entries[..|entries| - 1], key)
  }

  /** The keys of an object, in order. */
  function Keys(entries: seq<(string, Json)>): (ks: seq<Json>)
    ensures |ks| == |entries|
    ensures forall i :: 0 <= i < |entries| ==> ks[i] == JString(entries[i].0)
  {
    if entries == [] then [] else [JString(entries[0].0)] + Keys(entries[1..])
  }

  /** The one-character strings of a string, in order. */
  function Chars(s: string): (cs: seq<Json>)
    ensures |cs| == |s|
    ensures forall i :: 0 <= i < |s| ==> cs[i] == JString([s[i]])
  {
    if s == [] then [] else [JString([s[0]])] + Chars(s[1..])
  }

  /** `for x in v`: a list yields its elements, an object its keys and a
      string its characters; anything else cannot be iterated. */
  function Iter(v: Json): (r: Option<seq<Json>>)
    ensures r.None? <==> !(v.JArray? || v.JObject? || v.JString?)
    ensures v.JArray? ==> r == Some(v.elems)
  {
    match v
    case JArray(elems) => Some(elems)
    case JObject(entries) => Some(Keys(entries))
    case JString(s) => Some(Chars(s))
    case _ => None
  }

  /** `key in v`: an object tests its keys, a list its elements and a string
      its substrings; anything else refuses the test. */
  function Has(v: Json, key: string): (r: Option<bool>)
    ensures r.None? <==> !(v.JArray? || v.JObject? || v.JString?)
    ensures v.JObject? ==> r == Some(Lookup(v.entries, key).Some?)
    ensures v.JArray? ==> r == Some(JString(key) in v.elems)
  {
    match v
    case JObject(entries) => Some(Lookup(entries, key).Some?)
    case JArray(elems) => Some(JString(key) in elems)
    case JString(s) => Some(Contains(s, key))
    case _ => None
  }

  /** `v[key]` with a string key: only an object holding the key answers. */
  function Subscript(v: Json, key: string): (r: Option<Json>)
    ensures r.Some? <==> v.JObject? && Lookup(v.entries, key).Some?
  {
    if v.JObject? then Lookup(v.entries, key) else None
  }

  /** `v.get(key, default)`: only an object has `get`. */
  function Get(v: Json, key: string, default: Json): (r: Option<Json>)
    ensures r.None? <==> !v.JObject?
    ensures v.JObject? && Lookup(v.entries, key).None? ==> r == Some(default)
  {
    if !v.JObject? then None
    else match Lookup(v.entries, key)
      case None => Some(default)
      case Some(x) => Some(x)
  }

  /** `v.strip()`: only a string has `strip`. */
  function StripValue(v: Json): (r: Option<string>)
    ensures r.Some? <==> v.JString?
    ensures r.Some? ==> IsStripped(r.value)
  {
    if v.JString? then StripStripped(v.s); Some(Strip(v.s)) else None
  }

  /** The parser keeps a stripped text that is non-empty and is neither a
      newline nor a single space. */
  predicate Keep(text: string)
  {
    text != "" && text != "\n" && text != " "
  }

  /** The fragments one segment contributes; None when Python would raise. */
  function SegFragments(seg: Json): Option<seq<string>>
  {
    match Has(seg, "utf8")
    case None => None
    case Some(has) =>
      if !has then Some([])
      else match Subscript(seg, "utf8")
        case None => None
        case Some(v) =>
          match StripValue(v)
          case None => None
          case Some(text) => Some(if Keep(text) then [text] else [])
  }

  /** The fragments of a list of values, in order, each contributing
      `f` of itself; None as soon as one value fails. */
  function Gather(xs: seq<Json>, f: Json -> Option<seq<string>>): Option<seq<string>>
  {
    if xs == [] then Some([])
    else match Gather(xs[..|xs| - 1], f)
      case None => None
      case Some(before) =>
        match f(xs[|xs| - 1])
        case None => None
        case Some(more) => Some(before + more)
  }

  /** The fragments one event contributes: those of its `segs`, if any. */
  function EventFragments(event: Json): Option<seq<string>>
  {
    match Has(event, "segs")
    case None => None
    case Some(has) =>
      if !has then Some([])
      else match Subscript(event, "segs")
        case None => None
        case Some(segs) =>
          match Iter(segs)
          case None => None
          case Some(list) => Gather(list, SegFragments)
  }

  /** The fragments of a decoded document: those of its `events`, which
      default to the empty list. */
  function JsonFragments(data: Json): Option<seq<string>>
  {
    match Get(data, "events", JArray([]))
    case None => None
    case Some(events) =>
      match Iter(events)
      case None => None
      case Some(list) => Gather(list, EventFragments)
  }

  /** The transcript: the fragments joined by single spaces. */
  function JsonTranscript(data: Json): Option<string>
  {
    match JsonFragments(data)
    case None => None
    case Some(parts) => Some(Join(parts, " "))
  }

  /** Once a prefix fails, the whole list fails. */
  lemma {:induction false} GatherFailurePersists(xs: seq<Json>, f: Json -> Option<seq<string>>, n: nat)
    requires n <= |xs| && Gather(xs[..n], f) == None
    ensures Gather(xs, f) == None
    decreases |xs| - n
  {
    if n < |xs| {
      assert xs[..n + 1][..n] == xs[..n];
      GatherFailurePersists(xs, f, n + 1);
    } else {
      assert xs[..n] == xs;
    }
  }

  /** One step of the walk. */
  lemma GatherStep(xs: seq<Json>, f: Json -> Option<seq<string>>, j: nat)
    requires j < |xs| && Gather(xs[..j], f).Some?
    ensures f(xs[j]).None? ==> Gather(xs[..j + 1], f) == None
    ensures f(xs[j]).Some? ==> Gather(xs[..j + 1], f) == Some(Gather(xs[..j], f).value + f(xs[j]).value)
  {
    assert xs[..j + 1][..j] == xs[..j];
  }

  /** Consecutive lists contribute their fragments in order, and the whole
      fails exactly when one of the lists does. */
  lemma {:induction false} GatherAppend(a: seq<Json>, b: seq<Json>, f: Json -> Option<seq<string>>)
    ensures Gather(a + b, f).Some? <==> Gather(a, f).Some? && Gather(b, f).Some?
    ensures Gather(a + b, f).Some? ==> Gather(a + b, f).value == Gather(a, f).value + Gather(b, f).value
    decreases |b|
  {
    if b == [] {
      assert a + b == a;
    } else {
      var b0, e := b[..|b| - 1], b[|b| - 1];
      assert (a + b)[..|a + b| - 1] == a + b0;
      assert (a + b)[|a + b| - 1] == e;
      GatherAppend(a, b0, f);
      if Gather(a, f).Some? && Gather(b0, f).Some? && f(e).Some? {
        var pa, pb, pe := Gather(a, f).value, Gather(b0, f).value, f(e).value;
        assert pa + pb + pe == pa + (pb + pe);
      }
    }
  }

  /** A single value contributes its own fragments. */
  lemma GatherOne(x: Json, f: Json -> Option<seq<string>>)
    ensures Gather([x], f) == f(x)
  {
    assert [x][..0] == [];
    if f(x).Some? {
      assert [] + f(x).value == f(x).value;
    }
  }

  /** Values that each contribute clean fragments gather clean fragments. */
  lemma {:induction false} GatherClean(xs: seq<Json>, f: Json -> Option<seq<string>>)
    requires forall x :: f(x).Some? ==> CleanFragments(f(x).value)
    ensures Gather(xs, f).Some? ==> CleanFragments(Gather(xs, f).value)
    decreases |xs|
  {
    if xs != [] {
      GatherClean(xs[..|xs| - 1], f);
    }
  }

  /** The fragments of one event: walks its `segs`, if it has them. */
  method EventParts(event: Json) returns (r: Option<seq<string>>)
    ensures r == EventFragments(event)
  {
    var hasSegs := Has(event, "segs");
    if hasSegs.None? {
      return None;
    }
    if !hasSegs.value {
      return Some([]);
    }
    var segsValue := Subscript(event, "segs");
    if segsValue.None? {
      return None;
    }
    var segIter := Iter(segsValue.value);
    if segIter.None? {
      return None;
    }
    var segs := segIter.value;
    var parts: seq<string> := [];
    for j := 0 to |segs|
      invariant Gather(segs[..j], SegFragments) == Some(parts)
    {
      GatherStep(segs, SegFragments, j);
      var more := SegFragments(segs[j]);
      if more.None? {
        GatherFailurePersists(segs, SegFragments, j + 1);
        return None;
      }
      parts := parts + more.value;
    }
    assert segs[..|segs|] == segs;
    r := Some(parts);
  }

  /** Walks the events and their segments, collecting the kept texts, and
      joins them with spaces; None where Python would raise. */
  method ParseJsonSubtitle(data: Json) returns (r: Option<string>)
    ensures r == JsonTranscript(data)
  {
    var got := Get(data, "events", JArray([]));
    if got.None? {
      return None;
    }
    var iter := Iter(got.value);
    if iter.None? {
      return None;
    }
    var events := iter.value;
    var parts: seq<string> := [];
    for i := 0 to |events|
      invariant Gather(events[..i], EventFragments) == Some(parts)
    {
      GatherStep(events, EventFragments, i);
      var more := EventParts(events[i]);
      if more.None? {
        GatherFailurePersists(events, EventFragments, i + 1);
        return None;
      }
      parts := parts + more.value;
    }
    assert events[..|events|] == events;
    r := Some(Join(parts, " "));
  }

  // Properties of the parser.

  lemma SegFragmentsClean(seg: Json)
    ensures SegFragments(seg).Some? ==> CleanFragments(SegFragments(seg).value)
  {
  }

  lemma EventFragmentsClean(event: Json)
    ensures EventFragments(event).Some? ==> CleanFragments(EventFragments(event).value)
  {
    forall seg | SegFragments(seg).Some?
      ensures CleanFragments(SegFragments(seg).value)
    {
      SegFragmentsClean(seg);
    }
    if Has(event, "segs") == Some(true) && Subscript(event, "segs").Some? && Iter(Subscript(event, "segs").value).Some? {
      GatherClean(Iter(Subscript(event, "segs").value).value, SegFragments);
    }
  }

  /** The fragments are non-empty stripped texts, so the transcript is
      empty exactly when no segment text was kept. */
  lemma JsonFragmentsClean(data: Json)
    ensures JsonTranscript(data).Some? <==> JsonFragments(data).Some?
    ensures JsonFragments(data).Some? ==>
              && JsonTranscript(data).Some?
              && CleanFragments(JsonFragments(data).value)
              && (JsonTranscript(data).value == "" <==> JsonFragments(data).value == [])
  {
    var got := Get(data, "events", JArray([]));
    if got.Some? && Iter(got.value).Some? {
      forall e | EventFragments(e).Some?
        ensures CleanFragments(EventFragments(e).value)
      {
        EventFragmentsClean(e);
      }
      GatherClean(Iter(got.value).value, EventFragments);
      if JsonFragments(data).Some? {
        JoinEmpty(JsonFragments(data).value, " ");
      }
    }
  }

  /** After stripping, the newline and single-space filters never reject
      anything the emptiness test lets through. */
  lemma KeepAfterStrip(raw: string)
    ensures Keep(Strip(raw)) <==> Strip(raw) != ""
  {
    StripStripped(raw);
    var t := Strip(raw);
    if t == "\n" {
      assert IsSpace(t[0]);
    }
    if t == " " {
      assert IsSpace(t[0]);
    }
  }

  /** A document that is not an object has no `get`: the parse fails. */
  lemma NonObjectFails(data: Json)
    requires !data.JObject?
    ensures JsonTranscript(data) == None
  {
  }

  /** A document without `events` has no fragments: the transcript is the
      empty string. */
  lemma MissingEventsEmpty(entries: seq<(string, Json)>)
    requires forall i :: 0 <= i < |entries| ==> entries[i].0 != "events"
    ensures JsonTranscript(JObject(entries)) == Some("")
  {
  }

  /** `events` that cannot be iterated (a number, a boolean, null) make the
      parse fail. */
  lemma EventsNotIterableFails(entries: seq<(string, Json)>)
    requires Lookup(entries, "events").Some?
    requires !(Lookup(entries, "events").value.JArray? || Lookup(entries, "events").value.JObject?
               || Lookup(entries, "events").value.JString?)
    ensures JsonTranscript(JObject(entries)) == None
  {
  }

  /** An event object without `segs` contributes nothing. */
  lemma EventWithoutSegs(entries: seq<(string, Json)>)
    requires forall i :: 0 <= i < |entries| ==> entries[i].0 != "segs"
    ensures EventFragments(JObject(entries)) == Some([])
  {
  }

  /** A segment object without `utf8` contributes nothing. */
  lemma SegWithoutUtf8(entries: seq<(string, Json)>)
    requires forall i :: 0 <= i < |entries| ==> entries[i].0 != "utf8"
    ensures SegFragments(JObject(entries)) == Some([])
  {
  }

  /** A segment whose `utf8` is not a string cannot be stripped: the whole
      parse fails, whatever else the document holds. */
  lemma NonStringTextFails(before: seq<Json>, after: seq<Json>, segBefore: seq<Json>, segAfter: seq<Json>, other: Json)
    requires !other.JString?
    ensures Gather(before + [JObject([("segs", JArray(segBefore + [JObject([("utf8", other)])] + segAfter))])] + after, EventFragments) == None
  {
    var bad := JObject([("utf8", other)]);
    var segs := segBefore + [bad] + segAfter;
    assert SegFragments(bad) == None;
    assert segs[..|segBefore| + 1] == segBefore + [bad];
    assert segs[..|segBefore| + 1][..|segBefore|] == segBefore;
    if Gather(segBefore, SegFragments).None? {
      assert segs[..|segBefore|] == segBefore;
      GatherFailurePersists(segs, SegFragments, |segBefore|);
    } else {
      GatherFailurePersists(segs, SegFragments, |segBefore| + 1);
    }
    var event := JObject([("segs", JArray(segs))]);
    assert EventFragments(event) == None;
    var events := before + [event] + after;
    assert events[..|before| + 1] == before + [event];
    assert events[..|before| + 1][..|before|] == before;
    if Gather(before, EventFragments).None? {
      assert events[..|before|] == before;
      GatherFailurePersists(events, EventFragments, |before|);
    } else {
      GatherFailurePersists(events, EventFragments, |before| + 1);
    }
  }

  /** A segment carrying `text`, an event carrying segments, and a
      document carrying events, as YouTube writes them. */
  function TextSeg(text: string): Json
  {
    JObject([("utf8", JString(text))])
  }

  function SegsEvent(segs: seq<Json>): Json
  {
    JObject([("segs", JArray(segs))])
  }

  function EventsDoc(events: seq<Json>): Json
  {
    JObject([("events", JArray(events))])
  }

  /** A segment contributes its stripped text unless that is empty. */
  lemma TextSegFragments(text: string)
    ensures Strip(text) == "" ==> SegFragments(TextSeg(text)) == Some([])
    ensures Strip(text) != "" ==> SegFragments(TextSeg(text)) == Some([Strip(text)])
  {
    KeepAfterStrip(text);
  }

  /** An event contributes the fragments of its segments; a document those
      of its events. */
  lemma SegsEventFragments(segs: seq<Json>)
    ensures EventFragments(SegsEvent(segs)) == Gather(segs, SegFragments)
  {
  }

  lemma EventsDocFragments(events: seq<Json>)
    ensures JsonFragments(EventsDoc(events)) == Gather(events, EventFragments)
  {
  }

  lemma TwoSegs(a: string, sp: string)
    requires a != "" && IsStripped(a) && Strip(sp) == ""
    ensures EventFragments(SegsEvent([TextSeg(a), TextSeg(sp)])) == Some([a])
  {
    StripOfStripped(a);
    TextSegFragments(a);
    TextSegFragments(sp);
    GatherOne(TextSeg(a), SegFragments);
    GatherOne(TextSeg(sp), SegFragments);
    GatherAppend([TextSeg(a)], [TextSeg(sp)], SegFragments);
    assert [TextSeg(a)] + [TextSeg(sp)] == [TextSeg(a), TextSeg(sp)];
    assert [a] + [] == [a];
    SegsEventFragments([TextSeg(a), TextSeg(sp)]);
  }

  lemma OneSeg(b: string)
    requires b != "" && IsStripped(b)
    ensures EventFragments(SegsEvent([TextSeg(b)])) == Some([b])
  {
    StripOfStripped(b);
    TextSegFragments(b);
    GatherOne(TextSeg(b), SegFragments);
    SegsEventFragments([TextSeg(b)]);
  }

  /** Two events, the first with a text segment and a blank one, the second
      with one text segment, give the two texts (for instance the events
      with segments `Hello`, a lone space and `world`). */
  lemma HelloWorldEvents(a: string, sp: string, b: string)
    requires a != "" && IsStripped(a) && b != "" && IsStripped(b) && Strip(sp) == ""
    ensures JsonFragments(EventsDoc([SegsEvent([TextSeg(a), TextSeg(sp)]), SegsEvent([TextSeg(b)])]))
              == Some([a, b])
    ensures JsonTranscript(EventsDoc([SegsEvent([TextSeg(a), TextSeg(sp)]), SegsEvent([TextSeg(b)])]))
              == Some(a + " " + b)
  {
    var e1, e2 := SegsEvent([TextSeg(a), TextSeg(sp)]), SegsEvent([TextSeg(b)]);
    TwoSegs(a, sp);
    OneSeg(b);
    GatherOne(e1, EventFragments);
    GatherOne(e2, EventFragments);
    GatherAppend([e1], [e2], EventFragments);
    assert [e1] + [e2] == [e1, e2];
    assert [a] + [b] == [a, b];
    EventsDocFragments([e1, e2]);
    assert JsonFragments(EventsDoc([e1, e2])) == Some([a, b]);
    assert Join([a, b], " ") == a + " " + b;
  }

  /** The segment texts `Hello`, ` ` and `world` have those shapes. */
  lemma HelloWorldTexts()
    ensures "Hello" != "" && IsStripped("Hello") && "world" != "" && IsStripped("world")
    ensures Strip(" ") == ""
  {
  }
}
