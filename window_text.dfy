/**
 * The texts AmbiguityAnalyzerServiceImpl hands to the router: escapeJson, the
 * one-event and many-event window documents, the window id and the logged
 * latencies. A reader for exactly these documents proves that each text
 * carries the window's labels and timestamps, in order.
 */
module WindowText {
  import opened Wrappers
  import opened Text
  import opened Events
  import opened Json

  /** The debounce period in milliseconds. */
  const WindowSize: int := 1000

  // ----- escapeJson -----

  /**
   * String.replace(target, replacement) for a one-character target: every
   * character of the result is the replacement's or an untouched one of s,
   * so no target is left unless the replacement brings it back.
   */
  function ReplaceAll(s: string, target: char, replacement: string): (r: string)
    ensures forall c :: c in r ==> c in replacement || (c in s && c != target)
    ensures target !in replacement ==> target !in r
  {
    if s == [] then []
    else (if s[0] == target then replacement else [s[0]]) + ReplaceAll(s[1..], target, replacement)
  }

  /** The chain of five replace calls, backslash first: no raw newline, carriage return or tab is left. */
  function ReplaceChain(s: string): (r: string)
    ensures '\n' !in r && '\r' !in r && '\t' !in r
  {
    ReplaceAll(ReplaceAll(ReplaceAll(ReplaceAll(ReplaceAll(s, '\\', "\\\\"), '"', "\\\""), '\n', "\\n"), '\r', "\\r"), '\t', "\\t")
  }

  /**
   * escapeJson: null becomes the empty string, anything else goes through
   * the replace chain, which escapes each character on its own.
   */
  function EscapeJson(str: Option<string>): (r: string)
    ensures str.None? ==> r == ""
    ensures str.Some? ==> r == EscapeEach(str.value)
  {
    match str
    case None => ""
    case Some(s) => EscapeJsonPerChar(s); ReplaceChain(s)
  }

  /** Reference definition: each character on its own, only five of them escaped. */
  function EscapeChar(c: char): string
  {
    if c == '\\' then "\\\\"
    else if c == '"' then "\\\""
    else if c == '\n' then "\\n"
    else if c == '\r' then "\\r"
    else if c == '\t' then "\\t"
    else [c]
  }

  function EscapeEach(s: string): string
  {
    if s == [] then [] else EscapeChar(s[0]) + EscapeEach(s[1..])
  }

  lemma {:induction false} ReplaceAllAppend(a: string, b: string, t: char, r: string)
    ensures ReplaceAll(a + b, t, r) == ReplaceAll(a, t, r) + ReplaceAll(b, t, r)
  {
    if a != [] {
      ReplaceAllAppend(a[1..], b, t, r);
      assert (a + b)[0] == a[0] && (a + b)[1..] == a[1..] + b;
    } else {
      assert a + b == b;
    }
  }

  lemma {:induction false} ReplaceAllAbsent(s: string, t: char, r: string)
    requires t !in s
    ensures ReplaceAll(s, t, r) == s
  {
    if s != [] {
      ReplaceAllAbsent(s[1..], t, r);
      assert s == [s[0]] + s[1..];
    }
  }

  lemma ReplaceAllSingle(c: char, t: char, r: string)
    ensures ReplaceAll([c], t, r) == if c == t then r else [c]
  {
    assert [c][1..] == [];
  }

  lemma ReplaceChainAppend(a: string, b: string)
    ensures ReplaceChain(a + b) == ReplaceChain(a) + ReplaceChain(b)
  {
    var a1, b1 := ReplaceAll(a, '\\', "\\\\"), ReplaceAll(b, '\\', "\\\\");
    ReplaceAllAppend(a, b, '\\', "\\\\");
    var a2, b2 := ReplaceAll(a1, '"', "\\\""), ReplaceAll(b1, '"', "\\\"");
    ReplaceAllAppend(a1, b1, '"', "\\\"");
    var a3, b3 := ReplaceAll(a2, '\n', "\\n"), ReplaceAll(b2, '\n', "\\n");
    ReplaceAllAppend(a2, b2, '\n', "\\n");
    var a4, b4 := ReplaceAll(a3, '\r', "\\r"), ReplaceAll(b3, '\r', "\\r");
    ReplaceAllAppend(a3, b3, '\r', "\\r");
    ReplaceAllAppend(a4, b4, '\t', "\\t");
  }

  lemma ReplaceChainChar(c: char)
    ensures ReplaceChain([c]) == EscapeChar(c)
  {
    var s1 := ReplaceAll([c], '\\', "\\\\");
    ReplaceAllSingle(c, '\\', "\\\\");
    var s2 := ReplaceAll(s1, '"', "\\\"");
    if c == '"' { ReplaceAllSingle(c, '"', "\\\""); } else { ReplaceAllAbsent(s1, '"', "\\\""); }
    var s3 := ReplaceAll(s2, '\n', "\\n");
    if c == '\n' { ReplaceAllSingle(c, '\n', "\\n"); } else { ReplaceAllAbsent(s2, '\n', "\\n"); }
    var s4 := ReplaceAll(s3, '\r', "\\r");
    if c == '\r' { ReplaceAllSingle(c, '\r', "\\r"); } else { ReplaceAllAbsent(s3, '\r', "\\r"); }
    if c == '\t' {
      ReplaceAllSingle(c, '\t', "\\t");
    } else {
      ReplaceAllAbsent(s4, '\t', "\\t");
    }
  }

  /** Replacing backslash first makes the chain escape each character exactly once. */
  lemma {:induction false} EscapeJsonPerChar(s: string)
    ensures ReplaceChain(s) == EscapeEach(s)
  {
    if s != [] {
      assert s == [s[0]] + s[1..];
      ReplaceChainAppend([s[0]], s[1..]);
      ReplaceChainChar(s[0]);
      EscapeJsonPerChar(s[1..]);
    }
  }

  lemma {:induction false} EscapeEachNoRaw(s: string)
    ensures forall i :: 0 <= i < |EscapeEach(s)| ==> EscapeEach(s)[i] !in {'\n', '\r', '\t'}
  {
    if s != [] {
      EscapeEachNoRaw(s[1..]);
      var e := EscapeEach(s);
      assert e == EscapeChar(s[0]) + EscapeEach(s[1..]);
      forall i | 0 <= i < |e| ensures e[i] !in {'\n', '\r', '\t'} {
        if i >= |EscapeChar(s[0])| {
          assert e[i] == EscapeEach(s[1..])[i - |EscapeChar(s[0])|];
        }
      }
    }
  }

  /** The escaped text holds no raw newline, carriage return or tab. */
  lemma EscapeJsonNoRawControl(str: Option<string>)
    ensures forall i :: 0 <= i < |EscapeJson(str)| ==> EscapeJson(str)[i] !in {'\n', '\r', '\t'}
  {
    if str.Some? {
      EscapeJsonPerChar(str.value);
      EscapeEachNoRaw(str.value);
    }
  }

  /** A text with none of the five characters escapeJson replaces. */
  predicate NothingToEscape(s: string)
  {
    forall i :: 0 <= i < |s| ==> s[i] != '\\' && s[i] != '"' && s[i] != '\n' && s[i] != '\r' && s[i] != '\t'
  }

  lemma {:induction false} EscapeEachPlain(s: string)
    requires NothingToEscape(s)
    ensures EscapeEach(s) == s
  {
    if s != [] {
      assert NothingToEscape(s[1..]) by {
        forall i | 0 <= i < |s[1..]| ensures s[1..][i] == s[i + 1] { }
      }
      EscapeEachPlain(s[1..]);
      assert EscapeChar(s[0]) == [s[0]];
      assert s == [s[0]] + s[1..];
    }
  }

  /**
   * Every other character passes through raw, U+0001 and the other control
   * characters included (RFC 8259, section 7, asks for those to be escaped).
   */
  lemma EscapeJsonLeavesOtherControls(s: string)
    requires NothingToEscape(s)
    ensures EscapeJson(Some(s)) == s
  {
    EscapeJsonPerChar(s);
    EscapeEachPlain(s);
  }

  // ----- the window documents -----

  const EventsOpen := "{\"events\": "
  const LabelOpen := "{\"label\": \""
  const TimestampOpen := ",\"timestamp\": \""

  /**
   * One event object of a window document: its escaped label and its arrival
   * instant. The label is escaped by the per-character reference, which
   * EscapeJsonPerChar proves equal to escapeJson's replace chain.
   */
  function ItemText(e: ProcessEvent): string
  {
    LabelOpen + EscapeEach(e.eventLabel) + "\"" + TimestampOpen + InstantText(e.receivedAt) + "\"" + "}"
  }

  /** The event objects of a window, in window order, with a comma between neighbours only. */
  function Items(list: seq<ProcessEvent>): (r: string)
    ensures r == [] <==> list == []
    ensures list != [] ==> r[0] == '{'
  {
    if list == [] then ""
    else
      ItemTextOpenBrace(list[0]);
      if |list| == 1 then ItemText(list[0])
      else ItemText(list[0]) + "," + Items(list[1..])
  }

  /** handleSingleEvent's document: "events" holds one object, and the document closes after it. */
  function SingleText(e: ProcessEvent): (t: string)
    ensures StartsWith(t, EventsOpen) && |t| > |EventsOpen| + 1 && t[|EventsOpen|] == '{' && t[|t| - 1] == '}'
  {
    ItemTextOpenBrace(e);
    EventsOpen + ItemText(e) + "}"
  }

  /** handleMultipleEvents' document: "events" holds an array, and the document closes after it. */
  function AmbiguousText(list: seq<ProcessEvent>): (t: string)
    ensures StartsWith(t, EventsOpen) && |t| > |EventsOpen| + 1 && t[|EventsOpen|] == '[' && t[|t| - 2..] == "]}"
  {
    EventsOpen + "[" + Items(list) + "]}"
  }

  /** "ID" followed by the first event's arrival instant. */
  function WindowId(first: ProcessEvent): (id: string)
    ensures StartsWith(id, "ID") && id[2..] == InstantText(first.receivedAt)
  {
    "ID" + InstantText(first.receivedAt)
  }

  /** Adding an event at the end adds a comma and its object, and nothing before it changes. */
  lemma {:induction false} ItemsSnoc(list: seq<ProcessEvent>, e: ProcessEvent)
    ensures Items(list + [e]) == if list == [] then ItemText(e) else Items(list) + "," + ItemText(e)
  {
    var l := list + [e];
    if list == [] {
      assert l == [e];
    } else if |list| == 1 {
      assert l[0] == list[0] && l[1..] == [e];
      assert Items(l) == ItemText(list[0]) + "," + Items([e]);
    } else {
      assert l[0] == list[0] && l[1..] == list[1..] + [e];
      ItemsSnoc(list[1..], e);
      assert Items(l) == ItemText(list[0]) + "," + (Items(list[1..]) + "," + ItemText(e));
      CommaAssoc(ItemText(list[0]), Items(list[1..]), ItemText(e));
    }
  }

  /** The comma the loop has written after its i-th object. */
  function Separator(i: int, n: int): string
  {
    if 0 < i < n then "," else ""
  }

  lemma BuildFirst(head: string, list: seq<ProcessEvent>, z: string)
    requires list != []
    ensures head + Items(list[..0]) + "" + ItemText(list[0]) + z == head + Items(list[..1]) + z
  {
    assert list[..0] == [] && list[..1] == [list[0]];
    EmptyPrefix(head, ItemText(list[0]), z);
  }

  lemma BuildNext(head: string, list: seq<ProcessEvent>, i: int, z: string)
    requires 0 < i < |list|
    ensures head + Items(list[..i]) + "," + ItemText(list[i]) + z == head + Items(list[..i + 1]) + z
  {
    ItemsSnoc(list[..i], list[i]);
    TakeOneMore(list, i);
    Assoc5(head, Items(list[..i]), ",", ItemText(list[i]), z);
  }

  lemma BuildStep(head: string, list: seq<ProcessEvent>, i: int)
    requires 0 <= i < |list|
    ensures head + Items(list[..i]) + Separator(i, |list|) + ItemText(list[i]) + Separator(i + 1, |list|)
         == head + Items(list[..i + 1]) + Separator(i + 1, |list|)
  {
    if i == 0 {
      BuildFirst(head, list, Separator(i + 1, |list|));
    } else {
      BuildNext(head, list, i, Separator(i + 1, |list|));
    }
  }

  /** handleMultipleEvents' loop: one object per event, a comma after each but the last. */
  method BuildAmbiguousText(list: seq<ProcessEvent>) returns (events: string)
    ensures events == AmbiguousText(list)
  {
    var head := EventsOpen + "[";
    events := head;
    for i := 0 to |list|
      invariant events == head + Items(list[..i]) + Separator(i, |list|)
    {
      var pe := list[i];
      BuildStep(head, list, i);
      EscapeJsonPerChar(pe.eventLabel);
      events := events + (LabelOpen + EscapeJson(Some(pe.eventLabel)) + "\"" + TimestampOpen
                          + InstantText(pe.receivedAt) + "\"" + "}");
      if i < |list| - 1 {
        events := events + ",";
      }
    }
    assert list[..|list|] == list;
    events := events + "]}";
  }

  // ----- latency, as logged -----

  /** The latency a one-event window logs. */
  function SingleLatency(): int
  {
    WindowSize
  }

  /** The latency a many-event window logs, as written: first minus last plus the window. */
  function MultipleLatency(list: seq<ProcessEvent>): (l: int)
    requires list != []
    ensures list[0].receivedAt <= list[|list| - 1].receivedAt ==> l <= WindowSize
  {
    list[0].receivedAt - list[|list| - 1].receivedAt + WindowSize
  }

  /**
   * The latency as its name and its neighbours suggest: the time from the
   * first arrival to the close, that is last − first + windowSize. The
   * message logged just before it names the first and the last arrival, and
   * for a single event this is windowSize, the value handleSingleEvent logs.
   * As written, the value instead shrinks as the window grows.
   */
  function IntendedMultipleLatency(list: seq<ProcessEvent>): (l: int)
    requires list != []
    ensures |list| == 1 ==> l == SingleLatency()
    ensures list[0].receivedAt <= list[|list| - 1].receivedAt ==> l >= WindowSize
    ensures l - WindowSize == list[|list| - 1].receivedAt - list[0].receivedAt
  {
    list[|list| - 1].receivedAt - list[0].receivedAt + WindowSize
  }

  /** Two events 500 ms apart: the written formula logs 500, the intended one 1500. */
  lemma MultipleLatencySign()
    ensures var w := [ProcessEvent("A", "", 0, 0), ProcessEvent("B", "", 0, 500)];
      MultipleLatency(w) == 500 && IntendedMultipleLatency(w) == 1500
  {
  }

  // ----- reading the documents back -----

  /** Characters the analyzer's text carries faithfully: no raw control character but the three it escapes. */
  predicate Encodable(s: string)
  {
    forall i :: 0 <= i < |s| ==> s[i] >= ' ' || s[i] == '\n' || s[i] == '\r' || s[i] == '\t'
  }

  function UnescapeChar(c: char): Option<char>
  {
    if c == '\\' then Some('\\')
    else if c == '"' then Some('"')
    else if c == 'n' then Some('\n')
    else if c == 'r' then Some('\r')
    else if c == 't' then Some('\t')
    else None
  }

  /**
   * Reads a JSON string body up to its closing quote and returns it with the
   * text after the quote. Like Jackson, it refuses a raw control character.
   */
  function ParseString(t: string): (r: Option<(string, string)>)
    ensures r.Some? ==> |r.value.1| < |t|
    decreases |t|
  {
    if t == [] then None
    else if t[0] == '"' then Some(([], t[1..]))
    else if t[0] == '\\' then
      if |t| < 2 then None
      else match UnescapeChar(t[1])
        case None => None
        case Some(c) =>
          match ParseString(t[2..])
          case None => None
          case Some(p) => Some(([c] + p.0, p.1))
    else if t[0] < ' ' then None
    else match ParseString(t[1..])
      case None => None
      case Some(p) => Some(([t[0]] + p.0, p.1))
  }

  /** The tree Jackson builds for one event object. */
  function ItemDoc(labelText: string, timestamp: string): Json
  {
    JObj([("label", JStr(labelText)), ("timestamp", JStr(timestamp))])
  }

  function EventDoc(e: ProcessEvent): Json
  {
    ItemDoc(e.eventLabel, InstantText(e.receivedAt))
  }

  function EventDocs(list: seq<ProcessEvent>): (r: seq<Json>)
    ensures |r| == |list|
  {
    if list == [] then [] else [EventDoc(list[0])] + EventDocs(list[1..])
  }

  function WindowDoc(events: Json): Json
  {
    JObj([("events", events)])
  }

  function ParseItem(t: string): (r: Option<(Json, string)>)
    ensures r.Some? ==> |r.value.1| < |t|
  {
    if !StartsWith(t, LabelOpen) then None
    else match ParseString(t[|LabelOpen|..])
      case None => None
      case Some(p) =>
        var t1 := p.1;
        if !StartsWith(t1, TimestampOpen) then None
        else match ParseString(t1[|TimestampOpen|..])
          case None => None
          case Some(q) =>
            if !StartsWith(q.1, "}") then None
            else Some((ItemDoc(p.0, q.0), q.1[1..]))
  }

  function ParseItems(t: string): (r: Option<(seq<Json>, string)>)
    decreases |t|
  {
    match ParseItem(t)
    case None => None
    case Some(p) =>
      if StartsWith(p.1, ",") then
        match ParseItems(p.1[1..])
        case None => None
        case Some(q) => Some(([p.0] + q.0, q.1))
      else Some(([p.0], p.1))
  }

  /** Reads either window document into the tree a JSON parser would build, or fails. */
  function DecodeWindow(t: string): (r: Option<Json>)
    ensures r.Some? ==> StartsWith(t, EventsOpen)
    ensures r.Some? ==> r.value.JObj? && |r.value.fields| == 1 && r.value.fields[0].0 == "events"
  {
    if !StartsWith(t, EventsOpen) then None
    else
      var body := t[|EventsOpen|..];
      if body == "[]}" then Some(WindowDoc(JArr([])))
      else if StartsWith(body, "[") then
        match ParseItems(body[1..])
        case None => None
        case Some(p) => if p.1 == "]}" then Some(WindowDoc(JArr(p.0))) else None
      else
        match ParseItem(body)
        case None => None
        case Some(p) => if p.1 == "}" then Some(WindowDoc(p.0)) else None
  }

  lemma EncodableTail(s: string)
    requires s != [] && Encodable(s)
    ensures Encodable(s[1..])
  {
    forall i | 0 <= i < |s[1..]|
      ensures s[1..][i] >= ' ' || s[1..][i] == '\n' || s[1..][i] == '\r' || s[1..][i] == '\t'
    {
      assert s[1..][i] == s[i + 1];
    }
  }

  /** An escape sequence reads back as the character it stands for. */
  lemma ParseStringEscaped(c: char, tail: string, x: string, rest: string)
    requires c == '\\' || c == '"' || c == '\n' || c == '\r' || c == '\t'
    requires ParseString(tail) == Some((x, rest))
    ensures ParseString(EscapeChar(c) + tail) == Some(([c] + x, rest))
  {
    var t := EscapeChar(c) + tail;
    assert |EscapeChar(c)| == 2 && EscapeChar(c)[0] == '\\';
    assert t[0] == '\\' && UnescapeChar(t[1]) == Some(c);
    assert t[2..] == tail;
  }

  /** A character that needs no escape reads back as itself. */
  lemma ParseStringPlain(c: char, tail: string, x: string, rest: string)
    requires c >= ' ' && c != '\\' && c != '"'
    requires ParseString(tail) == Some((x, rest))
    ensures ParseString([c] + tail) == Some(([c] + x, rest))
  {
    assert ([c] + tail)[1..] == tail;
  }

  lemma {:induction false} ParseStringRoundTrip(s: string, rest: string)
    requires Encodable(s)
    ensures ParseString(EscapeEach(s) + ("\"" + rest)) == Some((s, rest))
  {
    if s == [] {
      assert EscapeEach(s) + ("\"" + rest) == "\"" + rest;
    } else {
      EncodableTail(s);
      ParseStringRoundTrip(s[1..], rest);
      var c, tail := s[0], EscapeEach(s[1..]) + ("\"" + rest);
      Assoc3(EscapeChar(c), EscapeEach(s[1..]), "\"" + rest);
      assert EscapeEach(s) + ("\"" + rest) == EscapeChar(c) + tail;
      if c == '\\' || c == '"' || c == '\n' || c == '\r' || c == '\t' {
        ParseStringEscaped(c, tail, s[1..], rest);
      } else {
        assert EscapeChar(c) == [c];
        ParseStringPlain(c, tail, s[1..], rest);
      }
      assert s == [c] + s[1..];
    }
  }

  lemma {:induction false} EscapeEachDigits(s: string)
    requires forall i :: 0 <= i < |s| ==> IsDigit(s[i]) || s[i] == '-'
    ensures EscapeEach(s) == s && Encodable(s)
  {
    if s != [] {
      EscapeEachDigits(s[1..]);
      assert s == [s[0]] + s[1..];
    }
  }

  /** An event object followed by more text, with the concatenation nested to the right. */
  lemma ItemTextSplit(e: ProcessEvent, rest: string)
    ensures ItemText(e) + rest
         == LabelOpen + (EscapeEach(e.eventLabel) + ("\"" + (TimestampOpen + (InstantText(e.receivedAt) + ("\"" + ("}" + rest))))))
  {
    Reassoc(LabelOpen, EscapeEach(e.eventLabel), "\"", TimestampOpen, InstantText(e.receivedAt), "\"", "}", rest);
  }

  /** One step of ParseItem: the two strings it reads, between their fixed delimiters. */
  lemma ParseItemIntro(t: string, t0: string, a: string, t3: string, b: string, rest: string)
    requires t == LabelOpen + t0
    requires ParseString(t0) == Some((a, TimestampOpen + t3))
    requires ParseString(t3) == Some((b, "}" + rest))
    ensures ParseItem(t) == Some((ItemDoc(a, b), rest))
  {
    PrefixStrip(LabelOpen, t0);
    PrefixStrip(TimestampOpen, t3);
    PrefixStrip("}", rest);
  }

  lemma ParseItemRoundTrip(e: ProcessEvent, rest: string)
    requires Encodable(e.eventLabel)
    ensures ParseItem(ItemText(e) + rest) == Some((EventDoc(e), rest))
  {
    var lbl := e.eventLabel;
    var ts := InstantText(e.receivedAt);
    EscapeEachDigits(ts);
    var after := "}" + rest;
    var t3 := ts + ("\"" + after);
    var t0 := EscapeEach(lbl) + ("\"" + (TimestampOpen + t3));
    ItemTextSplit(e, rest);
    ParseStringRoundTrip(lbl, TimestampOpen + t3);
    ParseStringRoundTrip(ts, after);
    ParseItemIntro(ItemText(e) + rest, t0, lbl, t3, ts, rest);
  }

  predicate AllEncodable(list: seq<ProcessEvent>)
  {
    forall i :: 0 <= i < |list| ==> Encodable(list[i].eventLabel)
  }

  lemma AllEncodableTail(list: seq<ProcessEvent>)
    requires list != [] && AllEncodable(list)
    ensures Encodable(list[0].eventLabel) && AllEncodable(list[1..])
  {
    forall i | 0 <= i < |list[1..]| ensures Encodable(list[1..][i].eventLabel) {
      assert list[1..][i] == list[i + 1];
    }
  }

  /** An object followed by text that does not start with a comma reads as a one-element list. */
  lemma ParseItemsLast(t: string, x: Json, rest: string)
    requires ParseItem(t) == Some((x, rest))
    requires !StartsWith(rest, ",")
    ensures ParseItems(t) == Some(([x], rest))
  {
  }

  /** An object followed by a comma and further objects reads as one longer list. */
  lemma ParseItemsCons(t: string, x: Json, tail: string, xs: seq<Json>, rest: string)
    requires ParseItem(t) == Some((x, "," + tail))
    requires ParseItems(tail) == Some((xs, rest))
    ensures ParseItems(t) == Some(([x] + xs, rest))
  {
    assert StartsWith("," + tail, ",") && ("," + tail)[1..] == tail;
  }

  lemma EventDocsCons(list: seq<ProcessEvent>)
    requires list != []
    ensures EventDocs(list) == [EventDoc(list[0])] + EventDocs(list[1..])
  {
  }

  lemma {:induction false} ParseItemsRoundTrip(list: seq<ProcessEvent>, rest: string)
    requires list != [] && AllEncodable(list)
    requires !StartsWith(rest, ",")
    ensures ParseItems(Items(list) + rest) == Some((EventDocs(list), rest))
  {
    AllEncodableTail(list);
    EventDocsCons(list);
    var x := ItemText(list[0]);
    if |list| == 1 {
      assert Items(list) == x;
      assert EventDocs(list[1..]) == [];
      assert EventDocs(list) == [EventDoc(list[0])];
      ParseItemRoundTrip(list[0], rest);
      ParseItemsLast(x + rest, EventDoc(list[0]), rest);
    } else {
      var tail := Items(list[1..]) + rest;
      assert Items(list) == x + "," + Items(list[1..]);
      CommaSplit(x, Items(list[1..]), rest);
      ParseItemRoundTrip(list[0], "," + tail);
      ParseItemsRoundTrip(list[1..], rest);
      ParseItemsCons(x + ("," + tail), EventDoc(list[0]), tail, EventDocs(list[1..]), rest);
    }
  }

  lemma ItemTextOpenBrace(e: ProcessEvent)
    ensures |ItemText(e)| > 0 && ItemText(e)[0] == '{'
  {
    ItemTextSplit(e, "");
    assert ItemText(e) + "" == ItemText(e);
    assert LabelOpen[0] == '{';
  }

  lemma ItemsOpenBrace(list: seq<ProcessEvent>)
    requires list != []
    ensures Items(list) != [] && Items(list)[0] == '{'
  {
    ItemTextOpenBrace(list[0]);
    var x := ItemText(list[0]);
    if |list| > 1 {
      var y := "," + Items(list[1..]);
      assert Items(list) == x + y;
      assert (x + y)[0] == x[0];
    }
  }

  /** A document whose body is one object reads as a window holding that object. */
  lemma DecodeSingle(body: string, doc: Option<Json>)
    requires body != [] && body[0] == '{'
    requires doc == match ParseItem(body)
                    case None => None
                    case Some(p) => if p.1 == "}" then Some(p.0) else None
    ensures DecodeWindow(EventsOpen + body) == if doc.Some? then Some(WindowDoc(doc.value)) else None
  {
    PrefixStrip(EventsOpen, body);
    assert body != "[]}" && !StartsWith(body, "[") by {
      assert body[..1] == ['{'];
    }
  }

  /** The one-event document reads back as a tree whose "events" is that event's object. */
  lemma SingleTextRoundTrip(e: ProcessEvent)
    requires Encodable(e.eventLabel)
    ensures DecodeWindow(SingleText(e)) == Some(WindowDoc(EventDoc(e)))
  {
    var body := ItemText(e) + "}";
    assert SingleText(e) == EventsOpen + body;
    ParseItemRoundTrip(e, "}");
    ItemTextOpenBrace(e);
    DecodeSingle(body, Some(EventDoc(e)));
  }

  /** The array body: it is not the empty array, and after its bracket come the objects. */
  lemma ArrayBody(items: string)
    requires items != [] && items[0] == '{'
    ensures var body := "[" + items + "]}";
      body != "[]}" && StartsWith(body, "[") && body[1..] == items + "]}"
  {
    var body := "[" + items + "]}";
    PrefixStrip("[", items + "]}");
    assert body == "[" + (items + "]}");
    assert body[1] == '{';
  }

  /** A bracketed, non-empty list of objects reads as an array document. */
  lemma DecodeArray(items: string, docs: seq<Json>)
    requires items != [] && items[0] == '{'
    requires ParseItems(items + "]}") == Some((docs, "]}"))
    ensures DecodeWindow(EventsOpen + ("[" + items + "]}")) == Some(WindowDoc(JArr(docs)))
  {
    PrefixStrip(EventsOpen, "[" + items + "]}");
    ArrayBody(items);
  }

  /** The empty array document. */
  lemma DecodeEmptyArray()
    ensures DecodeWindow(EventsOpen + "[]}") == Some(WindowDoc(JArr([])))
  {
    PrefixStrip(EventsOpen, "[]}");
  }

  lemma ArrayEndNoComma()
    ensures !StartsWith("]}", ",")
  {
    assert "]}"[..1] == "]";
  }

  /** The many-event document reads back as one object per event, in window order. */
  lemma AmbiguousTextRoundTrip(list: seq<ProcessEvent>)
    requires AllEncodable(list)
    ensures DecodeWindow(AmbiguousText(list)) == Some(WindowDoc(JArr(EventDocs(list))))
  {
    Assoc4(EventsOpen, "[", Items(list), "]}");
    if list == [] {
      assert "[" + Items(list) + "]}" == "[]}";
      DecodeEmptyArray();
    } else {
      ItemsOpenBrace(list);
      ArrayEndNoComma();
      ParseItemsRoundTrip(list, "]}");
      DecodeArray(Items(list), EventDocs(list));
    }
  }

  /** Some character is a raw control character that escapeJson leaves as it is. */
  predicate RawControl(c: char)
  {
    c < ' ' && c != '\n' && c != '\r' && c != '\t'
  }

  lemma ParseStringEscapedNone(c: char, tail: string)
    requires c == '\\' || c == '"' || c == '\n' || c == '\r' || c == '\t'
    requires ParseString(tail) == None
    ensures ParseString(EscapeChar(c) + tail) == None
  {
    var t := EscapeChar(c) + tail;
    assert |EscapeChar(c)| == 2 && EscapeChar(c)[0] == '\\';
    assert t[0] == '\\' && UnescapeChar(t[1]) == Some(c);
    assert t[2..] == tail;
  }

  lemma ParseStringPlainNone(c: char, tail: string)
    requires c >= ' ' && c != '\\' && c != '"'
    requires ParseString(tail) == None
    ensures ParseString([c] + tail) == None
  {
    assert ([c] + tail)[1..] == tail;
  }

  /** A raw control character in a label stops the string reader, wherever it stands. */
  lemma {:induction false} ParseStringRejects(s: string, rest: string)
    requires !Encodable(s)
    ensures ParseString(EscapeEach(s) + rest) == None
  {
    var i :| 0 <= i < |s| && RawControl(s[i]);
    var c, tail := s[0], EscapeEach(s[1..]) + rest;
    Assoc3(EscapeChar(c), EscapeEach(s[1..]), rest);
    assert EscapeEach(s) + rest == EscapeChar(c) + tail;
    if i == 0 {
      assert RawControl(c);
      assert c < ' ' && c != '\\' && c != '"';
      assert EscapeChar(c) == [c];
      assert (EscapeChar(c) + tail)[0] == c;
    } else {
      assert RawControl(s[1..][i - 1]);
      ParseStringRejects(s[1..], rest);
      if c == '\\' || c == '"' || c == '\n' || c == '\r' || c == '\t' {
        ParseStringEscapedNone(c, tail);
      } else if c >= ' ' {
        assert EscapeChar(c) == [c];
        ParseStringPlainNone(c, tail);
      } else {
        assert EscapeChar(c) == [c];
        assert (EscapeChar(c) + tail)[0] == c;
      }
    }
  }

  /** ParseItem fails when the label string cannot be read. */
  lemma ParseItemRejects(t0: string)
    requires ParseString(t0) == None
    ensures ParseItem(LabelOpen + t0) == None
  {
    PrefixStrip(LabelOpen, t0);
  }

  /** An event object whose label holds a raw control character does not read. */
  lemma ItemTextRejected(e: ProcessEvent, rest: string)
    requires !Encodable(e.eventLabel)
    ensures ParseItem(ItemText(e) + rest) == None
  {
    var after := "\"" + (TimestampOpen + (InstantText(e.receivedAt) + ("\"" + ("}" + rest))));
    ItemTextSplit(e, rest);
    ParseStringRejects(e.eventLabel, after);
    ParseItemRejects(EscapeEach(e.eventLabel) + after);
  }

  /** A list of objects does not read when any of its labels holds a raw control character. */
  lemma {:induction false} ParseItemsRejects(list: seq<ProcessEvent>, rest: string)
    requires list != [] && !AllEncodable(list)
    ensures ParseItems(Items(list) + rest) == None
  {
    var x := ItemText(list[0]);
    if !Encodable(list[0].eventLabel) {
      if |list| == 1 {
        assert Items(list) == x;
        ItemTextRejected(list[0], rest);
      } else {
        var tail := Items(list[1..]) + rest;
        assert Items(list) == x + "," + Items(list[1..]);
        CommaSplit(x, Items(list[1..]), rest);
        ItemTextRejected(list[0], "," + tail);
      }
    } else {
      var i :| 0 <= i < |list| && !Encodable(list[i].eventLabel);
      assert i > 0 && list[1..][i - 1] == list[i];
      var tail := Items(list[1..]) + rest;
      assert Items(list) == x + "," + Items(list[1..]);
      CommaSplit(x, Items(list[1..]), rest);
      ParseItemRoundTrip(list[0], "," + tail);
      ParseItemsRejects(list[1..], rest);
      PrefixStrip(",", tail);
    }
  }

  /** The one-event document does not read when its label holds a raw control character. */
  lemma SingleTextRejected(e: ProcessEvent)
    requires !Encodable(e.eventLabel)
    ensures DecodeWindow(SingleText(e)) == None
  {
    var body := ItemText(e) + "}";
    assert SingleText(e) == EventsOpen + body;
    ItemTextRejected(e, "}");
    ItemTextOpenBrace(e);
    DecodeSingle(body, None);
  }

  /** The many-event document does not read when any label holds a raw control character. */
  lemma AmbiguousTextRejected(list: seq<ProcessEvent>)
    requires !AllEncodable(list)
    ensures DecodeWindow(AmbiguousText(list)) == None
  {
    var items := Items(list);
    Assoc4(EventsOpen, "[", items, "]}");
    ItemsOpenBrace(list);
    ArrayBody(items);
    PrefixStrip(EventsOpen, "[" + items + "]}");
    ParseItemsRejects(list, "]}");
  }

  // ----- sequence helpers -----
  // Single steps of sequence algebra (regrouping a concatenation, taking one
  // more element of a slice). Dafny proves each of them on its own; they are
  // stated apart and called where needed so that the proofs above do not
  // depend on the solver finding these steps inside a large context.

  lemma CommaAssoc(x: string, a: string, y: string)
    ensures x + "," + (a + "," + y) == x + "," + a + "," + y
  {
  }

  lemma Assoc5(h: string, a: string, c: string, x: string, z: string)
    ensures h + a + c + x + z == h + (a + c + x) + z
  {
  }

  lemma EmptyPrefix(h: string, x: string, z: string)
    ensures h + "" + "" + x + z == h + x + z
  {
  }

  lemma TakeOneMore(list: seq<ProcessEvent>, i: int)
    requires 0 <= i < |list|
    ensures list[..i + 1] == list[..i] + [list[i]]
  {
  }

  lemma Assoc3(a: string, b: string, c: string)
    ensures a + b + c == a + (b + c)
  {
  }

  lemma PrefixStrip(p: string, x: string)
    ensures StartsWith(p + x, p) && (p + x)[|p|..] == x
  {
    assert (p + x)[..|p|] == p;
  }

  lemma Reassoc(a: string, b: string, c: string, d: string, e: string, f: string, g: string, r: string)
    ensures a + b + c + d + e + f + g + r == a + (b + (c + (d + (e + (f + (g + r))))))
  {
  }

  lemma CommaSplit(x: string, y: string, r: string)
    ensures x + "," + y + r == x + ("," + (y + r))
  {
  }

  lemma Assoc4(a: string, b: string, c: string, d: string)
    ensures a + b + c + d == a + (b + c + d)
  {
  }
}
