/** Server-sent events: the printer of chat/views.py (`_sse_event`) against the event-stream parser of the WHATWG
    HTML Living Standard, sections 9.2.5 (grammar) and 9.2.6 (interpretation). */
module Sse {
  import opened Text

  /** A dispatched event: its name and its data. */
  datatype Event = Event(name: string, data: string)

  // ----- the printer -----

  /** `django.utils.html.escape`, character by character. */
  function EscapeChar(c: char): string {
    if c == '&' then "&amp;"
    else if c == '<' then "&lt;"
    else if c == '>' then "&gt;"
    else if c == '"' then "&quot;"
    else if c == '\'' then "&#x27;"
    else [c]
  }

  function Escape(s: string): string {
    if s == "" then "" else EscapeChar(s[0]) + Escape(s[1..])
  }

  /** One `data:` line per part, each ended by a newline. */
  function DataLines(parts: seq<string>): string {
    if parts == [] then "" else OneDataLine(parts[0]) + DataLines(parts[1..])
  }

  function OneDataLine(part: string): string {
    "data: " + part + "\n"
  }

  /** `_sse_event`: the event line, the data lines, an empty line. */
  function Print(e: Event): string {
    "event: " + e.name + "\n" + DataLines(Split(Escape(e.data), '\n')) + "\n"
  }

  function PrintAll(events: seq<Event>): string {
    if events == [] then "" else Print(events[0]) + PrintAll(events[1..])
  }

  /** The source joins the data lines with newlines and appends two; that is the same text. */
  function Prefixed(parts: seq<string>): seq<string> {
    if parts == [] then [] else ["data: " + parts[0]] + Prefixed(parts[1..])
  }

  lemma {:induction false} DataLinesJoin(parts: seq<string>)
    requires parts != []
    ensures Join(Prefixed(parts), '\n') + "\n" == DataLines(parts)
  {
    var rest := Prefixed(parts)[1..];
    assert rest == Prefixed(parts[1..]);
    if |parts| > 1 {
      DataLinesJoin(parts[1..]);
      calc {
        Join(Prefixed(parts), '\n') + "\n";
        "data: " + parts[0] + ['\n'] + Join(rest, '\n') + "\n";
        OneDataLine(parts[0]) + (Join(rest, '\n') + "\n");
        DataLines(parts);
      }
    } else {
      assert parts[1..] == [];
    }
  }

  lemma PrintAsWritten(e: Event)
    ensures Print(e) == "event: " + e.name + "\n" + Join(Prefixed(Split(Escape(e.data), '\n')), '\n') + "\n\n"
  {
    DataLinesJoin(Split(Escape(e.data), '\n'));
  }

  // ----- the standard's parser -----

  predicate IsLineEnd(c: char) {
    c == '\n' || c == '\r'
  }

  /** The length of the first line: up to a line end or the end of the stream. */
  function LineLength(s: string): (n: nat)
    ensures n <= |s|
    ensures n < |s| ==> IsLineEnd(s[n])
    ensures forall i :: 0 <= i < n ==> !IsLineEnd(s[i])
  {
    if s == "" || IsLineEnd(s[0]) then 0 else 1 + LineLength(s[1..])
  }

  /** The terminated lines of a stream; a line ends at CR LF, at LF or at CR. What follows the last line end never
      completes an event, so it is dropped. */
  function StreamLines(s: string): seq<string>
    decreases |s|
  {
    var n := LineLength(s);
    if n == |s| then []
    else if s[n] == '\r' && n + 1 < |s| && s[n + 1] == '\n' then [s[..n]] + StreamLines(s[n + 2..])
    else [s[..n]] + StreamLines(s[n + 1..])
  }

  /** The parser's buffers. */
  datatype Buffers = Buffers(data: string, eventType: string, lastId: string)

  /** The position of the first colon, or the length. */
  function ColonAt(s: string): (n: nat)
    ensures n <= |s|
    ensures n < |s| ==> s[n] == ':'
    ensures forall i :: 0 <= i < n ==> s[i] != ':'
  {
    if s == "" || s[0] == ':' then 0 else 1 + ColonAt(s[1..])
  }

  function FieldValue(line: string): string {
    var c := ColonAt(line);
    if c == |line| then ""
    else if c + 1 < |line| && line[c + 1] == ' ' then line[c + 2..]
    else line[c + 1..]
  }

  /** "Process the field": unknown fields, `retry` and ids with a NULL change nothing here. */
  function ProcessField(b: Buffers, field: string, value: string): Buffers {
    if field == "event" then b.(eventType := value)
    else if field == "data" then b.(data := b.data + value + "\n")
    else if field == "id" && '\U{0}' !in value then b.(lastId := value)
    else b
  }

  /** "Dispatch the event": an empty data buffer dispatches nothing. */
  function Dispatch(b: Buffers): seq<Event> {
    if b.data == "" then []
    else
      var data := if b.data[|b.data| - 1] == '\n' then b.data[..|b.data| - 1] else b.data;
      [Event(if b.eventType == "" then "message" else b.eventType, data)]
  }

  function ParseLines(lines: seq<string>, b: Buffers): seq<Event>
    decreases |lines|
  {
    if lines == [] then []
    else if lines[0] == "" then Dispatch(b) + ParseLines(lines[1..], Buffers("", "", b.lastId))
    else if lines[0][0] == ':' then ParseLines(lines[1..], b)
    else ParseLines(lines[1..], ProcessField(b, lines[0][..ColonAt(lines[0])], FieldValue(lines[0])))
  }

  /** Interpret a whole stream, with its optional byte order mark. */
  function Parse(s: string): seq<Event> {
    var body := if s != "" && s[0] == '\U{FEFF}' then s[1..] else s;
    ParseLines(StreamLines(body), Buffers("", "", ""))
  }

  /** Undo the five escapes, as the browser does when the data is put into the page. */
  function Unescape(s: string): string
    decreases |s|
  {
    if s == "" then ""
    else if "&amp;" <= s then "&" + Unescape(s[5..])
    else if "&lt;" <= s then "<" + Unescape(s[4..])
    else if "&gt;" <= s then ">" + Unescape(s[4..])
    else if "&quot;" <= s then "\"" + Unescape(s[6..])
    else if "&#x27;" <= s then "'" + Unescape(s[6..])
    else [s[0]] + Unescape(s[1..])
  }

  function Decode(events: seq<Event>): seq<Event> {
    if events == [] then [] else [events[0].(data := Unescape(events[0].data))] + Decode(events[1..])
  }

  // ----- round trip -----

  lemma UnescapeOne(c: char, tail: string)
    ensures Unescape(EscapeChar(c) + tail) == [c] + Unescape(tail)
  {
    var head := EscapeChar(c);
    var t := head + tail;
    assert t[|head|..] == tail;
    assert forall i :: 0 <= i < |head| ==> t[i] == head[i];
    if c in {'&', '<', '>', '"', '\''} {
      assert head <= t;
      assert t[1] == head[1] && t[2] == head[2];
    } else {
      assert t[0] == c != '&';
    }
  }

  lemma {:induction false} UnescapeEscape(s: string)
    ensures Unescape(Escape(s)) == s
  {
    if s != "" {
      UnescapeEscape(s[1..]);
      UnescapeOne(s[0], Escape(s[1..]));
    }
  }

  /** Escaping neither adds nor removes line ends. */
  lemma {:induction false} EscapeKeepsLineEnds(s: string)
    ensures '\r' in Escape(s) <==> '\r' in s
    ensures Escape(s) == "" <==> s == ""
  {
    if s != "" {
      EscapeKeepsLineEnds(s[1..]);
      assert s == [s[0]] + s[1..];
    }
  }

  /** The five characters and what stands for each; every other character stands for itself. */
  lemma EscapesAre(c: char)
    ensures Escape("&") == "&amp;" && Escape("<") == "&lt;" && Escape(">") == "&gt;"
    ensures Escape("\"") == "&quot;" && Escape("'") == "&#x27;"
    ensures c !in {'&', '<', '>', '"', '\''} ==> Escape([c]) == [c]
  {
    EscapeOne('&');
    EscapeOne('<');
    EscapeOne('>');
    EscapeOne('"');
    EscapeOne('\'');
    EscapeOne(c);
  }

  lemma EscapeOne(c: char)
    ensures Escape([c]) == EscapeChar(c)
  {
    assert [c][1..] == "";
  }

  /** A text is escaped character by character. */
  lemma {:induction false} EscapeConcat(a: string, b: string)
    ensures Escape(a + b) == Escape(a) + Escape(b)
  {
    if a == "" {
      assert a + b == b;
    } else {
      assert (a + b)[1..] == a[1..] + b;
      EscapeConcat(a[1..], b);
      ConcatAssoc(EscapeChar(a[0]), Escape(a[1..]), Escape(b));
    }
  }

  /** One complete line of the stream. */
  lemma OneLine(line: string, rest: string)
    requires forall i :: 0 <= i < |line| ==> !IsLineEnd(line[i])
    ensures StreamLines(line + "\n" + rest) == [line] + StreamLines(rest)
  {
    var s := line + "\n" + rest;
    var n := LineLength(s);
    assert s[|line|] == '\n';
    assert forall i :: 0 <= i < |line| ==> s[i] == line[i];
    assert n == |line|;
    assert s[..n] == line;
    assert s[n + 1..] == rest;
  }

  /** Names the source uses are `message` and `done`; any non-empty name without line ends will do. */
  predicate PlainName(name: string) {
    name != "" && forall i :: 0 <= i < |name| ==> !IsLineEnd(name[i])
  }

  lemma EventLine(name: string, lines: seq<string>, id: string)
    ensures ParseLines(["event: " + name] + lines, Buffers("", "", id)) == ParseLines(lines, Buffers("", name, id))
  {
    var line := "event: " + name;
    assert ([line] + lines)[1..] == lines;
    assert line[5] == ':' && ColonAt(line) == 5;
    assert line[..5] == "event";
    assert line[7..] == name;
  }

  lemma DataLine(part: string, lines: seq<string>, b: Buffers)
    ensures ParseLines(["data: " + part] + lines, b) == ParseLines(lines, b.(data := b.data + part + "\n"))
  {
    var line := "data: " + part;
    assert ([line] + lines)[1..] == lines;
    assert line[4] == ':' && ColonAt(line) == 4;
    assert line[..4] == "data";
    assert line[6..] == part;
  }

  ghost predicate NoLineEnds(parts: seq<string>) {
    forall i :: 0 <= i < |parts| ==> '\n' !in parts[i] && '\r' !in parts[i]
  }

  lemma ConcatAssoc(a: string, b: string, c: string)
    ensures (a + b) + c == a + (b + c)
  {
  }

  lemma JoinOneMore(data: string, part: string, rest: string)
    ensures (data + part + "\n") + rest + "\n" == data + (part + ['\n'] + rest) + "\n"
  {
  }

  /** The first data line of a block. */
  lemma DataBlockStep(part: string, rest: string, b: Buffers)
    requires '\n' !in part && '\r' !in part
    ensures ParseLines(StreamLines(OneDataLine(part) + rest), b)
         == ParseLines(StreamLines(rest), b.(data := b.data + part + "\n"))
  {
    OneLine("data: " + part, rest);
    DataLine(part, StreamLines(rest), b);
  }

  lemma {:induction false} DataBlock(parts: seq<string>, rest: string, b: Buffers)
    requires parts != [] && NoLineEnds(parts)
    ensures ParseLines(StreamLines(DataLines(parts) + rest), b)
         == ParseLines(StreamLines(rest), b.(data := b.data + Join(parts, '\n') + "\n"))
  {
    var rest' := DataLines(parts[1..]) + rest;
    ConcatAssoc(OneDataLine(parts[0]), DataLines(parts[1..]), rest);
    DataBlockStep(parts[0], rest', b);
    if |parts| > 1 {
      var b' := b.(data := b.data + parts[0] + "\n");
      DataBlock(parts[1..], rest, b');
      JoinOneMore(b.data, parts[0], Join(parts[1..], '\n'));
    } else {
      assert rest' == rest;
    }
  }

  lemma {:induction false} SplitKeepsCharacters(s: string, bad: char)
    requires bad !in s
    ensures forall i :: 0 <= i < |Split(s, '\n')| ==> bad !in Split(s, '\n')[i]
  {
    if s != "" {
      SplitKeepsCharacters(s[1..], bad);
      assert bad !in s[1..] && s[0] != bad;
    }
  }

  lemma EmptyLineDispatches(text: string, name: string, rest: string, id: string)
    requires name != ""
    ensures ParseLines(StreamLines("\n" + rest), Buffers("" + text + "\n", name, id))
         == [Event(name, text)] + ParseLines(StreamLines(rest), Buffers("", "", id))
  {
    assert "" + "\n" + rest == "\n" + rest;
    OneLine("", rest);
    assert ([""] + StreamLines(rest))[1..] == StreamLines(rest);
    var data := "" + text + "\n";
    assert data[..|data| - 1] == text;
  }

  /** A printed event is read back as itself (escaped), whatever follows it. */
  lemma OneEvent(e: Event, rest: string, id: string)
    requires PlainName(e.name) && '\r' !in e.data
    ensures ParseLines(StreamLines(Print(e) + rest), Buffers("", "", id))
         == [Event(e.name, Escape(e.data))] + ParseLines(StreamLines(rest), Buffers("", "", id))
  {
    var text := Escape(e.data);
    var parts := Split(text, '\n');
    EscapeKeepsLineEnds(e.data);
    SplitKeepsCharacters(text, '\r');
    JoinSplit(text, '\n');
    var block := DataLines(parts) + ("\n" + rest);
    var line := "event: " + e.name;
    ConcatAssoc(line + "\n" + DataLines(parts), "\n", rest);
    ConcatAssoc(line + "\n", DataLines(parts), "\n" + rest);
    OneLine(line, block);
    EventLine(e.name, StreamLines(block), id);
    DataBlock(parts, "\n" + rest, Buffers("", e.name, id));
    EmptyLineDispatches(text, e.name, rest, id);
  }

  function Escaped(events: seq<Event>): seq<Event> {
    if events == [] then [] else [events[0].(data := Escape(events[0].data))] + Escaped(events[1..])
  }

  lemma {:induction false} ParsePrintAll(events: seq<Event>)
    requires forall i :: 0 <= i < |events| ==> PlainName(events[i].name) && '\r' !in events[i].data
    ensures ParseLines(StreamLines(PrintAll(events)), Buffers("", "", "")) == Escaped(events)
  {
    if events != [] {
      ParsePrintAll(events[1..]);
      OneEvent(events[0], PrintAll(events[1..]), "");
    }
  }

  lemma {:induction false} DecodeEscaped(events: seq<Event>)
    ensures Decode(Escaped(events)) == events
  {
    if events != [] {
      UnescapeEscape(events[0].data);
      assert Escaped(events)[1..] == Escaped(events[1..]);
      DecodeEscaped(events[1..]);
    }
  }

  // ----- no carriage return survives the wire -----

  predicate NoReturns(events: seq<Event>) {
    forall i :: 0 <= i < |events| ==> '\r' !in events[i].data
  }

  lemma {:induction false} LinesHaveNoReturns(s: string)
    ensures forall i :: 0 <= i < |StreamLines(s)| ==> '\r' !in StreamLines(s)[i]
    decreases |s|
  {
    var n := LineLength(s);
    if n == |s| {
    } else if s[n] == '\r' && n + 1 < |s| && s[n + 1] == '\n' {
      LinesHaveNoReturns(s[n + 2..]);
    } else {
      LinesHaveNoReturns(s[n + 1..]);
    }
  }

  lemma {:induction false} ParsedHasNoReturns(lines: seq<string>, b: Buffers)
    requires forall i :: 0 <= i < |lines| ==> '\r' !in lines[i]
    requires '\r' !in b.data
    ensures NoReturns(ParseLines(lines, b))
    decreases |lines|
  {
    if lines != [] {
      if lines[0] == "" {
        ParsedHasNoReturns(lines[1..], Buffers("", "", b.lastId));
      } else if lines[0][0] == ':' {
        ParsedHasNoReturns(lines[1..], b);
      } else {
        var b' := ProcessField(b, lines[0][..ColonAt(lines[0])], FieldValue(lines[0]));
        assert '\r' !in FieldValue(lines[0]);
        ParsedHasNoReturns(lines[1..], b');
      }
    }
  }

  lemma {:induction false} UnescapeAddsNoReturn(s: string)
    requires '\r' !in s
    ensures '\r' !in Unescape(s)
    decreases |s|
  {
    if s == "" {
    } else if "&amp;" <= s {
      UnescapeAddsNoReturn(s[5..]);
    } else if "&lt;" <= s || "&gt;" <= s {
      UnescapeAddsNoReturn(s[4..]);
    } else if "&quot;" <= s || "&#x27;" <= s {
      UnescapeAddsNoReturn(s[6..]);
    } else {
      UnescapeAddsNoReturn(s[1..]);
    }
  }

  lemma {:induction false} DecodedHasNoReturns(events: seq<Event>)
    requires NoReturns(events)
    ensures NoReturns(Decode(events))
  {
    if events != [] {
      UnescapeAddsNoReturn(events[0].data);
      assert forall i :: 0 <= i < |events[1..]| ==> events[1..][i] == events[i + 1];
      DecodedHasNoReturns(events[1..]);
    }
  }

  /** A stream of printed events is read back as exactly the events that were printed - empty data, leading spaces
      and trailing newlines included - if and only if no data holds a carriage return. */
  lemma StreamRoundTrip(events: seq<Event>)
    requires forall i :: 0 <= i < |events| ==> PlainName(events[i].name)
    ensures Decode(Parse(PrintAll(events))) == events <==> NoReturns(events)
  {
    var s := PrintAll(events);
    assert s != "" ==> s[0] == 'e';
    if NoReturns(events) {
      ParsePrintAll(events);
      DecodeEscaped(events);
    }
    LinesHaveNoReturns(s);
    ParsedHasNoReturns(StreamLines(s), Buffers("", "", ""));
    DecodedHasNoReturns(Parse(s));
  }
}
