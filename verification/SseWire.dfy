/**
 The wire between the service and the UI: `format_sse_event` and the heartbeat print events as text,
 `iter_sse_events` parses the lines of that text.  Decoding a payload as JSON comes after, and is not
 looked into.
 */
module SseWire {
  import opened Checkpoints
  import opened QueryText
  import EventStream

  // ---------------------------------------------------------------- lines

  /** Where `str.splitlines()` breaks a line. */
  predicate IsBreak(c: char) {
    var n := c as int;
    0x0a <= n <= 0x0d || 0x1c <= n <= 0x1e || n == 0x85 || n == 0x2028 || n == 0x2029
  }

  predicate SingleLine(text: string) {
    forall i :: 0 <= i < |text| ==> !IsBreak(text[i])
  }

  function LineEnd(text: string): (n: nat)
    ensures n <= |text| && SingleLine(text[..n]) && (n < |text| ==> IsBreak(text[n]))
  {
    if |text| == 0 || IsBreak(text[0]) then 0
    else
      var n := 1 + LineEnd(text[1..]);
      assert text[..n] == [text[0]] + text[1..][..n - 1];
      n
  }

  /** A carriage return and the line feed after it break the line once. */
  function AfterBreak(text: string, n: nat): (m: nat)
    requires n < |text|
    ensures n < m <= |text|
  {
    if text[n] == '\r' && n + 1 < |text| && text[n + 1] == '\n' then n + 2 else n + 1
  }

  function Lines(text: string): (ls: seq<string>)
    ensures forall i :: 0 <= i < |ls| ==> SingleLine(ls[i])
    decreases |text|
  {
    var n := LineEnd(text);
    if n == |text| then (if text == "" then [] else [text])
    else [text[..n]] + Lines(text[AfterBreak(text, n)..])
  }

  lemma {:induction false} LineEndIs(line: string, rest: string)
    requires SingleLine(line) && rest != "" && IsBreak(rest[0])
    ensures LineEnd(line + rest) == |line|
  {
    if |line| == 0 {
      assert line + rest == rest;
    } else {
      LineEndIs(line[1..], rest);
      assert (line + rest)[1..] == line[1..] + rest;
    }
  }

  /** A single line, a line feed, and the rest. */
  lemma LinesCons(line: string, rest: string)
    requires SingleLine(line)
    ensures Lines(line + "\n" + rest) == [line] + Lines(rest)
  {
    var text := line + ("\n" + rest);
    LineEndIs(line, "\n" + rest);
    assert line + "\n" + rest == text;
    assert text[..|line|] == line && text[|line|] == '\n' && text[|line| + 1..] == rest;
  }

  // ---------------------------------------------------------------- stripping

  function TrimRight(text: string): (r: string)
    ensures r <= text && (r == "" || !IsSpace(r[|r| - 1])) && Blank(text[|r|..])
    ensures r == text <==> text == "" || !IsSpace(text[|text| - 1])
  {
    if |text| == 0 || !IsSpace(text[|text| - 1]) then text
    else
      var r := TrimRight(text[..|text| - 1]);
      assert text[|r|..] == text[..|text| - 1][|r|..] + [text[|text| - 1]];
      r
  }

  function TrimLeft(text: string): (r: string)
    ensures |r| <= |text| && (r == "" || !IsSpace(r[0])) && forall c :: c in r ==> c in text
  {
    if |text| == 0 || !IsSpace(text[0]) then text else TrimLeft(text[1..])
  }

  /** `line.strip()` */
  function Strip(text: string): string {
    TrimRight(TrimLeft(text))
  }

  /** Trimming `a + b` trims only `b` when `a` ends in no space. */
  lemma {:induction false} TrimRightConcat(a: string, b: string)
    requires a != "" && !IsSpace(a[|a| - 1])
    ensures TrimRight(a + b) == a + TrimRight(b)
  {
    if |b| == 0 {
      assert a + b == a;
    } else if IsSpace(b[|b| - 1]) {
      assert (a + b)[..|a + b| - 1] == a + b[..|b| - 1];
      TrimRightConcat(a, b[..|b| - 1]);
    }
  }

  // ---------------------------------------------------------------- the parser

  datatype Parsed = Parsed(event: string, data: string, id: Option<string>)

  /** The variables of `iter_sse_events`. */
  datatype Fields = Fields(event: string, id: Option<string>, dataLines: seq<string>)

  const Fresh := Fields("message", None, [])

  /** `"\n".join(data_lines)` */
  function JoinLines(ls: seq<string>): string {
    if |ls| == 0 then ""
    else if |ls| == 1 then ls[0]
    else JoinLines(ls[..|ls| - 1]) + "\n" + ls[|ls| - 1]
  }

  function IndexOfColon(s: string): (n: nat)
    ensures n <= |s| && (n < |s| ==> s[n] == ':') && forall i :: 0 <= i < n ==> s[i] != ':'
  {
    if |s| == 0 || s[0] == ':' then 0 else 1 + IndexOfColon(s[1..])
  }

  function WithoutSpace(value: string): string {
    if |value| > 0 && value[0] == ' ' then value[1..] else value
  }

  /** What a stripped line that is neither empty nor a comment does. */
  function OnField(f: Fields, line: string): Fields {
    var n := IndexOfColon(line);
    if n == |line| then f
    else
      var value := WithoutSpace(line[n + 1..]);
      if line[..n] == "event" then f.(event := value)
      else if line[..n] == "data" then f.(dataLines := f.dataLines + [value])
      else if line[..n] == "id" then f.(id := Some(value))
      else f
  }

  function Flushed(f: Fields): seq<Parsed> {
    if f.dataLines == [] then [] else [Parsed(f.event, JoinLines(f.dataLines), f.id)]
  }

  function OnLine(f: Fields, raw: string): (Fields, seq<Parsed>) {
    var line := Strip(raw);
    if line == "" then (if f.dataLines == [] then f else Fresh, Flushed(f))
    else if line[0] == ':' then (f, [])
    else (OnField(f, line), [])
  }

  function Parse(f: Fields, lines: seq<string>): seq<Parsed>
    decreases |lines|
  {
    if |lines| == 0 then Flushed(f)
    else
      var (n, out) := OnLine(f, lines[0]);
      out + Parse(n, lines[1..])
  }

  /** `iter_sse_events` */
  method IterSseEvents(lines: seq<string>) returns (out: seq<Parsed>)
    ensures out == Parse(Fresh, lines)
  {
    var event, eventId, dataLines: seq<string> := "message", None, [];
    out := [];
    assert lines[0..] == lines;
    for i := 0 to |lines|
      invariant out + Parse(Fields(event, eventId, dataLines), lines[i..]) == Parse(Fresh, lines)
    {
      ParseStep(out, Fields(event, eventId, dataLines), lines, i);
      hide TrimLeft, TrimRight;
      var line := Strip(lines[i]);
      if line == "" {
        if dataLines != [] {
          out := out + [Parsed(event, JoinLines(dataLines), eventId)];
          event, eventId, dataLines := "message", None, [];
        } else {
          assert out + [] == out;
        }
        continue;
      }
      assert out + [] == out;
      if line[0] == ':' {
        continue;
      }
      var n := IndexOfColon(line);
      if n == |line| {
        continue;
      }
      var value := WithoutSpace(line[n + 1..]);
      if line[..n] == "event" {
        event := value;
      } else if line[..n] == "data" {
        dataLines := dataLines + [value];
      } else if line[..n] == "id" {
        eventId := Some(value);
      }
    }
    if dataLines != [] {
      out := out + [Parsed(event, JoinLines(dataLines), eventId)];
    } else {
      assert out + [] == out;
    }
  }

  lemma ParseStep(out: seq<Parsed>, f: Fields, lines: seq<string>, i: nat)
    requires i < |lines|
    ensures var (n, x) := OnLine(f, lines[i]); out + Parse(f, lines[i..]) == out + x + Parse(n, lines[i + 1..])
  {
  }

  // ---------------------------------------------------------------- the printer

  /** What the service writes: an event, or the heartbeat comment. */
  datatype Piece = Event(name: string, payload: string) | KeepAlive

  /** `format_sse_event`, its payload already serialised. */
  function FormatSseEvent(name: string, payload: string): string {
    "event: " + name + "\ndata: " + payload + "\n\n"
  }

  function Print(pieces: seq<Piece>): string {
    if |pieces| == 0 then ""
    else
      (match pieces[0] case Event(n, p) => FormatSseEvent(n, p) case KeepAlive => ": keepalive\n\n") + Print(pieces[1..])
  }

  ghost predicate SingleLines(pieces: seq<Piece>) {
    forall i :: 0 <= i < |pieces| && pieces[i].Event? ==> SingleLine(pieces[i].name) && SingleLine(pieces[i].payload)
  }

  lemma PrintedEventLines(name: string, payload: string, rest: string)
    requires SingleLine(name) && SingleLine(payload)
    ensures Lines(FormatSseEvent(name, payload) + rest) == ["event: " + name, "data: " + payload, ""] + Lines(rest)
  {
    hide IsBreak, Lines;
    assert SingleLine("event: ") && SingleLine("data: ") by { PrefixesAreSingleLines(); }
    LinesCons("event: " + name, "data: " + payload + "\n\n" + rest);
    LinesCons("data: " + payload, "\n" + rest);
    LinesCons("", rest);
    assert FormatSseEvent(name, payload) + rest == "event: " + name + "\n" + ("data: " + payload + "\n\n" + rest);
    assert "data: " + payload + "\n\n" + rest == "data: " + payload + "\n" + ("\n" + rest);
    assert "" + "\n" + rest == "\n" + rest;
    assert ["event: " + name] + (["data: " + payload] + ([""] + Lines(rest))) ==
           ["event: " + name, "data: " + payload, ""] + Lines(rest);
  }

  lemma PrefixesAreSingleLines()
    ensures SingleLine("event: ") && SingleLine("data: ") && SingleLine(": keepalive")
  {
  }

  lemma KeepAliveLines(rest: string)
    ensures Lines(": keepalive\n\n" + rest) == [": keepalive", ""] + Lines(rest)
  {
    hide Lines;
    PrefixesAreSingleLines();
    LinesCons(": keepalive", "\n" + rest);
    LinesCons("", rest);
    assert ": keepalive\n\n" + rest == ": keepalive" + "\n" + ("\n" + rest);
    assert "" + "\n" + rest == "\n" + rest;
    assert [": keepalive"] + ([""] + Lines(rest)) == [": keepalive", ""] + Lines(rest);
  }

  // ---------------------------------------------------------------- parsing undoes printing

  lemma {:induction false} TrimSpaced(text: string)
    ensures WithoutSpace(TrimRight(" " + text)) == TrimRight(text)
  {
    if |text| == 0 {
      assert " " + text == " " && " "[..0] == "";
      assert TrimRight(" ") == "";
    } else if IsSpace(text[|text| - 1]) {
      assert (" " + text)[..|text|] == " " + text[..|text| - 1];
      TrimSpaced(text[..|text| - 1]);
    } else {
      assert (" " + text)[1..] == text;
    }
  }

  lemma {:induction false} ColonIs(field: string, rest: string)
    requires forall i :: 0 <= i < |field| ==> field[i] != ':'
    ensures IndexOfColon(field + ":" + rest) == |field|
  {
    if |field| == 0 {
      assert field + ":" + rest == ":" + rest;
    } else {
      assert (field + ":" + rest)[1..] == field[1..] + ":" + rest;
      ColonIs(field[1..], rest);
    }
  }

  lemma StripField(field: string, value: string)
    requires field != "" && !IsSpace(field[0])
    ensures Strip(field + ": " + value) == field + ":" + TrimRight(" " + value)
  {
    assert !IsSpace(':');
    assert field + ": " + value == (field + ":") + (" " + value);
    TrimRightConcat(field + ":", " " + value);
    assert TrimLeft(field + ": " + value) == field + ": " + value;
  }

  /** `value` is what a field of this name has brought; a name that is none of the three brings nothing. */
  function Recorded(f: Fields, field: string, value: string): Fields {
    match field
    case "event" => Fields(value, f.id, f.dataLines)
    case "id" => Fields(f.event, Some(value), f.dataLines)
    case "data" => Fields(f.event, f.id, f.dataLines + [value])
    case _ => f
  }

  predicate IsFieldName(field: string) {
    field != "" && !IsSpace(field[0]) && forall i :: 0 <= i < |field| ==> field[i] != ':'
  }

  lemma FieldIs(f: Fields, field: string, rest: string)
    requires IsFieldName(field)
    ensures OnField(f, field + ":" + rest) == Recorded(f, field, WithoutSpace(rest))
  {
    ColonIs(field, rest);
    hide IndexOfColon, WithoutSpace;
    var line := field + ":" + rest;
    assert line[|field| + 1..] == rest && line[..|field|] == field;
  }

  /**
   A line with a field: its name up to the first colon, and the value, of which one leading space, if there is one,
   and the trailing whitespace are lost.
   */
  lemma PrintedField(f: Fields, field: string, value: string)
    requires IsFieldName(field)
    ensures OnLine(f, field + ": " + value) == (Recorded(f, field, TrimRight(value)), [])
    ensures value == "" || !IsSpace(value[0]) ==> OnLine(f, field + ":" + value) == (Recorded(f, field, TrimRight(value)), [])
  {
    StripField(field, value);
    FieldIs(f, field, TrimRight(" " + value));
    TrimSpaced(value);
    if value == "" || !IsSpace(value[0]) {
      StripTight(field, value);
      FieldIs(f, field, TrimRight(value));
      assert WithoutSpace(TrimRight(value)) == TrimRight(value);
    }
    hide TrimRight, Strip, OnField, WithoutSpace, Recorded;
    assert (field + ":" + TrimRight(" " + value))[0] == field[0];
    assert (field + ":" + TrimRight(value))[0] == field[0];
  }

  lemma StripTight(field: string, value: string)
    requires IsFieldName(field)
    ensures Strip(field + ":" + value) == field + ":" + TrimRight(value)
  {
    assert !IsSpace(':');
    TrimRightConcat(field + ":", value);
    assert TrimLeft(field + ":" + value) == field + ":" + value;
  }

  /** Whitespace in front of a line does not count. */
  lemma {:induction false} IndentedLine(f: Fields, space: string, line: string)
    requires Blank(space)
    ensures OnLine(f, space + line) == OnLine(f, line)
  {
    if |space| == 0 {
      assert space + line == line;
    } else {
      assert (space + line)[1..] == space[1..] + line;
      IndentedLine(f, space[1..], line);
      hide OnField, Flushed;
    }
  }

  /** A comment, or a line without a colon, changes nothing. */
  lemma IgnoredLine(f: Fields, line: string)
    requires Strip(line) != "" && (Strip(line)[0] == ':' || forall i :: 0 <= i < |Strip(line)| ==> Strip(line)[i] != ':')
    ensures OnLine(f, line) == (f, [])
  {
    hide Strip;
    assert IndexOfColon(Strip(line)) < |Strip(line)| ==> Strip(line)[0] == ':';
  }

  lemma ParseField(f: Fields, field: string, value: string, rest: seq<string>)
    requires IsFieldName(field)
    ensures Parse(f, [field + ": " + value] + rest) == Parse(Recorded(f, field, TrimRight(value)), rest)
  {
    hide Parse, OnLine, TrimRight, Recorded;
    PrintedField(f, field, value);
    ParseCons(f, field + ": " + value, rest);
    assert [] + Parse(Recorded(f, field, TrimRight(value)), rest) == Parse(Recorded(f, field, TrimRight(value)), rest);
  }

  lemma EndOfBlock(f: Fields, rest: seq<string>)
    requires f.dataLines != []
    ensures Parse(f, [""] + rest) == [Parsed(f.event, JoinLines(f.dataLines), f.id)] + Parse(Fresh, rest)
    ensures Parse(f, []) == [Parsed(f.event, JoinLines(f.dataLines), f.id)]
  {
    PrintedComment(f);
    ParseCons(f, "", rest);
    hide JoinLines;
  }

  /** A block of lines arrives as one event with its name, its id and its data lines joined. */
  lemma ParsesBlock(name: string, id: string, a: string, b: string, rest: seq<string>)
    ensures Parse(Fresh, ["event: " + name] + (["id: " + id] + (["data: " + a] + (["data: " + b] + ([""] + rest))))) ==
            [Parsed(TrimRight(name), TrimRight(a) + "\n" + TrimRight(b), Some(TrimRight(id)))] + Parse(Fresh, rest)
  {
    hide Parse, TrimRight, IsFieldName;
    NamesOfFields();
    assert "event" + ": " + name == "event: " + name && "id" + ": " + id == "id: " + id;
    assert "data" + ": " + a == "data: " + a && "data" + ": " + b == "data: " + b;
    var f1 := Fields(TrimRight(name), None, []);
    var f2 := Fields(TrimRight(name), Some(TrimRight(id)), []);
    var f3 := Fields(TrimRight(name), Some(TrimRight(id)), [TrimRight(a)]);
    var f4 := Fields(TrimRight(name), Some(TrimRight(id)), [TrimRight(a), TrimRight(b)]);
    ParseField(Fresh, "event", name, ["id: " + id] + (["data: " + a] + (["data: " + b] + ([""] + rest))));
    ParseField(f1, "id", id, ["data: " + a] + (["data: " + b] + ([""] + rest)));
    assert [] + [TrimRight(a)] == [TrimRight(a)] && [TrimRight(a)] + [TrimRight(b)] == [TrimRight(a), TrimRight(b)];
    ParseField(f2, "data", a, ["data: " + b] + ([""] + rest));
    ParseField(f3, "data", b, [""] + rest);
    EndOfBlock(f4, rest);
    JoinTwo(TrimRight(a), TrimRight(b));
  }

  /** A block without a name is a message, and a block that the end of the stream cuts off arrives too. */
  lemma ParsesBareBlock(a: string, rest: seq<string>)
    ensures Parse(Fresh, ["data: " + a] + ([""] + rest)) == [Parsed("message", TrimRight(a), None)] + Parse(Fresh, rest)
    ensures Parse(Fresh, ["data: " + a] + []) == [Parsed("message", TrimRight(a), None)]
  {
    hide Parse, TrimRight, IsFieldName;
    NamesOfFields();
    assert "data" + ": " + a == "data: " + a && [] + [TrimRight(a)] == [TrimRight(a)];
    ParseField(Fresh, "data", a, [""] + rest);
    ParseField(Fresh, "data", a, []);
    EndOfBlock(Fields("message", None, [TrimRight(a)]), rest);
    JoinTwo(TrimRight(a), "");
  }

  lemma NamesOfFields()
    ensures IsFieldName("event") && IsFieldName("data") && IsFieldName("id")
  {
  }

  lemma JoinTwo(a: string, b: string)
    ensures JoinLines([a, b]) == a + "\n" + b && JoinLines([a]) == a
  {
    assert [a, b][..1] == [a];
  }

  lemma PrintedComment(f: Fields)
    ensures OnLine(f, ": keepalive") == (f, []) && OnLine(f, "") == (if f.dataLines == [] then f else Fresh, Flushed(f))
  {
  }

  /** What arrives: the events in order, heartbeats dropped, trailing whitespace of names and payloads lost. */
  function Received(pieces: seq<Piece>): seq<Parsed> {
    if |pieces| == 0 then []
    else
      (match pieces[0] case Event(n, p) => [Parsed(TrimRight(n), TrimRight(p), None)] case KeepAlive => []) + Received(pieces[1..])
  }

  /** After an event line and a data line. */
  lemma TwoFields(name: string, payload: string, rest: seq<string>)
    ensures Parse(Fresh, ["event: " + name] + (["data: " + payload] + rest)) ==
            Parse(Fields(TrimRight(name), None, [TrimRight(payload)]), rest)
  {
    hide Parse, OnLine, TrimRight;
    NamesOfFields();
    var f1 := Fresh.(event := TrimRight(name));
    assert "event" + ": " + name == "event: " + name && "data" + ": " + payload == "data: " + payload;
    PrintedField(Fresh, "event", name);
    PrintedField(f1, "data", payload);
    ParseCons(Fresh, "event: " + name, ["data: " + payload] + rest);
    ParseCons(f1, "data: " + payload, rest);
    assert f1.dataLines + [TrimRight(payload)] == [TrimRight(payload)];
    var end := Parse(Fields(TrimRight(name), None, [TrimRight(payload)]), rest);
    assert [] + ([] + end) == end;
  }

  lemma ThreeLines(name: string, payload: string, rest: seq<string>)
    ensures Parse(Fresh, ["event: " + name, "data: " + payload, ""] + rest) ==
            [Parsed(TrimRight(name), TrimRight(payload), None)] + Parse(Fresh, rest)
  {
    hide Parse, OnLine, TrimRight;
    var f := Fields(TrimRight(name), None, [TrimRight(payload)]);
    TwoFields(name, payload, [""] + rest);
    PrintedComment(f);
    ParseCons(f, "", rest);
    assert ["event: " + name] + (["data: " + payload] + ([""] + rest)) == ["event: " + name, "data: " + payload, ""] + rest;
    assert JoinLines([TrimRight(payload)]) == TrimRight(payload);
  }

  lemma ParseCons(f: Fields, line: string, rest: seq<string>)
    ensures Parse(f, [line] + rest) == OnLine(f, line).1 + Parse(OnLine(f, line).0, rest)
  {
  }

  lemma TwoLines(rest: seq<string>)
    ensures Parse(Fresh, [": keepalive", ""] + rest) == Parse(Fresh, rest)
  {
  }

  /** Printing and parsing any list of single-line events, with heartbeats anywhere between them. */
  lemma {:induction false} PrintedThenParsed(pieces: seq<Piece>)
    requires SingleLines(pieces)
    ensures Parse(Fresh, Lines(Print(pieces))) == Received(pieces)
  {
    hide Parse, Lines, FormatSseEvent;
    if |pieces| == 0 {
      NothingPrinted();
    } else {
      var rest := Print(pieces[1..]);
      PrintedThenParsed(pieces[1..]);
      match pieces[0]
      case Event(n, p) =>
        PrintedEventLines(n, p, rest);
        ThreeLines(n, p, Lines(rest));
      case KeepAlive =>
        KeepAliveLines(rest);
        TwoLines(Lines(rest));
    }
  }

  lemma NothingPrinted()
    ensures Parse(Fresh, Lines("")) == []
  {
  }

  /** The events of a list of pieces, as they should arrive. */
  function Sent(pieces: seq<Piece>): seq<Parsed> {
    if |pieces| == 0 then []
    else
      (match pieces[0] case Event(n, p) => [Parsed(n, p, None)] case KeepAlive => []) + Sent(pieces[1..])
  }

  predicate Trimmed(text: string) {
    text == "" || !IsSpace(text[|text| - 1])
  }

  ghost predicate AllTrimmed(pieces: seq<Piece>) {
    forall i :: 0 <= i < |pieces| && pieces[i].Event? ==> Trimmed(pieces[i].name) && Trimmed(pieces[i].payload)
  }

  lemma {:induction false} ReceivedIsSentIff(pieces: seq<Piece>)
    ensures |Received(pieces)| == |Sent(pieces)|
    ensures Received(pieces) == Sent(pieces) <==> AllTrimmed(pieces)
  {
    if |pieces| > 0 {
      var rest := pieces[1..];
      ReceivedIsSentIff(rest);
      AllTrimmedCons(pieces);
      hide TrimRight, AllTrimmed;
      match pieces[0]
      case Event(n, p) =>
        ConsEqual(Parsed(TrimRight(n), TrimRight(p), None), Received(rest), Parsed(n, p, None), Sent(rest));
      case KeepAlive =>
        assert Received(pieces) == Received(rest) && Sent(pieces) == Sent(rest);
    }
  }

  lemma AllTrimmedCons(pieces: seq<Piece>)
    requires pieces != []
    ensures AllTrimmed(pieces) <==>
            (pieces[0].Event? ==> Trimmed(pieces[0].name) && Trimmed(pieces[0].payload)) && AllTrimmed(pieces[1..])
  {
  }

  lemma ConsEqual(a: Parsed, s: seq<Parsed>, b: Parsed, t: seq<Parsed>)
    ensures [a] + s == [b] + t <==> a == b && s == t
  {
    assert ([a] + s)[0] == a && ([a] + s)[1..] == s && ([b] + t)[0] == b && ([b] + t)[1..] == t;
  }

  /** The round trip of single-line events holds exactly when no name and no payload ends in whitespace. */
  lemma RoundTripIff(pieces: seq<Piece>)
    requires SingleLines(pieces)
    ensures Parse(Fresh, Lines(Print(pieces))) == Sent(pieces) <==> AllTrimmed(pieces)
  {
    PrintedThenParsed(pieces);
    ReceivedIsSentIff(pieces);
  }

  // ---------------------------------------------------------------- line breaks never survive

  /** No parsed event has a line break in its name. */
  lemma {:induction false} NamesAreSingleLines(f: Fields, lines: seq<string>, k: nat)
    requires SingleLine(f.event) && (forall i :: 0 <= i < |lines| ==> SingleLine(lines[i])) && k < |Parse(f, lines)|
    ensures SingleLine(Parse(f, lines)[k].event)
    decreases |lines|
  {
    hide IsBreak;
    if |lines| > 0 {
      var (n, out) := OnLine(f, lines[0]);
      StripKeepsLine(lines[0]);
      FieldKeepsLine(f, Strip(lines[0]));
      assert SingleLine("message") by { MessageIsSingleLine(); }
      hide OnField, Strip;
      if k >= |out| {
        NamesAreSingleLines(n, lines[1..], k - |out|);
      }
    }
  }

  lemma MessageIsSingleLine()
    ensures SingleLine("message")
  {
  }

  lemma StripKeepsLine(text: string)
    requires SingleLine(text)
    ensures SingleLine(Strip(text)) && |Strip(text)| <= |text|
  {
    hide IsBreak;
    var t := TrimLeft(text);
    forall i | 0 <= i < |t| ensures !IsBreak(t[i]) {
      assert t[i] in text;
    }
  }

  lemma FieldKeepsLine(f: Fields, line: string)
    requires SingleLine(f.event) && SingleLine(line)
    ensures SingleLine(OnField(f, line).event)
  {
  }

  function TotalLength(lines: seq<string>): nat {
    if |lines| == 0 then 0 else |lines[0]| + TotalLength(lines[1..])
  }

  lemma {:induction false} LinesAreShorter(text: string)
    ensures TotalLength(Lines(text)) <= |text|
    decreases |text|
  {
    var n := LineEnd(text);
    if n == |text| {
      assert TotalLength([]) == 0 && TotalLength([text]) == |text| + TotalLength([text][1..]);
    } else {
      var m := AfterBreak(text, n);
      LinesAreShorter(text[m..]);
      assert ([text[..n]] + Lines(text[m..]))[1..] == Lines(text[m..]);
    }
  }

  /** A field line adds to the data at least four characters less than it has. */
  lemma FieldAdds(f: Fields, line: string)
    requires f.dataLines != []
    ensures var n := OnField(f, line);
            n.dataLines == f.dataLines ||
            (n.dataLines != [] && |JoinLines(n.dataLines)| + 4 <= |JoinLines(f.dataLines)| + |line|)
  {
  }

  /** The first event carries the data collected so far, or less than what its lines hold. */
  lemma {:induction false} FirstEventBound(f: Fields, lines: seq<string>)
    requires f.dataLines != [] && forall i :: 0 <= i < |lines| ==> SingleLine(lines[i])
    ensures Parse(f, lines) != []
    ensures var d := |Parse(f, lines)[0].data|;
            d == |JoinLines(f.dataLines)| || d + 4 <= |JoinLines(f.dataLines)| + TotalLength(lines)
    decreases |lines|
  {
    hide JoinLines, SingleLine, OnField, Strip;
    if |lines| > 0 {
      var (n, out) := OnLine(f, lines[0]);
      StripKeepsLine(lines[0]);
      FieldAdds(f, Strip(lines[0]));
      if Strip(lines[0]) != "" {
        FirstEventBound(n, lines[1..]);
      }
    }
  }

  ghost predicate RoundTrips(name: string, payload: string) {
    Parse(Fresh, Lines(FormatSseEvent(name, payload))) == [Parsed(name, payload, None)]
  }

  lemma NameMustBeSingleLine(name: string, payload: string)
    requires RoundTrips(name, payload)
    ensures SingleLine(name)
  {
    MessageIsSingleLine();
    NamesAreSingleLines(Fresh, Lines(FormatSseEvent(name, payload)), 0);
  }

  /** The lines of an event whose payload has a line break at `n`. */
  lemma BrokenPayload(name: string, payload: string, n: nat) returns (rest: string)
    requires SingleLine(name) && n == LineEnd(payload) < |payload|
    ensures Lines(FormatSseEvent(name, payload)) == ["event: " + name] + (["data: " + payload[..n]] + Lines(rest))
    ensures |rest| <= |payload| - n + 1
  {
    hide Lines, IsBreak, Parse;
    PrefixesAreSingleLines();
    var tail := payload[n..] + "\n\n";
    var line := "data: " + payload[..n];
    LinesCons("event: " + name, line + tail);
    assert payload == payload[..n] + payload[n..];
    assert FormatSseEvent(name, payload) == "event: " + name + "\n" + (line + tail);
    LinesBreak(line, tail);
    rest := tail[AfterBreak(tail, 0)..];
  }

  /** A single line, whatever breaks it, and what comes after the break. */
  lemma LinesBreak(line: string, rest: string)
    requires SingleLine(line) && rest != "" && IsBreak(rest[0])
    ensures Lines(line + rest) == [line] + Lines(rest[AfterBreak(rest, 0)..])
  {
    hide IsBreak;
    var text := line + rest;
    LineEndIs(line, rest);
    assert text[..|line|] == line && text[|line|] == rest[0];
    var m := AfterBreak(text, |line|);
    assert m == |line| + AfterBreak(rest, 0);
    assert text[m..] == rest[AfterBreak(rest, 0)..];
  }

  /** What the first event carries when the payload is broken at `n`. */
  lemma BrokenPayloadIsShort(name: string, payload: string)
    requires SingleLine(name) && LineEnd(payload) < |payload|
    ensures var lines := Lines(FormatSseEvent(name, payload));
            Parse(Fresh, lines) != [] && |Parse(Fresh, lines)[0].data| < |payload|
  {
    hide Parse, Lines, TrimRight, FormatSseEvent, LineEnd, SingleLine, JoinLines, TotalLength;
    var n := LineEnd(payload);
    var rest := BrokenPayload(name, payload, n);
    var line := payload[..n];
    TwoFields(name, line, Lines(rest));
    JoinOne(TrimRight(line));
    FirstEventBound(Fields(TrimRight(name), None, [TrimRight(line)]), Lines(rest));
    LinesAreShorter(rest);
  }

  lemma JoinOne(line: string)
    ensures JoinLines([line]) == line
  {
  }

  lemma PayloadMustBeSingleLine(name: string, payload: string)
    requires RoundTrips(name, payload) && SingleLine(name)
    ensures SingleLine(payload)
  {
    hide Parse, Lines, FormatSseEvent, IsBreak;
    assert payload[..|payload|] == payload;
    if LineEnd(payload) < |payload| {
      BrokenPayloadIsShort(name, payload);
    }
  }

  /** One event comes back as it was sent if and only if neither part has a line break or ends in whitespace. */
  lemma OneEventRoundTripsIff(name: string, payload: string)
    ensures RoundTrips(name, payload) <==>
            SingleLine(name) && SingleLine(payload) && Trimmed(name) && Trimmed(payload)
  {
    if RoundTrips(name, payload) {
      NameMustBeSingleLine(name, payload);
      PayloadMustBeSingleLine(name, payload);
    }
    if SingleLine(name) && SingleLine(payload) {
      var pieces := [Event(name, payload)];
      assert FormatSseEvent(name, payload) + "" == FormatSseEvent(name, payload);
      assert pieces[1..] == [];
      assert Print(pieces) == FormatSseEvent(name, payload) + Print([]);
      assert Sent(pieces) == [Parsed(name, payload, None)] + Sent([]);
      RoundTripIff(pieces);
      assert AllTrimmed(pieces) <==> Trimmed(name) && Trimmed(payload) by {
        assert pieces[0] == Event(name, payload);
      }
    }
  }

  // ---------------------------------------------------------------- from the generator to the UI

  function EventName(e: EventStream.Event): string {
    match e
    case KeepAlive => ""
    case Metadata => "metadata"
    case Token(_) => "token"
    case ToolCall(_, _, _) => "tool_call"
    case ToolResult(_, _) => "tool_result"
    case ArtifactReady(_) => "artifact_ready"
    case RetrievedDocs(_, _) => "retrieved_docs"
    case CancelledEvent => "cancelled"
    case ErrorEvent(_) => "error"
    case Done => "done"
  }

  /** What the service writes for the events it yields; `encode` serialises their payloads. */
  function Pieces(out: seq<EventStream.Emission>, encode: EventStream.Event -> string): seq<Piece> {
    if |out| == 0 then []
    else
      var e := out[0].event;
      [if e.KeepAlive? then KeepAlive else Event(EventName(e), encode(e))] + Pieces(out[1..], encode)
  }

  /** JSON objects are written on one line and end in a brace. */
  ghost predicate IsEncoding(encode: EventStream.Event -> string) {
    forall e :: SingleLine(encode(e)) && Trimmed(encode(e))
  }

  predicate TerminalName(name: string) {
    name == "cancelled" || name == "error" || name == "done"
  }

  lemma EventNames(e: EventStream.Event)
    ensures SingleLine(EventName(e)) && Trimmed(EventName(e))
    ensures TerminalName(EventName(e)) <==> e.Terminal()
  {
  }

  lemma {:induction false} PiecesAreClean(out: seq<EventStream.Emission>, encode: EventStream.Event -> string)
    requires IsEncoding(encode)
    ensures SingleLines(Pieces(out, encode)) && AllTrimmed(Pieces(out, encode))
  {
    hide SingleLine, Trimmed, EventName;
    if |out| > 0 {
      PiecesAreClean(out[1..], encode);
      EventNames(out[0].event);
    }
  }

  /** The UI gets exactly the events that the generator yields, in order and without the heartbeats. */
  lemma UiSeesTheStream(ss: EventStream.Session, items: seq<EventStream.Item>, encode: EventStream.Event -> string)
    requires IsEncoding(encode)
    ensures var pieces := Pieces(EventStream.Stream(ss, EventStream.Start, items), encode);
            Parse(Fresh, Lines(Print(pieces))) == Sent(pieces)
  {
    hide Parse, Lines, Print;
    PiecesAreClean(EventStream.Stream(ss, EventStream.Start, items), encode);
    RoundTripIff(Pieces(EventStream.Stream(ss, EventStream.Start, items), encode));
  }

  /** A terminal event that ends the yielded events, and only that one, ends what arrives. */
  lemma {:induction false} SentTerminal(out: seq<EventStream.Emission>, encode: EventStream.Event -> string)
    requires |out| > 0 && out[|out| - 1].event.Terminal()
    requires forall k :: 0 <= k < |out| - 1 ==> !out[k].event.Terminal()
    ensures var got := Sent(Pieces(out, encode));
            && |got| > 0 && TerminalName(got[|got| - 1].event)
            && forall k :: 0 <= k < |got| - 1 ==> !TerminalName(got[k].event)
  {
    hide EventName, TerminalName;
    EventNames(out[0].event);
    if |out| == 1 {
      assert Pieces(out[1..], encode) == [];
      assert Sent(Pieces(out, encode)) == [Parsed(EventName(out[0].event), encode(out[0].event), None)] + Sent([]);
    } else {
      assert out[1..][|out[1..]| - 1] == out[|out| - 1];
      SentTerminal(out[1..], encode);
      var tail := Sent(Pieces(out[1..], encode));
      assert Pieces(out, encode)[1..] == Pieces(out[1..], encode);
    }
  }

  /** If the queue ends at all, the UI sees one terminal event, and sees it last. */
  lemma UiSeesOneTerminalEvent(
    ss: EventStream.Session, items: seq<EventStream.Item>, encode: EventStream.Event -> string)
    requires IsEncoding(encode) && exists i :: 0 <= i < |items| && EventStream.Ends(items[i])
    ensures var got := Parse(Fresh, Lines(Print(Pieces(EventStream.Stream(ss, EventStream.Start, items), encode))));
            && |got| > 0 && TerminalName(got[|got| - 1].event)
            && forall k :: 0 <= k < |got| - 1 ==> !TerminalName(got[k].event)
  {
    hide Parse, Lines, Print, TerminalName;
    EventStream.OneTerminalEvent(ss, EventStream.Start, items);
    UiSeesTheStream(ss, items, encode);
    SentTerminal(EventStream.Stream(ss, EventStream.Start, items), encode);
  }

  /** The yielded events without the heartbeats. */
  function Shown(out: seq<EventStream.Emission>): seq<EventStream.Event> {
    if |out| == 0 then []
    else (if out[0].event.KeepAlive? then [] else [out[0].event]) + Shown(out[1..])
  }

  /** The name under which the UI knows an event. */
  ghost predicate NamedFor(name: string, e: EventStream.Event) {
    && (name == "token" <==> e.Token?) && (name == "artifact_ready" <==> e.ArtifactReady?)
    && (name == "metadata" <==> e.Metadata?) && (name == "tool_call" <==> e.ToolCall?)
    && (name == "tool_result" <==> e.ToolResult?) && (name == "retrieved_docs" <==> e.RetrievedDocs?)
    && (name == "done" <==> e.Done?) && (name == "cancelled" <==> e.CancelledEvent?) && (name == "error" <==> e.ErrorEvent?)
  }

  lemma {:induction false} SentNames(out: seq<EventStream.Emission>, encode: EventStream.Event -> string)
    ensures var got := Sent(Pieces(out, encode));
            && |got| == |Shown(out)|
            && forall j :: 0 <= j < |got| ==>
                 NamedFor(got[j].event, Shown(out)[j]) && got[j].data == encode(Shown(out)[j]) && got[j].id == None
  {
    if |out| > 0 {
      SentNames(out[1..], encode);
      NameIs(out[0].event);
      hide NamedFor, EventName;
      assert Pieces(out, encode)[1..] == Pieces(out[1..], encode);
    }
  }

  lemma NameIs(e: EventStream.Event)
    ensures NamedFor(EventName(e), e)
  {
  }

  /** Each event arrives under the name by which the UI tells events apart, with its payload. */
  lemma UiKnowsEveryEvent(ss: EventStream.Session, items: seq<EventStream.Item>, encode: EventStream.Event -> string)
    requires IsEncoding(encode)
    ensures var out := EventStream.Stream(ss, EventStream.Start, items);
            var got := Parse(Fresh, Lines(Print(Pieces(out, encode))));
            && |got| == |Shown(out)|
            && forall j :: 0 <= j < |got| ==>
                 NamedFor(got[j].event, Shown(out)[j]) && got[j].data == encode(Shown(out)[j]) && got[j].id == None
  {
    hide Parse, Lines, Print, NamedFor, Sent, Shown, Pieces;
    UiSeesTheStream(ss, items, encode);
    SentNames(EventStream.Stream(ss, EventStream.Start, items), encode);
  }
}
