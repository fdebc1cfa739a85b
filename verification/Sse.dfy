/** Server-sent events: writeSSE (internal/server/sse.go) and the frame parser of
    StreamReader.NextEvent (internal/codex/http_client.go). */
module Sse {
  import opened Text

  /** writeSSE. */
  function Write(name: string, payload: string): string {
    (if name != "" then "event: " + name + "\n" else "") + "data: " + payload + "\n\n"
  }

  /** A frame, or what ends the stream: its end, an empty frame, or the closing marker. */
  datatype Outcome = Frame(name: string, data: string) | End

  /** The first line feed, or the length of the input. */
  function LineEnd(input: string): (i: nat)
    ensures i <= |input| && (i < |input| ==> input[i] == '\n') && forall j | 0 <= j < i :: input[j] != '\n'
  {
    if input == "" || input[0] == '\n' then 0 else 1 + LineEnd(input[1..])
  }

  /** strings.TrimRight(line, "\r\n"). */
  function TrimLineEnd(line: string): (r: string)
    ensures r <= line
  {
    if line != "" && (line[|line| - 1] == '\r' || line[|line| - 1] == '\n') then TrimLineEnd(line[..|line| - 1]) else line
  }

  function Join(lines: seq<string>): string {
    if lines == [] then "" else if |lines| == 1 then lines[0] else lines[0] + "\n" + Join(lines[1..])
  }

  function Emit(name: string, lines: seq<string>): Outcome {
    var data := Join(lines);
    if data == "" || data == "[DONE]" then End else Frame(TrimSpace(name), data)
  }

  predicate HasField(line: string, field: string) {
    field <= ToLower(line)
  }

  /** What a line does to the event name and the data lines. */
  function Field(line: string, name: string, lines: seq<string>): (string, seq<string>) {
    if HasField(line, "event:") then (TrimSpace(line[6..]), lines)
    else if HasField(line, "data:") then (name, lines + [TrimSpace(line[5..])])
    else (name, lines)
  }

  /** NextEvent from a point inside a frame: the outcome and the unread input. */
  function Next(input: string, name: string, lines: seq<string>): (Outcome, string)
    decreases |input|
  {
    var i := LineEnd(input);
    if i == |input| then (if lines != [] then Emit(name, lines) else End, "")
    else
      var line, rest := TrimLineEnd(input[..i]), input[i + 1..];
      if line == "" then if lines == [] then Next(rest, name, lines) else (Emit(name, lines), rest)
      else
        var (name', lines') := Field(line, name, lines);
        Next(rest, name', lines')
  }

  lemma {:induction false} NextShortens(input: string, name: string, lines: seq<string>)
    ensures |Next(input, name, lines).1| <= |input|
    ensures Next(input, name, lines).0.Frame? && lines == [] ==> |Next(input, name, lines).1| < |input|
    decreases |input|
  {
    hide TrimLineEnd, Field, Emit, LineEnd;
    var i := LineEnd(input);
    if i < |input| {
      var line, rest := TrimLineEnd(input[..i]), input[i + 1..];
      NextShortens(rest, name, lines);
      NextShortens(rest, Field(line, name, lines).0, Field(line, name, lines).1);
    }
  }

  datatype Sent = Sent(name: string, payload: string)

  function WriteAll(events: seq<Sent>): string {
    if events == [] then "" else Write(events[0].name, events[0].payload) + WriteAll(events[1..])
  }

  /** NextEvent again and again, until the stream ends. */
  function ReadAll(input: string): seq<Sent>
    decreases |input|
  {
    NextShortens(input, "", []);
    var (outcome, rest) := Next(input, "", []);
    if outcome == End then [] else [Sent(outcome.name, outcome.data)] + ReadAll(rest)
  }

  // ----- one line -----

  predicate OneLine(s: string) {
    '\n' !in s
  }

  lemma {:induction false} LineEndAt(line: string, rest: string)
    requires OneLine(line)
    ensures LineEnd(line + "\n" + rest) == |line|
  {
    if line == "" {
      assert ("" + "\n" + rest)[0] == '\n';
    } else {
      LineEndAt(line[1..], rest);
      assert (line + "\n" + rest)[1..] == line[1..] + "\n" + rest;
    }
  }

  /** Reading one whole line. */
  lemma NextLine(line: string, rest: string, name: string, lines: seq<string>)
    requires OneLine(line)
    ensures Next(line + "\n" + rest, name, lines)
      == if TrimLineEnd(line) == "" then
           if lines == [] then Next(rest, name, lines) else (Emit(name, lines), rest)
         else Next(rest, Field(TrimLineEnd(line), name, lines).0, Field(TrimLineEnd(line), name, lines).1)
  {
    LineEndAt(line, rest);
    var input := line + "\n" + rest;
    assert input[..|line|] == line && input[|line| + 1..] == rest;
    hide TrimLineEnd, Field, Emit, LineEnd;
  }

  // ----- trimming -----

  lemma {:induction false} TrimLeftSnoc(s: string, c: char)
    requires IsSpace(c)
    ensures TrimLeft(s + [c]) == if TrimLeft(s) == "" then "" else TrimLeft(s) + [c]
  {
    if s == "" {
      assert TrimLeft([c]) == TrimLeft([c][1..]);
    } else if IsSpace(s[0]) {
      TrimLeftSnoc(s[1..], c);
      assert (s + [c])[1..] == s[1..] + [c];
    }
  }

  lemma TrimSpaceSnoc(s: string, c: char)
    requires IsSpace(c)
    ensures TrimSpace(s + [c]) == TrimSpace(s)
  {
    TrimLeftSnoc(s, c);
    var t := TrimLeft(s);
    assert (t + [c])[..|t|] == t;
  }

  lemma {:induction false} LineEndIsSpace(line: string)
    ensures TrimSpace(TrimLineEnd(line)) == TrimSpace(line)
  {
    if line != "" && (line[|line| - 1] == '\r' || line[|line| - 1] == '\n') {
      var n := |line| - 1;
      LineEndIsSpace(line[..n]);
      assert line == line[..n] + [line[n]];
      TrimSpaceSnoc(line[..n], line[n]);
    }
  }

  lemma {:induction false} TrimLineEndAfter(field: string, line: string)
    requires field != "" && field[|field| - 1] != '\r' && field[|field| - 1] != '\n'
    ensures TrimLineEnd(field + line) == field + TrimLineEnd(line)
  {
    var all := field + line;
    if line == "" {
      assert all == field && TrimLineEnd(field) == field;
    } else {
      assert all[|all| - 1] == line[|line| - 1];
      TrimLineEndAfter(field, line[..|line| - 1]);
      assert all[..|all| - 1] == field + line[..|line| - 1];
    }
  }

  lemma SpaceBefore(s: string)
    ensures TrimSpace(" " + s) == TrimSpace(s)
  {
    assert (" " + s)[1..] == s && (" " + s)[0] == ' ';
  }

  lemma LowerPrefix(field: string, rest: string)
    requires forall i | 0 <= i < |field| :: LowerChar(field[i]) == field[i]
    ensures HasField(field + rest, field)
  {}

  /** A line with a field sets it to the trimmed value. */
  lemma FieldLine(field: string, value: string, name: string, lines: seq<string>)
    requires field == "event:" || field == "data:"
    ensures var line := TrimLineEnd(field + " " + value);
      && line != ""
      && Field(line, name, lines) == if field == "event:" then (TrimSpace(value), lines) else (name, lines + [TrimSpace(value)])
  {
    TrimLineEndAfter(field, " " + value);
    assert field + " " + value == field + (" " + value);
    var tail := TrimLineEnd(" " + value);
    LowerPrefix(field, tail);
    assert (field + tail)[|field|..] == tail;
    LineEndIsSpace(" " + value);
    SpaceBefore(value);
    if field == "data:" {
      assert ToLower(field + tail)[0] == 'd';
      assert !HasField(field + tail, "event:");
    }
    hide TrimSpace, TrimLineEnd, ToLower;
  }

  // ----- one frame -----

  /** What a written frame is read as, whatever it holds: its name and payload trimmed, unless the
      payload is empty or the closing marker then. */
  lemma FrameIsRead(name: string, payload: string, rest: string)
    requires OneLine(name) && OneLine(payload)
    ensures Next(Write(name, payload) + rest, "", []) == (Emit(TrimSpace(name), [TrimSpace(payload)]), rest)
  {
    hide Next, TrimSpace, Field, TrimLineEnd, Emit;
    var after := "\n" + rest;
    var data := "data: " + payload;
    assert data == "data:" + " " + payload;
    FieldLine("data:", payload, TrimSpace(name), []);
    if name == "" {
      assert Write(name, payload) + rest == data + "\n" + after;
      NextLine(data, after, "", []);
      EmptyTrims();
    } else {
      var event := "event: " + name;
      assert event == "event:" + " " + name;
      assert Write(name, payload) + rest == event + "\n" + (data + "\n" + after);
      NextLine(event, data + "\n" + after, "", []);
      FieldLine("event:", name, "", []);
      NextLine(data, after, TrimSpace(name), []);
    }
    FieldLine("data:", payload, "", []);
    assert [] + [TrimSpace(payload)] == [TrimSpace(payload)];
    BlankLine(rest, TrimSpace(name), [TrimSpace(payload)]);
  }

  lemma EmptyTrims()
    ensures TrimSpace("") == "" && TrimLineEnd("") == ""
  {}

  lemma BlankLine(rest: string, name: string, lines: seq<string>)
    requires lines != []
    ensures Next("\n" + rest, name, lines) == (Emit(name, lines), rest)
  {
    hide Next, TrimSpace, Field, TrimLineEnd, Emit;
    EmptyTrims();
    assert "" + "\n" + rest == "\n" + rest;
    NextLine("", rest, name, lines);
  }

  /** An event that survives the round trip. */
  predicate Survives(e: Sent) {
    Trimmed(e.name) && Trimmed(e.payload) && e.payload != "" && e.payload != "[DONE]"
  }

  /** A one-line event is read back as it was written if and only if its name and payload are trimmed
      and its payload is neither empty nor the closing marker. */
  lemma ReadBackExactly(e: Sent, rest: string)
    requires OneLine(e.name) && OneLine(e.payload)
    ensures Next(Write(e.name, e.payload) + rest, "", []) == (Frame(e.name, e.payload), rest) <==> Survives(e)
  {
    FrameIsRead(e.name, e.payload, rest);
    var name, payload := TrimSpace(e.name), TrimSpace(e.payload);
    assert TrimSpace(name) == name;
    assert Join([payload]) == payload;
    hide Next, Write, TrimSpace;
  }

  /** Whatever list of such events is written, it is read back in order, and then the stream ends. */
  lemma {:induction false} RoundTrip(events: seq<Sent>)
    requires forall e | e in events :: OneLine(e.name) && OneLine(e.payload) && Survives(e)
    ensures ReadAll(WriteAll(events)) == events
  {
    hide Next, Write, TrimSpace;
    if events == [] {
      NothingToRead();
    } else {
      ReadBackExactly(events[0], WriteAll(events[1..]));
      RoundTrip(events[1..]);
      var input := WriteAll(events);
      assert input == Write(events[0].name, events[0].payload) + WriteAll(events[1..]);
      NextShortens(input, "", []);
      assert ReadAll(input) == [events[0]] + ReadAll(WriteAll(events[1..]));
    }
  }

  lemma NothingToRead()
    ensures ReadAll("") == []
  {}

  // ----- any frame -----

  /** A line as a server may write it: the name of the event, a piece of its data, or something that is
      skipped, with either line end. Fields are written in any case. */
  datatype Line =
    | NameLine(field: string, name: string, crlf: bool)
    | DataLine(field: string, piece: string, crlf: bool)
    | OtherLine(text: string, crlf: bool)

  function TextOf(line: Line): string {
    match line
    case NameLine(field, name, _) => field + name
    case DataLine(field, piece, _) => field + piece
    case OtherLine(text, _) => text
  }

  predicate IsLine(line: Line) {
    && OneLine(TextOf(line))
    && (match line
        case NameLine(field, _, _) => ToLower(field) == "event:"
        case DataLine(field, _, _) => ToLower(field) == "data:"
        case OtherLine(text, _) => TrimLineEnd(text) != "" && !HasField(text, "event:") && !HasField(text, "data:"))
  }

  function Ending(crlf: bool): string {
    if crlf then "\r\n" else "\n"
  }

  function Lines(lines: seq<Line>): string {
    if lines == [] then "" else TextOf(lines[0]) + Ending(lines[0].crlf) + Lines(lines[1..])
  }

  /** The name that is said last. */
  function LastName(lines: seq<Line>): string {
    if lines == [] then ""
    else
      var last := lines[|lines| - 1];
      if last.NameLine? then TrimSpace(last.name) else LastName(lines[..|lines| - 1])
  }

  /** The pieces of data, in their order. */
  function PiecesOf(lines: seq<Line>): seq<string> {
    if lines == [] then []
    else
      var last := lines[|lines| - 1];
      PiecesOf(lines[..|lines| - 1]) + if last.DataLine? then [TrimSpace(last.piece)] else []
  }

  /** The pieces under each other. */
  function Stacked(pieces: seq<string>): string {
    if |pieces| <= 1 then (if pieces == [] then "" else pieces[0])
    else Stacked(pieces[..|pieces| - 1]) + "\n" + pieces[|pieces| - 1]
  }

  lemma {:induction false} JoinStacks(pieces: seq<string>)
    ensures Join(pieces) == Stacked(pieces)
  {
    if |pieces| > 1 {
      JoinSnoc(pieces[..|pieces| - 1], pieces[|pieces| - 1]);
      assert pieces[..|pieces| - 1] + [pieces[|pieces| - 1]] == pieces;
      JoinStacks(pieces[..|pieces| - 1]);
    }
  }

  lemma {:induction false} JoinSnoc(pieces: seq<string>, last: string)
    requires pieces != []
    ensures Join(pieces + [last]) == Join(pieces) + "\n" + last
  {
    assert (pieces + [last])[1..] == pieces[1..] + [last];
    if |pieces| == 1 {
      assert pieces[1..] + [last] == [last];
    } else {
      JoinSnoc(pieces[1..], last);
      assert pieces[0] + "\n" + (Join(pieces[1..]) + "\n" + last) == pieces[0] + "\n" + Join(pieces[1..]) + "\n" + last;
    }
  }

  lemma LastOfField(field: string)
    requires ToLower(field) == "event:" || ToLower(field) == "data:"
    ensures field != "" && field[|field| - 1] == ':'
  {
    var last := |field| - 1;
    assert ToLower(field)[last] == ':' == LowerChar(field[last]);
  }

  lemma LowerAppend(a: string, b: string)
    ensures ToLower(a + b) == ToLower(a) + ToLower(b)
  {}

  lemma CarriageReturn(text: string)
    ensures TrimLineEnd(text + "\r") == TrimLineEnd(text)
  {
    assert (text + "\r")[..|text|] == text;
  }

  /** A field in any case sets what it names to the trimmed value. */
  lemma AnyField(field: string, value: string, name: string, pieces: seq<string>)
    requires ToLower(field) == "event:" || ToLower(field) == "data:"
    ensures var line := TrimLineEnd(field + value);
      && line != ""
      && Field(line, name, pieces) == if ToLower(field) == "event:" then (TrimSpace(value), pieces) else (name, pieces + [TrimSpace(value)])
  {
    LastOfField(field);
    TrimLineEndAfter(field, value);
    LineEndIsSpace(value);
    var tail := TrimLineEnd(value);
    LowerAppend(field, tail);
    assert (field + tail)[|field|..] == tail;
    hide TrimSpace, TrimLineEnd, ToLower;
    if ToLower(field) == "data:" {
      assert ToLower(field + tail)[0] == 'd';
      assert !HasField(field + tail, "event:");
    }
  }

  lemma OtherField(text: string, name: string, pieces: seq<string>)
    requires !HasField(text, "event:") && !HasField(text, "data:")
    ensures Field(TrimLineEnd(text), name, pieces) == (name, pieces)
  {
    var line := TrimLineEnd(text);
    assert text == line + text[|line|..];
    LowerAppend(line, text[|line|..]);
    hide ToLower, TrimLineEnd;
  }

  /** What one line does. */
  lemma OneOfLines(line: Line, rest: string, name: string, pieces: seq<string>)
    requires IsLine(line)
    ensures Next(TextOf(line) + Ending(line.crlf) + rest, name, pieces)
      == Next(rest, if line.NameLine? then TrimSpace(line.name) else name, if line.DataLine? then pieces + [TrimSpace(line.piece)] else pieces)
  {
    LineSets(line, name, pieces);
    AnyEnding(TextOf(line), line.crlf, rest, name, pieces);
    hide *;
  }

  /** Either line end ends the line. */
  lemma AnyEnding(text: string, crlf: bool, rest: string, name: string, pieces: seq<string>)
    requires OneLine(text) && TrimLineEnd(text) != ""
    ensures var (name', pieces') := Field(TrimLineEnd(text), name, pieces);
      Next(text + Ending(crlf) + rest, name, pieces) == Next(rest, name', pieces')
  {
    if crlf {
      CarriageReturn(text);
      Regrouped(text, rest);
      hide *;
      assert OneLine(text + "\r") by { OneLineMore(text); }
      NextLine(text + "\r", rest, name, pieces);
    } else {
      hide Next, Field, TrimLineEnd;
      NextLine(text, rest, name, pieces);
    }
  }

  lemma Regrouped(text: string, rest: string)
    ensures text + Ending(true) + rest == text + "\r" + "\n" + rest
  {
    assert "\r\n" == "\r" + "\n";
  }

  lemma OneLineMore(text: string)
    requires OneLine(text)
    ensures OneLine(text + "\r")
  {}

  lemma LineSets(line: Line, name: string, pieces: seq<string>)
    requires IsLine(line)
    ensures OneLine(TextOf(line)) && TrimLineEnd(TextOf(line)) != ""
    ensures Field(TrimLineEnd(TextOf(line)), name, pieces)
      == (if line.NameLine? then TrimSpace(line.name) else name, if line.DataLine? then pieces + [TrimSpace(line.piece)] else pieces)
  {
    match line
    case NameLine(field, value, _) => AnyField(field, value, name, pieces);
    case DataLine(field, piece, _) => AnyField(field, piece, name, pieces);
    case OtherLine(text, _) => OtherField(text, name, pieces);
  }

  lemma {:induction false} LinesAreRead(lines: seq<Line>, rest: string)
    requires forall line | line in lines :: IsLine(line)
    ensures Next(Lines(lines) + rest, "", []) == Next(rest, LastName(lines), PiecesOf(lines))
    decreases |lines|
  {
    hide TrimSpace, Next, IsLine;
    if lines == [] {
      assert "" + rest == rest;
    } else {
      var before, last := lines[..|lines| - 1], lines[|lines| - 1];
      var text := TextOf(last) + Ending(last.crlf);
      assert before + [last] == lines;
      LinesSnoc(before, last);
      LinesAreRead(before, text + rest);
      assert Lines(before) + text + rest == Lines(before) + (text + rest);
      OneOfLines(last, rest, LastName(before), PiecesOf(before));
      assert PiecesOf(before) + [] == PiecesOf(before);
    }
  }

  lemma {:induction false} LinesSnoc(lines: seq<Line>, last: Line)
    ensures Lines(lines + [last]) == Lines(lines) + (TextOf(last) + Ending(last.crlf))
  {
    hide TextOf, Ending;
    if lines == [] {
      assert ([] + [last])[1..] == [] && [] + [last] == [last];
      assert Lines([last]) == TextOf(last) + Ending(last.crlf) + "";
    } else {
      assert (lines + [last])[1..] == lines[1..] + [last];
      LinesSnoc(lines[1..], last);
      assert TextOf(lines[0]) + Ending(lines[0].crlf) + (Lines(lines[1..]) + (TextOf(last) + Ending(last.crlf)))
        == TextOf(lines[0]) + Ending(lines[0].crlf) + Lines(lines[1..]) + (TextOf(last) + Ending(last.crlf));
    }
  }

  lemma {:induction false} LastNameTrimmed(lines: seq<Line>)
    ensures TrimSpace(LastName(lines)) == LastName(lines)
  {
    if lines != [] { LastNameTrimmed(lines[..|lines| - 1]); }
  }

  /** Whatever lines a frame is made of, in whatever case and with whatever line ends: it is read as the name
      said last and all pieces of its data under each other, and reading stops behind its blank line. */
  lemma FrameOfLines(lines: seq<Line>, crlf: bool, rest: string)
    requires (forall line | line in lines :: IsLine(line)) && PiecesOf(lines) != []
    ensures var data := Stacked(PiecesOf(lines));
      Next(Lines(lines) + (Ending(crlf) + rest), "", [])
      == (if data == "" || data == "[DONE]" then End else Frame(LastName(lines), data), rest)
  {
    var name, pieces := LastName(lines), PiecesOf(lines);
    LinesAreRead(lines, Ending(crlf) + rest);
    LastNameTrimmed(lines);
    JoinStacks(pieces);
    EmptyTrims();
    CarriageReturn("");
    hide TrimSpace, Next, TrimLineEnd, LastName, PiecesOf, Lines, Stacked, Join;
    if crlf {
      assert "" + "\r" == "\r" && "\r" + "\n" + rest == "\r\n" + rest;
      NextLine("\r", rest, name, pieces);
    } else {
      BlankLine(rest, name, pieces);
    }
  }

  // ----- the end of the text -----

  /** The text is empty or its last line is terminated. */
  predicate Ended(text: string) {
    text == "" || text[|text| - 1] == '\n'
  }

  lemma {:induction false} LineEndBefore(text: string, line: string)
    requires text != "" && Ended(text)
    ensures LineEnd(text + line) == LineEnd(text) < |text|
    ensures (text + line)[..LineEnd(text)] == text[..LineEnd(text)]
  {
    if text[0] != '\n' {
      assert (text + line)[1..] == text[1..] + line;
      LineEndBefore(text[1..], line);
    }
  }

  lemma {:induction false} NextBefore(text: string, line: string, name: string, lines: seq<string>)
    requires Ended(text) && OneLine(line)
    ensures Ended(Next(text, name, lines).1)
    ensures Next(text + line, name, lines).0 == Next(text, name, lines).0
    ensures var rest, more := Next(text, name, lines).1, Next(text + line, name, lines).1;
      more == rest + line || more == rest == ""
    decreases |text|
  {
    hide TrimLineEnd, Field, Emit, LineEnd;
    if text == "" {
      assert LineEnd(line) == |line| by { NoLineEnd(line); }
      assert "" + line == line;
    } else {
      LineEndBefore(text, line);
      var i := LineEnd(text);
      var rest := text[i + 1..];
      assert (text + line)[i + 1..] == rest + line;
      NextBefore(rest, line, name, lines);
      var (name', lines') := Field(TrimLineEnd(text[..i]), name, lines);
      NextBefore(rest, line, name', lines');
    }
  }

  lemma NoLineEnd(line: string)
    requires OneLine(line)
    ensures LineEnd(line) == |line|
  {}

  /** A last line that is not terminated is not read, whatever it holds and whatever stands before it. */
  lemma {:induction false} UnfinishedLineIsLost(text: string, line: string)
    requires Ended(text) && OneLine(line)
    ensures ReadAll(text + line) == ReadAll(text)
    decreases |text|
  {
    hide Next, Ended;
    NextBefore(text, line, "", []);
    NextShortens(text, "", []);
    NextShortens(text + line, "", []);
    var (outcome, rest) := Next(text, "", []);
    if outcome.Frame? && Next(text + line, "", []).1 == rest + line { UnfinishedLineIsLost(rest, line); }
  }

  /** A last line with data is read exactly when a line feed terminates it. */
  lemma LastLineExactly(line: string, terminated: bool)
    requires OneLine(line) && HasField(TrimLineEnd(line), "data:")
    requires TrimSpace(TrimLineEnd(line)[5..]) != "" && TrimSpace(TrimLineEnd(line)[5..]) != "[DONE]"
    ensures Next(line + if terminated then "\n" else "", "", []).0 == Frame("", TrimSpace(TrimLineEnd(line)[5..])) <==> terminated
  {
    hide TrimSpace, TrimLineEnd;
    var data := TrimSpace(TrimLineEnd(line)[5..]);
    if terminated {
      LineEndAt(line, "");
      assert line + "\n" + "" == line + "\n";
      assert (line + "\n")[..|line|] == line && (line + "\n")[|line| + 1..] == "";
      assert !HasField(TrimLineEnd(line), "event:") by { assert ToLower(TrimLineEnd(line))[0] == 'd'; }
      EmptyTrims();
      assert Join([data]) == data;
      assert [] + [data] == [data];
      assert Next("", "", [data]) == (Frame("", data), "");
    } else {
      NoLineEnd(line);
      assert line + "" == line;
    }
  }

  class StreamReader {
    var input: string

    constructor (input: string)
      ensures this.input == input
    {
      this.input := input;
    }

    method NextEvent() returns (outcome: Outcome)
      modifies this`input
      ensures (outcome, input) == Next(old(input), "", [])
    {
      hide TrimSpace, Emit, HasField, TrimLineEnd;
      var eventName, dataLines := "", [];
      while true
        invariant Next(old(input), "", []) == Next(input, eventName, dataLines)
        decreases |input|
      {
        var i := LineEnd(input);
        if i == |input| {
          input := "";
          return if |dataLines| > 0 then Emit(eventName, dataLines) else End;
        }
        var line := TrimLineEnd(input[..i]);
        input := input[i + 1..];
        if line == "" {
          if |dataLines| == 0 {
            continue;
          }
          return Emit(eventName, dataLines);
        }
        if HasField(line, "event:") {
          Prefixed(line, "event:");
          eventName := TrimSpace(line[6..]);
        } else if HasField(line, "data:") {
          Prefixed(line, "data:");
          dataLines := dataLines + [TrimSpace(line[5..])];
        }
      }
    }
  }

  lemma Prefixed(line: string, field: string)
    requires HasField(line, field)
    ensures |field| <= |line|
  {}
}
