// browser-extension/src/adapters/sse.ts: the server-sent-event parser, fed chunk by chunk.
module Sse {
  import opened Text

  datatype SseEvent = SseEvent(event: string, data: string)

  const DEFAULT_EVENT := "message"

  // ---------------------------------------------------------------- framing

  /** replace(/\r\n/g, "\n"): one pass, matches do not overlap. */
  function NormalizeCrlf(s: string): string {
    if s == [] then ""
    else if |s| >= 2 && s[0] == '\r' && s[1] == '\n' then "\n" + NormalizeCrlf(s[2..])
    else [s[0]] + NormalizeCrlf(s[1..])
  }

  /** The complete frames of a text, and what is left after the last blank line. */
  datatype Cutting = Cutting(frames: seq<string>, rest: string)

  /** split("\n\n") with the last element held aside: leftmost matches, no overlap. */
  function Cut(s: string): Cutting {
    if |s| < 2 then Cutting([], s)
    else if s[0] == '\n' && s[1] == '\n' then
      var c := Cut(s[2..]);
      Cutting([""] + c.frames, c.rest)
    else Prepend(s[0], Cut(s[1..]))
  }

  function Prepend(c: char, cutting: Cutting): Cutting {
    if cutting.frames == [] then Cutting([], [c] + cutting.rest)
    else Cutting([[c] + cutting.frames[0]] + cutting.frames[1..], cutting.rest)
  }

  // ----------------------------------------------------------- one frame

  /** The position of the first colon, or |line| when there is none. */
  function ColonAt(line: string): (i: nat)
    ensures i <= |line| && ':' !in line[..i]
    ensures i < |line| ==> line[i] == ':'
  {
    if line == [] || line[0] == ':' then 0 else 1 + ColonAt(line[1..])
  }

  /** One leading space after the colon is not part of the value. */
  function StripSpace(v: string): string {
    if v != [] && v[0] == ' ' then v[1..] else v
  }

  datatype Field = Ignored | Field(name: string, value: string)

  /** What one line of a frame says; blank lines and comments say nothing. */
  function FieldOf(line: string): Field {
    if line == [] || line[0] == ':' then Ignored
    else
      var i := ColonAt(line);
      if i == |line| then Field(line, "") else Field(line[..i], StripSpace(line[i + 1..]))
  }

  lemma {:induction false} ColonBehind(name: string, rest: string)
    requires ':' !in name
    ensures ColonAt(name + ":" + rest) == |name|
  {
    if name != [] {
      assert name[0] != ':';
      assert (name + ":" + rest)[1..] == name[1..] + ":" + rest;
      ColonBehind(name[1..], rest);
    }
  }

  lemma {:induction false} NoColon(name: string)
    requires ':' !in name
    ensures ColonAt(name) == |name|
  {
    if name != [] { NoColon(name[1..]); }
  }

  /** A field line with or without a space behind its colon says the same value, one without a colon
      the empty one, and a comment none. */
  lemma FieldReads(name: string, value: string)
    requires name != "" && ':' !in name
    ensures FieldOf(name + ": " + value) == Field(name, value)
    ensures value == "" || value[0] != ' ' ==> FieldOf(name + ":" + value) == Field(name, value)
    ensures FieldOf(name) == Field(name, "") && FieldOf(":" + value) == Ignored && FieldOf("") == Ignored
  {
    var tight, spaced := name + ":" + value, name + ": " + value;
    assert spaced == name + ":" + (" " + value);
    ColonBehind(name, " " + value);
    ColonBehind(name, value);
    NoColon(name);
    assert tight[0] == spaced[0] == name[0] && name[0] != ':';
    assert spaced[|name| + 1..] == " " + value && tight[|name| + 1..] == value;
    assert spaced[..|name|] == tight[..|name|] == name;
  }

  /** The value of the last `event` line, or the default name. */
  function EventName(lines: seq<string>): string {
    if lines == [] then DEFAULT_EVENT
    else
      var last := FieldOf(lines[|lines| - 1]);
      if last.Field? && last.name == "event" then last.value else EventName(lines[..|lines| - 1])
  }

  /** The values of all `data` lines, in order. */
  function DataLines(lines: seq<string>): seq<string> {
    if lines == [] then []
    else
      var last := FieldOf(lines[|lines| - 1]);
      DataLines(lines[..|lines| - 1]) + if last.Field? && last.name == "data" then [last.value] else []
  }

  /** Nothing was said: no data line and no event name of its own. */
  function EventOf(name: string, data: seq<string>): Option<SseEvent> {
    if data == [] && name == DEFAULT_EVENT then None else Some(SseEvent(name, Join(data, "\n")))
  }

  function FrameEvent(frame: string): Option<SseEvent> {
    var lines := Split(frame, '\n');
    EventOf(EventName(lines), DataLines(lines))
  }

  function AsList<T>(o: Option<T>): seq<T> {
    if o.Some? then [o.value] else []
  }

  function FrameEvents(frames: seq<string>): seq<SseEvent> {
    if frames == [] then []
    else FrameEvents(frames[..|frames| - 1]) + AsList(FrameEvent(frames[|frames| - 1]))
  }

  method ParseFrame(frame: string) returns (evt: Option<SseEvent>)
    ensures evt == FrameEvent(frame)
  {
    var event := DEFAULT_EVENT;
    var dataLines: seq<string> := [];
    var lines := Split(frame, '\n');
    var n := 0;
    while n < |lines|
      invariant 0 <= n <= |lines|
      invariant event == EventName(lines[..n])
      invariant dataLines == DataLines(lines[..n])
    {
      var line := lines[n];
      assert lines[..n + 1][..n] == lines[..n];
      n := n + 1;
      if line == "" || line[0] == ':' {
        continue;
      }
      var idx := ColonAt(line);
      var field := if idx == |line| then line else line[..idx];
      var value := if idx == |line| then "" else line[idx + 1..];
      if value != "" && value[0] == ' ' {
        value := value[1..];
      }
      if field == "event" {
        event := value;
      } else if field == "data" {
        dataLines := dataLines + [value];
      }
    }
    assert lines[..n] == lines;
    if dataLines == [] && event == DEFAULT_EVENT {
      return None;
    }
    return Some(SseEvent(event, Join(dataLines, "\n")));
  }

  // ----------------------------------------------------------- the parser

  /** What String.prototype.trim removes. */
  predicate IsJsSpace(c: char) {
    c in "\t\n\U{0B}\U{0C}\r \U{A0}\U{1680}\U{2028}\U{2029}\U{202F}\U{205F}\U{3000}\U{FEFF}"
    || '\U{2000}' <= c <= '\U{200A}'
  }

  predicate Blank(s: string) {
    forall c | c in s :: IsJsSpace(c)
  }

  class SSEParser {
    var buffer: string

    constructor ()
      ensures buffer == ""
    {
      buffer := "";
    }

    method Push(chunk: string) returns (out: seq<SseEvent>)
      modifies this
      ensures out == FrameEvents(Cut(NormalizeCrlf(old(buffer) + chunk)).frames)
      ensures buffer == Cut(NormalizeCrlf(old(buffer) + chunk)).rest
    {
      buffer := buffer + chunk;
      out := [];
      var normalized := NormalizeCrlf(buffer);
      var cutting := Cut(normalized);
      var frames := cutting.frames;
      buffer := cutting.rest;
      for n := 0 to |frames|
        invariant out == FrameEvents(frames[..n])
        invariant buffer == cutting.rest
      {
        var evt := ParseFrame(frames[n]);
        assert frames[..n + 1][..n] == frames[..n];
        if evt.Some? {
          out := out + [evt.value];
        }
      }
      assert frames[..|frames|] == frames;
    }

    method Flush() returns (out: seq<SseEvent>)
      modifies this
      ensures out == FlushEvents(old(buffer))
      ensures buffer == ""
    {
      if Blank(buffer) {
        BlankSaysNothing(buffer);
        buffer := "";
        return [];
      }
      var evt := ParseFrame(NormalizeCrlf(buffer));
      buffer := "";
      return if evt.Some? then [evt.value] else [];
    }
  }

  /** What a flush emits; the early exit on a blank buffer never changes it (BlankSaysNothing). */
  function FlushEvents(buffer: string): seq<SseEvent> {
    AsList(FrameEvent(NormalizeCrlf(buffer)))
  }

  lemma {:induction false} NormalizeKeepsChars(s: string, c: char)
    requires c in NormalizeCrlf(s)
    ensures c in s
  {
    if s == [] {
    } else if |s| >= 2 && s[0] == '\r' && s[1] == '\n' {
      if c != '\n' { NormalizeKeepsChars(s[2..], c); }
    } else if c != s[0] {
      NormalizeKeepsChars(s[1..], c);
    }
  }

  lemma BlankLineSaysNothing(line: string)
    requires Blank(line)
    ensures FieldOf(line).Field? ==> FieldOf(line).name != "event" && FieldOf(line).name != "data"
  {
    hide IsJsSpace;
    if line != [] {
      assert IsJsSpace(line[0]);
      SpacesAreNotLetters(line[0]);
    }
  }

  lemma SpacesAreNotLetters(c: char)
    requires IsJsSpace(c)
    ensures !('a' <= c <= 'z') && c != ':'
  {
  }

  lemma {:induction false} BlankLinesSayNothing(lines: seq<string>)
    requires forall l | l in lines :: Blank(l)
    ensures EventName(lines) == DEFAULT_EVENT && DataLines(lines) == []
  {
    hide FieldOf;
    if lines != [] {
      BlankLinesSayNothing(lines[..|lines| - 1]);
      BlankLineSaysNothing(lines[|lines| - 1]);
    }
  }

  /** A buffer that trims to nothing holds no event, so flush may skip it. */
  lemma BlankSaysNothing(buffer: string)
    requires Blank(buffer)
    ensures FlushEvents(buffer) == []
  {
    var text := NormalizeCrlf(buffer);
    forall l | l in Split(text, '\n')
      ensures Blank(l)
    {
      forall c | c in l ensures IsJsSpace(c) {
        SplitKeepsChars(text, '\n', l, c);
        NormalizeKeepsChars(buffer, c);
      }
    }
    BlankLinesSayNothing(Split(text, '\n'));
  }
}
