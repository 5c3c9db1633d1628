// browser-extension/src/adapters/sse.ts once more: at which lines a cut right behind "\r\r\n" can
// show in the events.
module SseLines {
  import opened Text
  import opened Sse
  import opened SseStream

  /** The events of a normalised text: those of its frames, and the flushed rest. */
  function CutEvents(n: string): seq<SseEvent> {
    FrameEvents(Cut(n).frames) + FlushEvents(Cut(n).rest)
  }

  /** The line is neither blank nor an event name nor data. */
  predicate SaysNothing(line: string) {
    line != "" && Says(line, "event").None? && Says(line, "data").None?
  }

  /** A text at whose end a line starts. */
  predicate LineStart(p: string) {
    p == "" || p[|p| - 1] == '\n'
  }

  predicate OneLine(line: string) {
    '\r' !in line && '\n' !in line
  }

  // -------------------------------------------- one line for another

  /** What a line says with a carriage return behind it. */
  lemma SaysWithCr(line: string, name: string)
    requires OneLine(line) && OneLine(name) && name != ""
    ensures Says(line + "\r", name)
         == if line == name || Says(line, name).None? then None else Some(Says(line, name).value + "\r")
  {
    var t := line + "\r";
    assert t[|line|] == '\r';
    assert name + ": " <= t ==> (name + ": ")[|name| + 1] == ' ' && name + ": " != t;
    assert name + ":" <= t ==> (name + ":")[|name|] == ':' && name + ":" != t;
    assert name + ":" <= line ==> t[|name| + 1..] == line[|name| + 1..] + "\r";
    assert name + ": " <= line ==> t[|name| + 2..] == line[|name| + 2..] + "\r";
  }

  lemma SaysNothingWithCr(p: Pending, line: string)
    requires OneLine(line) && SaysNothing(line)
    ensures Absorb(p, line) == Absorb(p, line + "\r") == p
  {
    SaysWithCr(line, "event");
    SaysWithCr(line, "data");
  }

  /** Frames under way that have gathered the same come to the same events, whatever follows; what
      is left at the end differs in them alone. */
  lemma {:induction false} GroupTail(acc: seq<string>, acc': seq<string>, lines: seq<string>)
    requires lines != [] && acc != [] && acc' != [] && Gathered(acc) == Gathered(acc')
    requires forall l | l in acc + acc' + lines :: '\n' !in l
    ensures var c, c' := Group(acc, lines), Group(acc', lines);
            && FrameEvents(c.frames) == FrameEvents(c'.frames)
            && (c.rest == c'.rest || (c.rest == Join(acc + lines, "\n") && c'.rest == Join(acc' + lines, "\n")))
    decreases |lines|
  {
    hide Gathered, Absorb, FrameEvents, FrameEvent, EventOf, Join;
    var line, more := lines[0], lines[1..];
    if |lines| == 1 {
    } else if line == "" {
      forall l | l in acc || l in acc' ensures '\n' !in l { assert l in acc + acc' + lines; }
      InterpretLast(acc);
      InterpretLast(acc');
      var c := Group([], more);
      FrameEventsAppend([Join(acc, "\n")], c.frames);
      FrameEventsAppend([Join(acc', "\n")], c.frames);
      FrameEventsOne(Join(acc, "\n"));
      FrameEventsOne(Join(acc', "\n"));
    } else {
      GatherOne(acc, line);
      GatherOne(acc', line);
      forall l | l in acc + [line] + (acc' + [line]) + more ensures '\n' !in l { assert l in acc + acc' + lines; }
      GroupTail(acc + [line], acc' + [line], more);
      assert acc + [line] + more == acc + lines && acc' + [line] + more == acc' + lines;
    }
  }

  lemma LastLineNormalized(acc: seq<string>, line: string, more: seq<string>)
    requires OneLine(line) && line != "" && more != []
    ensures NormalizeCrlf(Join(acc + [line + "\r"] + more, "\n")) == NormalizeCrlf(Join(acc + [line] + more, "\n"))
  {
    hide Join, NormalizeCrlf;
    var tail := Join(more, "\n");
    LineJoined(acc, line + "\r", more);
    LineJoined(acc, line, more);
    var head := (if acc == [] then "" else Join(acc, "\n") + "\n") + line;
    assert line[|line| - 1] in line && head[|head| - 1] == line[|line| - 1];
    assert Join(acc + [line + "\r"] + more, "\n") == head + ("\r\n" + tail);
    assert Join(acc + [line] + more, "\n") == head + ("\n" + tail);
    NormalizeAppend(head, "\r\n" + tail);
    NormalizeAppend(head, "\n" + tail);
    NormalizePair(tail);
    NormalizeOne('\n', tail);
  }

  lemma LineJoined(acc: seq<string>, line: string, more: seq<string>)
    requires more != []
    ensures Join(acc + [line] + more, "\n")
         == (if acc == [] then "" else Join(acc, "\n") + "\n") + line + "\n" + Join(more, "\n")
  {
    JoinAppend([line], more, "\n");
    if acc == [] {
      assert acc + [line] + more == [line] + more;
    } else {
      JoinAppend(acc, [line] + more, "\n");
      Assoc(acc, [line], more);
    }
  }

  ghost predicate SameEvents(c: Cutting, c': Cutting) {
    FrameEvents(c.frames) == FrameEvents(c'.frames) && FlushEvents(c.rest) == FlushEvents(c'.rest)
  }

  /** A line that says nothing may have a carriage return behind it or not. */
  lemma {:induction false} GroupSame(acc: seq<string>, front: seq<string>, line: string, more: seq<string>)
    requires OneLine(line) && SaysNothing(line) && more != []
    requires forall l | l in acc + front + more :: '\n' !in l
    ensures SameEvents(Group(acc, front + [line + "\r"] + more), Group(acc, front + [line] + more))
    decreases |front|
  {
    hide Group, FrameEvents, FrameEvent, NormalizeCrlf, Join, SaysNothing;
    if front == [] {
      assert line != "" by { NotBlank(line); }
      assert front + [line + "\r"] + more == [line + "\r"] + more && front + [line] + more == [line] + more;
      GroupLine(acc, line + "\r", more);
      GroupLine(acc, line, more);
      GatherOne(acc, line + "\r");
      GatherOne(acc, line);
      SaysNothingWithCr(Gathered(acc), line);
      forall l | l in acc + [line + "\r"] + (acc + [line]) + more ensures '\n' !in l {
        assert l in acc + front + more || l == line + "\r" || l == line;
      }
      hide Gathered, Absorb;
      GroupTail(acc + [line + "\r"], acc + [line], more);
      LastLineNormalized(acc, line, more);
    } else {
      var first, later := front[0], front[1..];
      var a, b := later + [line + "\r"] + more, later + [line] + more;
      assert front + [line + "\r"] + more == [first] + a && front + [line] + more == [first] + b;
      if acc != [] && first == "" {
        forall l | l in [] + later + more ensures '\n' !in l { assert l in acc + front + more; }
        GroupSame([], later, line, more);
        GroupBlank(acc, a);
        GroupBlank(acc, b);
        FrameEventsAppend([Join(acc, "\n")], Group([], a).frames);
        FrameEventsAppend([Join(acc, "\n")], Group([], b).frames);
      } else {
        forall l | l in acc + [first] + later + more ensures '\n' !in l { assert l in acc + front + more; }
        GroupSame(acc + [first], later, line, more);
        GroupLine(acc, first, a);
        GroupLine(acc, first, b);
      }
    }
  }

  lemma NotBlank(line: string)
    requires SaysNothing(line)
    ensures line != ""
  {
  }

  // ------------------------------------------------- on the whole text

  lemma EventsOfGroup(n: string)
    ensures CutEvents(n) == var c := Group([], Split(n, '\n')); FrameEvents(c.frames) + FlushEvents(c.rest)
  {
    var lines := Split(n, '\n');
    JoinOfSplit(n, '\n');
    assert [] + lines == lines;
    hide Cut, Group, Join, FrameEvents, FlushEvents;
    GroupIsCut([], lines);
  }

  lemma LinesAround(a: string, line: string, q: string)
    requires LineStart(a) && '\n' !in line
    ensures var front := if a == "" then [] else Split(a[..|a| - 1], '\n');
            Split(a + line + "\n" + q, '\n') == front + [line] + Split(q, '\n')
  {
    hide Split;
    SplitAtFirst(line, q, '\n');
    assert line + ['\n'] + q == line + "\n" + q;
    if a == "" {
      assert a + line + "\n" + q == line + "\n" + q && [] + [line] + Split(q, '\n') == [line] + Split(q, '\n');
    } else {
      var a0 := a[..|a| - 1];
      SplitAppend(a0, line + "\n" + q, '\n');
      assert a + line + "\n" + q == a0 + ['\n'] + (line + "\n" + q);
    }
  }

  lemma SameAround(a: string, line: string, q: string)
    requires LineStart(a) && OneLine(line) && SaysNothing(line)
    ensures CutEvents(a + line + "\r\n" + q) == CutEvents(a + line + "\n" + q)
  {
    hide Split, Group, FrameEvents, FlushEvents, SaysNothing, CutEvents;
    var front, more := if a == "" then [] else Split(a[..|a| - 1], '\n'), Split(q, '\n');
    EventsOfGroup(a + line + "\r\n" + q);
    EventsOfGroup(a + line + "\n" + q);
    LinesAround(a, line + "\r", q);
    LinesAround(a, line, q);
    assert a + (line + "\r") + "\n" + q == a + line + "\r\n" + q;
    if a != "" { JoinOfSplit(a[..|a| - 1], '\n'); }
    JoinOfSplit(q, '\n');
    GroupSame([], front, line, more);
    ShowSame(Group([], front + [line + "\r"] + more), Group([], front + [line] + more));
  }

  lemma ShowSame(c: Cutting, c': Cutting)
    requires SameEvents(c, c')
    ensures FrameEvents(c.frames) + FlushEvents(c.rest) == FrameEvents(c'.frames) + FlushEvents(c'.rest)
  {
  }

  // ------------------------------------------------------ the two cuts

  lemma CutResumes(x: string, y: string)
    ensures var c, d := Cut(x), Cut(Cut(x).rest + y);
            Cut(x + y) == Cutting(c.frames + d.frames, d.rest)
  {
    hide Cut, Framed;
    CutParts(x);
    CutFramed(Cut(x).frames, Cut(x).rest + y);
    Assoc(Framed(Cut(x).frames), Cut(x).rest, y);
  }

  lemma UncutStep(c: char, s: string)
    requires Uncut(s) && !(s != "" && c == '\n' && s[0] == '\n')
    ensures Uncut([c] + s)
  {
    var t := [c] + s;
    forall i | 0 <= i && i + 1 < |t| && t[i] == '\n' ensures t[i + 1] != '\n' {
      if i > 0 { assert s[i - 1] == '\n' && s[i] == t[i + 1]; }
    }
  }

  lemma {:induction false} RestIsUncut(n: string)
    ensures Uncut(Cut(n).rest)
    decreases |n|
  {
    if |n| < 2 {
    } else if n[0] == '\n' && n[1] == '\n' {
      RestIsUncut(n[2..]);
    } else {
      hide Cut, Uncut;
      var c := Cut(n[1..]);
      RestIsUncut(n[1..]);
      assert n == [n[0]] + n[1..];
      CutStep(n[0], n[1..]);
      if c.frames == [] {
        CutParts(n[1..]);
        assert Framed([]) + c.rest == c.rest;
        UncutStep(n[0], n[1..]);
      }
    }
  }

  /** The buffer when the carriage return is the last but one character in it. */
  lemma OpenLine(a: string, line: string)
    requires OneLine(line) && line != ""
    ensures var c := Cut(a + line);
            && Cut(a + line + "\r\n") == Cutting(c.frames, c.rest + "\r\n")
            && c.rest != "" && c.rest[|c.rest| - 1] != '\r' && (CrLfFree(a + line) ==> CrLfFree(c.rest))
  {
    hide Cut, CrLfFree;
    var x, c := a + line, Cut(a + line);
    CutParts(x);
    FramedEnds(c.frames);
    assert line[|line| - 1] in line && x[|x| - 1] == line[|line| - 1];
    var framed := Framed(c.frames);
    assert x[|x| - 1] == c.rest[|c.rest| - 1];
    RestIsUncut(x);
    forall i | 0 <= i && i + 1 < |c.rest + "\r\n"| && (c.rest + "\r\n")[i] == '\n'
      ensures (c.rest + "\r\n")[i + 1] != '\n'
    {
      if i + 1 < |c.rest| { assert c.rest[i] == '\n'; }
    }
    UncutText(c.rest + "\r\n");
    CutResumes(x, "\r\n");
    assert c.frames + [] == c.frames;
    if CrLfFree(x) {
      CrLfFreeSuffix(x, |framed|);
      assert x[|framed|..] == c.rest;
    }
  }

  /** Uncut, the line keeps one carriage return; cut right behind it, none. */
  lemma TwoReadings(p: string, line: string, q: string)
    requires LineStart(p) && CrCrLfFree(p) && OneLine(line) && line != ""
    ensures var a, n := NormalizeCrlf(p), NormalizeCrlf(q);
            && Events([p + line + "\r\r\n" + q]) == CutEvents(a + line + "\r\n" + n)
            && Events([p + line + "\r\r\n", q]) == CutEvents(a + line + "\n" + n)
  {
    hide Cut, NormalizeCrlf, FrameEvents, FlushEvents, Feed, CrLfFree, CrCrLfFree;
    var a, n, x := NormalizeCrlf(p), NormalizeCrlf(q), NormalizeCrlf(p) + line;
    var part := p + line + "\r\r\n";
    LineNormalized(p, line);
    NormalizeEndsInCrLf(p + line);
    NormalizeAppend(part, q);
    FeedOne(part + q);
    assert x + "\r\n" + n == a + line + "\r\n" + n;
    OpenLine(a, line);
    var c := Cut(x);
    FeedTwo(part, q);
    NormalizeIdle(c.rest);
    NormalizePair(q);
    NormalizeAppend(c.rest, "\r\n" + q);
    assert c.rest + "\r\n" + q == c.rest + ("\r\n" + q);
    CutResumes(x, "\n" + n);
    assert x + ("\n" + n) == a + line + "\n" + n;
  }

  lemma LineNormalized(p: string, line: string)
    requires LineStart(p) && CrCrLfFree(p) && OneLine(line)
    ensures NormalizeCrlf(p + line) == NormalizeCrlf(p) + line && CrLfFree(NormalizeCrlf(p) + line)
  {
    hide NormalizeCrlf, CrLfFree, CrCrLfFree;
    WithoutCrIsFree(line);
    NormalizeIdle(line);
    NormalizeAppend(p, line);
    FreeBeforeLine(p, line);
    NormalizedIsCrLfFree(p + line);
  }

  lemma {:induction false} FreeBeforeLine(p: string, line: string)
    requires CrCrLfFree(p) && OneLine(line)
    ensures CrCrLfFree(p + line)
  {
    if p == "" {
      assert p + line == line;
      WithoutCrIsFree(line);
    } else {
      assert |p| < 3 ==> CrCrLfFree(p[1..]);
      FreeBeforeLine(p[1..], line);
      assert (p + line)[1..] == p[1..] + line;
      if |p| < 3 && |p + line| >= 3 {
        assert (p + line)[2] == line[2 - |p|] && line[2 - |p|] in line;
      }
    }
  }

  // -------------------------------------------------- the exact condition

  /** At the end of a line, a "\r\r\n" can show in the events by where the stream is cut exactly when
      the line is blank, or names an event, or holds data. */
  lemma CrCrLfShowsExactly(line: string)
    requires OneLine(line)
    ensures (forall p, q | LineStart(p) && CrCrLfFree(p) ::
               Events([p + line + "\r\r\n", q]) == Events([p + line + "\r\r\n" + q]))
       <==> SaysNothing(line)
  {
    hide Events, CutEvents, CrCrLfFree, NormalizeCrlf;
    if SaysNothing(line) {
      forall p, q | LineStart(p) && CrCrLfFree(p)
        ensures Events([p + line + "\r\r\n", q]) == Events([p + line + "\r\r\n" + q])
      {
        TwoReadings(p, line, q);
        NormalizedLineStart(p);
        SameAround(NormalizeCrlf(p), line, NormalizeCrlf(q));
      }
    } else if line == "" {
      BlankShows();
      var p := "data: " + "a" + "\n";
      assert p + line + "\r\r\n" == p + "\r\r\n";
    } else {
      FieldShows(line);
    }
  }

  lemma {:induction false} NormalizedLineStart(p: string)
    requires LineStart(p)
    ensures LineStart(NormalizeCrlf(p))
  {
    if p == "" {
    } else if |p| >= 2 && p[0] == '\r' && p[1] == '\n' {
      NormalizedLineStart(p[2..]);
    } else {
      assert |p| > 1 ==> LineStart(p[1..]);
      if |p| > 1 { NormalizedLineStart(p[1..]); NormalizeHead(p[1..]); }
    }
  }

  lemma FieldShows(line: string)
    requires OneLine(line) && line != "" && !SaysNothing(line)
    ensures LineStart("") && CrCrLfFree("")
    ensures Events(["" + line + "\r\r\n", "\n"]) != Events(["" + line + "\r\r\n" + "\n"])
  {
    hide *;
    NothingBefore();
    NormalizeLf();
    NoLineFeed(line);
    TwoReadings("", line, "\n");
    assert "" + line + "\r\n" + "\n" == (line + "\r") + "\n\n" && "" + line + "\n" + "\n" == line + "\n\n";
    OneFrame(line);
    OneFrame(line + "\r");
    FrameDiffers(line);
  }

  lemma NothingBefore()
    ensures LineStart("") && CrCrLfFree("")
  {
  }

  lemma NoLineFeed(line: string)
    requires OneLine(line)
    ensures '\n' !in line && '\n' !in line + "\r"
  {
  }

  lemma NormalizeLf()
    ensures NormalizeCrlf("") == "" && NormalizeCrlf("\n") == "\n"
  {
  }

  lemma OneFrame(line: string)
    requires '\n' !in line
    ensures CutEvents(line + "\n\n") == AsList(EventOf(Absorb(FRESH, line).event, Absorb(FRESH, line).data))
  {
    hide Cut, FrameEvents, FlushEvents, FieldOf;
    forall i | 0 <= i < |line| ensures line[i] != '\n' { assert line[i] in line; }
    CutFrame(line, "");
    assert line + "\n\n" + "" == line + "\n\n";
    UncutText("");
    assert [line] + [] == [line];
    FrameEventsOne(line);
    InterpretLast([line]);
    NothingLeft();
    GatherOne([], line);
    assert [] + [line] == [line] && Join([line], "\n") == line;
    FreshIsNeutral();
  }

  lemma FrameDiffers(line: string)
    requires OneLine(line) && line != "" && !SaysNothing(line)
    ensures var p, p' := Absorb(FRESH, line), Absorb(FRESH, line + "\r");
            AsList(EventOf(p.event, p.data)) != AsList(EventOf(p'.event, p'.data))
  {
    SaysWithCr(line, "event");
    SaysWithCr(line, "data");
    hide Says;
    if Says(line, "event").Some? {
      var v := Says(line, "event").value;
      assert (v + "\r")[|v|] == '\r' && '\r' !in DEFAULT_EVENT;
    } else {
      var v := Says(line, "data").value;
      assert [] + [v] == [v] && Join([v], "\n") == v;
      assert [] + [v + "\r"] == [v + "\r"] && Join([v + "\r"], "\n") == v + "\r";
    }
  }

  /** Between two lines, a blank one is a boundary only if its carriage return is gone. */
  lemma BlankReadings(x: string, y: string)
    requires OneLine(x) && OneLine(y) && x != "" && y != ""
    ensures LineStart(x + "\n") && CrCrLfFree(x + "\n")
    ensures Events([x + "\n" + "\r\r\n" + y]) == FlushEvents(x + "\n" + "\r\n" + y)
    ensures Events([x + "\n" + "\r\r\n", y]) == AsList(FrameEvent(x)) + FlushEvents(y)
  {
    hide NormalizeCrlf, Cut, FrameEvents, FrameEvent, FlushEvents, Feed, CrLfFree, CrCrLfFree;
    var p := x + "\n";
    WithoutCrIsFree(p);
    WithoutCrIsFree(y);
    NormalizeIdle(p);
    NormalizeIdle(y);
    NormalizePair(y);
    NormalizeEndsInCrLf(p);
    NormalizeAppend(p + "\r\r\n", y);
    FeedOne(p + "\r\r\n" + y);
    NothingBlank(x, y);
    UncutText(p + "\r\n" + y);
    UncutText(p + "\r\n");
    FeedTwo(p + "\r\r\n", y);
    NormalizeAppend(p, "\r\n" + y);
    assert p + "\r\n" + y == p + ("\r\n" + y) && p + ("\n" + y) == x + "\n\n" + y;
    CutFrame(x, y);
    UncutText(y);
    FrameEventsOne(x);
    NothingFramed();
    assert [] + [x] == [x] && [x] + [] == [x];
  }

  lemma NothingFramed()
    ensures FrameEvents([]) == []
  {
  }

  lemma NothingBlank(x: string, y: string)
    requires OneLine(x) && OneLine(y)
    ensures Closed(x) && Uncut(y) && Uncut(x + "\n" + "\r\n" + y) && Uncut(x + "\n" + "\r\n")
  {
    forall i | 0 <= i < |x| ensures x[i] != '\n' { assert x[i] in x; }
    forall i | 0 <= i < |y| ensures y[i] != '\n' { assert y[i] in y; }
  }

  lemma BlankShows()
    ensures var p, q := "data: " + "a" + "\n", "data: " + "b";
            && LineStart(p) && CrCrLfFree(p)
            && Events([p + "\r\r\n", q]) != Events([p + "\r\r\n" + q])
  {
    hide FrameEvent, FrameEvents, FlushEvents, Events, LineStart, CrCrLfFree;
    var x, y := "data: " + "a", "data: " + "b";
    BlankReadings(x, y);
    DataLine("a");
    OpenDataLine("b");
    FlushedIsOne(x + "\n" + "\r\n" + y);
  }

  lemma FlushedIsOne(buffer: string)
    ensures |FlushEvents(buffer)| <= 1
  {
  }
}
