// What a whole stream of pushes yields: it depends on the bytes alone, it inverts a
// printer, and it agrees with a line-by-line interpreter.
module SseStream {
  import opened Text
  import opened Sse

  function Concat(chunks: seq<string>): string {
    if chunks == [] then "" else chunks[0] + Concat(chunks[1..])
  }

  /** The frames a run of pushes cuts off, and the buffer it ends with. */
  function Feed(buffer: string, chunks: seq<string>): Cutting
    decreases chunks
  {
    if chunks == [] then Cutting([], buffer)
    else
      var c := Cut(NormalizeCrlf(buffer + chunks[0]));
      var more := Feed(c.rest, chunks[1..]);
      Cutting(c.frames + more.frames, more.rest)
  }

  /** All events of a stream: those of the pushes, then that of the final flush. */
  function Events(chunks: seq<string>): seq<SseEvent> {
    var c := Feed("", chunks);
    FrameEvents(c.frames) + FlushEvents(c.rest)
  }

  /** No "\r\r\n" anywhere: the streams on which normalising twice is harmless. */
  predicate CrCrLfFree(s: string) {
    |s| < 3 || (!(s[0] == '\r' && s[1] == '\r' && s[2] == '\n') && CrCrLfFree(s[1..]))
  }

  predicate CrLfFree(s: string) {
    |s| < 2 || (!(s[0] == '\r' && s[1] == '\n') && CrLfFree(s[1..]))
  }

  // ------------------------------------------------------- normalising

  lemma {:induction false} FreePrefix(a: string, b: string)
    requires CrCrLfFree(a + b)
    ensures CrCrLfFree(a)
  {
    if |a| >= 3 {
      assert (a + b)[1..] == a[1..] + b;
      FreePrefix(a[1..], b);
    }
  }

  lemma {:induction false} CrLfFreePrefix(a: string, b: string)
    requires CrLfFree(a + b)
    ensures CrLfFree(a)
  {
    if |a| >= 2 {
      assert (a + b)[1..] == a[1..] + b;
      CrLfFreePrefix(a[1..], b);
    }
  }

  lemma NormalizePair(s: string)
    ensures NormalizeCrlf("\r\n" + s) == "\n" + NormalizeCrlf(s)
  {
    assert ("\r\n" + s)[2..] == s;
  }

  lemma NormalizeOne(c: char, s: string)
    requires c != '\r' || s == [] || s[0] != '\n'
    ensures NormalizeCrlf([c] + s) == [c] + NormalizeCrlf(s)
  {
    assert ([c] + s)[1..] == s;
  }

  lemma {:induction false} NormalizeAppend(a: string, b: string)
    requires a == [] || a[|a| - 1] != '\r' || b == [] || b[0] != '\n'
    ensures NormalizeCrlf(a + b) == NormalizeCrlf(a) + NormalizeCrlf(b)
    decreases |a|
  {
    if a == [] {
      assert a + b == b;
    } else {
      hide NormalizeCrlf;
      if |a| >= 2 && a[0] == '\r' && a[1] == '\n' {
        NormalizeAppend(a[2..], b);
        AppendPair(a[2..], b);
        assert a == "\r\n" + a[2..];
      } else {
        NormalizeAppend(a[1..], b);
        AppendOne(a[0], a[1..], b);
        assert a == [a[0]] + a[1..];
      }
    }
  }

  lemma AppendPair(t: string, b: string)
    requires NormalizeCrlf(t + b) == NormalizeCrlf(t) + NormalizeCrlf(b)
    ensures NormalizeCrlf("\r\n" + t + b) == NormalizeCrlf("\r\n" + t) + NormalizeCrlf(b)
  {
    hide NormalizeCrlf;
    NormalizePair(t);
    NormalizePair(t + b);
    assert "\r\n" + t + b == "\r\n" + (t + b);
  }

  lemma AppendOne(c: char, t: string, b: string)
    requires NormalizeCrlf(t + b) == NormalizeCrlf(t) + NormalizeCrlf(b)
    requires c != '\r' || (if t == "" then b == "" || b[0] != '\n' else t[0] != '\n')
    ensures NormalizeCrlf([c] + t + b) == NormalizeCrlf([c] + t) + NormalizeCrlf(b)
  {
    hide NormalizeCrlf;
    NormalizeOne(c, t);
    NormalizeOne(c, t + b);
    assert [c] + t + b == [c] + (t + b);
  }

  lemma {:induction false} NormalizeIdle(a: string)
    requires CrLfFree(a)
    ensures NormalizeCrlf(a) == a
  {
    if a != [] { NormalizeIdle(a[1..]); }
  }

  lemma {:induction false} NormalizedIsCrLfFree(p: string)
    requires CrCrLfFree(p)
    ensures CrLfFree(NormalizeCrlf(p))
  {
    if p == [] {
    } else if |p| >= 2 && p[0] == '\r' && p[1] == '\n' {
      if |p| >= 3 { assert p[2..] == p[1..][1..]; }
      NormalizedIsCrLfFree(p[2..]);
      assert ("\n" + NormalizeCrlf(p[2..]))[1..] == NormalizeCrlf(p[2..]);
    } else {
      NormalizedIsCrLfFree(p[1..]);
      assert ([p[0]] + NormalizeCrlf(p[1..]))[1..] == NormalizeCrlf(p[1..]);
    }
  }

  /** Normalising what is already normalised, with more text behind it, changes nothing. */
  lemma {:induction false} NormalizeAgain(p: string, q: string)
    requires CrCrLfFree(p + q)
    ensures NormalizeCrlf(p + q) == NormalizeCrlf(NormalizeCrlf(p) + q)
  {
    if |p| < 2 {
      assert NormalizeCrlf(p) == p;
    } else if p[0] == '\r' && p[1] == '\n' {
      assert (p + q)[1..][1..] == p[2..] + q;
      NormalizeAgain(p[2..], q);
      NormalizeAgainPair(p[2..], q);
      assert p == "\r\n" + p[2..];
    } else {
      assert (p + q)[1..] == p[1..] + q;
      NormalizeAgain(p[1..], q);
      NormalizeAgainOne(p[0], p[1..], q);
      assert p == [p[0]] + p[1..];
    }
  }

  lemma NormalizeAgainPair(p: string, q: string)
    requires NormalizeCrlf(p + q) == NormalizeCrlf(NormalizeCrlf(p) + q)
    ensures NormalizeCrlf("\r\n" + p + q) == NormalizeCrlf(NormalizeCrlf("\r\n" + p) + q)
  {
    hide NormalizeCrlf;
    NormalizePair(p);
    NormalizePair(p + q);
    NormalizeOne('\n', NormalizeCrlf(p) + q);
    assert "\r\n" + p + q == "\r\n" + (p + q);
    assert "\n" + NormalizeCrlf(p) + q == ['\n'] + (NormalizeCrlf(p) + q);
  }

  lemma NormalizeAgainOne(c: char, p: string, q: string)
    requires p != [] && (c == '\r' ==> p[0] != '\n' && !(|p| >= 2 && p[0] == '\r' && p[1] == '\n'))
    requires NormalizeCrlf(p + q) == NormalizeCrlf(NormalizeCrlf(p) + q)
    ensures NormalizeCrlf([c] + p + q) == NormalizeCrlf(NormalizeCrlf([c] + p) + q)
  {
    hide NormalizeCrlf;
    NormalizeOne(c, p);
    NormalizeOne(c, p + q);
    NormalizeHead(p);
    NormalizeOne(c, NormalizeCrlf(p) + q);
    assert [c] + p + q == [c] + (p + q);
    assert [c] + NormalizeCrlf(p) + q == [c] + (NormalizeCrlf(p) + q);
  }

  lemma NormalizeHead(s: string)
    requires s != []
    ensures NormalizeCrlf(s) != []
    ensures NormalizeCrlf(s)[0] == '\n' ==> s[0] == '\n' || (|s| >= 2 && s[0] == '\r' && s[1] == '\n')
  {
  }

  // ------------------------------------------------------------ cutting

  /** No two adjacent line feeds, and none at the end: text that a blank line closes. */
  ghost predicate Closed(f: string) {
    forall i | 0 <= i < |f| && f[i] == '\n' :: i + 1 < |f| && f[i + 1] != '\n'
  }

  ghost predicate Uncut(f: string) {
    forall i | 0 <= i && i + 1 < |f| && f[i] == '\n' :: f[i + 1] != '\n'
  }

  /** Frames written out, each followed by its blank line. */
  function Framed(frames: seq<string>): string {
    if frames == [] then "" else frames[0] + "\n\n" + Framed(frames[1..])
  }

  lemma {:induction false} UncutText(f: string)
    requires Uncut(f)
    ensures Cut(f) == Cutting([], f)
  {
    if |f| >= 2 {
      assert !(f[0] == '\n' && f[1] == '\n');
      forall i | 0 <= i && i + 1 < |f[1..]| && f[1..][i] == '\n'
        ensures f[1..][i + 1] != '\n'
      {
        assert f[i + 1] == '\n';
      }
      UncutText(f[1..]);
      assert f == [f[0]] + f[1..];
    }
  }

  lemma {:induction false} CutFrame(f: string, more: string)
    requires Closed(f)
    ensures Cut(f + "\n\n" + more) == Cutting([f] + Cut(more).frames, Cut(more).rest)
  {
    var t := f + "\n\n" + more;
    if f == [] {
      assert t[2..] == more;
    } else {
      assert f[0] == '\n' ==> f[1] != '\n';
      forall i | 0 <= i < |f[1..]| && f[1..][i] == '\n'
        ensures i + 1 < |f[1..]| && f[1..][i + 1] != '\n'
      {
        assert f[i + 1] == '\n';
      }
      CutFrame(f[1..], more);
      assert t[1..] == f[1..] + "\n\n" + more;
      assert [f[0]] + f[1..] == f;
    }
  }

  /** Cutting reads written-out frames back and goes on with the text behind them. */
  lemma {:induction false} CutFramed(frames: seq<string>, more: string)
    requires forall f | f in frames :: Closed(f)
    ensures Cut(Framed(frames) + more) == Cutting(frames + Cut(more).frames, Cut(more).rest)
    decreases |frames|
  {
    if frames == [] {
      assert Framed(frames) + more == more;
      assert [] + Cut(more).frames == Cut(more).frames;
    } else {
      hide *;
      CutFramed(frames[1..], more);
      CutFramedStep(frames[0], frames[1..], more);
      assert [frames[0]] + frames[1..] == frames;
    }
  }

  lemma CutFramedStep(f: string, later: seq<string>, more: string)
    requires Closed(f) && Cut(Framed(later) + more) == Cutting(later + Cut(more).frames, Cut(more).rest)
    ensures Cut(Framed([f] + later) + more) == Cutting([f] + later + Cut(more).frames, Cut(more).rest)
  {
    hide *;
    FramedStep(f, later);
    CutFrame(f, Framed(later) + more);
    Assoc(f + "\n\n", Framed(later), more);
    Assoc([f], later, Cut(more).frames);
  }

  lemma CutBlank(s: string)
    ensures Cut("\n\n" + s) == Cutting([""] + Cut(s).frames, Cut(s).rest)
  {
    assert ("\n\n" + s)[2..] == s;
  }

  lemma CutStep(c: char, s: string)
    requires s != "" && !(c == '\n' && s[0] == '\n')
    ensures Cut([c] + s) == Prepend(c, Cut(s))
  {
    assert ([c] + s)[1..] == s;
  }

  lemma FramedStep(f: string, frames: seq<string>)
    ensures Framed([f] + frames) == f + "\n\n" + Framed(frames)
  {
    assert ([f] + frames)[1..] == frames;
  }

  lemma BlankIsClosed()
    ensures Closed("")
  {
  }

  lemma PartsBlank(s: string)
    requires s == Framed(Cut(s).frames) + Cut(s).rest && forall f | f in Cut(s).frames :: Closed(f)
    ensures var c := Cut("\n\n" + s);
            "\n\n" + s == Framed(c.frames) + c.rest && forall f | f in c.frames :: Closed(f)
  {
    hide Cut, Framed, Closed;
    CutBlank(s);
    FramedStep("", Cut(s).frames);
    BlankIsClosed();
    assert "" + "\n\n" + Framed(Cut(s).frames) == "\n\n" + Framed(Cut(s).frames);
    assert "\n\n" + Framed(Cut(s).frames) + Cut(s).rest == "\n\n" + (Framed(Cut(s).frames) + Cut(s).rest);
  }

  lemma PartsStep(c: char, s: string)
    requires s != "" && !(c == '\n' && s[0] == '\n')
    requires s == Framed(Cut(s).frames) + Cut(s).rest && forall f | f in Cut(s).frames :: Closed(f)
    ensures var d := Cut([c] + s);
            [c] + s == Framed(d.frames) + d.rest && forall f | f in d.frames :: Closed(f)
  {
    hide Cut, Framed, Closed, Prepend;
    CutStep(c, s);
    PrependParts(c, Cut(s));
  }

  /** Cutting loses nothing, and what it cuts off is closed. */
  lemma {:induction false} CutParts(n: string)
    ensures n == Framed(Cut(n).frames) + Cut(n).rest
    ensures forall f | f in Cut(n).frames :: Closed(f)
    decreases |n|
  {
    if |n| < 2 {
      assert Framed([]) + n == n;
    } else {
      hide *;
      if n[0] == '\n' && n[1] == '\n' {
        CutParts(n[2..]);
        PartsBlank(n[2..]);
        assert n == "\n\n" + n[2..];
      } else {
        CutParts(n[1..]);
        PartsStep(n[0], n[1..]);
        assert n == [n[0]] + n[1..];
      }
    }
  }

  lemma PrependParts(first: char, c: Cutting)
    requires forall f | f in c.frames :: Closed(f)
    requires var t := Framed(c.frames) + c.rest; first == '\n' ==> t == [] || t[0] != '\n'
    ensures var p := Prepend(first, c);
            Framed(p.frames) + p.rest == [first] + (Framed(c.frames) + c.rest)
    ensures forall f | f in Prepend(first, c).frames :: Closed(f)
  {
    if c.frames != [] {
      var f, more := c.frames[0], Framed(c.frames[1..]);
      assert f in c.frames;
      assert Framed(c.frames) == f + "\n\n" + more;
      assert Prepend(first, c).frames[1..] == c.frames[1..];
      assert Framed(Prepend(first, c).frames) == [first] + f + "\n\n" + more;
      assert Closed([first] + f);
      forall g | g in Prepend(first, c).frames ensures Closed(g) {
        assert g == [first] + f || g in c.frames;
      }
    }
  }

  /** A push picks up exactly where the text pushed before it left off. */
  lemma PushResumes(p: string, q: string)
    requires CrCrLfFree(p + q)
    ensures var c := Cut(NormalizeCrlf(p));
            var d := Cut(NormalizeCrlf(c.rest + q));
            Cut(NormalizeCrlf(p + q)) == Cutting(c.frames + d.frames, d.rest)
  {
    hide Cut, NormalizeCrlf, CrCrLfFree, CrLfFree;
    var n := NormalizeCrlf(p);
    var c := Cut(n);
    var done := Framed(c.frames);
    CutParts(n);
    assert NormalizeCrlf(p + q) == done + NormalizeCrlf(c.rest + q) by {
      FreePrefix(p, q);
      NormalizedIsCrLfFree(p);
      CrLfFreePrefix(done, c.rest);
      NormalizeIdle(done);
      NormalizeAgain(p, q);
      assert n + q == done + (c.rest + q);
      FramedEnds(c.frames);
      NormalizeAppend(done, c.rest + q);
    }
    CutFramed(c.frames, NormalizeCrlf(c.rest + q));
  }

  lemma {:induction false} FramedEnds(frames: seq<string>)
    ensures var t := Framed(frames); t == [] || (|t| >= 2 && t[|t| - 1] == '\n' && t[|t| - 2] == '\n')
  {
    if frames != [] { FramedEnds(frames[1..]); }
  }

  lemma {:induction false} FeedIsOneCut(p: string, chunks: seq<string>)
    requires CrCrLfFree(p + Concat(chunks))
    ensures var c := Cut(NormalizeCrlf(p));
            var f := Feed(c.rest, chunks);
            Cut(NormalizeCrlf(p + Concat(chunks))) == Cutting(c.frames + f.frames, f.rest)
    decreases chunks
  {
    hide Cut, NormalizeCrlf, CrCrLfFree;
    if chunks == [] {
      assert p + Concat(chunks) == p;
    } else {
      var first, later := chunks[0], Concat(chunks[1..]);
      assert p + Concat(chunks) == (p + first) + later;
      FreePrefix(p + first, later);
      PushResumes(p, first);
      FeedIsOneCut(p + first, chunks[1..]);
    }
  }

  /** Without "\r\r\n", a run of pushes is one cut of the whole text. */
  lemma FeedIsCut(chunks: seq<string>)
    requires CrCrLfFree(Concat(chunks))
    ensures Feed("", chunks) == Cut(NormalizeCrlf(Concat(chunks)))
  {
    assert "" + Concat(chunks) == Concat(chunks);
    FeedIsOneCut("", chunks);
  }

  /** Any two ways of cutting one text give the same frames and leave the same buffer. */
  lemma ChunkInvariance(chunks: seq<string>, chunks': seq<string>)
    requires Concat(chunks) == Concat(chunks')
    requires CrCrLfFree(Concat(chunks))
    ensures Feed("", chunks) == Feed("", chunks')
  {
    FeedIsCut(chunks);
    FeedIsCut(chunks');
  }

  /** The events of a stream, its flush included, are those of its text pushed at once. */
  lemma EventsOfText(chunks: seq<string>)
    requires CrCrLfFree(Concat(chunks))
    ensures Events(chunks) == Events([Concat(chunks)])
  {
    var text := Concat(chunks);
    assert Concat([text]) == text by {
      assert [text][1..] == [];
    }
    ChunkInvariance(chunks, [text]);
  }

  // ----------------------------------------- the exact condition

  lemma {:induction false} FramedAppend(a: seq<string>, b: seq<string>)
    ensures Framed(a + b) == Framed(a) + Framed(b)
  {
    if a == [] {
      assert a + b == b;
    } else {
      assert (a + b)[1..] == a[1..] + b;
      FramedAppend(a[1..], b);
    }
  }

  lemma {:induction false} NormalizeShrinks(s: string)
    ensures |NormalizeCrlf(s)| <= |s|
  {
    if s == [] {
    } else if |s| >= 2 && s[0] == '\r' && s[1] == '\n' {
      NormalizeShrinks(s[2..]);
    } else {
      NormalizeShrinks(s[1..]);
    }
  }

  lemma {:induction false} FindCrCrLf(s: string) returns (x: string, q: string)
    requires !CrCrLfFree(s)
    ensures s == x + "\r\r\n" + q
  {
    if s[0] == '\r' && s[1] == '\r' && s[2] == '\n' {
      x, q := "", s[3..];
    } else {
      var x', q' := FindCrCrLf(s[1..]);
      x, q := [s[0]] + x', q';
      assert s == [s[0]] + s[1..];
    }
  }

  lemma NormalizeEndsInCrLf(x: string)
    ensures NormalizeCrlf(x + "\r\r\n") == NormalizeCrlf(x) + "\r\n"
  {
    assert x + "\r\r\n" == (x + "\r") + "\r\n";
    NormalizeAppend(x + "\r", "\r\n");
    NormalizeAppend(x, "\r");
    NormalizePair("");
    assert "\r\n" + "" == "\r\n" && NormalizeCrlf("\r") == "\r" + "";
  }

  lemma NormalizeLosesOne(r: string)
    requires |r| >= 2 && r[|r| - 2] == '\r' && r[|r| - 1] == '\n'
    ensures |NormalizeCrlf(r)| < |r|
  {
    var front := r[..|r| - 2];
    assert r == front + "\r\n";
    NormalizeAppend(front, "\r\n");
    NormalizePair("");
    assert "\r\n" + "" == "\r\n";
    NormalizeShrinks(front);
  }

  /** Cutting right behind a "\r\r\n" loses a character that one push keeps. */
  lemma CrCrLfSplits(x: string, q: string)
    ensures Feed("", [x + "\r\r\n", q]) != Feed("", [x + "\r\r\n" + q])
  {
    hide Cut, NormalizeCrlf, Feed, Framed;
    var p := x + "\r\r\n";
    var n := NormalizeCrlf(p);
    NormalizeEndsInCrLf(x);
    var c := Cut(n);
    CutParts(n);
    FramedEnds(c.frames);
    var r := c.rest;
    assert n[|n| - 2] == '\r' && n[|n| - 1] == '\n';
    assert |r| >= 2 && r[|r| - 2] == '\r' && r[|r| - 1] == '\n';
    NormalizeLosesOne(r);
    NormalizeAppend(r, q);
    NormalizeAppend(p, q);
    var d := Cut(NormalizeCrlf(r + q));
    CutParts(NormalizeCrlf(r + q));
    CutParts(NormalizeCrlf(p + q));
    FramedAppend(c.frames, d.frames);
    FeedTwo(p, q);
    FeedOne(p + q);
  }

  lemma FeedOne(p: string)
    ensures Feed("", [p]) == Cut(NormalizeCrlf(p))
  {
    assert "" + p == p;
    assert Feed("", [p]).frames == Cut(NormalizeCrlf(p)).frames + [];
  }

  lemma FeedTwo(p: string, q: string)
    ensures var c := Cut(NormalizeCrlf(p));
            var d := Cut(NormalizeCrlf(c.rest + q));
            Feed("", [p, q]) == Cutting(c.frames + d.frames, d.rest)
  {
    assert "" + p == p && [p, q][1..] == [q];
    var c := Cut(NormalizeCrlf(p));
    var d := Cut(NormalizeCrlf(c.rest + q));
    assert Feed(c.rest, [q]) == Cutting(d.frames + [], d.rest);
  }

  /** Chunk boundaries never show in the frames and the buffer if and only if the stream
      has no "\r\r\n". */
  lemma ChunkInvarianceExactly(s: string)
    ensures CrCrLfFree(s)
       <==> forall chunks: seq<string> | Concat(chunks) == s :: Feed("", chunks) == Feed("", [s])
  {
    if CrCrLfFree(s) {
      forall chunks: seq<string> | Concat(chunks) == s
        ensures Feed("", chunks) == Feed("", [s])
      {
        FeedIsCut(chunks);
        FeedOne(s);
      }
    } else {
      var x, q := FindCrCrLf(s);
      var chunks := [x + "\r\r\n", q];
      assert chunks[1..] == [q] && [q][1..] == [];
      assert Concat([q]) == q + "";
      assert Concat(chunks) == s;
      CrCrLfSplits(x, q);
    }
  }

  /** The difference reaches the events: one push keeps the carriage return in the data,
      two pushes lose it. */
  lemma CrCrLfChangesAnEvent(v: string)
    requires '\r' !in v && '\n' !in v
    ensures Events(["data: " + v + "\r\r\n" + "\n"]) == [SseEvent("message", v + "\r")]
    ensures Events(["data: " + v + "\r\r\n", "\n"]) == [SseEvent("message", v)]
  {
    hide NormalizeCrlf, Cut, FrameEvents, FlushEvents, Feed, CrLfFree, CrCrLfFree;
    var line := "data: " + v;
    var part := line + "\r\r\n";
    WithoutCrIsFree(line);
    WithoutCrIsFree("\n");
    NormalizeIdle(line);
    NormalizeIdle("\n");
    NormalizeEndsInCrLf(line);
    assert NormalizeCrlf(part) == line + "\r\n";
    NormalizeAppend(part, "\n");
    FeedOne(part + "\n");
    assert line + "\r\n" + "\n" == "data: " + (v + "\r") + "\n\n";
    OneDataFrame(v + "\r");

    FeedTwo(part, "\n");
    forall i | 0 <= i < |line| ensures line[i] != '\n' { assert line[i] in line; }
    UncutText(line + "\r\n");
    NormalizePair("\n");
    assert (line + "\r\n") + "\n" == line + ("\r\n" + "\n");
    NormalizeAppend(line, "\r\n" + "\n");
    assert line + ("\n" + "\n") == "data: " + v + "\n\n";
    OneDataFrame(v);
    assert [] + ["data: " + v] == ["data: " + v];
  }

  lemma OneDataFrame(v: string)
    requires '\n' !in v
    ensures Cut("data: " + v + "\n\n") == Cutting(["data: " + v], "")
    ensures FrameEvents(["data: " + v]) == [SseEvent(DEFAULT_EVENT, v)] && FlushEvents("") == []
    ensures FrameEvents([]) == []
  {
    var line := "data: " + v;
    forall i | 0 <= i < |line| ensures line[i] != '\n' { assert line[i] in line; }
    CutFrame(line, "");
    assert line + "\n\n" + "" == "data: " + v + "\n\n";
    DataLine(v);
    NothingLeft();
    FrameEventsOne(line);
  }

  lemma NothingLeft()
    ensures FlushEvents("") == []
  {
    assert NormalizeCrlf("") == "" && Split("", '\n') == [""];
    assert [""][..0] == [];
    assert EventName([""]) == EventName([]) && DataLines([""]) == DataLines([]) + [];
  }

  lemma DataLine(v: string)
    requires '\n' !in v
    ensures FrameEvent("data: " + v) == Some(SseEvent(DEFAULT_EVENT, v))
  {
    var line := "data: " + v;
    SplitWithout(line, '\n');
    FieldReads("data", v);
    assert line == "data" + ": " + v;
    assert [line][..0] == [];
    assert DataLines([line]) == DataLines([]) + [v];
    assert EventName([line]) == EventName([]);
  }

  /** A data line that no blank line follows is flushed. */
  lemma OpenDataLine(v: string)
    requires '\r' !in v && '\n' !in v
    ensures FlushEvents("data: " + v) == [SseEvent(DEFAULT_EVENT, v)]
  {
    var line := "data: " + v;
    WithoutCrIsFree(line);
    NormalizeIdle(line);
    DataLine(v);
  }

  // ------------------------------------------------------ round trip

  function PrintLines(e: SseEvent): seq<string> {
    ["event: " + e.event] + PrintData(Split(e.data, '\n'))
  }

  function PrintData(lines: seq<string>): (printed: seq<string>)
    ensures |printed| == |lines|
  {
    if lines == [] then []
    else PrintData(lines[..|lines| - 1]) + ["data: " + lines[|lines| - 1]]
  }

  /** One event as an `event:` line, a `data:` line per line of data, and a blank line. */
  function PrintAll(events: seq<SseEvent>): string {
    if events == [] then ""
    else Join(PrintLines(events[0]), "\n") + "\n\n" + PrintAll(events[1..])
  }

  /** The name fits on one line, and nothing holds a carriage return. */
  predicate Printable(e: SseEvent) {
    '\n' !in e.event && '\r' !in e.event && '\r' !in e.data
  }

  lemma NameSnoc(lines: seq<string>, line: string)
    ensures var last := FieldOf(line);
            EventName(lines + [line]) == if last.Field? && last.name == "event" then last.value else EventName(lines)
  {
    hide FieldOf;
    assert (lines + [line])[..|lines|] == lines;
  }

  lemma DataSnoc(lines: seq<string>, line: string)
    ensures var last := FieldOf(line);
            DataLines(lines + [line]) == DataLines(lines) + if last.Field? &&
                last.name == "data" then [last.value] else []
  {
    hide FieldOf;
    assert (lines + [line])[..|lines|] == lines;
  }

  lemma PrintDataSnoc(lines: seq<string>, line: string)
    ensures PrintData(lines + [line]) == PrintData(lines) + ["data: " + line]
  {
    assert (lines + [line])[..|lines|] == lines;
  }

  lemma NameOnly(head: string)
    ensures EventName(["event: " + head] + PrintData([])) == head
    ensures DataLines(["event: " + head] + PrintData([])) == []
  {
    hide FieldOf;
    var first := "event: " + head;
    assert first == "event" + ": " + head;
    FieldReads("event", head);
    NameSnoc([], first);
    DataSnoc([], first);
    assert [] + [first] == [first] + PrintData([]);
  }

  lemma {:induction false} PrintedDataReads(head: string, lines: seq<string>)
    ensures EventName(["event: " + head] + PrintData(lines)) == head
    ensures DataLines(["event: " + head] + PrintData(lines)) == lines
  {
    hide FieldOf, EventName, DataLines, PrintData;
    if lines == [] {
      NameOnly(head);
    } else {
      var n := |lines| - 1;
      var before, last := ["event: " + head] + PrintData(lines[..n]), "data: " + lines[n];
      PrintedDataReads(head, lines[..n]);
      assert lines == lines[..n] + [lines[n]];
      PrintDataSnoc(lines[..n], lines[n]);
      assert ["event: " + head] + PrintData(lines) == before + [last];
      assert last == "data" + ": " + lines[n];
      FieldReads("data", lines[n]);
      NameSnoc(before, last);
      DataSnoc(before, last);
    }
  }

  lemma {:induction false} PrintDataShape(lines: seq<string>, c: char)
    requires c !in "data: "
    requires forall l | l in lines :: c !in l
    ensures forall p | p in PrintData(lines) :: p != [] && c !in p
  {
    if lines != [] { PrintDataShape(lines[..|lines| - 1], c); }
  }

  lemma {:induction false} JoinWithout(parts: seq<string>, sep: string, c: char)
    requires c !in sep && forall p | p in parts :: c !in p
    ensures c !in Join(parts, sep)
  {
    if |parts| > 1 { JoinWithout(parts[1..], sep, c); }
  }

  lemma {:induction false} JoinIsClosed(lines: seq<string>)
    requires lines != []
    requires forall l | l in lines[1..] :: l != [] && '\n' !in l
    requires '\n' !in lines[0]
    requires |lines| > 1 ==> lines[1] != []
    ensures Closed(Join(lines, "\n"))
    ensures lines[0] != [] ==> Join(lines, "\n") != [] && Join(lines, "\n")[0] != '\n'
  {
    if |lines| > 1 {
      var tail := lines[1..];
      assert tail[0] in tail && forall l | l in tail[1..] :: l in tail;
      if |tail| > 1 { assert tail[1] in tail; }
      JoinIsClosed(tail);
      var t, j := Join(tail, "\n"), Join(lines, "\n");
      assert j == lines[0] + "\n" + t;
      forall i | 0 <= i < |j| && j[i] == '\n'
        ensures i + 1 < |j| && j[i + 1] != '\n'
      {
        assert i >= |lines[0]|;
        if i > |lines[0]| {
          assert t[i - |lines[0]| - 1] == '\n';
        }
      }
    } else {
      assert Join(lines, "\n") == lines[0];
    }
  }

  lemma PrintedFrame(e: SseEvent)
    requires Printable(e)
    ensures Closed(Join(PrintLines(e), "\n"))
    ensures '\r' !in Join(PrintLines(e), "\n")
    ensures FrameEvent(Join(PrintLines(e), "\n")) == Some(e)
  {
    var data := Split(e.data, '\n');
    JoinOfSplit(e.data, '\n');
    forall l | l in data ensures '\r' !in l {
      if '\r' in l { SplitKeepsChars(e.data, '\n', l, '\r'); }
    }
    PrintDataShape(data, '\n');
    PrintDataShape(data, '\r');
    var lines := PrintLines(e);
    assert lines[1..] == PrintData(data);
    JoinIsClosed(lines);
    JoinWithout(lines, "\n", '\r');
    SplitOfJoin(lines, '\n');
    PrintedDataReads(e.event, data);
  }

  lemma {:induction false} WithoutCrIsFree(s: string)
    requires '\r' !in s
    ensures CrCrLfFree(s) && CrLfFree(s)
  {
    if |s| >= 2 { WithoutCrIsFree(s[1..]); }
  }

  function PrintedFrames(events: seq<SseEvent>): seq<string> {
    if events == [] then [] else [Join(PrintLines(events[0]), "\n")] + PrintedFrames(events[1..])
  }

  lemma {:induction false} CutPrinted(events: seq<SseEvent>)
    requires forall e | e in events :: Printable(e)
    ensures '\r' !in PrintAll(events)
    ensures Cut(PrintAll(events)) == Cutting(PrintedFrames(events), "")
  {
    if events != [] {
      PrintedFrame(events[0]);
      CutPrinted(events[1..]);
      CutFrame(Join(PrintLines(events[0]), "\n"), PrintAll(events[1..]));
    }
  }

  lemma FrameEventsOne(frame: string)
    ensures FrameEvents([frame]) == AsList(FrameEvent(frame))
  {
    assert [frame][..0] == [];
  }

  lemma FrameEventsSnoc(frames: seq<string>, frame: string)
    ensures FrameEvents(frames + [frame]) == FrameEvents(frames) + AsList(FrameEvent(frame))
  {
    hide FrameEvent;
    assert (frames + [frame])[..|frames|] == frames;
  }

  lemma AppendStep(a: seq<string>, front: seq<string>, last: string)
    requires FrameEvents(a + front) == FrameEvents(a) + FrameEvents(front)
    ensures FrameEvents(a + (front + [last])) == FrameEvents(a) + FrameEvents(front + [last])
  {
    hide FrameEvents, FrameEvent, AsList;
    FrameEventsSnoc(a + front, last);
    FrameEventsSnoc(front, last);
    assert a + (front + [last]) == (a + front) + [last];
    var x, y, z := FrameEvents(a), FrameEvents(front), AsList(FrameEvent(last));
    assert (x + y) + z == x + (y + z);
  }

  lemma NoFrames()
    ensures FrameEvents([]) == []
  {
  }

  lemma {:induction false} FrameEventsAppend(a: seq<string>, b: seq<string>)
    ensures FrameEvents(a + b) == FrameEvents(a) + FrameEvents(b)
  {
    hide FrameEvents;
    if b == [] {
      NoFrames();
      assert a + b == a;
    } else {
      var front, last := b[..|b| - 1], b[|b| - 1];
      FrameEventsAppend(a, front);
      AppendStep(a, front, last);
      assert front + [last] == b;
    }
  }

  lemma {:induction false} PrintedFramesRead(events: seq<SseEvent>)
    requires forall e | e in events :: Printable(e)
    ensures FrameEvents(PrintedFrames(events)) == events
  {
    if events != [] {
      var frame := Join(PrintLines(events[0]), "\n");
      PrintedFrame(events[0]);
      PrintedFramesRead(events[1..]);
      FrameEventsAppend([frame], PrintedFrames(events[1..]));
      assert [frame][..0] == [];
      assert FrameEvents([frame]) == [] + [events[0]];
    }
  }

  /** Printing events, cutting the text anywhere and parsing it gives back exactly the events. */
  lemma RoundTrip(events: seq<SseEvent>, chunks: seq<string>)
    requires forall e | e in events :: Printable(e)
    requires Concat(chunks) == PrintAll(events)
    ensures Events(chunks) == events
    ensures Feed("", chunks).rest == ""
  {
    var text := PrintAll(events);
    CutPrinted(events);
    WithoutCrIsFree(text);
    FeedIsCut(chunks);
    NormalizeIdle(text);
    PrintedFramesRead(events);
    NothingLeft();
  }

  // ------------------------------------ the line-by-line interpreter

  /** The event name and data lines gathered since the last blank line. */
  datatype Pending = Pending(event: string, data: seq<string>)

  const FRESH := Pending(DEFAULT_EVENT, [])

  /** What a line says under a name: what follows the name and its colon, less one leading space;
      nothing at all, where the line is the name alone. */
  function Says(line: string, name: string): Option<string> {
    if line == name then Some("")
    else if name + ": " <= line then Some(line[|name| + 2..])
    else if name + ":" <= line then Some(line[|name| + 1..])
    else None
  }

  function Absorb(p: Pending, line: string): Pending {
    if Says(line, "event").Some? then p.(event := Says(line, "event").value)
    else if Says(line, "data").Some? then p.(data := p.data + [Says(line, "data").value])
    else p
  }

  function Dispatch(p: Pending): seq<SseEvent> {
    if p.data == [] && p.event == "message" then [] else [SseEvent(p.event, Join(p.data, "\n"))]
  }

  /** Section 9.2.6 of the HTML Living Standard, line by line: a field updates what is pending,
      a blank line dispatches it. Two departures are the code's own: a named event without data
      is dispatched, and the type of an event is never the empty string by default. */
  function Interpret(p: Pending, lines: seq<string>): seq<SseEvent>
    decreases lines
  {
    if lines == [] then []
    else if lines[0] == "" then Dispatch(p) + Interpret(FRESH, lines[1..])
    else Interpret(Absorb(p, lines[0]), lines[1..])
  }

  /** The lines of a text, each ended by a line feed or by a carriage return and a line feed. */
  function LinesOf(text: string): seq<string> {
    var pieces := Split(text, '\n');
    Unended(pieces[..|pieces| - 1]) + [pieces[|pieces| - 1]]
  }

  function Unended(pieces: seq<string>): seq<string> {
    if pieces == [] then [] else [WithoutCr(pieces[0])] + Unended(pieces[1..])
  }

  function WithoutCr(line: string): string {
    if line != "" && line[|line| - 1] == '\r' then line[..|line| - 1] else line
  }

  lemma DispatchIs(p: Pending)
    ensures Dispatch(p) == AsList(EventOf(p.event, p.data))
  {
  }

  /** The interpreter's reading of a line is the parser's. */
  lemma SaysIs(line: string, name: string)
    requires name != "" && ':' !in name
    ensures Says(line, name)
         == if FieldOf(line).Field? && FieldOf(line).name == name then Some(FieldOf(line).value) else None
  {
    if name + ":" <= line {
      var rest := line[|name| + 1..];
      assert line == name + ":" + rest;
      assert name + ": " <= line ==> rest != "" && rest[0] == ' ' && line == name + ": " + rest[1..];
      assert rest != "" && rest[0] == ' ' ==> name + ": " <= line;
      FieldReads(name, if name + ": " <= line then rest[1..] else rest);
    } else if line == name {
      FieldReads(name, "");
    } else if line != "" && line[0] != ':' {
      assert ColonAt(line) < |line| ==> line[..ColonAt(line) + 1] == line[..ColonAt(line)] + ":";
    }
  }

  lemma AbsorbIs(p: Pending, line: string)
    ensures Absorb(p, line)
         == match FieldOf(line)
            case Ignored => p
            case Field(name, value) =>
              if name == "event" then p.(event := value)
              else if name == "data" then p.(data := p.data + [value])
              else p
  {
    SaysIs(line, "event");
    SaysIs(line, "data");
    hide Says, FieldOf;
  }

  function Gathered(lines: seq<string>): Pending {
    Pending(EventName(lines), DataLines(lines))
  }

  lemma GatherOne(lines: seq<string>, line: string)
    ensures Gathered(lines + [line]) == Absorb(Gathered(lines), line)
  {
    AbsorbIs(Gathered(lines), line);
    hide Absorb, FieldOf;
    assert (lines + [line])[..|lines|] == lines;
  }

  /** Lines grouped into frames: a blank line closes a frame unless it opens one. */
  function Group(acc: seq<string>, lines: seq<string>): Cutting
    requires lines != []
    decreases lines
  {
    if |lines| == 1 then Cutting([], Join(acc + lines, "\n"))
    else if acc != [] && lines[0] == "" then
      var c := Group([], lines[1..]);
      Cutting([Join(acc, "\n")] + c.frames, c.rest)
    else Group(acc + [lines[0]], lines[1..])
  }

  /** Lines of one frame under way: none blank but possibly the first. */
  ghost predicate UnderWay(acc: seq<string>) {
    (forall l | l in acc :: '\n' !in l) && forall i | 0 < i < |acc| :: acc[i] != []
  }

  lemma UnderWayIsClosed(acc: seq<string>)
    requires UnderWay(acc) && acc != []
    ensures Closed(Join(acc, "\n"))
  {
    forall l | l in acc[1..] ensures l != [] && '\n' !in l {
      var i :| 0 <= i < |acc[1..]| && acc[1..][i] == l;
      assert acc[i + 1] == l;
    }
    JoinIsClosed(acc);
  }

  lemma LastPieceIsUncut(acc: seq<string>, last: string)
    requires UnderWay(acc) && '\n' !in last
    ensures Cut(Join(acc + [last], "\n")) == Cutting([], Join(acc + [last], "\n"))
  {
    var t := Join(acc + [last], "\n");
    forall i | 0 <= i < |last| ensures last[i] != '\n' { assert last[i] in last; }
    if acc == [] {
      assert acc + [last] == [last] && t == last;
    } else {
      UnderWayIsClosed(acc);
      JoinAppend(acc, [last], "\n");
      var f := Join(acc, "\n");
      assert t == f + "\n" + last;
      forall i | 0 <= i && i + 1 < |t| && t[i] == '\n' ensures t[i + 1] != '\n' {
        if i < |f| {
          assert f[i] == '\n';
        } else {
          assert t[i + 1] == last[i - |f|];
        }
      }
    }
    UncutText(t);
  }

  /** An empty line behind other lines is a blank line between frames. */
  lemma BlankBetween(acc: seq<string>, more: seq<string>)
    requires acc != [] && more != []
    ensures Join(acc + ([""] + more), "\n") == Join(acc, "\n") + "\n\n" + Join(more, "\n")
  {
    hide Join;
    JoinAppend(acc, [""] + more, "\n");
    JoinAppend([""], more, "\n");
    JoinEmpty();
    var x, y := Join(acc, "\n"), Join(more, "\n");
    assert x + "\n" + ("" + "\n" + y) == x + "\n\n" + y;
  }

  lemma JoinEmpty()
    ensures Join([""], "\n") == ""
  {
  }

  lemma GroupBlank(acc: seq<string>, more: seq<string>)
    requires acc != [] && more != []
    ensures var c := Group([], more);
            Group(acc, [""] + more) == Cutting([Join(acc, "\n")] + c.frames, c.rest)
  {
    hide Join;
    assert ([""] + more)[1..] == more;
  }

  lemma GroupLine(acc: seq<string>, line: string, more: seq<string>)
    requires more != [] && (acc == [] || line != "")
    ensures Group(acc, [line] + more) == Group(acc + [line], more)
  {
    hide Join;
    assert ([line] + more)[1..] == more;
  }

  lemma {:induction false} GroupIsCut(acc: seq<string>, lines: seq<string>)
    requires lines != [] && UnderWay(acc)
    requires forall l | l in lines :: '\n' !in l
    ensures Cut(Join(acc + lines, "\n")) == Group(acc, lines)
    decreases |lines|
  {
    var line, more := lines[0], lines[1..];
    if more == [] {
      assert lines == [line];
      LastPieceIsUncut(acc, line);
    } else {
      hide Cut, Join, Group;
      assert lines == [line] + more;
      if acc != [] && line == "" {
        GroupIsCut([], more);
        assert [] + more == more;
        BlankBetween(acc, more);
        UnderWayIsClosed(acc);
        CutFrame(Join(acc, "\n"), Join(more, "\n"));
        GroupBlank(acc, more);
      } else {
        GroupIsCut(acc + [line], more);
        GroupLine(acc, line, more);
        Assoc(acc, [line], more);
      }
    }
  }

  lemma InterpretStep(p: Pending, line: string, more: seq<string>)
    ensures Interpret(p, [line] + more)
         == if line == "" then AsList(EventOf(p.event, p.data)) + Interpret(FRESH, more)
            else Interpret(Absorb(p, line), more)
  {
    DispatchIs(p);
    hide Dispatch, Absorb;
    assert ([line] + more)[1..] == more;
  }

  lemma InterpretLast(lines: seq<string>)
    requires lines != [] && forall l | l in lines :: '\n' !in l
    ensures AsList(EventOf(Gathered(lines).event, Gathered(lines).data)) == AsList(FrameEvent(Join(lines, "\n")))
  {
    SplitOfJoin(lines, '\n');
  }

  lemma {:induction false} GroupIsInterpreted(acc: seq<string>, lines: seq<string>)
    requires lines != [] && UnderWay(acc)
    requires forall l | l in lines :: '\n' !in l
    ensures var c := Group(acc, lines);
            Interpret(Gathered(acc), lines + [""]) == FrameEvents(c.frames) + AsList(FrameEvent(c.rest))
    decreases |lines|
  {
    hide Gathered, Absorb, FrameEvents, FrameEvent, EventOf, Interpret, Join;
    var line := lines[0];
    if |lines| == 1 {
      assert lines == [line];
      FreshIsNeutral();
      LastFrameIsInterpreted(acc, line);
    } else if acc != [] && line == "" {
      GroupIsInterpreted([], lines[1..]);
      FrameIsInterpreted(acc, lines[1..]);
      assert lines == [""] + lines[1..];
    } else {
      GroupIsInterpreted(acc + [line], lines[1..]);
      InterpretStep(Gathered(acc), line, lines[1..] + [""]);
      GatherOne(acc, line);
      FreshIsNeutral();
      assert lines + [""] == [line] + (lines[1..] + [""]);
    }
  }

  lemma FreshIsNeutral()
    ensures Gathered([]) == FRESH && Absorb(FRESH, "") == FRESH && FrameEvents([]) == []
    ensures AsList(EventOf(FRESH.event, FRESH.data)) == []
    ensures Interpret(FRESH, []) == []
  {
  }

  lemma LastFrameIsInterpreted(acc: seq<string>, line: string)
    requires '\n' !in line && forall l | l in acc :: '\n' !in l
    ensures Interpret(Gathered(acc), [line] + [""]) == AsList(FrameEvent(Join(acc + [line], "\n")))
  {
    hide Gathered, Absorb, FrameEvents, FrameEvent, EventOf, Interpret;
    FreshIsNeutral();
    GatherOne(acc, line);
    InterpretLast(acc + [line]);
    InterpretStep(Gathered(acc), line, [""]);
    InterpretStep(FRESH, "", []);
    InterpretStep(Gathered(acc + [line]), "", []);
    assert [""] + [] == [""];
    if line == "" {
      InterpretLast(acc + [line]);
      assert Absorb(Gathered(acc), "") == Gathered(acc) by { AbsorbBlank(Gathered(acc)); }
    }
  }

  lemma AbsorbBlank(p: Pending)
    ensures Absorb(p, "") == p
  {
  }

  lemma FrameIsInterpreted(acc: seq<string>, lines: seq<string>)
    requires acc != [] && lines != [] && forall l | l in acc :: '\n' !in l
    requires var c := Group([], lines);
             Interpret(Gathered([]), lines + [""]) == FrameEvents(c.frames) + AsList(FrameEvent(c.rest))
    ensures var c := Group([], lines);
            Interpret(Gathered(acc), [""] + lines + [""]) ==
            FrameEvents([Join(acc, "\n")] + c.frames) + AsList(FrameEvent(c.rest))
  {
    hide Gathered, Absorb, FrameEvents, FrameEvent, EventOf, Interpret, Group;
    FreshIsNeutral();
    InterpretStep(Gathered(acc), "", lines + [""]);
    InterpretLast(acc);
    FrameEventsAppend([Join(acc, "\n")], Group([], lines).frames);
    FrameEventsOne(Join(acc, "\n"));
    assert [""] + lines + [""] == [""] + (lines + [""]);
  }

  lemma LineOver(line: string, rest: string)
    requires '\n' !in line
    ensures NormalizeCrlf(line + "\n" + rest) == WithoutCr(line) + "\n" + NormalizeCrlf(rest)
    ensures NormalizeCrlf(line) == line
  {
    hide NormalizeCrlf;
    NoLineFeedIdle(line);
    NormalizeOne('\n', rest);
    assert ['\n'] + rest == "\n" + rest;
    if line != "" && line[|line| - 1] == '\r' {
      var front := line[..|line| - 1];
      assert line + "\n" + rest == front + ("\r\n" + rest);
      NoLineFeedIdle(front);
      NormalizePair(rest);
      NormalizeAppend(front, "\r\n" + rest);
      assert front + ("\n" + NormalizeCrlf(rest)) == front + "\n" + NormalizeCrlf(rest);
    } else {
      assert line + "\n" + rest == line + ("\n" + rest);
      NormalizeAppend(line, "\n" + rest);
      assert line + ("\n" + NormalizeCrlf(rest)) == line + "\n" + NormalizeCrlf(rest);
    }
  }

  lemma {:induction false} NoLineFeedIdle(line: string)
    requires '\n' !in line
    ensures NormalizeCrlf(line) == line
  {
    if line != "" { NoLineFeedIdle(line[1..]); }
  }

  /** Normalising and splitting at line feeds is reading lines. */
  lemma {:induction false} NormalizedLines(pieces: seq<string>)
    requires pieces != [] && forall l | l in pieces :: '\n' !in l
    ensures Split(NormalizeCrlf(Join(pieces, "\n")), '\n')
         == Unended(pieces[..|pieces| - 1]) + [pieces[|pieces| - 1]]
  {
    hide NormalizeCrlf, Split, WithoutCr;
    var first, more := pieces[0], pieces[1..];
    if more == [] {
      LineOver(first, "");
      SplitWithout(first, '\n');
      assert pieces == [first] && Unended([]) == [];
    } else {
      var rest := Join(more, "\n");
      NormalizedLines(more);
      LineOver(first, rest);
      assert Join(pieces, "\n") == first + "\n" + rest;
      assert '\n' !in WithoutCr(first) by { WithoutCrWithin(first); }
      SplitAtFirst(WithoutCr(first), NormalizeCrlf(rest), '\n');
      assert WithoutCr(first) + ['\n'] + NormalizeCrlf(rest) == WithoutCr(first) + "\n" + NormalizeCrlf(rest);
      assert pieces[..|pieces| - 1][1..] == more[..|more| - 1];
    }
  }

  lemma WithoutCrWithin(line: string)
    ensures WithoutCr(line) <= line
  {
  }

  /** However the stream is cut into chunks, its events are those of the line interpreter
      run over the lines of the whole text as if a blank line followed them. */
  lemma StreamIsInterpreted(chunks: seq<string>)
    requires CrCrLfFree(Concat(chunks))
    ensures Events(chunks) == Interpret(FRESH, LinesOf(Concat(chunks)) + [""])
  {
    hide *;
    LinesAreNormalized(Concat(chunks));
    NormalizedIsInterpreted(chunks);
  }

  lemma LinesAreNormalized(text: string)
    ensures LinesOf(text) == Split(NormalizeCrlf(text), '\n')
  {
    hide NormalizeCrlf, Split, Unended;
    JoinOfSplit(text, '\n');
    NormalizedLines(Split(text, '\n'));
  }

  lemma NormalizedIsInterpreted(chunks: seq<string>)
    requires CrCrLfFree(Concat(chunks))
    ensures Events(chunks) == Interpret(FRESH, Split(NormalizeCrlf(Concat(chunks)), '\n') + [""])
  {
    var n := NormalizeCrlf(Concat(chunks));
    var lines := Split(n, '\n');
    FeedIsCut(chunks);
    JoinOfSplit(n, '\n');
    assert [] + lines == lines;
    GroupIsCut([], lines);
    GroupIsInterpreted([], lines);
    NormalizedIsCrLfFree(Concat(chunks));
    CutParts(n);
    CrLfFreeSuffix(n, |Framed(Cut(n).frames)|);
    assert n[|Framed(Cut(n).frames)|..] == Cut(n).rest;
    NormalizeIdle(Cut(n).rest);
  }

  lemma {:induction false} CrLfFreeSuffix(s: string, k: nat)
    requires k <= |s| && CrLfFree(s)
    ensures CrLfFree(s[k..])
  {
    if k > 0 && |s| >= 2 {
      CrLfFreeSuffix(s[1..], k - 1);
      assert s[k..] == s[1..][k - 1..];
    }
  }
}
