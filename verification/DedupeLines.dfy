// pkg/asymptoteobserve/dedupe.go line by line: what makes a line a report, what its target is, and
// when two lines are one action, in the terms of what the lines hold.
module DedupeLines {
  import opened Text
  import opened Dedupe

  // ------------------------------------------------------ what a line says

  /** Trimming takes white space off both ends and nothing else. */
  lemma TrimMeans(r: Reader, s: string)
    ensures exists i, j :: 0 <= i <= j <= |s| && Trim(r, s) == s[i..j]
                           && (forall k | 0 <= k < i || j <= k < |s| :: r.space(s[k]))
                           && (i < j ==> !r.space(s[i]) && !r.space(s[j - 1]))
  {
    var left := TrimLeft(r, s);
    var i := LeftCut(r, s);
    var n := RightCut(r, left);
    var j := i + n;
    assert s[i..][..n] == s[i..j];
    assert forall k | j <= k < |s| :: s[k] == left[k - i];
    assert i < j ==> s[i] == left[0] && s[j - 1] == left[n - 1];
  }

  lemma {:induction false} LeftCut(r: Reader, s: string) returns (i: nat)
    ensures i <= |s| && TrimLeft(r, s) == s[i..] && (i < |s| ==> !r.space(s[i]))
    ensures forall k | 0 <= k < i :: r.space(s[k])
  {
    if s != "" && r.space(s[0]) {
      var i' := LeftCut(r, s[1..]);
      i := i' + 1;
      assert s[1..][i'..] == s[i..];
      forall k | 0 <= k < i ensures r.space(s[k]) {
        assert k > 0 ==> s[k] == s[1..][k - 1];
      }
    } else {
      i := 0;
      assert s[0..] == s;
    }
  }

  lemma {:induction false} RightCut(r: Reader, s: string) returns (n: nat)
    ensures n <= |s| && TrimRight(r, s) == s[..n] && (n > 0 ==> !r.space(s[n - 1]))
    ensures forall k | n <= k < |s| :: r.space(s[k])
  {
    if s != "" && r.space(s[|s| - 1]) {
      n := RightCut(r, s[..|s| - 1]);
      assert s[..|s| - 1][..n] == s[..n];
    } else {
      n := |s|;
      assert s[..n] == s;
    }
  }

  /** The first value that is not all white space, trimmed. */
  lemma {:induction false} FirstNonEmptyMeans(r: Reader, values: seq<string>)
    ensures var v := FirstNonEmpty(r, values);
            if v == "" then forall i | 0 <= i < |values| :: Trim(r, values[i]) == ""
            else exists i :: 0 <= i < |values| && v == Trim(r, values[i])
                             && forall j | 0 <= j < i :: Trim(r, values[j]) == ""
  {
    hide Trim;
    if values != [] && Trim(r, values[0]) == "" {
      var more := values[1..];
      FirstNonEmptyMeans(r, more);
      assert forall i | 1 <= i < |values| :: values[i] == more[i - 1];
      if FirstNonEmpty(r, more) != "" {
        var i :| 0 <= i < |more| && FirstNonEmpty(r, more) == Trim(r, more[i])
                 && forall j | 0 <= j < i :: Trim(r, more[j]) == "";
        assert values[i + 1] == more[i];
      }
    }
  }

  // ------------------------------------------------------------ targets

  predicate NoPair(s: string) {
    forall i | 0 <= i < |s| - 1 :: !(s[i] == '_' && s[i + 1] == '_')
  }

  /** Two underscores become a colon, the leftmost pair first; a text without such a pair stays. */
  lemma {:induction false} ColonsMean(a: string, b: string)
    ensures NoPair(a) ==> Colons(a) == a
    ensures NoPair(a + "_") ==> Colons(a + "__" + b) == a + ":" + Colons(b)
  {
    if a == "" {
      ColonsPair(b);
      assert "" + "__" + b == "__" + b && "" + ":" + Colons(b) == ":" + Colons(b);
    } else {
      var x, t := a[0], a[1..];
      assert a == [x] + t;
      ColonsMean(t, b);
      hide Colons, NoPair;
      if NoPair(a) {
        NoPairTail(x, t);
        ColonsOne(x, t);
      }
      Assoc([x], t, "_");
      if NoPair(a + "_") {
        NoPairTail(x, t + "_");
        StartsLike(t, "_", "__" + b);
        ColonsOne(x, t + ("__" + b));
        Assoc(t, "__", b);
        Assoc([x], t, "__");
        Assoc([x], t + "__", b);
        Assoc([x], t, ":");
        Assoc([x], t + ":", Colons(b));
      }
    }
  }

  lemma StartsLike(t: string, u: string, v: string)
    requires u != "" && v != "" && u[0] == v[0]
    ensures (t + u)[0] == (t + v)[0]
  {
  }

  lemma NoPairTail(c: char, t: string)
    requires NoPair([c] + t)
    ensures NoPair(t) && !(t != "" && c == '_' && t[0] == '_')
  {
    assert t == ([c] + t)[1..];
    assert t != "" ==> ([c] + t)[0] == c && ([c] + t)[1] == t[0];
    forall i | 0 <= i < |t| - 1 ensures !(t[i] == '_' && t[i + 1] == '_') {
      assert ([c] + t)[i + 1] == t[i] && ([c] + t)[i + 2] == t[i + 1];
    }
  }

  /** A value is cleaned by trimming it, lowering it character by character and respelling it: one `mcp:`
      and then one `mcp__` are taken off the front. */
  lemma CleaningMeans(r: Reader, value: string, rest: string)
    ensures var v := Trim(r, value);
            && CleanPart(r, value) == Respelled(Lower(r, v)) && |Lower(r, v)| == |v|
            && forall i | 0 <= i < |v| :: Lower(r, v)[i] == r.lower(v[i])
    ensures Respelled("mcp__" + rest) == Respelled("mcp:mcp__" + rest) == Colons(rest)
    ensures !("mcp__" <= rest) ==> Respelled("mcp:" + rest) == Colons(rest)
    ensures !("mcp:" <= rest) && !("mcp__" <= rest) ==> Respelled(rest) == Colons(rest)
  {
    hide Colons, Trim;
    assert ("mcp__" + rest)[5..] == rest && ("mcp:" + rest)[4..] == rest;
    assert ("mcp:mcp__" + rest)[4..] == "mcp__" + rest && ("mcp__" + rest)[0..4] == "mcp_";
  }

  /** A value that says something. */
  function Said(part: string): seq<string> {
    if part == "" || part == "<nil>" then [] else [part]
  }

  function Spelled(prefix: string, parts: seq<string>): string {
    if parts == [] then "" else prefix + ":" + Join(parts, "|")
  }

  lemma CleanSnoc(r: Reader, values: seq<string>, a: string)
    ensures CleanParts(r, values + [Trim(r, a)]) == CleanParts(r, values) + Said(CleanPart(r, a))
    ensures CleanParts(r, []) == []
  {
    TrimTwice(r, a);
    hide Trim, Lower, Respelled;
    assert (values + [Trim(r, a)])[..|values|] == values;
  }

  lemma Values(r: Reader, prefix: string, a: string, b: string, c: string)
    ensures TargetOf(r, prefix, [Trim(r, a)]) == Spelled(prefix, Said(CleanPart(r, a)))
    ensures TargetOf(r, prefix, [Trim(r, a), Trim(r, b)])
         == Spelled(prefix, Said(CleanPart(r, a)) + Said(CleanPart(r, b)))
    ensures TargetOf(r, prefix, [Trim(r, a), Trim(r, b), Trim(r, c)])
         == Spelled(prefix, Said(CleanPart(r, a)) + Said(CleanPart(r, b)) + Said(CleanPart(r, c)))
  {
    CleanSnoc(r, [], a);
    CleanSnoc(r, [Trim(r, a)], b);
    CleanSnoc(r, [Trim(r, a), Trim(r, b)], c);
    var x, y, z := Trim(r, a), Trim(r, b), Trim(r, c);
    hide Trim, CleanParts, CleanPart, Said, Join;
    assert [] + [x] == [x] && [x] + [y] == [x, y] && [x, y] + [z] == [x, y, z];
    var p, q, w := Said(CleanPart(r, a)), Said(CleanPart(r, b)), Said(CleanPart(r, c));
    assert [] + p == p;
    assert CleanParts(r, [x]) == p && CleanParts(r, [x, y]) == p + q && CleanParts(r, [x, y, z]) == p + q + w;
  }

  /** What identifies an action, action by action: the fields read, in order, lowered and respelled,
      those that say nothing left out. */
  lemma TargetTable(r: Reader, action: string, e: Event)
    ensures var kind, part := Lower(r, Trim(r, action)), (value: string) => Said(CleanPart(r, value));
            DedupeTarget(r, action, e)
            == if kind == "mcp.tool_invoked" then
                 Spelled("mcp", part(e.mcpServer) + part(FirstNonEmpty(r, [e.mcpTool, e.toolName, e.message])))
               else if kind == "command.executed" then
                 Spelled("command", part(e.commandText) + part(e.toolCommand))
               else if kind == "file.read" || kind == "file.modified" then Spelled("file", part(e.filePath))
               else if kind == "tool.completed" then Spelled("tool.completed", part(e.model) + part(e.message))
               else if kind == "tool.invoked" || kind == "tool.failed" then
                 Spelled("tool", part(e.toolName) + part(e.toolPath) + part(e.message))
               else ""
  {
    var first := FirstNonEmpty(r, [Trim(r, e.mcpTool), Trim(r, e.toolName), Trim(r, e.message)]);
    FirstTrimmed(r, e.mcpTool, e.toolName, e.message);
    FirstIsTrimmed(r, [e.mcpTool, e.toolName, e.message]);
    hide Trim, Lower, CleanPart, FirstNonEmpty, TargetOf;
    Values(r, "mcp", e.mcpServer, first, "");
    Values(r, "command", e.commandText, e.toolCommand, "");
    Values(r, "file", e.filePath, "", "");
    Values(r, "tool.completed", e.model, e.message, "");
    Values(r, "tool", e.toolName, e.toolPath, e.message);
  }

  lemma FirstTrimmed(r: Reader, a: string, b: string, c: string)
    ensures FirstNonEmpty(r, [Trim(r, a), Trim(r, b), Trim(r, c)]) == FirstNonEmpty(r, [a, b, c])
    ensures FirstNonEmpty(r, [Trim(r, a), Trim(r, b)]) == FirstNonEmpty(r, [a, b])
  {
    TrimTwice(r, a);
    TrimTwice(r, b);
    TrimTwice(r, c);
    hide Trim;
    FirstStep(r, a, [b, c]);
    FirstStep(r, b, [c]);
    FirstStep(r, c, []);
    FirstStep(r, Trim(r, a), [Trim(r, b), Trim(r, c)]);
    FirstStep(r, Trim(r, b), [Trim(r, c)]);
    FirstStep(r, Trim(r, c), []);
    FirstStep(r, a, [b]);
    FirstStep(r, b, []);
    FirstStep(r, Trim(r, a), [Trim(r, b)]);
    FirstStep(r, Trim(r, b), []);
    hide FirstNonEmpty;
    assert [a] + [b, c] == [a, b, c] && [b] + [c] == [b, c] && [c] + [] == [c];
    assert [a] + [b] == [a, b] && [b] + [] == [b];
    var x, y, z := Trim(r, a), Trim(r, b), Trim(r, c);
    assert [x] + [y, z] == [x, y, z] && [y] + [z] == [y, z] && [z] + [] == [z];
    assert [x] + [y] == [x, y] && [y] + [] == [y];
  }

  lemma FirstStep(r: Reader, a: string, more: seq<string>)
    ensures FirstNonEmpty(r, [a] + more) == if Trim(r, a) != "" then Trim(r, a) else FirstNonEmpty(r, more)
  {
    hide Trim;
    assert ([a] + more)[1..] == more;
  }

  lemma {:induction false} FirstIsTrimmed(r: Reader, values: seq<string>)
    ensures Trim(r, FirstNonEmpty(r, values)) == FirstNonEmpty(r, values)
  {
    if values != [] {
      TrimTwice(r, values[0]);
      FirstIsTrimmed(r, values[1..]);
    } else {
      assert Trim(r, "") == "";
    }
  }

  // -------------------------------------------------------- two lines

  /** Everything a line must hold to be a report: an event of one of the seven actions with a session,
      a real timestamp and a target. */
  predicate Reports(r: Reader, line: string) {
    var text := Trim(r, line);
    text != "" && r.decode(text).Some?
    && var e := r.decode(text).value;
       && Lower(r, Trim(r, e.action)) in ["mcp.tool_invoked", "command.executed", "file.read", "file.modified",
                                          "tool.invoked", "tool.completed", "tool.failed"]
       && Trim(r, e.sessionId) != ""
       && e.timestamp.Some? && e.timestamp.value != -62_135_596_800_000_000_000
       && DedupeTarget(r, e.action, e) != ""
  }

  function EventOf(r: Reader, line: string): Event
    requires Reports(r, line)
  {
    r.decode(Trim(r, line)).value
  }

  /** Session, workspace, action and target, which no session or workspace may run together. */
  predicate OneAction(r: Reader, e: Event, f: Event) {
    && Lower(r, Trim(r, e.action)) == Lower(r, Trim(r, f.action)) && Trim(r, e.sessionId) == Trim(r, f.sessionId)
    && Lower(r, FirstNonEmpty(r, [e.workingDirectory, e.repository]))
       == Lower(r, FirstNonEmpty(r, [f.workingDirectory, f.repository]))
    && DedupeTarget(r, e.action, e) == DedupeTarget(r, f.action, f)
  }

  predicate HidesNul(r: Reader, e: Event) {
    '\0' in Trim(r, e.sessionId) || '\0' in Lower(r, FirstNonEmpty(r, [e.workingDirectory, e.repository]))
  }

  lemma TargetTrims(r: Reader, e: Event)
    ensures DedupeTarget(r, Trim(r, e.action), e) == DedupeTarget(r, e.action, e)
  {
    TrimTwice(r, e.action);
    hide Trim, Lower, TargetOf, FirstNonEmpty;
  }

  lemma SevenActions(action: string)
    ensures action in ACTIONS
       <==> action in ["mcp.tool_invoked", "command.executed", "file.read", "file.modified", "tool.invoked",
                       "tool.completed", "tool.failed"]
  {
  }

  /** A line is a report exactly when it holds all that. */
  lemma ReportsExactly(r: Reader, line: string)
    ensures Candidate(r, line).Some? <==> Reports(r, line)
  {
    var text := Trim(r, line);
    if text != "" && r.decode(text).Some? {
      var e := r.decode(text).value;
      TrimTwice(r, e.action);
      TargetTrims(r, e);
      SevenActions(Lower(r, Trim(r, e.action)));
      hide Trim, Lower, DedupeTarget, FirstNonEmpty, KeyParts;
    }
  }

  /** What the duplicate rule keeps of a report. */
  lemma ReportHolds(r: Reader, line: string)
    requires Reports(r, line)
    ensures var c, e := Candidate(r, line), EventOf(r, line);
            && c.Some? && r.decode(Trim(r, line)) == Some(e)
            && c.value.action == Lower(r, Trim(r, e.action)) && c.value.harness == Lower(r, Trim(r, e.harness))
            && c.value.callId == Trim(r, e.callId) && e.timestamp == Some(c.value.ts)
            && KeyParts(r, e) == [Lower(r, Trim(r, e.action)), Trim(r, e.sessionId),
                                  Lower(r, FirstNonEmpty(r, [e.workingDirectory, e.repository])),
                                  DedupeTarget(r, e.action, e)]
  {
    ReportsExactly(r, line);
    var e := EventOf(r, line);
    TargetTrims(r, e);
    FirstTrimmed(r, e.workingDirectory, e.repository, "");
    hide Trim, Lower, DedupeTarget, FirstNonEmpty;
  }

  /** When a second line repeats a first one, in what the two lines hold. Times count in nanoseconds:
      2 s is the window unless another is given, and 10 s at least for `tool.completed`. The last two
      cases are the 64-bit arithmetic's. */
  lemma LinesAreDuplicates(r: Reader, first: string, second: string, window: Duration)
    requires Reports(r, first) && Reports(r, second)
    requires !HidesNul(r, EventOf(r, first)) && !HidesNul(r, EventOf(r, second))
    ensures var e, f := EventOf(r, first), EventOf(r, second);
            var base := if window <= 0 then 2_000_000_000 else window;
            var limit := if Lower(r, Trim(r, f.action)) == "tool.completed" && base < 10_000_000_000
                         then 10_000_000_000 else base;
            var apart := f.timestamp.value - e.timestamp.value;
            DuplicateLines(r, first, second, window)
            <==> OneAction(r, e, f)
                 && if Trim(r, e.callId) != "" && Trim(r, e.callId) == Trim(r, f.callId) then true
                    else Lower(r, Trim(r, e.harness)) != Lower(r, Trim(r, f.harness))
                         && (-limit <= apart <= limit
                             || apart <= -9_223_372_036_854_775_808 || limit == 9_223_372_036_854_775_807)
  {
    ReportHolds(r, first);
    ReportHolds(r, second);
    FrontsNulFree(r, first);
    FrontsNulFree(r, second);
    KeyMeans(r, first, second);
    var a, b := Candidate(r, first).value, Candidate(r, second).value;
    hide Candidate, KeyParts, Reports, EventOf, Trim, Lower, DedupeTarget, FirstNonEmpty, HidesNul;
    DuplicateMeans(a, b, Window(b.action, window));
    WindowIs(b.action, window);
    hide Window, DuplicateReports;
  }

  lemma WindowIs(action: string, window: Duration)
    ensures var base := if window <= 0 then 2_000_000_000 else window;
            Window(action, window)
            == if action == "tool.completed" && base < 10_000_000_000 then 10_000_000_000 else base
  {
  }

  lemma FrontsNulFree(r: Reader, line: string)
    requires Reports(r, line) && !HidesNul(r, EventOf(r, line))
    ensures NulFree(KeyParts(r, r.decode(Trim(r, line)).value)[1..3])
  {
    ReportHolds(r, line);
    hide Trim, Lower, DedupeTarget, FirstNonEmpty, KeyParts, Candidate;
  }

  // ------------------------------------------------------ the log's tail

  /** Only the last 262144 bytes of a log are looked at. */
  lemma TailCounts(r: Reader, older: string, tail: string, line: string, window: Duration)
    requires |tail| == 262144
    ensures DuplicateInLog(r, Some(older + tail), line, window) == DuplicateInLog(r, Some(tail), line, window)
  {
    hide DuplicateLines;
    assert (older + tail)[|older|..] == tail && Tail(older + tail) == tail && Tail(tail) == tail;
  }

  /** In a log that is no longer, a line is looked for among all its lines. */
  lemma ShortLogCounts(r: Reader, log: string, line: string, window: Duration)
    requires |log| <= 262144
    ensures DuplicateInLog(r, Some(log), line, window)
       <==> exists existing :: existing in Split(log, '\n') && DuplicateLines(r, existing, line, window)
    ensures !DuplicateInLog(r, None, line, window)
  {
    hide DuplicateLines;
    assert Tail(log) == log;
  }
}
