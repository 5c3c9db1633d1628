// pkg/asymptoteobserve/dedupe.go: when two log lines report one action, the writer's filter
// over the tail of the log, and the verifier's batch filter (beacon-sandbox/check/expect.go).
module Dedupe {
  import opened Text

  // ------------------------------------------------------------- lines

  /** What is read out of one line: text fields as stringValue renders them before trimming,
      and the timestamp in nanoseconds if it parses. */
  datatype Event = Event(
    action: string, sessionId: string, timestamp: Option<int>, harness: string, callId: string,
    workingDirectory: string, repository: string, mcpServer: string, mcpTool: string,
    toolName: string, toolPath: string, toolCommand: string, commandText: string,
    filePath: string, model: string, message: string)

  /** JSON decoding, case mapping and white space, as the standard library has them. */
  datatype Reader = Reader(decode: string -> Option<Event>, lower: char -> char, space: char -> bool)

  function Lower(r: Reader, s: string): (t: string)
    ensures |t| == |s|
  {
    seq(|s|, i requires 0 <= i < |s| => r.lower(s[i]))
  }

  function TrimLeft(r: Reader, s: string): string {
    if s != "" && r.space(s[0]) then TrimLeft(r, s[1..]) else s
  }

  function TrimRight(r: Reader, s: string): string {
    if s != "" && r.space(s[|s| - 1]) then TrimRight(r, s[..|s| - 1]) else s
  }

  function Trim(r: Reader, s: string): string {
    TrimRight(r, TrimLeft(r, s))
  }

  function FirstNonEmpty(r: Reader, values: seq<string>): string {
    if values == [] then "" else if Trim(r, values[0]) != "" then Trim(r, values[0]) else FirstNonEmpty(r, values[1..])
  }

  predicate HasPrefix(s: string, prefix: string) {
    |prefix| <= |s| && s[..|prefix|] == prefix
  }

  function TrimPrefix(s: string, prefix: string): string {
    if HasPrefix(s, prefix) then s[|prefix|..] else s
  }

  /** strings.ReplaceAll(s, "__", ":"): leftmost matches, no overlap. */
  function Colons(s: string): string {
    if s == "" then ""
    else if |s| >= 2 && s[0] == '_' && s[1] == '_' then ":" + Colons(s[2..])
    else [s[0]] + Colons(s[1..])
  }

  /** One spelling of an MCP tool for the several in use. */
  function Respelled(value: string): string {
    Colons(TrimPrefix(TrimPrefix(value, "mcp:"), "mcp__"))
  }

  function CleanPart(r: Reader, value: string): string {
    Respelled(Lower(r, Trim(r, value)))
  }

  function CleanParts(r: Reader, values: seq<string>): seq<string> {
    if values == [] then []
    else
      var part := CleanPart(r, values[|values| - 1]);
      CleanParts(r, values[..|values| - 1]) + if part != "" && part != "<nil>" then [part] else []
  }

  function TargetOf(r: Reader, prefix: string, values: seq<string>): string {
    var parts := CleanParts(r, values);
    if parts == [] then "" else prefix + ":" + Join(parts, "|")
  }

  method CanonicalTarget(r: Reader, prefix: string, values: seq<string>) returns (target: string)
    ensures target == TargetOf(r, prefix, values)
  {
    var parts: seq<string> := [];
    for n := 0 to |values|
      invariant parts == CleanParts(r, values[..n])
    {
      var value := Lower(r, Trim(r, values[n]));
      value := TrimPrefix(value, "mcp:");
      value := TrimPrefix(value, "mcp__");
      value := Colons(value);
      assert values[..n + 1][..n] == values[..n];
      if value != "" && value != "<nil>" {
        parts := parts + [value];
      }
    }
    assert values[..|values|] == values;
    if parts == [] {
      return "";
    }
    return prefix + ":" + Join(parts, "|");
  }

  const ACTIONS := {
    "mcp.tool_invoked", "command.executed", "file.read", "file.modified",
    "tool.invoked", "tool.completed", "tool.failed"
  }

  function DedupeTarget(r: Reader, action: string, e: Event): string {
    var kind := Lower(r, Trim(r, action));
    if kind == "mcp.tool_invoked" then
      TargetOf(r, "mcp", [Trim(r, e.mcpServer), FirstNonEmpty(r, [Trim(r, e.mcpTool), Trim(r, e.toolName), Trim(r,
          e.message)])])
    else if kind == "command.executed" then TargetOf(r, "command", [Trim(r, e.commandText), Trim(r, e.toolCommand)])
    else if kind == "file.read" || kind == "file.modified" then TargetOf(r, "file", [Trim(r, e.filePath)])
    else if kind == "tool.completed" then TargetOf(r, "tool.completed", [Trim(r, e.model), Trim(r, e.message)])
    else if kind == "tool.invoked" || kind == "tool.failed" then
      TargetOf(r, "tool", [Trim(r, e.toolName), Trim(r, e.toolPath), Trim(r, e.message)])
    else ""
  }

  datatype Report = Report(action: string, harness: string, key: string, callId: string, ts: int)

  /** 1 January of year 1, the zero time, in nanoseconds after 1970. */
  const ZERO_TIME := -62135596800 * 1_000_000_000

  const NUL := "\0"

  function KeyParts(r: Reader, e: Event): seq<string> {
    [Lower(r, Trim(r, e.action)), Trim(r, e.sessionId),
     Lower(r, FirstNonEmpty(r, [Trim(r, e.workingDirectory), Trim(r, e.repository)])),
     DedupeTarget(r, Trim(r, e.action), e)]
  }

  function Candidate(r: Reader, line: string): Option<Report> {
    var text := Trim(r, line);
    if text == "" || r.decode(text).None? then None
    else
      var e := r.decode(text).value;
      var action := Trim(r, e.action);
      if Lower(r, Trim(r, action)) !in ACTIONS || Trim(r, e.sessionId) == "" then None
      else if e.timestamp.None? || e.timestamp.value == ZERO_TIME then None
      else if DedupeTarget(r, action, e) == "" then None
      else Some(Report(Lower(r, action), Lower(r, Trim(r, e.harness)), Join(KeyParts(r, e), NUL),
                       Trim(r, e.callId), e.timestamp.value))
  }

  predicate NulFree(parts: seq<string>) {
    forall p | p in parts :: '\0' !in p
  }

  /** As long as all parts but the last are free of the separator, joining is reversible. */
  lemma {:induction false} JoinInjective(a: seq<string>, b: seq<string>)
    requires |a| == |b| > 0 && NulFree(a[..|a| - 1]) && NulFree(b[..|b| - 1])
    ensures Join(a, NUL) == Join(b, NUL) <==> a == b
  {
    if |a| > 1 && Join(a, NUL) == Join(b, NUL) {
      var restA, restB := Join(a[1..], NUL), Join(b[1..], NUL);
      assert a[0] in a[..|a| - 1] && b[0] in b[..|b| - 1];
      SplitAtFirst(a[0], restA, '\0');
      SplitAtFirst(b[0], restB, '\0');
      assert NUL == ['\0'];
      assert Join(a, NUL) == a[0] + ['\0'] + restA && Join(b, NUL) == b[0] + ['\0'] + restB;
      assert Split(Join(a, NUL), '\0')[0] == a[0] && Split(Join(b, NUL), '\0')[0] == b[0];
      assert restA == Join(a, NUL)[|a[0]| + 1..] && restB == Join(b, NUL)[|b[0]| + 1..];
      assert a[1..][..|a| - 2] == a[1..|a| - 1] && b[1..][..|b| - 2] == b[1..|b| - 1];
      JoinInjective(a[1..], b[1..]);
      assert a == [a[0]] + a[1..] && b == [b[0]] + b[1..];
    }
  }

  lemma {:induction false} TrimRightDone(r: Reader, s: string)
    ensures var t := TrimRight(r, s);
            t <= s && (t != "" ==> !r.space(t[|t| - 1])) && (s != "" && !r.space(s[0]) ==> t != "")
  {
    if s != "" && r.space(s[|s| - 1]) { TrimRightDone(r, s[..|s| - 1]); }
  }

  lemma {:induction false} TrimLeftDone(r: Reader, s: string)
    ensures var t := TrimLeft(r, s); t != "" ==> !r.space(t[0])
  {
    if s != "" && r.space(s[0]) { TrimLeftDone(r, s[1..]); }
  }

  lemma TrimTwice(r: Reader, s: string)
    ensures Trim(r, Trim(r, s)) == Trim(r, s)
  {
    TrimLeftDone(r, s);
    TrimRightDone(r, TrimLeft(r, s));
  }

  lemma ActionsHoldNoNul(action: string)
    requires action in ACTIONS
    ensures '\0' !in action
  {
  }

  /** Two reports have one key exactly when they agree on action, session, workspace and target, as
      long as no session or workspace holds the NUL these are joined with. */
  lemma KeyMeans(r: Reader, a: string, b: string)
    requires Candidate(r, a).Some? && Candidate(r, b).Some?
    requires NulFree(KeyParts(r, r.decode(Trim(r, a)).value)[1..3])
    requires NulFree(KeyParts(r, r.decode(Trim(r, b)).value)[1..3])
    ensures Candidate(r, a).value.key == Candidate(r, b).value.key
       <==> KeyParts(r, r.decode(Trim(r, a)).value) == KeyParts(r, r.decode(Trim(r, b)).value)
  {
    KeyFrontNulFree(r, a);
    KeyFrontNulFree(r, b);
    hide Trim, KeyParts, NulFree, Lower, DedupeTarget;
    JoinInjective(KeyParts(r, r.decode(Trim(r, a)).value), KeyParts(r, r.decode(Trim(r, b)).value));
  }

  /** No action the filter accepts holds a NUL, so session and workspace decide. */
  lemma KeyFrontNulFree(r: Reader, line: string)
    requires Candidate(r, line).Some? && NulFree(KeyParts(r, r.decode(Trim(r, line)).value)[1..3])
    ensures var parts := KeyParts(r, r.decode(Trim(r, line)).value); |parts| == 4 && NulFree(parts[..3])
  {
    hide Trim, Lower, DedupeTarget, FirstNonEmpty;
    var e := r.decode(Trim(r, line)).value;
    var parts := KeyParts(r, e);
    TrimTwice(r, e.action);
    ActionsHoldNoNul(parts[0]);
    assert parts[..3] == [parts[0]] + parts[1..3];
  }

  // ------------------------------------------------------ the decision

  const MAX_DURATION := 0x7FFF_FFFF_FFFF_FFFF
  const MIN_DURATION := -0x8000_0000_0000_0000

  /** time.Duration: a signed 64-bit count of nanoseconds. */
  type Duration = d: int | MIN_DURATION <= d <= MAX_DURATION

  function Window(action: string, fallback: Duration): (w: Duration)
    ensures w > 0
  {
    var base := if fallback <= 0 then 2 * SECOND else fallback;
    if action == "tool.completed" && base < 10 * SECOND then 10 * SECOND else base
  }

  /** Time.Sub: a difference that does not fit a Duration is the nearest one that does. */
  function Sub(t: int, u: int): Duration {
    if t - u < MIN_DURATION then MIN_DURATION else if t - u > MAX_DURATION then MAX_DURATION else t - u
  }

  /** Negation in 64 bits: the least duration is its own negative. */
  function Negated(d: Duration): Duration {
    if d == MIN_DURATION then d else -d
  }

  predicate DuplicateReports(existing: Report, candidate: Report, window: Duration) {
    if existing.key != candidate.key then false
    else if existing.callId != "" && existing.callId == candidate.callId then true
    else if existing.harness == candidate.harness then false
    else
      var diff := Sub(candidate.ts, existing.ts);
      (if diff < 0 then Negated(diff) else diff) <= window
  }

  predicate DuplicateLines(r: Reader, existing: string, candidate: string, window: Duration) {
    var c, e := Candidate(r, candidate), Candidate(r, existing);
    c.Some? && e.Some? && DuplicateReports(e.value, c.value, Window(c.value.action, window))
  }

  /** Two reports of one action and target, in one session and workspace, that name one call. */
  predicate SameCall(a: Report, b: Report) {
    a.key == b.key && a.callId != "" && a.callId == b.callId
  }

  /** The same, from two capture paths that do not name one call. */
  predicate Lookalikes(a: Report, b: Report) {
    a.key == b.key && !SameCall(a, b) && a.harness != b.harness
  }

  /** The decision in plain terms: one call, or lookalikes within the window. The last two cases
      are the 64-bit arithmetic's: a candidate 2^63 ns or more before the line it is compared
      with passes for close, and under the longest window everything does. */
  lemma DuplicateMeans(existing: Report, candidate: Report, window: Duration)
    requires window > 0
    ensures var d := candidate.ts - existing.ts;
            DuplicateReports(existing, candidate, window)
            <==> SameCall(existing, candidate)
                 || (Lookalikes(existing, candidate)
                     && (-window <= d <= window || d <= MIN_DURATION || window == MAX_DURATION))
  {
    var d := candidate.ts - existing.ts;
    if d <= MIN_DURATION {
      assert Sub(candidate.ts, existing.ts) == MIN_DURATION;
    } else if d > MAX_DURATION {
      assert Sub(candidate.ts, existing.ts) == MAX_DURATION;
    }
  }

  /** Lookalikes so far apart that only one order of comparing them calls them duplicates. */
  predicate OneWay(a: Report, b: Report, window: Duration) {
    && Lookalikes(a, b) && Window(a.action, window) == Window(b.action, window) < MAX_DURATION
    && (a.ts - b.ts <= MIN_DURATION || b.ts - a.ts <= MIN_DURATION)
  }

  /** The decision is symmetric exactly when the two are not that far apart. */
  lemma SymmetricExactly(a: Report, b: Report, window: Duration)
    requires a.key == b.key ==> a.action == b.action
    ensures (DuplicateReports(a, b, Window(b.action, window)) <==> DuplicateReports(b, a, Window(a.action, window)))
       <==> !OneWay(a, b, window)
  {
    DuplicateMeans(a, b, Window(b.action, window));
    DuplicateMeans(b, a, Window(a.action, window));
  }

  /** Reports of 1700 and 2000: a duplicate if the later one is logged first, not otherwise. */
  lemma CenturiesApart(harness: string, other: string)
    requires harness != other
    ensures var y1700, y2000 := -8520336000 * SECOND, 946684800 * SECOND;
            var early, late := Report("file.read", harness, "k", "", y1700), Report("file.read", other, "k", "", y2000);
            DuplicateReports(late, early, 2 * SECOND) && !DuplicateReports(early, late, 2 * SECOND)
  {
  }

  /** The decision is not transitive: two lookalikes within the window of a third need not be
      within it of each other, so which lines are kept depends on their order. */
  lemma NotTransitive(key: string, h: string, h': string, t: int)
    requires h != h'
    ensures var a, b, c := Report("file.read", h, key, "", t), Report("file.read", h', key, "", t + 2 * SECOND),
                           Report("file.read", h, key, "", t + 4 * SECOND);
            DuplicateReports(a, b, 2 * SECOND) && DuplicateReports(b, c, 2 * SECOND) &&
                !DuplicateReports(a, c, 2 * SECOND)
  {
  }

  // -------------------------------------------------- the writer's filter

  const TAIL_BYTES := 262144

  function Tail(contents: string): string {
    if |contents| > TAIL_BYTES then contents[|contents| - TAIL_BYTES..] else contents
  }

  /** The candidate duplicates some line in the tail of a log; None is a log that cannot be read. */
  predicate DuplicateInLog(r: Reader, log: Option<string>, line: string, window: Duration) {
    log.Some?
    && exists existing :: existing in Split(Tail(log.value), '\n') && DuplicateLines(r, existing, line, window)
  }

  method IsDuplicateEndpointEvent(r: Reader, log: Option<string>, line: string, window: Duration) returns (dup: bool)
    ensures dup == DuplicateInLog(r, log, line, window)
  {
    hide Candidate, DuplicateReports, Split, Tail;
    var candidate := Candidate(r, line);
    if candidate.None? {
      return false;
    }
    if log.None? {
      return false;
    }
    var effective := Window(candidate.value.action, window);
    var lines := Split(Tail(log.value), '\n');
    for n := 0 to |lines|
      invariant forall existing | existing in lines[..n] :: !DuplicateLines(r, existing, line, window)
    {
      var existing := Candidate(r, lines[n]);
      if existing.Some? && DuplicateReports(existing.value, candidate.value, effective) {
        assert DuplicateLines(r, lines[n], line, window);
        return true;
      }
      assert lines[..n + 1] == lines[..n] + [lines[n]];
    }
    assert lines[..|lines|] == lines;
    return false;
  }

  /** One append under the filter. */
  function Append(r: Reader, log: Option<string>, line: string, window: Duration): Option<string> {
    if DuplicateInLog(r, log, line, window) then log
    else Some((if log.Some? then log.value else "") + line + "\n")
  }

  function AppendAll(r: Reader, lines: seq<string>, window: Duration): Option<string> {
    if lines == [] then None else Append(r, AppendAll(r, lines[..|lines| - 1], window), lines[|lines| - 1], window)
  }

  // ---------------------------------------------------- the batch filter

  /** Where the lines that no kept line before them makes a duplicate are. */
  function KeptAt(r: Reader, lines: seq<string>, window: Duration): (at: seq<nat>)
    ensures forall k | 0 <= k < |at| :: at[k] < |lines|
  {
    if lines == [] then []
    else
      var n := |lines| - 1;
      var at := KeptAt(r, lines[..n], window);
      if exists i :: i in at && DuplicateLines(r, lines[i], lines[n], window) then at else at + [n]
  }

  function Pick(lines: seq<string>, at: seq<nat>): (picked: seq<string>)
    requires forall k | 0 <= k < |at| :: at[k] < |lines|
    ensures |picked| == |at| && forall k | 0 <= k < |at| :: picked[k] == lines[at[k]]
  {
    seq(|at|, k requires 0 <= k < |at| => lines[at[k]])
  }

  function Kept(r: Reader, lines: seq<string>, window: Duration): seq<string> {
    Pick(lines, KeptAt(r, lines, window))
  }

  /** The lines kept once `line` has come as well. */
  function KeptWith(r: Reader, kept: seq<string>, line: string, window: Duration): seq<string> {
    if exists e :: e in kept && DuplicateLines(r, e, line, window) then kept else kept + [line]
  }

  lemma KeptSnoc(r: Reader, lines: seq<string>, line: string, window: Duration)
    ensures Kept(r, lines + [line], window) == KeptWith(r, Kept(r, lines, window), line, window)
  {
    var all, at := lines + [line], KeptAt(r, lines, window);
    assert all[..|lines|] == lines;
    var kept := Kept(r, lines, window);
    forall i | i in at ensures lines[i] in kept && all[i] == lines[i] {
      var k :| 0 <= k < |at| && at[k] == i;
      assert kept[k] == lines[i];
    }
    if e :| e in kept && DuplicateLines(r, e, line, window) {
      var k :| 0 <= k < |kept| && kept[k] == e;
      assert at[k] in at && DuplicateLines(r, all[at[k]], all[|lines|], window);
    }
  }

  method CollapseDuplicates(r: Reader, events: seq<string>, window: Duration) returns (out: seq<string>)
    ensures out == Kept(r, events, window)
  {
    hide Kept, DuplicateLines;
    if |events| < 2 {
      KeepsOne(r, events, window);
      return events;
    }
    out := [];
    var kept: seq<string> := [];
    NothingKept(r, window);
    for n := 0 to |events|
      invariant kept == out == Kept(r, events[..n], window)
    {
      var e, suppressed, k := events[n], false, 0;
      while k < |kept|
        invariant 0 <= k <= |kept| && !suppressed
        invariant forall prev | prev in kept[..k] :: !DuplicateLines(r, prev, e, window)
      {
        if DuplicateLines(r, kept[k], e, window) {
          suppressed := true;
          break;
        }
        assert kept[..k + 1] == kept[..k] + [kept[k]];
        k := k + 1;
      }
      KeptSnoc(r, events[..n], e, window);
      assert events[..n + 1] == events[..n] + [e];
      if suppressed {
        continue;
      }
      assert kept[..|kept|] == kept;
      kept := kept + [e];
      out := out + [e];
    }
    assert events[..|events|] == events;
  }

  lemma NothingKept(r: Reader, window: Duration)
    ensures Kept(r, [], window) == [] && AppendAll(r, [], window) == None
  {
  }

  lemma KeepsOne(r: Reader, lines: seq<string>, window: Duration)
    requires |lines| < 2
    ensures Kept(r, lines, window) == lines
  {
    if |lines| == 1 {
      KeptSnoc(r, [], lines[0], window);
      assert [] + [lines[0]] == lines;
    }
  }

  // -------------------------------------------- what both filters keep

  /** A choice of lines in order, none a duplicate of an earlier choice, and every line passed
      over a duplicate of an earlier choice. */
  ghost predicate Kernel(r: Reader, lines: seq<string>, at: seq<nat>, window: Duration) {
    && (forall i | i in at :: i < |lines|)
    && (forall k, l | 0 <= k < l < |at| :: at[k] < at[l])
    && (forall i, j | i in at && j in at && i < j :: !DuplicateLines(r, lines[i], lines[j], window))
    && (forall j | 0 <= j < |lines| && j !in at ::
          exists i :: i in at && i < j && DuplicateLines(r, lines[i], lines[j], window))
  }

  lemma Member(at: seq<nat>, k: nat)
    requires k < |at|
    ensures at[k] in at
  {
  }

  /** `line` duplicates one of the lines chosen. */
  ghost predicate Shadowed(r: Reader, lines: seq<string>, at: seq<nat>, line: string, window: Duration) {
    exists i :: i in at && i < |lines| && DuplicateLines(r, lines[i], line, window)
  }

  lemma KeptAtSnoc(r: Reader, lines: seq<string>, line: string, window: Duration)
    ensures var at := KeptAt(r, lines, window);
            KeptAt(r, lines + [line], window) == if Shadowed(r, lines, at, line, window) then at else at + [|lines|]
  {
    hide DuplicateLines;
    var all, at := lines + [line], KeptAt(r, lines, window);
    assert all[..|lines|] == lines && all[|lines|] == line;
    forall i | i in at ensures all[i] == lines[i] { }
  }

  /** What is kept is a kernel. */
  lemma {:induction false} KeptIsKernel(r: Reader, lines: seq<string>, window: Duration)
    ensures Kernel(r, lines, KeptAt(r, lines, window), window)
  {
    if lines != [] {
      var n := |lines| - 1;
      var front := lines[..n];
      assert front + [lines[n]] == lines;
      KeptIsKernel(r, front, window);
      hide DuplicateLines, KeptAt;
      KeptAtSnoc(r, front, lines[n], window);
      KernelGrows(r, front, KeptAt(r, front, window), lines[n], window);
    }
  }

  lemma KernelCarries(r: Reader, lines: seq<string>, at: seq<nat>, line: string, window: Duration)
    requires Kernel(r, lines, at, window)
    ensures var all := lines + [line];
            && (forall i | i in at :: i < |lines| && all[i] == lines[i])
            && (forall k, l | 0 <= k < l < |at| :: at[k] < at[l])
            && (forall i, j | i in at && j in at && i < j :: !DuplicateLines(r, all[i], all[j], window))
            && (forall j | 0 <= j < |lines| && j !in at ::
                  exists i :: i in at && i < j && DuplicateLines(r, all[i], all[j], window))
  {
    hide DuplicateLines;
    var all, n := lines + [line], |lines|;
    forall i | 0 <= i < n ensures all[i] == lines[i] { }
    forall j | 0 <= j < n && j !in at
      ensures exists i :: i in at && i < j && DuplicateLines(r, all[i], all[j], window)
    {
      var i :| i in at && i < j && DuplicateLines(r, lines[i], lines[j], window);
      assert DuplicateLines(r, all[i], all[j], window);
    }
  }

  lemma KernelGrows(r: Reader, lines: seq<string>, at: seq<nat>, line: string, window: Duration)
    requires Kernel(r, lines, at, window)
    ensures Kernel(r, lines + [line], if Shadowed(r, lines, at, line, window) then at else at + [|lines|], window)
  {
    hide DuplicateLines, Kernel;
    var all := lines + [line];
    KernelCarries(r, lines, at, line, window);
    if Shadowed(r, lines, at, line, window) {
      KernelSkips(r, all, at, window);
    } else {
      KernelTakes(r, all, at, window);
    }
  }

  lemma KernelSkips(r: Reader, all: seq<string>, at: seq<nat>, window: Duration)
    requires |all| > 0 && forall i | i in at :: i < |all| - 1
    requires forall k, l | 0 <= k < l < |at| :: at[k] < at[l]
    requires forall i, j | i in at && j in at && i < j :: !DuplicateLines(r, all[i], all[j], window)
    requires forall j | 0 <= j < |all| - 1 && j !in at ::
               exists i :: i in at && i < j && DuplicateLines(r, all[i], all[j], window)
    requires exists i :: i in at && DuplicateLines(r, all[i], all[|all| - 1], window)
    ensures Kernel(r, all, at, window)
  {
    hide DuplicateLines;
  }

  lemma KernelTakes(r: Reader, all: seq<string>, at: seq<nat>, window: Duration)
    requires |all| > 0 && forall i | i in at :: i < |all| - 1
    requires forall k, l | 0 <= k < l < |at| :: at[k] < at[l]
    requires forall i, j | i in at && j in at && i < j :: !DuplicateLines(r, all[i], all[j], window)
    requires forall j | 0 <= j < |all| - 1 && j !in at ::
               exists i :: i in at && i < j && DuplicateLines(r, all[i], all[j], window)
    requires forall i | i in at :: !DuplicateLines(r, all[i], all[|all| - 1], window)
    ensures Kernel(r, all, at + [|all| - 1], window)
  {
    hide DuplicateLines;
    var n := |all| - 1;
    var more := at + [n];
    forall i ensures i in more <==> i in at || i == n {
      assert more[|at|] == n;
      if i in at {
        var k :| 0 <= k < |at| && at[k] == i;
        assert more[k] == i;
      }
    }
    forall k, l | 0 <= k < l < |more| ensures more[k] < more[l] {
      Member(at, k);
    }
    forall j | 0 <= j < |all| && j !in more
      ensures exists i :: i in more && i < j && DuplicateLines(r, all[i], all[j], window)
    {
      var i :| i in at && i < j && DuplicateLines(r, all[i], all[j], window);
      assert i in more;
    }
  }

  /** A choice among lines without the last of them. */
  function Earlier(at: seq<nat>, n: nat): seq<nat> {
    if n in at then at[..|at| - 1] else at
  }

  /** A kernel is one of the lines before the last, and the last line unless they shadow it. */
  lemma KernelLast(r: Reader, front: seq<string>, line: string, at: seq<nat>, window: Duration)
    requires Kernel(r, front + [line], at, window)
    ensures var rest := Earlier(at, |front|);
            && Kernel(r, front, rest, window)
            && at == if Shadowed(r, front, rest, line, window) then rest else rest + [|front|]
  {
    hide DuplicateLines;
    var n, all := |front|, front + [line];
    if n in at {
      LastIsLast(at, n);
      var rest := at[..|at| - 1];
      assert rest + [n] == at;
      KernelShrinks(r, front, line, rest, window);
      forall i | i in rest ensures i < n && !DuplicateLines(r, front[i], line, window) {
        assert i in at && all[i] == front[i] && all[n] == line;
      }
    } else {
      KernelNarrows(r, front, line, at, window);
      var i :| i in at && i < n && DuplicateLines(r, all[i], all[n], window);
      assert DuplicateLines(r, front[i], line, window);
    }
  }

  lemma KernelOfNothing(r: Reader, at: seq<nat>, window: Duration)
    requires Kernel(r, [], at, window)
    ensures at == [] == KeptAt(r, [], window)
  {
    if |at| > 0 { Member(at, 0); }
  }

  /** There is only one kernel, so any filter that keeps one keeps these lines. */
  lemma {:induction false} KernelUnique(r: Reader, lines: seq<string>, at: seq<nat>, window: Duration)
    requires Kernel(r, lines, at, window)
    ensures at == KeptAt(r, lines, window)
    decreases |lines|
  {
    hide *;
    if lines == [] {
      KernelOfNothing(r, at, window);
    } else {
      var front, line := lines[..|lines| - 1], lines[|lines| - 1];
      assert front + [line] == lines;
      KernelLast(r, front, line, at, window);
      KernelUnique(r, front, Earlier(at, |front|), window);
      KeptAtSnoc(r, front, line, window);
    }
  }

  lemma LastIsLast(at: seq<nat>, n: nat)
    requires n in at && (forall i | i in at :: i <= n) && forall k, l | 0 <= k < l < |at| :: at[k] < at[l]
    ensures at[|at| - 1] == n
  {
    var k :| 0 <= k < |at| && at[k] == n;
    assert at[|at| - 1] in at;
  }

  lemma KernelShrinks(r: Reader, lines: seq<string>, line: string, at: seq<nat>, window: Duration)
    requires Kernel(r, lines + [line], at + [|lines|], window)
    ensures Kernel(r, lines, at, window)
  {
    hide DuplicateLines;
    var all, more := lines + [line], at + [|lines|];
    forall i | i in at ensures i < |lines| {
      var k :| 0 <= k < |at| && at[k] == i;
      assert more[k] == i && more[|at|] == |lines|;
    }
    forall k, l | 0 <= k < l < |at| ensures at[k] < at[l] {
      assert more[k] == at[k] && more[l] == at[l];
    }
    forall i, j | i in at && j in at && i < j ensures !DuplicateLines(r, lines[i], lines[j], window) {
      assert i in more && j in more && all[i] == lines[i] && all[j] == lines[j];
    }
    forall j | 0 <= j < |lines| && j !in at
      ensures exists i :: i in at && i < j && DuplicateLines(r, lines[i], lines[j], window)
    {
      assert j !in more;
      var i :| i in more && i < j && DuplicateLines(r, all[i], all[j], window);
      assert i in at && all[i] == lines[i] && all[j] == lines[j];
    }
  }

  lemma KernelNarrows(r: Reader, lines: seq<string>, line: string, at: seq<nat>, window: Duration)
    requires Kernel(r, lines + [line], at, window) && |lines| !in at
    ensures Kernel(r, lines, at, window)
  {
    hide DuplicateLines;
    var all := lines + [line];
    forall i, j | i in at && j in at && i < j ensures !DuplicateLines(r, lines[i], lines[j], window) {
      assert all[i] == lines[i] && all[j] == lines[j];
    }
    forall j | 0 <= j < |lines| && j !in at
      ensures exists i :: i in at && i < j && DuplicateLines(r, lines[i], lines[j], window)
    {
      var i :| i in at && i < j && DuplicateLines(r, all[i], all[j], window);
      assert all[i] == lines[i] && all[j] == lines[j];
    }
  }

  /** Filtering what was kept drops nothing more. */
  lemma KeptAgain(r: Reader, lines: seq<string>, window: Duration)
    ensures Kept(r, Kept(r, lines, window), window) == Kept(r, lines, window)
  {
    var kept, at := Kept(r, lines, window), KeptAt(r, lines, window);
    KeptIsKernel(r, lines, window);
    hide DuplicateLines, KeptAt;
    var all := seq(|kept|, k => k);
    forall k, l | k in all && l in all && k < l ensures !DuplicateLines(r, kept[k], kept[l], window) {
      Member(at, k);
      Member(at, l);
    }
    forall k | 0 <= k < |kept| ensures k in all {
      assert all[k] == k;
    }
    KernelUnique(r, kept, all, window);
  }

  /** Among the lines kept, an earlier one duplicates a later one only across centuries. */
  lemma KeptBothWays(r: Reader, lines: seq<string>, window: Duration, k: nat, l: nat)
    requires var kept := Kept(r, lines, window); k < l < |kept|
    ensures var kept := Kept(r, lines, window);
            && !DuplicateLines(r, kept[k], kept[l], window)
            && (DuplicateLines(r, kept[l], kept[k], window)
                <==> Candidate(r, kept[k]).Some? && Candidate(r, kept[l]).Some?
                     && OneWay(Candidate(r, kept[k]).value, Candidate(r, kept[l]).value, window))
  {
    var kept, at := Kept(r, lines, window), KeptAt(r, lines, window);
    KeptIsKernel(r, lines, window);
    hide KeptAt, Candidate;
    Member(at, k);
    Member(at, l);
    assert !DuplicateLines(r, kept[k], kept[l], window);
    var a, b := Candidate(r, kept[k]), Candidate(r, kept[l]);
    if a.Some? && b.Some? {
      if a.value.key == b.value.key { SameKeySameAction(r, kept[k], kept[l]); }
      SymmetricExactly(a.value, b.value, window);
    }
  }

  lemma ActionOfKey(r: Reader, e: Event)
    requires Lower(r, Trim(r, e.action)) in ACTIONS
    ensures Split(Join(KeyParts(r, e), NUL), '\0')[0] == Lower(r, Trim(r, e.action))
  {
    hide Trim, Lower, DedupeTarget, FirstNonEmpty;
    var parts := KeyParts(r, e);
    ActionsHoldNoNul(parts[0]);
    SplitAtFirst(parts[0], Join(parts[1..], NUL), '\0');
  }

  /** The action is read back off the key: no action the filter accepts holds a NUL. */
  lemma SameKeySameAction(r: Reader, a: string, b: string)
    requires Candidate(r, a).Some? && Candidate(r, b).Some?
    requires Candidate(r, a).value.key == Candidate(r, b).value.key
    ensures Candidate(r, a).value.action == Candidate(r, b).value.action
  {
    hide Trim, Lower, DedupeTarget, KeyParts;
    var e, f := r.decode(Trim(r, a)).value, r.decode(Trim(r, b)).value;
    TrimTwice(r, e.action);
    TrimTwice(r, f.action);
    ActionOfKey(r, e);
    ActionOfKey(r, f);
  }

  // ------------------------------------- the writer keeps the same lines

  function LogText(lines: seq<string>): string {
    if lines == [] then "" else LogText(lines[..|lines| - 1]) + lines[|lines| - 1] + "\n"
  }

  lemma {:induction false} LogTextIsJoin(lines: seq<string>)
    ensures LogText(lines) == Join(lines + [""], "\n")
  {
    if lines != [] {
      var front, last := lines[..|lines| - 1], lines[|lines| - 1];
      LogTextIsJoin(front);
      assert lines + [""] == front + [last, ""] && [last, ""][1..] == [""];
      if front != [] {
        JoinAppend(front, [""], "\n");
        JoinAppend(front, [last, ""], "\n");
        assert Join([last, ""], "\n") == last + "\n" + Join([""], "\n");
      }
    }
  }

  lemma LogLines(lines: seq<string>)
    requires forall l | l in lines :: '\n' !in l
    ensures Split(LogText(lines), '\n') == lines + [""]
  {
    LogTextIsJoin(lines);
    SplitOfJoin(lines + [""], '\n');
  }

  lemma BlankIsNoReport(r: Reader)
    ensures Candidate(r, "") == None
  {
  }

  /** The log after filtered appends, and what it would be with `kept` in it. */
  ghost predicate HoldsExactly(log: Option<string>, kept: seq<string>) {
    log == if kept == [] then None else Some(LogText(kept))
  }

  predicate OnePerLine(lines: seq<string>) {
    forall l | l in lines :: '\n' !in l
  }

  /** While the log fits the tail, the writer's filter keeps exactly the lines the batch filter
      keeps: one rule, whether applied append by append or to the whole list. */
  lemma {:induction false} WriterKeepsTheSame(r: Reader, lines: seq<string>, window: Duration)
    requires OnePerLine(lines) && |LogText(Kept(r, lines, window))| <= 262144
    ensures HoldsExactly(AppendAll(r, lines, window), Kept(r, lines, window))
  {
    hide *;
    if lines == [] {
      NothingKept(r, window);
      HoldsNothing();
      return;
    }
    var front, line := lines[..|lines| - 1], lines[|lines| - 1];
    AppendAllSnoc(r, front, line, window);
    assert front + [line] == lines;
    KeptSnoc(r, front, line, window);
    LogFits(r, front, line, window);
    WriterKeepsTheSame(r, front, window);
    OneAppend(r, AppendAll(r, front, window), Kept(r, front, window), line, window);
  }

  lemma HoldsNothing()
    ensures HoldsExactly(None, [])
  {
  }

  lemma AppendAllSnoc(r: Reader, lines: seq<string>, line: string, window: Duration)
    ensures AppendAll(r, lines + [line], window) == Append(r, AppendAll(r, lines, window), line, window)
  {
    hide Append;
    assert (lines + [line])[..|lines|] == lines;
  }

  /** A log that fits has fitted all along. */
  lemma LogFits(r: Reader, lines: seq<string>, line: string, window: Duration)
    requires OnePerLine(lines + [line]) && |LogText(KeptWith(r, Kept(r, lines, window), line, window))| <= 262144
    ensures OnePerLine(lines) && OnePerLine(Kept(r, lines, window)) && |LogText(Kept(r, lines, window))| <= 262144
  {
    hide DuplicateLines, LogText, Kept;
    LogTextGrows(Kept(r, lines, window), line);
    KeptWithin(r, lines, window);
    forall l | l in lines ensures '\n' !in l {
      assert l in lines + [line];
    }
  }

  lemma OneAppend(r: Reader, log: Option<string>, kept: seq<string>, line: string, window: Duration)
    requires HoldsExactly(log, kept) && OnePerLine(kept) && |LogText(kept)| <= 262144
    ensures HoldsExactly(Append(r, log, line, window), KeptWith(r, kept, line, window))
  {
    hide DuplicateLines, DuplicateInLog, LogText;
    InLogIsInKept(r, kept, line, window);
    LogTextGrows(kept, line);
    assert "" + line + "\n" == line + "\n";
  }

  lemma LogTextGrows(lines: seq<string>, line: string)
    ensures LogText(lines + [line]) == LogText(lines) + line + "\n" && LogText([]) == ""
  {
    assert (lines + [line])[..|lines|] == lines;
  }

  lemma KeptWithin(r: Reader, lines: seq<string>, window: Duration)
    ensures forall l | l in Kept(r, lines, window) :: l in lines
  {
    var at := KeptAt(r, lines, window);
    forall k | 0 <= k < |at| ensures Kept(r, lines, window)[k] in lines {
      Member(at, k);
    }
  }

  lemma InLogIsInKept(r: Reader, kept: seq<string>, line: string, window: Duration)
    requires |LogText(kept)| <= 262144 && OnePerLine(kept)
    ensures DuplicateInLog(r, if kept == [] then None else Some(LogText(kept)), line, window)
       <==> exists e :: e in kept && DuplicateLines(r, e, line, window)
  {
    hide Candidate, LogText;
    LogLines(kept);
    BlankIsNoReport(r);
    var split := kept + [""];
    if e :| e in kept && DuplicateLines(r, e, line, window) {
      assert e in split;
    }
    if e :| e in split && DuplicateLines(r, e, line, window) {
      assert e in kept;
    }
  }

  // ------------------------------------------------ spellings of a tool

  /** The underscores a name ends in. */
  function Underscores(s: string): (n: nat)
    ensures n <= |s|
  {
    if s != "" && s[|s| - 1] == '_' then 1 + Underscores(s[..|s| - 1]) else 0
  }

  lemma {:induction false} UnderscoresBehind(c: char, s: string)
    ensures Underscores([c] + s) == if Underscores(s) == |s| && c == '_' then |s| + 1 else Underscores(s)
  {
    var t := [c] + s;
    if s == "" {
      assert t[..0] == "";
    } else if s[|s| - 1] == '_' {
      assert t[..|s|] == [c] + s[..|s| - 1];
      UnderscoresBehind(c, s[..|s| - 1]);
    }
  }

  lemma {:induction false} AllUnderscores(s: string)
    requires Underscores(s) == |s|
    ensures forall i | 0 <= i < |s| :: s[i] == '_'
  {
    if s != "" { AllUnderscores(s[..|s| - 1]); }
  }

  lemma ColonsOne(c: char, s: string)
    requires c != '_' || s == "" || s[0] != '_'
    ensures Colons([c] + s) == [c] + Colons(s)
  {
    assert ([c] + s)[1..] == s;
  }

  lemma ColonsPair(s: string)
    ensures Colons("__" + s) == ":" + Colons(s)
  {
    assert ("__" + s)[2..] == s;
  }

  /** Behind an even number of underscores the replacement starts afresh. */
  lemma {:induction false} ColonsOver(a: string, rest: string)
    requires Underscores(a) % 2 == 0
    ensures Colons(a + rest) == Colons(a) + Colons(rest)
    decreases |a|
  {
    hide Underscores, Colons;
    if a == "" {
      assert a + rest == rest && Colons("") == "" by { ColonsOfNothing(); }
    } else if |a| >= 2 && a[0] == '_' && a[1] == '_' {
      var t := a[2..];
      assert a == "_" + ("_" + t) && a == "__" + t && a + rest == "__" + (t + rest);
      UnderscoresBehind('_', t);
      UnderscoresBehind('_', "_" + t);
      ColonsOver(t, rest);
      ColonsPair(t);
      ColonsPair(t + rest);
    } else {
      var c, t := a[0], a[1..];
      assert a == [c] + t && a + rest == [c] + (t + rest);
      UnderscoresBehind(c, t);
      if Underscores(t) == |t| { AllUnderscores(t); }
      ColonsOver(t, rest);
      assert t == "" ==> c != '_';
      ColonsOne(c, t);
      ColonsOne(c, t + rest);
    }
  }

  lemma ColonsOfNothing()
    ensures Colons("") == ""
  {
  }

  /** One underscore in front lengthens the result by one character at most. */
  lemma {:induction false} ColonsBehindOne(s: string)
    ensures |Colons(s)| <= |Colons("_" + s)| <= |Colons(s)| + 1
  {
    if s != "" && s[0] == '_' {
      var t := s[1..];
      assert s == "_" + t && "_" + s == "__" + t;
      ColonsBehindOne(t);
      ColonsPair(t);
    } else {
      ColonsOne('_', s);
    }
  }

  lemma Unprefixed(s: string, prefix: string)
    ensures TrimPrefix(prefix + s, prefix) == s
  {
  }

  lemma NotPrefixed(s: string, prefix: string, i: nat)
    requires i < |s| && i < |prefix| && s[i] != prefix[i]
    ensures !HasPrefix(s, prefix) && TrimPrefix(s, prefix) == s
  {
  }

  const MCP := "mcp__"

  lemma RespelledLoose(rest: string)
    ensures Respelled(MCP + rest) == Colons(rest)
  {
    hide TrimPrefix, Colons;
    NotPrefixed(MCP + rest, "mcp:", 3);
    Unprefixed(rest, MCP);
  }

  lemma RespelledColon(rest: string)
    ensures Respelled("mcp:" + rest) == Colons(TrimPrefix(rest, MCP))
  {
    hide TrimPrefix, Colons;
    Unprefixed(rest, "mcp:");
  }

  /** A colon behind a name makes no prefix of it. */
  lemma PrefixOfName(server: string, rest: string)
    ensures TrimPrefix(server + (":" + rest), MCP) == TrimPrefix(server, MCP) + (":" + rest)
  {
    var s := server + (":" + rest);
    if HasPrefix(server, MCP) {
      assert s[..5] == server[..5] && s[5..] == server[5..] + (":" + rest);
    } else if |server| < 5 {
      assert s[|server|] == ':' && ':' !in MCP;
      NotPrefixed(s, MCP, |server|);
    } else {
      assert s[..5] == server[..5];
    }
  }

  /** The capture paths spell an MCP tool "mcp__server__tool" and "mcp:server:tool". Both come to
      one spelling exactly when the server's name does not start like a prefix itself and ends in
      an even number of underscores. */
  lemma SpellingsAgree(server: string, tool: string)
    ensures Respelled(MCP + (server + ("__" + tool))) == Respelled("mcp:" + (server + (":" + tool)))
       <==> !HasPrefix(server, MCP) && Underscores(server) % 2 == 0
    ensures !HasPrefix(server, MCP) && Underscores(server) % 2 == 0
        ==> Respelled("mcp:" + (server + (":" + tool))) == Colons(server) + ":" + Colons(tool)
  {
    hide Colons, Underscores, Respelled, HasPrefix;
    RespelledLoose(server + ("__" + tool));
    RespelledColon(server + (":" + tool));
    PrefixOfName(server, tool);
    if HasPrefix(server, MCP) {
      PrefixTwice(server, tool);
    } else {
      LooseOrColon(server, tool);
    }
  }

  /** What follows a server's name is told apart by the underscores before it alone. */
  lemma LooseOrColon(server: string, tool: string)
    ensures Colons(server + ("__" + tool)) == Colons(server + (":" + tool)) <==> Underscores(server) % 2 == 0
    ensures Underscores(server) % 2 == 0 ==> Colons(server + (":" + tool)) == Colons(server) + ":" + Colons(tool)
    ensures |Colons(server + ("__" + tool))| + 1 >= |Colons(server + (":" + tool))|
  {
    hide Colons;
    ColonsPair(tool);
    ColonsOne(':', tool);
    if Underscores(server) % 2 == 0 {
      ColonsOver(server, "__" + tool);
      ColonsOver(server, ":" + tool);
    } else {
      var front := server[..|server| - 1];
      assert server + ("__" + tool) == front + ("__" + ("_" + tool));
      assert server + (":" + tool) == front + ("_" + (":" + tool));
      ColonsOver(front, "__" + ("_" + tool));
      ColonsOver(front, "_" + (":" + tool));
      ColonsPair("_" + tool);
      ColonsOne('_', ":" + tool);
      ColonsBehindOne(tool);
      assert Colons(server + ("__" + tool))[|Colons(front)|] == ':';
      assert Colons(server + (":" + tool))[|Colons(front)|] == '_';
    }
  }

  /** Of a server named like a prefix, one path strips two and the other one. */
  lemma PrefixTwice(server: string, tool: string)
    requires HasPrefix(server, MCP)
    ensures Colons(server + ("__" + tool)) != Colons(TrimPrefix(server, MCP) + (":" + tool))
  {
    var x := server[5..];
    assert server == MCP + x && server + ("__" + tool) == "mcp" + ("__" + (x + ("__" + tool)));
    hide Colons;
    LooseOrColon(x, tool);
    var loose := x + ("__" + tool);
    assert Underscores("mcp") == 0;
    ColonsOver("mcp", "__" + loose);
    ColonsPair(loose);
    assert |Colons("mcp")| == 3 by { ColonsOfMcp(); }
  }

  lemma ColonsOfMcp()
    ensures Colons("mcp") == "mcp"
  {
    ColonsOne('p', "");
    ColonsOne('c', "p");
    ColonsOne('m', "cp");
    ColonsOfNothing();
    assert "p" == ['p'] + "" && "cp" == ['c'] + "p" && "mcp" == ['m'] + "cp";
  }
}
