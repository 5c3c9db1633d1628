// browser-extension/src/adapters/chatgpt.ts: the delta language as a function on plain JSON
// values. ChatGptParsing proves the heap parser against it.
module ChatGpt {
  import opened Text
  import opened Json
  import opened ChatGptDoc
  import opened ChatGptAlias

  /** The captured assistant message: none; the document's own, under `message`; or another object
      with this value, which may still share parts with what the document has there. */
  datatype Capture = Nothing | Attached | Behind(message: Json, shared: map<Key, Link>)

  datatype Mirror = Mirror(doc: Json, capture: Capture)

  const MESSAGE := ["message"]
  const NO_PARTS := Box(true, 1, map[Index(0) := Str("")])
  const NO_CONTENT := Box(false, 0, map[Name("parts") := NO_PARTS])

  /** The captured message's value. */
  function Captured(m: Mirror): Json {
    match m.capture
    case Nothing => Null
    case Attached => Get(m.doc, "message")
    case Behind(message, _) => message
  }

  /** How the captured message hangs together with the document's. */
  function LinkOf(capture: Capture): Link {
    match capture
    case Nothing => UNLINKED
    case Attached => Same
    case Behind(_, shared) => Parted(shared)
  }

  /** An assistant message addressed to everyone. */
  predicate Visible(doc: Json) {
    var m := Get(doc, "message");
    && Truthy(m) && Get(Get(m, "author"), "role") == Str("assistant")
    && (Nullish(Get(m, "recipient")) || Get(m, "recipient") == Str("all"))
  }

  predicate HasParts(m: Json) {
    var parts := Get(Get(m, "content"), "parts");
    Truthy(Get(m, "content")) && parts.Box? && parts.isArray
  }

  /** A visible message without text parts is given one empty part. */
  function Prepared(doc: Json): Json {
    if Visible(doc) && !HasParts(Get(doc, "message")) then SetIn(doc, ["message", "content"], NO_CONTENT) else doc
  }

  /** A new document; a message captured before stays as it is. */
  function AddRoot(m: Mirror, v: Json): Mirror {
    Mirror(Prepared(v),
           if Visible(v) then Attached
           else if m.capture.Nothing? then Nothing
           else Behind(Captured(m), map[]))
  }

  /** The capture after a write of `v` at a path. */
  function Moved(m: Mirror, segs: seq<string>, v: Json, change: Change): Capture {
    if m.capture.Nothing? then Nothing
    else
      match SlotLinkAfter(m.doc, LinkOf(m.capture), segs, change)
      case Same => Attached
      case Parted(shared) => Behind(SlotReached(m.doc, Captured(m), LinkOf(m.capture), segs, v), shared)
  }

  function WritePath(m: Mirror, segs: seq<string>, v: Json, change: Change): Mirror {
    Mirror(SetIn(m.doc, segs, v), Moved(m, segs, v, change))
  }

  /** An append of an object to an object makes a new one of both. */
  function AppendChange(cur: Json, v: Json): Change {
    if v.Box? && !v.isArray && cur.Box? then Merged(v.slots.Keys) else Replaced
  }

  function AppendPath(m: Mirror, segs: seq<string>, v: Json): Mirror {
    var cur := ReadIn(m.doc, segs);
    WritePath(m, segs, Appended(cur, v), AppendChange(cur, v))
  }

  predicate AtRoot(path: Json) {
    path == Str("") || path == Str("/")
  }

  /** The operation writes at its path, which the code splits. */
  predicate Writes(op: Json, path: Json) {
    (op == Str("add") && !AtRoot(path)) || op == Str("append") || op == Str("replace")
  }

  /** A path that is no string cannot be split; a primitive cannot be assigned into. */
  predicate Throws(m: Mirror, op: Json, path: Json) {
    Writes(op, path) && (!path.Str? || Blocked(m.doc, Segments(path.s)))
  }

  /** One operation other than a patch. */
  function ApplyPlain(m: Mirror, op: Json, path: Json, v: Json): Outcome<Mirror> {
    if op == Str("add") && AtRoot(path) then Outcome(AddRoot(m, v), false)
    else if !Writes(op, path) then Outcome(m, false)
    else if Throws(m, op, path) then Outcome(m, true)
    else if op == Str("append") then Outcome(AppendPath(m, Segments(path.s), v), false)
    else Outcome(WritePath(m, Segments(path.s), v, Replaced), false)
  }

  predicate IsPatch(op: Json, v: Json) {
    op == Str("patch") && v.Box? && v.isArray
  }

  function Item(v: Json, i: nat): Json
    requires v.Box?
  {
    if Index(i) in v.slots then v.slots[Index(i)] else Undefined
  }

  function ItemPath(s: Json): Json {
    OrElse(Get(s, "p"), Str(""))
  }

  /** An operation; a patch is the operations it lists, in order, nested patches included. An
      exception ends it with what has been done so far. */
  function Apply(m: Mirror, op: Json, path: Json, v: Json): Outcome<Mirror>
    decreases v, 1, 0
  {
    if IsPatch(op, v) then ApplyItems(m, v, v.length) else ApplyPlain(m, op, path, v)
  }

  function ApplyItems(m: Mirror, v: Json, n: nat): Outcome<Mirror>
    requires v.Box?
    decreases v, 0, n
  {
    if n == 0 then Outcome(m, false)
    else
      var before, s := ApplyItems(m, v, n - 1), Item(v, n - 1);
      if before.threw then before
      else if Nullish(s) then Outcome(before.state, true)
      else if Has(s, "v") then Apply(before.state, Get(s, "o"), ItemPath(s), s.slots[Name("v")])
      else ApplyPlain(before.state, Get(s, "o"), ItemPath(s), Undefined)
  }

  // ------------------------------------------------------------ frames

  /** What the request said: its number on the page, the model asked for and the prompt. */
  datatype Request = Request(id: int, model: Option<string>, prompt: string)

  datatype State = State(mirror: Mirror, lastOp: Json, lastPath: Json, sessionId: string, completed: bool)

  /** Frames with a `type` are control events unless they carry `v` with `o` or `p`. */
  predicate IsControl(obj: Json) {
    Get(obj, "type").Str? && !(Has(obj, "v") && (Has(obj, "o") || Has(obj, "p")))
  }

  function Control(s: State, obj: Json): State {
    if Get(obj, "type") == Str("resume_conversation_token") && s.sessionId == "" && Get(obj, "conversation_id").Str?
    then s.(sessionId := Get(obj, "conversation_id").s)
    else if Get(obj, "type") == Str("message_stream_complete") then s.(completed := true)
    else s
  }

  function NextOp(s: State, obj: Json): Json { if Has(obj, "o") then Get(obj, "o") else s.lastOp }
  function NextPath(s: State, obj: Json): Json { if Has(obj, "p") then Get(obj, "p") else s.lastPath }

  function HandleObject(s: State, obj: Json): Outcome<State> {
    if !obj.Box? then Outcome(s, false)
    else if IsControl(obj) then Outcome(Control(s, obj), false)
    else
      var op, path := NextOp(s, obj), NextPath(s, obj);
      var applied := Apply(s.mirror, op, path, Get(obj, "v"));
      Outcome(s.(lastOp := op, lastPath := path, mirror := applied.state), applied.threw)
  }

  /** A run of frames, ended by an exception. */
  function HandleAll(s: State, objs: seq<Json>): Outcome<State> {
    if objs == [] then Outcome(s, false)
    else
      var before := HandleAll(s, objs[..|objs| - 1]);
      if before.threw then before else HandleObject(before.state, objs[|objs| - 1])
  }

  /** One server-sent event: a sentinel, the encoding's announcement, or a frame to decode. */
  function Receive(s: State, decode: string -> Option<Json>, event: string, data: string): Outcome<State> {
    if data == "" then Outcome(s, false)
    else if data == "[DONE]" then Outcome(s.(completed := true), false)
    else if event == "delta_encoding" then Outcome(s, false)
    else match decode(data) case None => Outcome(s, false) case Some(obj) => HandleObject(s, obj)
  }

  // -------------------------------------------------------------- turns

  /** The strings among an array's parts, joined. */
  function PartsText(parts: Json, n: nat): string
    requires parts.Box?
  {
    if n == 0 then ""
    else PartsText(parts, n - 1) + if Item(parts, n - 1).Str? then Item(parts, n - 1).s else ""
  }

  /** The text of a message; None where the code throws, on parts that are not an array. */
  function MessageText(message: Json): Option<string> {
    var parts := Get(Get(message, "content"), "parts");
    if Nullish(parts) then Some("")
    else if parts.Box? && parts.isArray then Some(PartsText(parts, parts.length))
    else None
  }

  datatype Turn = Turn(
    sessionId: string, turnKey: Json, responseModel: Json, prompt: string, text: string,
    searchGroups: Json, completed: bool)

  function SearchGroups(message: Json): Json {
    var groups := Get(Get(message, "metadata"), "search_result_groups");
    if groups.Box? && groups.isArray && groups.length > 0 then groups else Undefined
  }

  function ModelJson(model: Option<string>): Json {
    match model case None => Undefined case Some(name) => Str(name)
  }

  /** The turn read off a captured message. */
  function TurnWith(r: Request, message: Json, text: string, sessionId: string, completed: bool): Option<Turn> {
    if text == "" && r.prompt == "" then None
    else
      var messageId := OrElse(Get(message, "id"), Str(""));
      Some(Turn(
        if sessionId != "" then sessionId else "chatgpt-unknown-" + Show(r.id),
        if Truthy(messageId) then messageId else Str("r" + Show(r.id)),
        OrElse(Get(Get(message, "metadata"), "model_slug"), ModelJson(r.model)),
        r.prompt, text, SearchGroups(message), completed))
  }

  function TurnOf(s: State, r: Request): Made<Turn> {
    match MessageText(Captured(s.mirror))
    case None => Threw
    case Some(text) => Made(TurnWith(r, Captured(s.mirror), text, s.sessionId, s.completed))
  }

  // --------------------------------------------------- inherited op and path

  function Without(obj: Json, name: string): Json
    requires obj.Box?
  {
    obj.(slots := obj.slots - {Name(name)})
  }

  /** A delta frame with no string `type`. */
  predicate PlainDelta(obj: Json) {
    obj.Box? && !Get(obj, "type").Str?
  }

  /** A delta may leave out an op that repeats the last one, a path that does, or both. */
  lemma DroppingRepeated(s: State, obj: Json)
    requires PlainDelta(obj)
    ensures Has(obj, "o") && Get(obj, "o") == s.lastOp ==> HandleObject(s, Without(obj, "o")) == HandleObject(s, obj)
    ensures Has(obj, "p") && Get(obj, "p") == s.lastPath ==> HandleObject(s, Without(obj, "p")) == HandleObject(s, obj)
  {
    hide Apply;
    DroppingKeeps(obj, "o", ["type", "p", "v"]);
    DroppingKeeps(obj, "p", ["type", "o", "v"]);
  }

  lemma DroppingKeeps(obj: Json, name: string, others: seq<string>)
    requires obj.Box? && name !in others
    ensures Without(obj, name).Box? && !Has(Without(obj, name), name)
    ensures forall o | o in others ::
              Get(Without(obj, name), o) == Get(obj, o) && (Has(Without(obj, name), o) <==> Has(obj, o))
  {
  }

  lemma {:induction false} ControlKeepsCursor(s: State, controls: seq<Json>)
    requires forall c | c in controls :: c.Box? && IsControl(c)
    ensures var after := HandleAll(s, controls);
            && !after.threw && after.state.mirror == s.mirror
            && after.state.lastOp == s.lastOp && after.state.lastPath == s.lastPath
  {
    if controls != [] { ControlKeepsCursor(s, controls[..|controls| - 1]); }
  }

  /** A delta may leave out what the last delta used, even one that threw, whatever control events
      come between: the document, the capture and the cursor come out the same. */
  lemma InheritedAcrossControls(s: State, first: Json, controls: seq<Json>, next: Json)
    requires first.Box? && !IsControl(first) && PlainDelta(next)
    requires forall c | c in controls :: c.Box? && IsControl(c)
    ensures var between := HandleAll(HandleObject(s, first).state, controls).state;
            && (Has(next, "o") && Has(first, "o") && Get(next, "o") == Get(first, "o") ==>
                  HandleObject(between, Without(next, "o")) == HandleObject(between, next))
            && (Has(next, "p") && Has(first, "p") && Get(next, "p") == Get(first, "p") ==>
                  HandleObject(between, Without(next, "p")) == HandleObject(between, next))
  {
    hide Apply, IsControl;
    ControlKeepsCursor(HandleObject(s, first).state, controls);
    DroppingRepeated(HandleAll(HandleObject(s, first).state, controls).state, next);
  }

  // ------------------------------------------------- patches are their ops

  /** A written-out operation, or a patch item with no properties to read. */
  datatype Plain = Plain(op: Json, path: Json, v: Json) | Missing

  /** An operation with its patches, at any depth, written out. */
  function Flat(op: Json, path: Json, v: Json): seq<Plain>
    decreases v, 1, 0
  {
    if IsPatch(op, v) then FlatItems(v, v.length) else [Plain(op, path, v)]
  }

  function FlatItems(v: Json, n: nat): seq<Plain>
    requires v.Box?
    decreases v, 0, n
  {
    if n == 0 then []
    else
      var s := Item(v, n - 1);
      FlatItems(v, n - 1)
      + if Nullish(s) then [Missing]
        else if Has(s, "v") then Flat(Get(s, "o"), ItemPath(s), s.slots[Name("v")])
        else [Plain(Get(s, "o"), ItemPath(s), Undefined)]
  }

  function ApplyEntry(m: Mirror, p: Plain): Outcome<Mirror> {
    match p
    case Missing => Outcome(m, true)
    case Plain(op, path, v) => ApplyPlain(m, op, path, v)
  }

  /** One operation after the other, up to one that throws. */
  function ApplyEach(m: Mirror, ops: seq<Plain>): Outcome<Mirror> {
    if ops == [] then Outcome(m, false)
    else
      var before := ApplyEach(m, ops[..|ops| - 1]);
      if before.threw then before else ApplyEntry(before.state, ops[|ops| - 1])
  }

  function AfterEach(before: Outcome<Mirror>, ops: seq<Plain>): Outcome<Mirror> {
    if before.threw then before else ApplyEach(before.state, ops)
  }

  lemma {:induction false} ApplyEachAppend(m: Mirror, a: seq<Plain>, b: seq<Plain>)
    ensures ApplyEach(m, a + b) == AfterEach(ApplyEach(m, a), b)
  {
    hide ApplyEntry;
    if b == [] {
      assert a + b == a;
    } else {
      ApplyEachAppend(m, a, b[..|b| - 1]);
      assert (a + b)[..|a + b| - 1] == a + b[..|b| - 1];
    }
  }

  lemma ApplyEachOne(m: Mirror, p: Plain)
    ensures ApplyEach(m, [p]) == ApplyEntry(m, p)
  {
    hide ApplyEntry;
    assert [p][..0] == [];
  }

  /** An operation does what its written-out operations do one after the other. */
  lemma {:induction false} PatchIsItsOps(m: Mirror, op: Json, path: Json, v: Json)
    ensures Apply(m, op, path, v) == ApplyEach(m, Flat(op, path, v))
    decreases v, 1, 0
  {
    if IsPatch(op, v) {
      ItemsAreOps(m, v, v.length);
    } else {
      ApplyEachOne(m, Plain(op, path, v));
    }
  }

  lemma {:induction false} ItemsAreOps(m: Mirror, v: Json, n: nat)
    requires v.Box?
    ensures ApplyItems(m, v, n) == ApplyEach(m, FlatItems(v, n))
    decreases v, 0, n
  {
    if n == 0 {
      assert ApplyEach(m, []) == Outcome(m, false);
    } else {
      hide ApplyPlain, ApplyEach, Apply, Flat, ItemPath;
      var s := Item(v, n - 1);
      ItemsAreOps(m, v, n - 1);
      var before := ApplyItems(m, v, n - 1);
      ApplyEachAppend(m, FlatItems(v, n - 1), ItemOps(s));
      if Nullish(s) {
        ApplyEachOne(before.state, Missing);
      } else if Has(s, "v") {
        PatchIsItsOps(before.state, Get(s, "o"), ItemPath(s), s.slots[Name("v")]);
      } else {
        ApplyEachOne(before.state, Plain(Get(s, "o"), ItemPath(s), Undefined));
      }
    }
  }

  function ItemOps(s: Json): seq<Plain> {
    if Nullish(s) then [Missing]
    else if Has(s, "v") then Flat(Get(s, "o"), ItemPath(s), s.slots[Name("v")])
    else [Plain(Get(s, "o"), ItemPath(s), Undefined)]
  }

  /** The written-out operations of a run of frames, with inherited ops and paths filled in. */
  function Ops(s: State, objs: seq<Json>): seq<Plain> {
    if objs == [] then []
    else
      var front, obj := objs[..|objs| - 1], objs[|objs| - 1];
      Ops(s, front) + FrameOps(HandleAll(s, front).state, obj)
  }

  function FrameOps(s: State, obj: Json): seq<Plain> {
    if obj.Box? && !IsControl(obj) then Flat(NextOp(s, obj), NextPath(s, obj), Get(obj, "v")) else []
  }

  /** A run of frames does to the document and the capture what its written-out operations do, and
      throws where they do. */
  lemma {:induction false} FramesAreOps(s: State, objs: seq<Json>)
    ensures var after := HandleAll(s, objs);
            Outcome(after.state.mirror, after.threw) == ApplyEach(s.mirror, Ops(s, objs))
  {
    if objs == [] {
      return;
    }
    var front, obj := objs[..|objs| - 1], objs[|objs| - 1];
    FramesAreOps(s, front);
    var before := HandleAll(s, front);
    hide Apply, ApplyEach, Flat, IsControl;
    ApplyEachAppend(s.mirror, Ops(s, front), FrameOps(before.state, obj));
    if obj.Box? && !IsControl(obj) {
      PatchIsItsOps(before.state.mirror, NextOp(before.state, obj), NextPath(before.state, obj), Get(obj, "v"));
    } else {
      NoOps(before.state.mirror);
    }
  }

  /** The operations an event stands for. */
  function EventOps(s: State, decode: string -> Option<Json>, event: string, data: string): seq<Plain> {
    if data == "" || data == "[DONE]" || event == "delta_encoding" || decode(data).None? then []
    else FrameOps(s, decode(data).value)
  }

  /** An event does to the document and the capture what its operations do, and throws if they do. */
  lemma EventIsOps(s: State, decode: string -> Option<Json>, event: string, data: string)
    ensures var after := Receive(s, decode, event, data);
            Outcome(after.state.mirror, after.threw) == ApplyEach(s.mirror, EventOps(s, decode, event, data))
  {
    hide Apply, ApplyEach, Flat, IsControl, Control;
    NoOps(s.mirror);
    if EventOps(s, decode, event, data) != []
       || (data != "" && data != "[DONE]" && event != "delta_encoding" && decode(data).Some?) {
      var obj := decode(data).value;
      if obj.Box? && !IsControl(obj) {
        PatchIsItsOps(s.mirror, NextOp(s, obj), NextPath(s, obj), Get(obj, "v"));
      } else {
        ControlKeepsMirror(s, obj);
      }
    }
  }

  lemma ControlKeepsMirror(s: State, obj: Json)
    ensures Control(s, obj).mirror == s.mirror
  {
  }

  lemma NoOps(m: Mirror)
    ensures ApplyEach(m, []) == Outcome(m, false)
  {
  }

  // --------------------------------------------------------- exceptions

  /** An operation that throws whatever the document: a patch item that is null, a path that is to
      be split and is no string. */
  predicate Malformed(p: Plain) {
    p.Missing? || (Writes(p.op, p.path) && !p.path.Str?)
  }

  /** An operation that comes to a primitive for a container. */
  predicate Stuck(m: Mirror, p: Plain) {
    p.Plain? && Writes(p.op, p.path) && p.path.Str? && Blocked(m.doc, Segments(p.path.s))
  }

  /** A run of operations throws exactly when one of them is malformed, or one that is reached comes
      to a primitive for a container. */
  lemma {:induction false} ThrowsExactly(m: Mirror, ops: seq<Plain>)
    ensures ApplyEach(m, ops).threw
       <==> (exists i :: 0 <= i < |ops| && Malformed(ops[i]))
            || exists i :: 0 <= i < |ops| && !ApplyEach(m, ops[..i]).threw
                           && Stuck(ApplyEach(m, ops[..i]).state, ops[i])
  {
    if ops == [] {
      return;
    }
    var n := |ops| - 1;
    var front := ops[..n];
    ThrowsExactly(m, front);
    EntryThrows(ApplyEach(m, front).state, ops[n]);
    var threw := ApplyEach(m, ops).threw;
    assert threw <==> ApplyEach(m, front).threw || Malformed(ops[n]) || Stuck(ApplyEach(m, front).state, ops[n]);
    hide ApplyEach, Malformed, Stuck;
    forall i | 0 <= i <= n ensures i < n ==> front[i] == ops[i] && front[..i] == ops[..i] {
    }
  }

  lemma EntryThrows(m: Mirror, p: Plain)
    ensures ApplyEntry(m, p).threw <==> Malformed(p) || Stuck(m, p)
  {
  }

  // ------------------------------------------------------- the capture

  predicate AddsRoot(p: Plain) {
    p.Plain? && p.op == Str("add") && AtRoot(p.path)
  }

  predicate AddsVisible(p: Plain) {
    AddsRoot(p) && Visible(p.v)
  }

  /** Writes the message slot itself, not something inside it. */
  predicate WritesMessageSlot(p: Plain) {
    p.Plain? && Writes(p.op, p.path) && p.path.Str? && Segments(p.path.s) == MESSAGE
  }

  /** While no operation adds a root or writes the message slot, the captured message is the
      document's own, so its text is the text of the document as the operations leave it. */
  lemma {:induction false} CaptureFollowsDocument(m: Mirror, ops: seq<Plain>)
    requires m.capture.Attached?
    requires forall p | p in ops :: !AddsRoot(p) && !WritesMessageSlot(p)
    ensures ApplyEach(m, ops).state.capture.Attached?
  {
    if ops != [] {
      var n := |ops| - 1;
      assert ops[n] in ops;
      CaptureFollowsDocument(m, ops[..n]);
      StaysAttached(ApplyEach(m, ops[..n]).state, ops[n]);
    }
  }

  lemma StaysAttached(m: Mirror, p: Plain)
    requires m.capture.Attached? && !AddsRoot(p) && !WritesMessageSlot(p)
    ensures ApplyEntry(m, p).state.capture.Attached?
  {
    if p.Plain? && Writes(p.op, p.path) && p.path.Str? {
      var segs := Segments(p.path.s);
      if AtSlot(m.doc, segs) {
        assert segs[1..] != [] by {
          assert segs == [segs[0]] + segs[1..];
        }
      }
    }
  }

  /** A root that is not a visible assistant message leaves the captured message behind, and
      nothing changes it any more until a visible one is added. */
  lemma {:induction false} CaptureFrozen(m: Mirror, v: Json, ops: seq<Plain>)
    requires !Visible(v) && forall p | p in ops :: !AddsVisible(p)
    ensures ApplyEach(AddRoot(m, v), ops).state.capture
         == if m.capture.Nothing? then Nothing else Behind(Captured(m), map[])
  {
    if ops != [] {
      var n := |ops| - 1;
      assert ops[n] in ops;
      CaptureFrozen(m, v, ops[..n]);
      StaysFrozen(ApplyEach(AddRoot(m, v), ops[..n]).state, ops[n]);
    }
  }

  lemma StaysFrozen(m: Mirror, p: Plain)
    requires !AddsVisible(p) && (m.capture.Nothing? || (m.capture.Behind? && m.capture.shared == map[]))
    ensures ApplyEntry(m, p).state.capture == m.capture
  {
    if p.Plain? && Writes(p.op, p.path) && p.path.Str? && !m.capture.Nothing? {
      var segs := Segments(p.path.s);
      UnlinkedStays(m.doc, Captured(m), segs, Replaced, p.v);
      var cur := ReadIn(m.doc, segs);
      UnlinkedStays(m.doc, Captured(m), segs, AppendChange(cur, p.v), Appended(cur, p.v));
    }
  }

  lemma UnlinkedStays(doc: Json, message: Json, segs: seq<string>, change: Change, v: Json)
    ensures SlotLinkAfter(doc, UNLINKED, segs, change) == UNLINKED
    ensures SlotReached(doc, message, UNLINKED, segs, v) == message
  {
  }

  /** Each visible root attaches the capture again, whatever came before. */
  lemma VisibleRootAttaches(m: Mirror, ops: seq<Plain>)
    requires ops != [] && AddsVisible(ops[|ops| - 1]) && !ApplyEach(m, ops[..|ops| - 1]).threw
    ensures var after := ApplyEach(m, ops);
            !after.threw && after.state.capture.Attached? && MessageText(Captured(after.state)).Some?
  {
    PreparedHasText(ops[|ops| - 1].v);
  }

  lemma PreparedHasText(v: Json)
    requires Visible(v)
    ensures MessageText(Get(Prepared(v), "message")).Some?
  {
    var m := Get(v, "message");
    if !HasParts(m) {
      assert KeyAt(false, "message") == Some(Name("message")) && KeyAt(false, "content") == Some(Name("content"));
      assert ["message", "content"][1..] == ["content"];
      assert SetIn(m, ["content"], NO_CONTENT) == WriteSlot(m, Name("content"), NO_CONTENT);
      assert Get(Prepared(v), "message") == WriteSlot(m, Name("content"), NO_CONTENT);
      assert Get(Get(Prepared(v), "message"), "content") == NO_CONTENT;
    }
  }

  // ------------------------------------------------ a streamed answer

  const TEXT_PATH := "/message/content/parts/0"
  const TEXT_SLOT := ["message", "content", "parts", "0"]

  lemma {:induction false} NoneEmpty(parts: seq<string>)
    requires forall i | 0 <= i < |parts| :: parts[i] != ""
    ensures NonEmpty(parts) == parts
  {
    if parts != [] {
      NoneEmpty(parts[1..]);
      assert [parts[0]] + parts[1..] == parts;
    }
  }

  lemma TextPath()
    ensures Segments(TEXT_PATH) == TEXT_SLOT
  {
    hide Split, NonEmpty;
    assert TEXT_PATH == "" + ['/'] + "message/content/parts/0";
    SplitAtFirst("", "message/content/parts/0", '/');
    assert "message/content/parts/0" == "message" + ['/'] + "content/parts/0";
    SplitAtFirst("message", "content/parts/0", '/');
    assert "content/parts/0" == "content" + ['/'] + "parts/0";
    SplitAtFirst("content", "parts/0", '/');
    assert "parts/0" == "parts" + ['/'] + "0";
    SplitAtFirst("parts", "0", '/');
    SplitWithout("0", '/');
    assert Split(TEXT_PATH, '/') == [""] + TEXT_SLOT;
    LeadingEmpty(TEXT_SLOT);
    NoneEmpty(TEXT_SLOT);
  }

  lemma LeadingEmpty(parts: seq<string>)
    ensures NonEmpty([""] + parts) == NonEmpty(parts)
  {
    assert ([""] + parts)[1..] == parts;
  }

  /** A message with one text part. */
  predicate OneText(message: Json, text: string) {
    && IsObject(message) && Has(message, "content") && Has(Get(message, "content"), "parts")
    && var parts := Get(Get(message, "content"), "parts");
       parts.Box? && parts.isArray && parts.length == 1 && Index(0) in parts.slots && parts.slots[Index(0)] == Str(text)
  }

  lemma OneTextIsItsText(message: Json, text: string)
    requires OneText(message, text)
    ensures MessageText(message) == Some(text)
  {
    var parts := Get(Get(message, "content"), "parts");
    assert PartsText(parts, 1) == PartsText(parts, 0) + text && "" + text == text;
  }

  lemma SetProperty(j: Json, name: string, segs: seq<string>, v: Json)
    requires Has(j, name) && segs != []
    ensures ReadIn(j, [name] + segs) == ReadIn(Get(j, name), segs)
    ensures var j' := SetIn(j, [name] + segs, v);
            Has(j', name) && Get(j', name) == SetIn(Get(j, name), segs, v)
    ensures Blocked(j, [name] + segs) <==> Blocked(Get(j, name), segs)
  {
    assert ([name] + segs)[1..] == segs;
  }

  lemma SetFirstPart(parts: Json, v: Json)
    requires parts.Box? && parts.isArray && parts.length == 1 && Index(0) in parts.slots
    ensures ReadIn(parts, ["0"]) == parts.slots[Index(0)] && !Blocked(parts, ["0"])
    ensures var parts' := SetIn(parts, ["0"], v);
            parts'.Box? && parts'.isArray && parts'.length == 1
            && Index(0) in parts'.slots && parts'.slots[Index(0)] == v
  {
    assert "0"[..0] == "" && ParseNat("0") == 0 && KeyAt(true, "0") == Some(Index(0));
    assert ["0"][1..] == [];
  }

  lemma TextWritten(doc: Json, text: string, now: string)
    requires Has(doc, "message") && OneText(Get(doc, "message"), text)
    ensures ReadIn(doc, TEXT_SLOT) == Str(text) && !Blocked(doc, TEXT_SLOT)
    ensures var doc' := SetIn(doc, TEXT_SLOT, Str(now));
            Has(doc', "message") && OneText(Get(doc', "message"), now)
  {
    hide SetIn, ReadIn, Blocked;
    var v, message := Str(now), Get(doc, "message");
    var content := Get(message, "content");
    SetFirstPart(Get(content, "parts"), v);
    SetProperty(content, "parts", ["0"], v);
    SetProperty(message, "content", ["parts"] + ["0"], v);
    SetProperty(doc, "message", ["content"] + (["parts"] + ["0"]), v);
    assert TEXT_SLOT == ["message"] + (["content"] + (["parts"] + ["0"]));
  }

  function Token(t: string): Json {
    Box(false, 0, map[Name("v") := Str(t)])
  }

  function Tokens(ts: seq<string>): (objs: seq<Json>)
    ensures |objs| == |ts|
  {
    if ts == [] then [] else Tokens(ts[..|ts| - 1]) + [Token(ts[|ts| - 1])]
  }

  function Said(ts: seq<string>): string {
    if ts == [] then "" else Said(ts[..|ts| - 1]) + ts[|ts| - 1]
  }

  /** The parser is appending to the one text of the captured message. */
  predicate Appending(s: State, text: string) {
    && s.mirror.capture.Attached? && s.lastOp == Str("append") && s.lastPath == Str(TEXT_PATH)
    && Has(s.mirror.doc, "message") && OneText(Get(s.mirror.doc, "message"), text)
  }

  lemma OneToken(s: State, text: string, token: string)
    requires Appending(s, text)
    ensures var after := HandleObject(s, Token(token)); !after.threw && Appending(after.state, text + token)
  {
    hide SetIn, ReadIn, OneText, Segments, Blocked;
    TextPath();
    TextWritten(s.mirror.doc, text, text + token);
    assert TEXT_SLOT != MESSAGE;
    assert Get(Token(token), "v") == Str(token) && !IsControl(Token(token));
    assert !IsPatch(s.lastOp, Str(token)) && !AtRoot(s.lastPath);
  }

  lemma HandleAllSnoc(s: State, objs: seq<Json>, obj: Json)
    ensures var before := HandleAll(s, objs);
            HandleAll(s, objs + [obj]) == if before.threw then before else HandleObject(before.state, obj)
    ensures HandleAll(s, []) == Outcome(s, false)
  {
    hide HandleObject;
    assert (objs + [obj])[..|objs|] == objs;
  }

  lemma TokensSnoc(ts: seq<string>, t: string)
    ensures Tokens(ts + [t]) == Tokens(ts) + [Token(t)] && Tokens([]) == []
    ensures Said(ts + [t]) == Said(ts) + t && Said([]) == ""
  {
    assert (ts + [t])[..|ts|] == ts;
  }

  lemma {:induction false} TokensKeepAppending(s: State, text: string, ts: seq<string>)
    requires Appending(s, text)
    ensures var after := HandleAll(s, Tokens(ts)); !after.threw && Appending(after.state, text + Said(ts))
  {
    hide *;
    if ts == [] {
      TokensSnoc([], "");
      HandleAllSnoc(s, [], Null);
      assert text + "" == text;
    } else {
      var front, last := ts[..|ts| - 1], ts[|ts| - 1];
      assert front + [last] == ts;
      TokensKeepAppending(s, text, front);
      TokensSnoc(front, last);
      HandleAllSnoc(s, Tokens(front), Token(last));
      OneToken(HandleAll(s, Tokens(front)).state, text + Said(front), last);
      assert text + Said(front) + last == text + (Said(front) + last);
    }
  }

  /** A streamed answer: once the parser is appending to the captured message's text, each bare
      token is joined on, and the text read is everything said so far. */
  lemma TokensAccumulate(s: State, text: string, ts: seq<string>)
    requires Appending(s, text)
    ensures var after := HandleAll(s, Tokens(ts));
            !after.threw && MessageText(Captured(after.state.mirror)) == Some(text + Said(ts))
  {
    TokensKeepAppending(s, text, ts);
    hide HandleAll, MessageText, Tokens, Said;
    AppendingIsText(HandleAll(s, Tokens(ts)).state, text + Said(ts));
  }

  lemma AppendingIsText(s: State, text: string)
    requires Appending(s, text)
    ensures MessageText(Captured(s.mirror)) == Some(text)
  {
    hide MessageText;
    OneTextIsItsText(Get(s.mirror.doc, "message"), text);
  }

  // ------------------------------------------- a merge at the message

  /** An object appended to the message itself makes a new message of both, and leaves the captured
      one behind with the parts they share. Text appended afterwards still reaches the captured
      message, unless the object brought a content of its own: then it never changes again. */
  lemma MergeKeepsTheText(m: Mirror, v: Json, text: string, token: string)
    requires m.capture.Attached? && Has(m.doc, "message") && OneText(Get(m.doc, "message"), text) && IsObject(v)
    ensures var merged := AppendPath(m, MESSAGE, v);
            var after := AppendPath(merged, TEXT_SLOT, Str(token));
            && merged.capture.Behind? && Captured(merged) == Captured(m)
            && if Has(v, "content") then Captured(after) == Captured(m)
               else MessageText(Captured(after)) == Some(text + token)
  {
    var message := Get(m.doc, "message");
    var d := Box(false, 0, message.slots + v.slots);
    var shared := (map k | k in message.slots.Keys :: Same) - v.slots.Keys;
    MergedMirror(m, v, d, shared);
    var merged := AppendPath(m, MESSAGE, v);
    var cur := ReadIn(merged.doc, TEXT_SLOT);
    assert TEXT_SLOT[1..] == ["content", "parts", "0"];
    if !Has(v, "content") {
      assert OneText(d, text);
      TextWritten(merged.doc, text, text + token);
      var rest := ["parts", "0"];
      var w := Str(text + token);
      assert ["content", "parts", "0"][1..] == rest;
      ContentReached(message, shared, d, text, token);
      hide Reached, SetIn, ReadIn, MessageText;
      OneTextIsItsText(Reached(message, Parted(shared), d, ["content", "parts", "0"], w), text + token);
    }
  }

  lemma MergedMirror(m: Mirror, v: Json, d: Json, shared: map<Key, Link>)
    requires m.capture.Attached? && Has(m.doc, "message") && IsObject(Get(m.doc, "message")) && IsObject(v)
    requires d == Box(false, 0, Get(m.doc, "message").slots + v.slots)
    requires shared == (map k | k in Get(m.doc, "message").slots.Keys :: Same) - v.slots.Keys
    ensures var merged := AppendPath(m, MESSAGE, v);
            merged.capture == Behind(Get(m.doc, "message"), shared)
            && Has(merged.doc, "message") && Get(merged.doc, "message") == d
  {
    assert MESSAGE[1..] == [];
    assert ReadIn(m.doc, MESSAGE) == ReadIn(Get(m.doc, "message"), []);
  }

  lemma ContentReached(message: Json, shared: map<Key, Link>, d: Json, text: string, token: string)
    requires OneText(message, text) && IsObject(d)
    requires Name("content") in shared && shared[Name("content")] == Same && Name("content") in d.slots
    ensures OneText(Reached(message, Parted(shared), d, ["content", "parts", "0"], Str(text + token)), text + token)
  {
    var content := Get(message, "content");
    assert ["content", "parts", "0"][1..] == ["parts"] + ["0"];
    SetFirstPart(Get(content, "parts"), Str(text + token));
    SetProperty(content, "parts", ["0"], Str(text + token));
  }
}
