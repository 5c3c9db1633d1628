// browser-extension/src/adapters/chatgpt.ts frame by frame: what each kind of frame does to the
// document, the capture and the turn, in the terms of the frames themselves.
module ChatGptFrames {
  import opened Text
  import opened Json
  import opened ChatGptDoc
  import opened ChatGptAlias
  import opened ChatGpt

  /** { o, p, v } */
  function Delta(op: string, path: string, v: Json): Json {
    Box(false, 0, map[Name("o") := Str(op), Name("p") := Str(path), Name("v") := v])
  }

  lemma DeltaHolds(op: string, path: string, v: Json)
    ensures var d := Delta(op, path, v);
            && d.Box? && !d.isArray && Has(d, "o") && Has(d, "p") && Has(d, "v") && !Has(d, "type")
            && Get(d, "o") == Str(op) && Get(d, "p") == Str(path) && Get(d, "v") == v && Get(d, "type") == Undefined
  {
  }

  /** What a delta does is what its operation does; the cursor moves in any case. */
  lemma DeltaApplies(s: State, op: string, path: string, v: Json)
    ensures var o := Apply(s.mirror, Str(op), Str(path), v);
            HandleObject(s, Delta(op, path, v))
            == Outcome(s.(lastOp := Str(op), lastPath := Str(path), mirror := o.state), o.threw)
  {
    DeltaHolds(op, path, v);
    hide Apply, Delta;
  }

  // -------------------------------------------------------------- paths

  predicate AreNames(names: seq<string>) {
    names != [] && forall n | n in names :: n != "" && '/' !in n
  }

  function PathTo(names: seq<string>): string {
    "/" + Join(names, "/")
  }

  lemma PathLeads(names: seq<string>)
    requires AreNames(names)
    ensures Segments(PathTo(names)) == names && !AtRoot(Str(PathTo(names)))
  {
    hide Split, NonEmpty;
    var text := Join(names, "/");
    SplitOfJoin(names, '/');
    assert PathTo(names) == "" + ['/'] + text;
    SplitAtFirst("", text, '/');
    LeadingEmpty(names);
    NoneEmpty(names);
    assert names[0] in names;
    assert text != "" && PathTo(names)[1] == text[0];
  }

  // ------------------------------------------------ reading what is written

  /** Another path: it leaves the first one at some container of the document. */
  predicate Off(doc: Json, names: seq<string>, other: seq<string>)
    decreases names
  {
    names != [] && other != [] && doc.Box?
    && (KeyAt(doc.isArray, other[0]) != KeyAt(doc.isArray, names[0])
        || (KeyAt(doc.isArray, names[0]).Some? && KeyAt(doc.isArray, names[0]).value in doc.slots
            && Off(doc.slots[KeyAt(doc.isArray, names[0]).value], names[1..], other[1..])))
  }

  lemma {:induction false} SetReads(doc: Json, front: seq<string>, last: string, v: Json)
    requires var c := ReadIn(doc, front); c.Box? && KeyAt(c.isArray, last).Some?
    ensures var c, doc' := ReadIn(doc, front), SetIn(doc, front + [last], v);
            && ReadIn(doc', front) == WriteSlot(c, KeyAt(c.isArray, last).value, v)
            && ReadIn(doc', front + [last]) == v
    ensures !Blocked(doc, front + [last])
    decreases front
  {
    if front == [] {
      assert front + [last] == [last] && [last][1..] == [];
    } else {
      assert (front + [last])[1..] == front[1..] + [last];
      SetReads(doc.slots[KeyAt(doc.isArray, front[0]).value], front[1..], last, v);
    }
  }

  lemma {:induction false} SetKeepsOthers(doc: Json, names: seq<string>, other: seq<string>, v: Json)
    requires Off(doc, names, other)
    ensures ReadIn(SetIn(doc, names, v), other) == ReadIn(doc, other)
    decreases names
  {
    var key := KeyAt(doc.isArray, names[0]);
    if KeyAt(doc.isArray, other[0]) == key && |names| > 1 {
      SetKeepsOthers(doc.slots[key.value], names[1..], other[1..], v);
    }
  }

  lemma {:induction false} ReadSnoc(doc: Json, front: seq<string>, last: string)
    requires ReadIn(doc, front).Box? && KeyAt(ReadIn(doc, front).isArray, last).Some?
    ensures var c := ReadIn(doc, front); var key := KeyAt(c.isArray, last).value;
            ReadIn(doc, front + [last]) == if key in c.slots then c.slots[key] else Undefined
    decreases front
  {
    if front == [] {
      assert front + [last] == [last] && [last][1..] == [];
    } else {
      assert (front + [last])[1..] == front[1..] + [last];
      ReadSnoc(doc.slots[KeyAt(doc.isArray, front[0]).value], front[1..], last);
    }
  }

  /** The slot a last name stands for. */
  function SlotOf(c: Json, last: string): Key
    requires c.Box? && (c.isArray ==> AllDigits(last))
  {
    if c.isArray then Index(ParseNat(last)) else Name(last)
  }

  /** What an operation writes over what is there: `add` and `replace` the value given; `append` text
      behind text, an object's properties over an object's, and otherwise the value given. */
  function Written(op: string, was: Json, v: Json): Json {
    if op == "append" && v.Str? then Str((if was.Str? then was.s else "") + v.s)
    else if op == "append" && v.Box? && !v.isArray && was.Box? then Box(false, 0, was.slots + v.slots)
    else v
  }

  /** A delta that adds, replaces or appends at a path into an object or array that is there writes one
      slot of it, and everything off the path reads as before. */
  lemma DeltaWrites(s: State, op: string, names: seq<string>, v: Json)
    requires op in ["add", "replace", "append"] && AreNames(names)
    requires var c, last := ReadIn(s.mirror.doc, names[..|names| - 1]), names[|names| - 1];
             c.Box? && (c.isArray ==> AllDigits(last))
    ensures var front, last := names[..|names| - 1], names[|names| - 1];
            var c, o := ReadIn(s.mirror.doc, front), HandleObject(s, Delta(op, PathTo(names), v));
            var slot, doc := SlotOf(c, last), o.state.mirror.doc;
            var now := Written(op, if slot in c.slots then c.slots[slot] else Undefined, v);
            && !o.threw && ReadIn(doc, names) == now
            && ReadIn(doc, front) == Box(c.isArray,
                                         if slot.Index? && slot.index >= c.length then slot.index + 1 else c.length,
                                         c.slots[slot := now])
            && (forall other | Off(s.mirror.doc, names, other) :: ReadIn(doc, other) == ReadIn(s.mirror.doc, other))
            && o.state == s.(mirror := o.state.mirror, lastOp := Str(op), lastPath := Str(PathTo(names)))
            && (s.mirror.capture.Nothing? ==> o.state.mirror.capture.Nothing?)
            && (s.mirror.capture.Attached? && names != ["message"] ==> o.state.mirror.capture.Attached?)
  {
    hide *;
    NamesSplit(names);
    var m, path, front, last := s.mirror, PathTo(names), names[..|names| - 1], names[|names| - 1];
    var c := ReadIn(m.doc, front);
    SlotIs(c, last);
    ReadSnoc(m.doc, front, last);
    PathLeads(names);
    DeltaApplies(s, op, path, v);
    var now := Written(op, ReadIn(m.doc, names), v);
    SetReads(m.doc, front, last, now);
    SlotWritten(c, last, now);
    OperationWrites(m, op, path, names, v);
    OthersStay(m.doc, names, now);
  }

  lemma OthersStay(doc: Json, names: seq<string>, v: Json)
    ensures forall other | Off(doc, names, other) :: ReadIn(SetIn(doc, names, v), other) == ReadIn(doc, other)
  {
    hide ReadIn, SetIn, Off;
    forall other | Off(doc, names, other) ensures ReadIn(SetIn(doc, names, v), other) == ReadIn(doc, other) {
      SetKeepsOthers(doc, names, other, v);
    }
  }

  lemma NamesSplit(names: seq<string>)
    requires AreNames(names)
    ensures names != [] && names == names[..|names| - 1] + [names[|names| - 1]] && names[|names| - 1] != ""
  {
    assert names[|names| - 1] in names;
  }

  lemma SlotIs(c: Json, last: string)
    requires c.Box? && (c.isArray ==> AllDigits(last)) && last != ""
    ensures KeyAt(c.isArray, last) == Some(SlotOf(c, last))
  {
  }

  lemma SlotWritten(c: Json, last: string, v: Json)
    requires c.Box? && (c.isArray ==> AllDigits(last)) && last != ""
    ensures var slot := SlotOf(c, last);
            WriteSlot(c, slot, v) == Box(c.isArray,
                                         if slot.Index? && slot.index >= c.length then slot.index + 1 else c.length,
                                         c.slots[slot := v])
  {
  }

  lemma OperationWrites(m: Mirror, op: string, path: string, names: seq<string>, v: Json)
    requires op in ["add", "replace", "append"] && Segments(path) == names && !AtRoot(Str(path))
    requires !Blocked(m.doc, names) && names != []
    ensures var o, now := Apply(m, Str(op), Str(path), v), Written(op, ReadIn(m.doc, names), v);
            && !o.threw && o.state.doc == SetIn(m.doc, names, now)
            && (m.capture.Nothing? ==> o.state.capture.Nothing?)
            && (m.capture.Attached? && names != ["message"] ==> o.state.capture.Attached?)
  {
    assert Written(op, ReadIn(m.doc, names), v)
        == if op == "append" then Appended(ReadIn(m.doc, names), v) else v;
    assert names == [names[0]] + names[1..];
    assert names[1..] == [] ==> names == [names[0]];
    hide SetIn, ReadIn, Segments, Blocked, Appended, Written, Reached;
  }

  /** A delta at a path into a string, number or boolean throws, and so does one whose path is no string;
      the document stays. */
  lemma DeltaThrows(s: State, op: string, names: seq<string>, v: Json, path: Json)
    requires op in ["add", "replace", "append"] && AreNames(names)
    ensures var c, o := ReadIn(s.mirror.doc, names[..|names| - 1]), HandleObject(s, Delta(op, PathTo(names), v));
            c.Str? || c.Num? || c.Bool? ==> o.threw && o.state.mirror == s.mirror
    ensures !path.Str? ==>
              var d := Delta(op, "", v);
              var o := HandleObject(s, d.(slots := d.slots[Name("p") := path]));
              o.threw && o.state.mirror == s.mirror
  {
    var front, last := names[..|names| - 1], names[|names| - 1];
    assert names == front + [last];
    PathLeads(names);
    DeltaApplies(s, op, PathTo(names), v);
    var c := ReadIn(s.mirror.doc, front);
    if c.Str? || c.Num? || c.Bool? {
      PrimitiveBlocks(s.mirror.doc, front, last);
    }
    if !path.Str? {
      var d := Delta(op, "", v);
      BadPath(s, op, d.(slots := d.slots[Name("p") := path]), path);
    }
  }

  lemma BadPath(s: State, op: string, d: Json, path: Json)
    requires op in ["add", "replace", "append"] && !path.Str? && d.Box? && !d.isArray && !Has(d, "type")
    requires Has(d, "o") && Get(d, "o") == Str(op) && Has(d, "p") && Get(d, "p") == path
    ensures var o := HandleObject(s, d); o.threw && o.state.mirror == s.mirror
  {
  }

  lemma {:induction false} PrimitiveBlocks(doc: Json, front: seq<string>, last: string)
    requires var c := ReadIn(doc, front); c.Str? || c.Num? || c.Bool?
    ensures Blocked(doc, front + [last])
    decreases front
  {
    if front == [] {
      assert front + [last] == [last];
    } else {
      assert (front + [last])[1..] == front[1..] + [last];
      PrimitiveBlocks(doc.slots[KeyAt(doc.isArray, front[0]).value], front[1..], last);
    }
  }

  /** Where the way to the container ends in a null or in a slot that is missing, nothing happens. */
  lemma DeltaMisses(s: State, op: string, names: seq<string>, v: Json, i: nat)
    requires op in ["add", "replace", "append"] && AreNames(names) && i < |names|
    requires var c := ReadIn(s.mirror.doc, names[..i]);
             c.Null? || (c.Undefined? && (i == 0 || ReadIn(s.mirror.doc, names[..i - 1]).Box?))
    ensures var o := HandleObject(s, Delta(op, PathTo(names), v)); !o.threw && o.state.mirror.doc == s.mirror.doc
  {
    PathLeads(names);
    DeltaApplies(s, op, PathTo(names), v);
    MissingNames(s.mirror.doc, names, i, v);
    MissingNames(s.mirror.doc, names, i, Appended(ReadIn(s.mirror.doc, names), v));
    hide Segments, SetIn, ReadIn, Blocked, PathTo, Delta, Appended;
  }

  lemma {:induction false} MissingNames(doc: Json, names: seq<string>, i: nat, v: Json)
    requires i < |names|
    requires var c := ReadIn(doc, names[..i]); c.Null? || (c.Undefined? && (i == 0 || ReadIn(doc, names[..i - 1]).Box?))
    ensures SetIn(doc, names, v) == doc && !Blocked(doc, names)
    decreases names
  {
    if i > 0 && doc.Box? && KeyAt(doc.isArray, names[0]).Some? {
      var key := KeyAt(doc.isArray, names[0]).value;
      if key in doc.slots {
        assert names[..i][1..] == names[1..][..i - 1];
        if i > 1 { assert names[..i - 1][1..] == names[1..][..i - 2]; }
        MissingNames(doc.slots[key], names[1..], i - 1, v);
        assert doc.slots[key := doc.slots[key]] == doc.slots;
      }
    }
  }

  /** On the text of the captured message: `append` puts text behind it, `add` and `replace` put other
      text in its place. */
  lemma DeltaOnText(s: State, op: string, text: string, t: string)
    requires op in ["add", "replace", "append"] && s.mirror.capture.Attached?
    requires Has(s.mirror.doc, "message") && OneText(Get(s.mirror.doc, "message"), text)
    ensures var o := HandleObject(s, Delta(op, "/message/content/parts/0", Str(t)));
            !o.threw && MessageText(Captured(o.state.mirror)) == Some(if op == "append" then text + t else t)
  {
    var path, now := "/message/content/parts/0", if op == "append" then text + t else t;
    hide *;
    OnText(op, text, t);
    DeltaApplies(s, op, path, Str(t));
    TextWritten(s.mirror.doc, text, now);
    OperationWrites(s.mirror, op, path, TEXT_SLOT, Str(t));
    TextReads(HandleObject(s, Delta(op, path, Str(t))).state.mirror, now);
  }

  lemma OnText(op: string, text: string, t: string)
    requires op in ["add", "replace", "append"]
    ensures Written(op, Str(text), Str(t)) == Str(if op == "append" then text + t else t)
    ensures !AtRoot(Str("/message/content/parts/0")) && TEXT_SLOT != ["message"] && TEXT_SLOT != []
    ensures Segments("/message/content/parts/0") == TEXT_SLOT
  {
    TextPath();
    hide Segments;
    assert |TEXT_SLOT| == 4;
  }

  lemma TextReads(m: Mirror, text: string)
    requires m.capture.Attached? && OneText(Get(m.doc, "message"), text)
    ensures MessageText(Captured(m)) == Some(text)
  {
    OneTextIsItsText(Get(m.doc, "message"), text);
  }

  // ---------------------------------------------------------- new roots

  /** A delta that adds a root: its message is captured when its author is the assistant and it is
      addressed to nobody in particular or to all, and given one empty text part if it has no list of
      parts; otherwise what was captured is left behind with what it holds. */
  lemma RootDelta(s: State, path: string, v: Json)
    requires path in ["", "/"]
    ensures var o, m := HandleObject(s, Delta("add", path, v)), Get(v, "message");
            var content := Get(m, "content");
            var recipient, parts := Get(m, "recipient"), Get(content, "parts");
            var shown := Truthy(m) && Get(Get(m, "author"), "role") == Str("assistant")
                         && (recipient == Undefined || recipient == Null || recipient == Str("all"));
            var empty := Box(false, 0, map[Name("parts") := Box(true, 1, map[Index(0) := Str("")])]);
            && !o.threw
            && o.state == s.(mirror := o.state.mirror, lastOp := Str("add"), lastPath := Str(path))
            && o.state.mirror.doc
               == (if shown && !(Truthy(content) && parts.Box? && parts.isArray)
                   then v.(slots := v.slots[Name("message") := m.(slots := m.slots[Name("content") := empty])])
                   else v)
            && o.state.mirror.capture
               == if shown then Attached
                  else if s.mirror.capture.Nothing? then Nothing else Behind(Captured(s.mirror), map[])
  {
    DeltaApplies(s, "add", path, v);
    hide Delta;
    if Visible(v) && !HasParts(Get(v, "message")) {
      PreparedIs(v);
    }
    hide SetIn;
  }

  lemma PreparedIs(v: Json)
    requires Visible(v)
    ensures v.Box? && !v.isArray && Get(v, "message").Box? && !Get(v, "message").isArray
    ensures var m := Get(v, "message");
            SetIn(v, ["message", "content"], NO_CONTENT)
            == v.(slots := v.slots[Name("message") := m.(slots := m.slots[Name("content") := NO_CONTENT])])
  {
    var m := Get(v, "message");
    assert ["message", "content"][1..] == ["content"];
    assert SetIn(m, ["content"], NO_CONTENT) == WriteSlot(m, Name("content"), NO_CONTENT);
  }

  // ------------------------------------------------- patches and events

  function Listed(items: seq<Json>): Json {
    Box(true, |items|, map i | 0 <= i < |items| :: Index(i) := items[i])
  }

  /** An item as a frame of its own: one without a path is at the root. */
  function AsFrame(item: Json): Json {
    if !item.Box? then item
    else item.(slots := item.slots[Name("p") := if Nullish(Get(item, "p")) then Str("") else Get(item, "p")])
  }

  function AsFrames(items: seq<Json>): seq<Json> {
    if items == [] then [] else AsFrames(items[..|items| - 1]) + [AsFrame(items[|items| - 1])]
  }

  predicate IsItem(item: Json) {
    item.Box? && !item.isArray && Has(item, "o") && Has(item, "v")
  }

  /** A patch does to document and capture what its items do as frames, one after the other, up to one
      that throws. */
  lemma PatchIsItsFrames(s: State, path: string, items: seq<Json>)
    requires forall i | i in items :: IsItem(i)
    ensures var o, each := HandleObject(s, Delta("patch", path, Listed(items))), HandleAll(s, AsFrames(items));
            o.threw == each.threw && o.state.mirror == each.state.mirror
  {
    DeltaApplies(s, "patch", path, Listed(items));
    hide Delta, ApplyItems;
    ItemsAreFrames(s, items, |items|);
    assert items[..|items|] == items;
  }

  lemma {:induction false} ItemsAreFrames(s: State, items: seq<Json>, n: nat)
    requires n <= |items| && forall i | i in items :: IsItem(i)
    ensures var o, each := ApplyItems(s.mirror, Listed(items), n), HandleAll(s, AsFrames(items[..n]));
            o.threw == each.threw && o.state == each.state.mirror
  {
    if n > 0 {
      var front, item := items[..n - 1], items[n - 1];
      assert items[..n] == front + [item] && item in items;
      hide Apply, Listed, HandleObject, HandleAll, ApplyItems, AsFrames, AsFrame, ItemPath;
      ItemsAreFrames(s, items, n - 1);
      FramesSnoc(front, item);
      HandleAllSnoc(s, AsFrames(front), AsFrame(item));
      ItemIsFrame(HandleAll(s, AsFrames(front)).state, item);
      ListedStep(s.mirror, items, n);
    } else {
      assert items[..0] == [];
    }
  }

  /** An item that is null ends a patch with an exception, after what the items before it did; a number, a
      string or a boolean does nothing. */
  lemma OddItem(s: State, path: string, items: seq<Json>, odd: Json)
    requires (forall i | i in items :: IsItem(i)) && !HandleAll(s, AsFrames(items)).threw
    requires odd.Null? || odd.Num? || odd.Str? || odd.Bool?
    ensures var o := HandleObject(s, Delta("patch", path, Listed(items + [odd])));
            o.threw == odd.Null? && o.state.mirror == HandleAll(s, AsFrames(items)).state.mirror
  {
    hide *;
    DeltaApplies(s, "patch", path, Listed(items + [odd]));
    PatchIsItems(s.mirror, path, items + [odd]);
    OddStep(s.mirror, items, odd);
    assert items[..|items|] == items;
    ItemsAreFrames(s, items, |items|);
  }

  lemma PatchIsItems(m: Mirror, path: string, items: seq<Json>)
    ensures Apply(m, Str("patch"), Str(path), Listed(items)) == ApplyItems(m, Listed(items), |items|)
  {
    hide ApplyItems, ApplyPlain;
  }

  lemma OddStep(m: Mirror, items: seq<Json>, odd: Json)
    requires odd.Null? || odd.Num? || odd.Str? || odd.Bool?
    ensures var before := ApplyItems(m, Listed(items), |items|);
            ApplyItems(m, Listed(items + [odd]), |items| + 1)
            == if before.threw then before else Outcome(before.state, odd.Null?)
  {
    var all, n := items + [odd], |items|;
    assert items[..n] == items && all[..n] == items;
    SameItems(m, items, all, n);
    assert Item(Listed(all), n) == odd;
    hide Listed;
  }

  lemma {:induction false} SameItems(m: Mirror, items: seq<Json>, all: seq<Json>, n: nat)
    requires n <= |items| <= |all| && all[..n] == items[..n]
    ensures ApplyItems(m, Listed(all), n) == ApplyItems(m, Listed(items), n)
    decreases n
  {
    if n > 0 {
      assert all[..n - 1] == all[..n][..n - 1] && items[..n - 1] == items[..n][..n - 1];
      assert all[n - 1] == all[..n][n - 1] && items[n - 1] == items[..n][n - 1];
      SameItems(m, items, all, n - 1);
      assert Item(Listed(all), n - 1) == Item(Listed(items), n - 1);
      hide Listed, Apply, ApplyPlain;
    }
  }

  lemma FramesSnoc(front: seq<Json>, item: Json)
    ensures AsFrames(front + [item]) == AsFrames(front) + [AsFrame(item)]
  {
    hide AsFrame;
    assert (front + [item])[..|front|] == front;
  }

  lemma ListedStep(m: Mirror, items: seq<Json>, n: nat)
    requires 0 < n <= |items| && IsItem(items[n - 1])
    ensures var before, item := ApplyItems(m, Listed(items), n - 1), items[n - 1];
            ApplyItems(m, Listed(items), n)
            == if before.threw then before else Apply(before.state, Get(item, "o"), ItemPath(item), Get(item, "v"))
  {
    hide Apply, ItemPath;
    assert Item(Listed(items), n - 1) == items[n - 1];
  }

  lemma ItemIsFrame(s: State, item: Json)
    requires IsItem(item)
    ensures var o, a := HandleObject(s, AsFrame(item)), Apply(s.mirror, Get(item, "o"), ItemPath(item), Get(item, "v"));
            o.threw == a.threw && o.state.mirror == a.state
  {
    hide Apply;
    var f := AsFrame(item);
    assert Has(f, "o") && Has(f, "v") && Has(f, "p") && Get(f, "p") == ItemPath(item);
    assert Get(f, "o") == Get(item, "o") && Get(f, "v") == Get(item, "v");
  }

  /** Any other operation only moves the cursor. */
  lemma OtherDelta(s: State, op: string, path: string, v: Json)
    requires op !in ["add", "replace", "append", "patch"] || (op == "patch" && !(v.Box? && v.isArray))
    ensures HandleObject(s, Delta(op, path, v)) == Outcome(s.(lastOp := Str(op), lastPath := Str(path)), false)
  {
    DeltaApplies(s, op, path, v);
    hide Delta;
  }

  /** A typed frame without a delta: a token names the session if none is known, an end completes, and
      nothing else says anything. */
  lemma TypedFrame(s: State, obj: Json)
    requires Get(obj, "type").Str? && (!Has(obj, "v") || (!Has(obj, "o") && !Has(obj, "p")))
    ensures var kind, id := Get(obj, "type").s, Get(obj, "conversation_id");
            HandleObject(s, obj)
            == Outcome(if kind == "resume_conversation_token" && s.sessionId == "" && id.Str? then s.(sessionId := id.s)
                       else if kind == "message_stream_complete" then s.(completed := true)
                       else s, false)
  {
  }

  /** With a value and an operation or a path a typed frame is a delta like any other. */
  lemma TypedDelta(s: State, obj: Json)
    requires obj.Box? && !obj.isArray && Get(obj, "type").Str? && Has(obj, "v") && (Has(obj, "o") || Has(obj, "p"))
    ensures HandleObject(s, obj) == HandleObject(s, obj.(slots := obj.slots - {Name("type")}))
  {
    hide Apply, Control;
    var bare := obj.(slots := obj.slots - {Name("type")});
    assert Get(bare, "type") == Undefined && Get(bare, "v") == Get(obj, "v");
    assert NextOp(s, bare) == NextOp(s, obj) && NextPath(s, bare) == NextPath(s, obj);
  }

  /** Events: the sentinel completes; the announcement of the encoding, data that is empty, does not
      decode or is no object say nothing; anything else is a frame. */
  lemma EventSays(s: State, decode: string -> Option<Json>, event: string, data: string)
    ensures Receive(s, decode, event, data)
         == if data == "[DONE]" then Outcome(s.(completed := true), false)
            else if data == "" || event == "delta_encoding" || decode(data).None? || !decode(data).value.Box?
            then Outcome(s, false)
            else HandleObject(s, decode(data).value)
  {
    hide Apply, Control;
  }

  // ---------------------------------------------------------- the turn

  /** The strings of a list, joined. */
  function Strings(items: seq<Json>): string {
    if items == [] then ""
    else Strings(items[..|items| - 1]) + match items[|items| - 1] case Str(t) => t case _ => ""
  }

  lemma {:induction false} PartsAreStrings(items: seq<Json>, n: nat)
    requires n <= |items|
    ensures PartsText(Listed(items), n) == Strings(items[..n])
  {
    if n > 0 {
      PartsAreStrings(items, n - 1);
      assert items[..n][..n - 1] == items[..n - 1] && Item(Listed(items), n - 1) == items[n - 1];
      assert PartsText(Listed(items), n - 1) + "" == PartsText(Listed(items), n - 1);
    } else {
      assert items[..0] == [];
    }
  }

  /** The turn of a captured message with a list of parts, field by field: the prompt is the request's
      and the text the joined strings; session, key and model have their fallbacks. There is none
      without prompt and text. */
  lemma TurnSays(s: State, r: Request, items: seq<Json>)
    requires Get(Get(Captured(s.mirror), "content"), "parts") == Listed(items)
    ensures var message, text, made := Captured(s.mirror), Strings(items), TurnOf(s, r);
            var id, slug, groups := Get(message, "id"), Get(Get(message, "metadata"), "model_slug"),
                                    Get(Get(message, "metadata"), "search_result_groups");
            && made.Made?
            && if text == "" && r.prompt == "" then made.value == None
               else
                 made.value.Some? && var t := made.value.value;
                 && t.prompt == r.prompt && t.text == text && t.completed == s.completed
                 && t.sessionId == (if s.sessionId != "" then s.sessionId else "chatgpt-unknown-" + Show(r.id))
                 && t.turnKey == (if Truthy(id) then id else Str("r" + Show(r.id)))
                 && t.responseModel == (if !Nullish(slug) then slug
                                        else if r.model.Some? then Str(r.model.value) else Undefined)
                 && t.searchGroups == if groups.Box? && groups.isArray && groups.length > 0 then groups else Undefined
  {
    PartsAreStrings(items, |items|);
    assert items[..|items|] == items;
    hide PartsText, Strings, Show, Captured;
  }

  /** Without parts the text is empty, and with parts that are no list the code throws. */
  lemma NoPartsSay(s: State, r: Request)
    ensures var parts, made := Get(Get(Captured(s.mirror), "content"), "parts"), TurnOf(s, r);
            && (made.Threw? <==> !Nullish(parts) && !(parts.Box? && parts.isArray))
            && (Nullish(parts) ==> (made == Made(None) <==> r.prompt == "")
                                   && (r.prompt != "" ==> made.value.Some? && made.value.value.text == ""
                                                          && made.value.value.prompt == r.prompt))
  {
    hide PartsText, Show, Captured;
  }
}
