// browser-extension/src/adapters/chatgpt.ts: the parser itself, writing into a document of
// mutable objects with an alias into it, proved against the functions of ChatGpt.
module ChatGptParsing {
  import opened Text
  import opened Json
  import opened ChatGptDoc
  import opened ChatGptAlias
  import opened ChatGpt

  lemma MessageDoc(tree: Tree, alias: Tree)
    requires SlotLinked(tree, alias, Same)
    ensures HasSlot(tree) && tree.kids[MESSAGE_KEY] == alias && Doc(alias) == Get(Doc(tree), "message")
  {
  }

  /** The located container, and the slot in it, have the shapes found. */
  lemma {:induction false} TargetMatches(t: Tree, v: Val, segs: seq<string>)
    requires Matches(t, v) && Target(t, segs).Some?
    ensures var (b, key) := Target(t, segs).value;
            b.node.slots.Keys == b.kids.Keys && (key in b.kids ==> Matches(b.kids[key], b.node.slots[key]))
    decreases segs
  {
    if |segs| > 1 {
      var at := KeyAt(t.isArray, segs[0]).value;
      TargetMatches(t.kids[at], t.node.slots[at], segs[1..]);
    }
  }

  /** A slot of a container holds a primitive just when the JSON value's does. */
  lemma SlotMatches(t: Tree, v: Val, key: Key)
    requires Matches(t, v) && v.Ref?
    ensures var j := Doc(t);
            && j.Box? && (key in v.node.slots <==> key in j.slots)
            && (key in v.node.slots ==>
                  (v.node.slots[key].Prim? <==> !j.slots[key].Box?)
                  && (v.node.slots[key].Prim? ==> v.node.slots[key].j == j.slots[key]))
  {
    if key in v.node.slots {
      ValueMatches(t.kids[key], v.node.slots[key]);
    }
  }

  lemma WriteNodes(tree: Tree, alias: Tree, b: Tree, key: Key, sub: Tree, seen: set<JsObject>)
    requires Nodes(tree) <= seen && Nodes(sub) <= seen
    ensures Nodes(Graft(tree, b.node, key, sub)) <= seen
    ensures Nodes(alias) <= seen ==> Nodes(Graft(alias, b.node, key, sub)) <= seen
    requires b.Branch?
  {
    GraftNodes(tree, b.node, key, sub);
    GraftNodes(alias, b.node, key, sub);
  }

  /** A captured message outside the document is out of reach. */
  lemma OutOfReach(tree: Tree, alias: Tree, segs: seq<string>, b: Tree, key: Key, sub: Tree,
                   change: Change, seen: set<JsObject>)
    requires Apart(tree) && Apart(alias) && Nodes(alias) !! Nodes(tree) && Target(tree, segs) == Some((b, key))
    requires Nodes(tree) + Nodes(alias) <= seen && Stands(sub, KidAt(b, key), change, seen) && Apart(sub)
    ensures Graft(alias, b.node, key, sub) == alias && Nodes(alias) !! Nodes(Graft(tree, b.node, key, sub))
  {
    hide Stands, SlotLinked, Graft, Apart;
    ApartSlot(tree, alias);
    SlotGraft(tree, alias, UNLINKED, segs, b, key, sub, change, seen);
    UnlinkedStays(Doc(tree), Doc(alias), segs, change, Doc(sub));
    ApartSlot(Graft(tree, b.node, key, sub), Graft(alias, b.node, key, sub));
    WriteWithin(tree, segs, b, key, sub, change, seen);
    GraftIdle(alias, b.node, key, sub);
  }

  class ChatGptParser {
    const request: Request
    var sessionId: string
    var lastOp: Json
    var lastPath: Json
    var root: Val
    var assistantMsg: JsObject?
    var completedAt: bool
    ghost var tree: Tree   // the shape of `root`
    ghost var alias: Tree  // the shape of `assistantMsg`
    ghost var objects: set<JsObject>  // everything either of them is made of, or once was

    ghost predicate Valid()
      reads `root, `assistantMsg, `tree, `alias, `objects, Nodes(tree), Nodes(alias)
    {
      && Matches(tree, root) && Apart(tree) && Nodes(tree) + Nodes(alias) <= objects
      && (assistantMsg != null ==> Matches(alias, Ref(assistantMsg)) && Apart(alias))
    }

    /** The captured message is what the mirror says, and meets the document where it says. */
    ghost predicate Agrees(m: Mirror)
      reads `assistantMsg, `tree, `alias
    {
      && (m.capture.Nothing? <==> assistantMsg == null)
      && (assistantMsg != null ==> Doc(alias) == Captured(m) && SlotLinked(tree, alias, LinkOf(m.capture)))
    }

    /** The heap holds what the mirror says. */
    ghost predicate Shows(m: Mirror)
      reads `root, `assistantMsg, `tree, `alias, `objects, Nodes(tree), Nodes(alias)
    {
      Valid() && Doc(tree) == m.doc && Agrees(m)
    }

    /** A captured message outside the document is the same object, with the same value, and still
        outside. */
    twostate predicate Frozen()
      reads `assistantMsg, `tree, `alias
    {
      old(assistantMsg) != null && Nodes(old(alias)) !! Nodes(old(tree)) ==>
        assistantMsg == old(assistantMsg) && alias == old(alias) && Nodes(alias) !! Nodes(tree)
    }

    ghost function View(m: Mirror): State
      reads this
    {
      State(m, lastOp, lastPath, sessionId, completedAt)
    }

    constructor (request: Request, sessionId: string)
      ensures View(Mirror(Null, Nothing)) == State(Mirror(Null, Nothing), Str(""), Str(""), sessionId, false)
      ensures Shows(Mirror(Null, Nothing)) && this.request == request && objects == {}
    {
      this.request, this.sessionId, lastOp, lastPath := request, sessionId, Str(""), Str("");
      root, assistantMsg, completedAt := Prim(Null), null, false;
      tree, alias, objects := Leaf(Null), Leaf(Null), {};
    }

    /** One assignment into the document, and what it does to the two shapes. */
    method Assign(node: JsObject, key: Key, val: Val, ghost b: Tree, ghost sub: Tree, ghost used: set<JsObject>)
      requires Valid() && b.Branch? && b.node == node
      requires Matches(sub, val) && node !in Nodes(sub) && Nodes(sub) <= used
      requires Apart(Graft(tree, node, key, sub))
      requires assistantMsg != null ==> Apart(Graft(alias, node, key, sub))
      modifies `tree, `alias, `objects, node
      ensures Valid() && objects == old(objects) + used
      ensures tree == Graft(old(tree), node, key, sub)
      ensures assistantMsg != null ==> alias == Graft(old(alias), node, key, sub)
    {
      hide Apart, Matches, Graft, Nodes;
      ghost var seen := objects + used;
      ghost var tree', alias' := Graft(tree, node, key, sub), Graft(alias, node, key, sub);
      WriteNodes(tree, alias, b, key, sub, seen);
      ghost var shapes := [(tree, root)] + if assistantMsg != null then [(alias, Ref(assistantMsg))] else [];
      AssignIn(node, key, val, sub, shapes, seen);
      assert Matches(tree', root) by { assert shapes[0] == (tree, root); }
      if assistantMsg != null {
        assert Matches(alias', Ref(assistantMsg)) by { assert shapes[1] == (alias, Ref(assistantMsg)); }
        alias := alias';
      }
      tree, objects := tree', seen;
    }

    /** An assignment at a located path, of a value that stands in for the old one as `change` says. */
    method Store(segs: seq<string>, node: JsObject, key: Key, val: Val, ghost change: Change,
                 ghost b: Tree, ghost sub: Tree, ghost used: set<JsObject>, ghost m: Mirror)
      requires Shows(m) && Target(tree, segs) == Some((b, key)) && b.node == node
      requires Matches(sub, val) && Apart(sub) && Nodes(sub) <= used && Stands(sub, KidAt(b, key), change, objects)
      modifies `tree, `alias, `objects, node
      ensures Shows(WritePath(m, segs, Doc(sub), change))
      ensures objects == old(objects) + used
      ensures Frozen()
    {
      hide Graft, Apart, Matches, SetIn, Target, Nodes, Stands, SlotLinked, SlotLinkAfter, SlotReached;
      WriteApart(tree, segs, b, key, sub, change, objects);
      GraftIsSet(tree, segs, sub);
      if assistantMsg != null {
        SlotGraft(tree, alias, LinkOf(m.capture), segs, b, key, sub, change, objects);
        if Nodes(alias) !! Nodes(tree) {
          OutOfReach(tree, alias, segs, b, key, sub, change, objects);
        }
      }
      Assign(node, key, val, b, sub, used);
      if assistantMsg != null {
        CapturedAfter(m, segs, Doc(sub), change, old(tree), tree, alias);
      }
    }

    /** setAt: an assignment at a path of a value decoded for it. */
    method SetAt(segs: seq<string>, v: Json, ghost m: Mirror) returns (threw: bool)
      requires Shows(m)
      modifies `tree, `alias, `objects, Nodes(tree)
      ensures threw == Blocked(m.doc, segs)
      ensures Shows(if threw then m else WritePath(m, segs, v, Replaced))
      ensures fresh(objects - old(objects)) && Frozen()
    {
      var loc, blocked := Locate(root, segs, tree);
      if blocked {
        return true;
      }
      threw := false;
      if loc.None? {
        NothingWritten(tree, alias, segs, v, Replaced, m);
        return;
      }
      var (node, key) := loc.value;
      ghost var b := Target(tree, segs).value.0;
      TargetWithin(tree, segs);
      var val, sub := Build(v);
      Store(segs, node, key, val, Replaced, b, sub, Nodes(sub), m);
    }

    /** appendAt: text is concatenated, an object is merged into an object, anything else replaces. */
    method AppendAt(segs: seq<string>, v: Json, ghost m: Mirror) returns (threw: bool)
      requires Shows(m)
      modifies `tree, `alias, `objects, Nodes(tree)
      ensures threw == Blocked(m.doc, segs)
      ensures Shows(if threw then m else AppendPath(m, segs, v))
      ensures fresh(objects - old(objects)) && Frozen()
    {
      hide Graft, Apart, Matches, SetIn, ReadIn, Target, Nodes, SlotLinked, Linked, Captured;
      var loc, blocked := Locate(root, segs, tree);
      if blocked {
        return true;
      }
      threw := false;
      if loc.None? {
        var cur := ReadIn(m.doc, segs);
        NothingWritten(tree, alias, segs, Appended(cur, v), AppendChange(cur, v), m);
        return;
      }
      var (node, key) := loc.value;
      ghost var b := Target(tree, segs).value.0;
      ghost var was := KidAt(b, key);
      TargetWithin(tree, segs);
      TargetReads(tree, segs);
      TargetMatches(tree, root, segs);
      LeafShape(Undefined);
      var cur := if key in node.slots then node.slots[key] else Prim(Undefined);
      ValueMatches(was, cur);
      if v.Str? {
        AppendText(segs, node, key, if cur.Prim? && cur.j.Str? then cur.j.s else "", v, b, m);
      } else if v.Box? && !v.isArray && cur.Ref? {
        Merge(segs, node, key, cur.node, v, b, was, m);
      } else {
        var val, sub := Build(v);
        Store(segs, node, key, val, Replaced, b, sub, Nodes(sub), m);
      }
    }

    /** Text behind the text that is there. */
    method AppendText(segs: seq<string>, node: JsObject, key: Key, cur: string, v: Json, ghost b: Tree, ghost m: Mirror)
      requires Shows(m) && Target(tree, segs) == Some((b, key)) && b.node == node && v.Str?
      requires Appended(ReadIn(m.doc, segs), v) == Str(cur + v.s)
      modifies `tree, `alias, `objects, node
      ensures Shows(AppendPath(m, segs, v))
      ensures objects == old(objects) && Frozen()
    {
      hide Graft, Apart, Matches, SetIn, ReadIn, Target, Nodes, SlotLinked, Linked, Captured;
      var text := Str(cur + v.s);
      LeafShape(text);
      Store(segs, node, key, Prim(text), Replaced, b, Leaf(text), {}, m);
    }

    /** A new object with the properties of `cur` and then those of `v`, in place of `cur`. */
    method Merge(segs: seq<string>, node: JsObject, key: Key, cur: JsObject, v: Json,
                 ghost b: Tree, ghost was: Tree, ghost m: Mirror)
      requires Shows(m) && Target(tree, segs) == Some((b, key)) && b.node == node
      requires was == KidAt(b, key) && was.Branch? && Matches(was, Ref(cur))
      requires v.Box? && !v.isArray && ReadIn(m.doc, segs) == Doc(was)
      modifies `tree, `alias, `objects, node
      ensures Shows(AppendPath(m, segs, v))
      ensures fresh(objects - old(objects)) && Frozen()
    {
      hide Graft, Apart, Matches, SetIn, ReadIn, Target, Nodes, SlotLinked, Linked, Captured;
      TargetWithin(tree, segs);
      KidWithin(tree, segs);
      var merged, sub := MergeObjects(cur, v, was, objects);
      Store(segs, node, key, Ref(merged), Merged(v.slots.Keys), b, sub, Nodes(sub), m);
    }

    /** Whether the document's message is an assistant message for everyone. */
    method IsVisible() returns (visible: bool)
      requires Matches(tree, root)
      ensures visible == Visible(Doc(tree))
    {
      hide Matches, Apart, Nodes;
      var m := Prop(root, "message");
      PropMatches(tree, root, "message");
      ghost var mt := PropTree(tree, "message");
      ValueMatches(mt, m);
      var author := Prop(m, "author");
      PropMatches(mt, m, "author");
      ghost var at := PropTree(mt, "author");
      var role := Prop(author, "role");
      PropMatches(at, author, "role");
      ValueMatches(PropTree(at, "role"), role);
      var recipient := Prop(m, "recipient");
      PropMatches(mt, m, "recipient");
      ValueMatches(PropTree(mt, "recipient"), recipient);
      if m.Prim? && !Truthy(m.j) {
        return false;
      }
      if role != Prim(Str("assistant")) {
        return false;
      }
      return recipient == Prim(Undefined) || recipient == Prim(Null) || recipient == Prim(Str("all"));
    }

    /** add at the root: a new document, and a new capture if its message is a visible one. */
    method AddAtRoot(v: Json, ghost m: Mirror)
      requires Shows(m)
      modifies `root, `assistantMsg, `tree, `alias, `objects
      ensures Shows(AddRoot(m, v))
      ensures fresh(objects - old(objects))
      ensures !Visible(v) ==> assistantMsg == old(assistantMsg)
      ensures !Visible(v) && assistantMsg != null ==> alias == old(alias) && Nodes(alias) !! Nodes(tree)
    {
      hide Matches, Apart, Nodes, Visible, HasParts, SetIn, NO_CONTENT, SlotLinked, Captured;
      var val, shape := Build(v);
      root, tree, objects := val, shape, objects + Nodes(shape);
      var visible := IsVisible();
      if visible {
        TrackAssistant(v);
      } else if assistantMsg != null {
        ApartSlot(tree, alias);
        BehindIs(m, v);
      }
    }

    /** Record the visible message, giving it one empty text part if it has none. */
    method TrackAssistant(ghost v: Json)
      requires Matches(tree, root) && Apart(tree) && Nodes(tree) <= objects && Doc(tree) == v && Visible(v)
      modifies `assistantMsg, `tree, `alias, `objects, Nodes(tree)
      ensures Shows(Mirror(Prepared(v), Attached))
      ensures fresh(objects - old(objects))
    {
      hide Matches, Apart, Nodes, Graft, NO_CONTENT, SetIn, Linked;
      ValueMatches(tree, root);
      PropMatches(tree, root, "message");
      var m := Prop(root, "message");
      ghost var mt := PropTree(tree, "message");
      ValueMatches(mt, m);
      assistantMsg, alias := m.node, mt;
      CapturedHere(tree, mt);
      assert Shows(Mirror(v, Attached));
      var content := Prop(m, "content");
      PropMatches(mt, m, "content");
      ghost var ct := PropTree(mt, "content");
      ValueMatches(ct, content);
      var parts := Prop(content, "parts");
      PropMatches(ct, content, "parts");
      ValueMatches(PropTree(ct, "parts"), parts);
      if content.Prim? || parts.Prim? || !parts.node.isArray {
        GiveContent(m.node, v, mt);
      }
    }

    /** m.content = { parts: [''] } */
    method GiveContent(node: JsObject, ghost v: Json, ghost mt: Tree)
      requires Shows(Mirror(v, Attached)) && HasSlot(tree) && tree.kids[MESSAGE_KEY] == mt && !mt.isArray
      requires mt.Branch? && mt.node == node
      modifies `tree, `alias, `objects, node
      ensures Shows(Mirror(SetIn(v, ["message", "content"], NO_CONTENT), Attached))
      ensures fresh(objects - old(objects))
    {
      hide Matches, Apart, Nodes, Graft, NO_CONTENT, SetIn, Linked, SlotLinked;
      var segs := ["message", "content"];
      assert segs[1..] == ["content"];
      assert Target(tree, segs) == Some((mt, Name("content")));
      var val, sub := Build(NO_CONTENT);
      Store(segs, node, Name("content"), val, Replaced, mt, sub, Nodes(sub), Mirror(v, Attached));
    }

    /** One operation other than a patch. */
    method ApplyOne(op: Json, path: Json, v: Json, ghost m: Mirror) returns (threw: bool)
      requires Shows(m)
      modifies `root, `assistantMsg, `tree, `alias, `objects, objects
      ensures threw == ApplyPlain(m, op, path, v).threw && Shows(ApplyPlain(m, op, path, v).state)
      ensures fresh(objects - old(objects))
      ensures !AddsVisible(Plain(op, path, v)) ==> assistantMsg == old(assistantMsg) && Frozen()
    {
      hide Matches, Apart, Nodes, SlotLinked, Captured, WritePath, AppendPath, AddRoot, Blocked, Segments, Visible;
      if op == Str("add") {
        if path == Str("") || path == Str("/") {
          AddAtRoot(v, m);
          return false;
        }
        if !path.Str? {
          return true;
        }
        threw := SetAt(Segments(path.s), v, m);
        return;
      }
      if op == Str("append") {
        if !path.Str? {
          return true;
        }
        threw := AppendAt(Segments(path.s), v, m);
        return;
      }
      if op == Str("replace") {
        if !path.Str? {
          return true;
        }
        threw := SetAt(Segments(path.s), v, m);
        return;
      }
      return false;
    }

    /** apply: one operation, a patch being the operations it lists, up to one that throws. While no
        visible root is added the captured object stays the same one, and out of the document it
        stays as it is. */
    method ApplyOp(op: Json, path: Json, v: Json, ghost m: Mirror) returns (threw: bool)
      requires Shows(m)
      modifies `root, `assistantMsg, `tree, `alias, `objects, objects
      ensures threw == Apply(m, op, path, v).threw && Shows(Apply(m, op, path, v).state)
      ensures fresh(objects - old(objects))
      ensures (forall p | p in Flat(op, path, v) :: !AddsVisible(p)) ==> assistantMsg == old(assistantMsg) && Frozen()
      decreases v
    {
      hide Shows, ApplyPlain, AddsVisible;
      if op != Str("patch") {
        assert Plain(op, path, v) in Flat(op, path, v);
        threw := ApplyOne(op, path, v, m);
        return;
      }
      if !v.Box? || !v.isArray {
        NoPatch(m, path, v);
        return false;
      }
      var n := 0;
      while n < v.length
        invariant 0 <= n <= v.length
        invariant Shows(ApplyItems(m, v, n).state) && !ApplyItems(m, v, n).threw
        invariant fresh(objects - old(objects))
        invariant (forall p | p in FlatItems(v, n) :: !AddsVisible(p)) ==> assistantMsg == old(assistantMsg) && Frozen()
      {
        var s := Item(v, n);
        ghost var before := ApplyItems(m, v, n).state;
        if Nullish(s) {
          threw := true;
        } else if Has(s, "v") {
          threw := ApplyOp(Get(s, "o"), ItemPath(s), s.slots[Name("v")], before);
        } else {
          threw := ApplyOne(Get(s, "o"), ItemPath(s), Undefined, before);
        }
        ItemDone(m, v, n);
        n := n + 1;
        assert (forall p | p in FlatItems(v, n) :: !AddsVisible(p)) ==> assistantMsg == old(assistantMsg) && Frozen();
        if threw {
          assert Flat(op, path, v) == FlatItems(v, v.length);
          ThrowStops(m, v, n, v.length);
          FlatItemsGrow(v, n, v.length);
          return;
        }
      }
      return false;
    }

    /** A typed event that is no delta. */
    method HandleControl(obj: Json)
      modifies `sessionId, `completedAt
      ensures forall m :: View(m) == Control(old(View(m)), obj)
    {
      var kind := Get(obj, "type");
      if kind == Str("resume_conversation_token") {
        if sessionId == "" && Get(obj, "conversation_id").Str? {
          sessionId := Get(obj, "conversation_id").s;
        }
      } else if kind == Str("message_stream_complete") {
        completedAt := true;
      }
    }

    /** One decoded frame: a control event, or a delta that inherits what it leaves out. */
    method Handle(obj: Json, ghost m: Mirror) returns (threw: bool)
      requires Shows(m)
      modifies this, objects
      ensures var after := HandleObject(old(View(m)), obj);
              threw == after.threw && View(after.state.mirror) == after.state && Shows(after.state.mirror)
      ensures fresh(objects - old(objects))
      ensures (forall p | p in FrameOps(old(View(m)), obj) :: !AddsVisible(p)) ==>
                assistantMsg == old(assistantMsg) && Frozen()
    {
      hide Apply, Matches, Apart, Nodes, SlotLinked, Doc, Control, Flat, AddsVisible, Captured;
      if !obj.Box? {
        return false;
      }
      if Get(obj, "type").Str? && !(Has(obj, "v") && (Has(obj, "o") || Has(obj, "p"))) {
        HandleControl(obj);
        return false;
      }
      if Has(obj, "o") {
        lastOp := Get(obj, "o");
      }
      if Has(obj, "p") {
        lastPath := Get(obj, "p");
      }
      threw := ApplyOp(lastOp, lastPath, Get(obj, "v"), m);
    }

    /** One server-sent event. */
    method HandleEvent(decode: string -> Option<Json>, event: string, data: string, ghost m: Mirror)
      returns (threw: bool)
      requires Shows(m)
      modifies this, objects
      ensures var after := Receive(old(View(m)), decode, event, data);
              threw == after.threw && View(after.state.mirror) == after.state && Shows(after.state.mirror)
      ensures fresh(objects - old(objects))
      ensures (forall p | p in EventOps(old(View(m)), decode, event, data) :: !AddsVisible(p)) ==>
                assistantMsg == old(assistantMsg) && Frozen()
    {
      hide HandleObject, Matches, Apart, Nodes, SlotLinked, Doc, AddsVisible, FrameOps, Captured;
      if data == "" {
        return false;
      }
      if data == "[DONE]" {
        completedAt := true;
        return false;
      }
      if event == "delta_encoding" {
        return false;
      }
      var obj := decode(data);
      if obj.None? {
        return false;
      }
      threw := Handle(obj.value, m);
    }

    /** The text of the captured message, read from the objects; None where the code throws. */
    method ResponseText() returns (text: Option<string>)
      requires Valid()
      ensures text == MessageText(if assistantMsg == null then Null else Doc(alias))
    {
      hide Apart, Nodes, Matches;
      if assistantMsg == null {
        return Some("");
      }
      var m := Ref(assistantMsg);
      var content := Prop(m, "content");
      PropMatches(alias, m, "content");
      ghost var ct := PropTree(alias, "content");
      var parts := Prop(content, "parts");
      PropMatches(ct, content, "parts");
      ghost var pt := PropTree(ct, "parts");
      ValueMatches(pt, parts);
      if parts.Prim? {
        return if parts.j == Undefined || parts.j == Null then Some("") else None;
      }
      if !parts.node.isArray {
        return None;
      }
      var joined, n := "", 0;
      while n < parts.node.length
        invariant 0 <= n <= parts.node.length
        invariant joined == PartsText(Doc(pt), n)
      {
        SlotMatches(pt, parts, Index(n));
        if Index(n) in parts.node.slots && parts.node.slots[Index(n)].Prim? && parts.node.slots[Index(n)].j.Str? {
          joined := joined + parts.node.slots[Index(n)].j.s;
        }
        n := n + 1;
      }
      return Some(joined);
    }

    /** The turn captured so far, all of it read through the alias. */
    method GetTurn(ghost m: Mirror) returns (turn: Made<Turn>)
      requires Shows(m)
      ensures turn == TurnOf(View(m), request)
      ensures turn.Made? && turn.value.Some? ==>
                var t := turn.value.value;
                && t.prompt == request.prompt && t.completed == completedAt
                && Some(t.text) == MessageText(if assistantMsg == null then Null else Doc(alias))
    {
      hide Matches, Apart, Nodes, SlotLinked, MessageText, Doc, Show, SearchGroups;
      var text := ResponseText();
      if text.None? {
        return Threw;
      }
      if text.value == "" && request.prompt == "" {
        return Made(None);
      }
      var message := Null;
      if assistantMsg != null {
        message := Copy(Ref(assistantMsg), alias);
      }
      var messageId := OrElse(Get(message, "id"), Str(""));
      return Made(Some(Turn(
        if sessionId != "" then sessionId else "chatgpt-unknown-" + Show(request.id),
        if Truthy(messageId) then messageId else Str("r" + Show(request.id)),
        OrElse(Get(Get(message, "metadata"), "model_slug"), ModelJson(request.model)),
        request.prompt, text.value, SearchGroups(message), completedAt)));
    }
  }

  lemma NoPatch(m: Mirror, path: Json, v: Json)
    requires !v.Box? || !v.isArray
    ensures Apply(m, Str("patch"), path, v) == Outcome(m, false)
  {
  }

  /** One item further. */
  lemma ItemDone(m: Mirror, v: Json, n: nat)
    requires v.Box? && !ApplyItems(m, v, n).threw
    ensures var s, before := Item(v, n), ApplyItems(m, v, n).state;
            && ApplyItems(m, v, n + 1)
               == (if Nullish(s) then Outcome(before, true)
                   else if Has(s, "v") then Apply(before, Get(s, "o"), ItemPath(s), s.slots[Name("v")])
                   else ApplyPlain(before, Get(s, "o"), ItemPath(s), Undefined))
            && FlatItems(v, n + 1) == FlatItems(v, n) + ItemOps(s)
  {
    hide ApplyPlain, ItemPath;
  }

  lemma {:induction false} ThrowStops(m: Mirror, v: Json, n: nat, k: nat)
    requires v.Box? && n <= k && ApplyItems(m, v, n).threw
    ensures ApplyItems(m, v, k) == ApplyItems(m, v, n)
    decreases k
  {
    if n < k { ThrowStops(m, v, n, k - 1); }
  }

  lemma {:induction false} FlatItemsGrow(v: Json, n: nat, k: nat)
    requires v.Box? && n <= k
    ensures forall p | p in FlatItems(v, n) :: p in FlatItems(v, k)
    decreases k
  {
    if n < k { FlatItemsGrow(v, n, k - 1); }
  }

  lemma BehindIs(m: Mirror, v: Json)
    requires !Visible(v) && !m.capture.Nothing?
    ensures AddRoot(m, v) == Mirror(v, Behind(Captured(m), map[])) && Captured(AddRoot(m, v)) == Captured(m)
    ensures LinkOf(AddRoot(m, v).capture) == UNLINKED
  {
  }

  lemma CapturedHere(tree: Tree, mt: Tree)
    requires Apart(tree) && mt == PropTree(tree, "message") && mt.Branch?
    ensures HasSlot(tree) && tree.kids[MESSAGE_KEY] == mt && SlotLinked(tree, mt, Same) && Apart(mt)
    ensures Doc(mt) == Get(Doc(tree), "message")
  {
    OwnKidsApart(tree);
  }

  /** Where the walk finds no container, nothing changes. */
  lemma NothingWritten(tree: Tree, alias: Tree, segs: seq<string>, v: Json, change: Change, m: Mirror)
    requires Apart(tree) && Doc(tree) == m.doc && Target(tree, segs).None?
    requires !m.capture.Nothing? ==> Doc(alias) == Captured(m) && SlotLinked(tree, alias, LinkOf(m.capture))
    ensures WritePath(m, segs, v, change) == m
  {
    NoTargetNoSet(tree, segs, v);
    if !m.capture.Nothing? {
      NoTargetNoMove(tree, alias, LinkOf(m.capture), segs, change, v);
    }
  }

  /** The mirror's account of the captured message after a write is the heap's. */
  lemma CapturedAfter(m: Mirror, segs: seq<string>, v: Json, change: Change, before: Tree, tree: Tree, alias: Tree)
    requires !m.capture.Nothing? && m.doc == Doc(before) && Doc(tree) == SetIn(m.doc, segs, v)
    requires SlotLinked(tree, alias, SlotLinkAfter(m.doc, LinkOf(m.capture), segs, change))
    requires Doc(alias) == SlotReached(m.doc, Captured(m), LinkOf(m.capture), segs, v)
    ensures var m' := WritePath(m, segs, v, change);
            !m'.capture.Nothing? && Doc(alias) == Captured(m') && SlotLinked(tree, alias, LinkOf(m'.capture))
  {
    hide SlotLinkAfter, SlotReached, SetIn, SlotLinked;
    if SlotLinkAfter(m.doc, LinkOf(m.capture), segs, change).Same? {
      MessageDoc(tree, alias);
    }
  }
}
