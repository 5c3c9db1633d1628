// The document of browser-extension/src/adapters/chatgpt.ts as mutable objects on the heap,
// and the shapes that relate those objects to plain JSON values.
module ChatGptDoc {
  import opened Text
  import opened Json

  // ------------------------------------------------------ paths and values

  /** The slot a path segment names in a container; array segments are numbers. */
  function KeyAt(isArray: bool, seg: string): Option<Key> {
    if !isArray then Some(Name(seg)) else if seg != "" && AllDigits(seg) then Some(Index(ParseNat(seg))) else None
  }

  function NonEmpty(parts: seq<string>): seq<string> {
    if parts == [] then [] else (if parts[0] == "" then [] else [parts[0]]) + NonEmpty(parts[1..])
  }

  /** path.split("/").filter(Boolean) */
  function Segments(path: string): seq<string> {
    NonEmpty(Split(path, '/'))
  }

  /** An array grows to hold the slot written. */
  function Grown(length: nat, key: Key): nat {
    if key.Index? && key.index >= length then key.index + 1 else length
  }

  function WriteSlot(j: Json, key: Key, v: Json): Json
    requires j.Box?
  {
    Box(j.isArray, Grown(j.length, key), j.slots[key := v])
  }

  /** Assignment at a path; nothing happens when the path leads through a missing slot. */
  function SetIn(j: Json, segs: seq<string>, v: Json): Json
    decreases segs
  {
    if segs == [] || !j.Box? || KeyAt(j.isArray, segs[0]).None? then j
    else
      var key := KeyAt(j.isArray, segs[0]).value;
      if |segs| == 1 then WriteSlot(j, key, v)
      else if key in j.slots then j.(slots := j.slots[key := SetIn(j.slots[key], segs[1..], v)])
      else j
  }

  /** The index a property name is of a string with `n` characters. */
  predicate IsIndex(seg: string, n: nat) {
    seg != "" && AllDigits(seg) && (seg == "0" || seg[0] != '0') && ParseNat(seg) < n
  }

  /** A property read on a primitive: strings have a length and characters. */
  function PrimRead(j: Json, seg: string): Json {
    if !j.Str? then Undefined
    else if seg == "length" then Num(|j.s| as real)
    else if IsIndex(seg, |j.s|) then Str([j.s[ParseNat(seg)]])
    else Undefined
  }

  /** Assignment at the path throws: it comes to a string, number or boolean for a container. */
  predicate Blocked(j: Json, segs: seq<string>)
    decreases segs
  {
    segs != []
    && if j.Box? then
         |segs| > 1 && KeyAt(j.isArray, segs[0]).Some? && KeyAt(j.isArray, segs[0]).value in j.slots
         && Blocked(j.slots[KeyAt(j.isArray, segs[0]).value], segs[1..])
       else !Nullish(j) && (|segs| == 1 || Blocked(PrimRead(j, segs[0]), segs[1..]))
  }

  function ReadIn(j: Json, segs: seq<string>): Json
    decreases segs
  {
    if segs == [] then j
    else if !j.Box? || KeyAt(j.isArray, segs[0]).None? then Undefined
    else
      var key := KeyAt(j.isArray, segs[0]).value;
      if key in j.slots then ReadIn(j.slots[key], segs[1..]) else Undefined
  }

  /** What `append` leaves in a slot that held `cur`. */
  function Appended(cur: Json, v: Json): Json {
    if v.Str? then Str((if cur.Str? then cur.s else "") + v.s)
    else if v.Box? && !v.isArray && cur.Box? then Box(false, 0, cur.slots + v.slots)
    else v
  }

  // --------------------------------------------------------- the heap

  /** A JavaScript object or array. */
  class JsObject {
    const isArray: bool
    var length: nat
    var slots: map<Key, Val>

    constructor (isArray: bool, length: nat, slots: map<Key, Val>)
      ensures this.isArray == isArray && this.length == length && this.slots == slots
    {
      this.isArray, this.length, this.slots := isArray, length, slots;
    }

    method Assign(key: Key, v: Val)
      modifies this
      ensures slots == old(slots)[key := v] && length == Grown(old(length), key)
    {
      slots := slots[key := v];
      length := Grown(length, key);
    }
  }

  datatype Val = Prim(j: Json) | Ref(node: JsObject)

  /** The shape of a value: which objects it is made of, and what each holds. */
  datatype Tree =
    | Leaf(j: Json)
    | Branch(node: JsObject, isArray: bool, length: nat, kids: map<Key, Tree>)

  ghost function Nodes(t: Tree): set<JsObject> {
    match t
    case Leaf(_) => {}
    case Branch(node, _, _, kids) => {node} + set k, x | k in kids && x in Nodes(kids[k]) :: x
  }

  /** The objects on the heap have this shape. */
  ghost predicate Matches(t: Tree, v: Val)
    reads Nodes(t)
  {
    match t
    case Leaf(j) => !j.Box? && v == Prim(j)
    case Branch(node, isArray, length, kids) =>
      && v == Ref(node) && node.isArray == isArray && node.length == length
      && node.slots.Keys == kids.Keys
      && forall k | k in kids :: Matches(kids[k], node.slots[k])
  }

  ghost predicate Siblings(kids: map<Key, Tree>) {
    forall k, l | k in kids && l in kids && k != l :: Nodes(kids[k]) !! Nodes(kids[l])
  }

  /** No object occurs twice: the value is a tree. */
  ghost predicate Apart(t: Tree) {
    match t
    case Leaf(j) => !j.Box?
    case Branch(node, _, _, kids) =>
      Siblings(kids) && forall k | k in kids :: node !in Nodes(kids[k]) && Apart(kids[k])
  }

  /** The plain JSON value of a shape. */
  ghost function Doc(t: Tree): Json {
    match t
    case Leaf(j) => j
    case Branch(_, isArray, length, kids) => Box(isArray, length, map k | k in kids :: Doc(kids[k]))
  }

  /** `x` now holds `sub` under `key`, wherever it occurs. */
  ghost function Graft(t: Tree, x: JsObject, key: Key, sub: Tree): Tree {
    match t
    case Leaf(_) => t
    case Branch(node, isArray, length, kids) =>
      var kids' := map k | k in kids :: Graft(kids[k], x, key, sub);
      if node == x then Branch(node, isArray, Grown(length, key), kids'[key := sub])
      else Branch(node, isArray, length, kids')
  }

  ghost predicate Occurs(b: Tree, t: Tree) {
    b == t || (t.Branch? && exists k :: k in t.kids && Occurs(b, t.kids[k]))
  }

  /** The container a path's last segment is looked up in, and the slot it names there. */
  ghost function Target(t: Tree, segs: seq<string>): (r: Option<(Tree, Key)>)
    ensures r.Some? ==> r.value.0.Branch?
    decreases segs
  {
    if segs == [] || t.Leaf? || KeyAt(t.isArray, segs[0]).None? then None
    else
      var key := KeyAt(t.isArray, segs[0]).value;
      if |segs| == 1 then Some((t, key))
      else if key in t.kids then Target(t.kids[key], segs[1..])
      else None
  }

  // -------------------------------------------- allocating and finding

  lemma SiblingsGrow(kids: map<Key, Tree>, key: Key, kid: Tree, used: set<JsObject>)
    requires Siblings(kids) && key !in kids
    requires Nodes(kid) !! used && forall k | k in kids :: Nodes(kids[k]) <= used
    ensures Siblings(kids[key := kid])
  {
  }

  /** A freshly decoded JSON value as objects. */
  method Build(j: Json) returns (v: Val, ghost t: Tree)
    ensures Matches(t, v) && Doc(t) == j && Apart(t)
    ensures fresh(Nodes(t)) && forall o | o in Nodes(t) :: allocated(o)
    decreases j, 1
  {
    if !j.Box? {
      return Prim(j), Leaf(j);
    }
    var slots: map<Key, Val> := map[];
    ghost var kids: map<Key, Tree> := map[];
    ghost var used: set<JsObject> := {};
    var keys := j.slots.Keys;
    while keys != {}
      invariant keys <= j.slots.Keys && kids.Keys == slots.Keys == j.slots.Keys - keys
      invariant forall k | k in kids :: Nodes(kids[k]) <= used
      invariant fresh(used)
      invariant forall k | k in kids :: Matches(kids[k], slots[k]) && Doc(kids[k]) == j.slots[k] && Apart(kids[k])
      invariant Siblings(kids)
      decreases keys
    {
      var k :| k in keys;
      var kid, shape := Build(j.slots[k]);
      assert Nodes(shape) !! used;
      SiblingsGrow(kids, k, shape, used);
      slots := slots[k := kid];
      kids := kids[k := shape];
      used := used + Nodes(shape);
      keys := keys - {k};
    }
    var node := new JsObject(j.isArray, j.length, slots);
    t := Branch(node, j.isArray, j.length, kids);
    v := Ref(node);
    assert node !in used;
    assert (map k | k in kids :: Doc(kids[k])) == j.slots;
  }

  /** Navigate to the container of the last segment; missing slots and nulls end the walk. When
      the container is a primitive the assignment to come will throw. */
  method Locate(root: Val, segs: seq<string>, ghost t: Tree) returns (loc: Option<(JsObject, Key)>, blocked: bool)
    requires Matches(t, root)
    ensures loc == match Target(t, segs) case None => None case Some((b, key)) => Some((b.node, key))
    ensures blocked == Blocked(Doc(t), segs)
  {
    if segs == [] {
      return None, false;
    }
    var obj, i := root, 0;
    ghost var sub := t;
    while i < |segs| - 1
      invariant 0 <= i <= |segs| - 1
      invariant Matches(sub, obj) && Target(t, segs) == Target(sub, segs[i..])
      invariant Blocked(Doc(t), segs) == Blocked(Doc(sub), segs[i..])
    {
      assert segs[i..][1..] == segs[i + 1..];
      if obj.Prim? {
        if Nullish(obj.j) {
          return None, false;
        }
        var read := PrimRead(obj.j, segs[i]);
        sub := Leaf(read);
        obj, i := Prim(read), i + 1;
      } else {
        var k := KeyAt(obj.node.isArray, segs[i]);
        if k.None? || k.value !in obj.node.slots {
          return None, false;
        }
        sub := sub.kids[k.value];
        obj, i := obj.node.slots[k.value], i + 1;
      }
    }
    if obj.Prim? {
      return None, !Nullish(obj.j);
    }
    var last := KeyAt(obj.node.isArray, segs[i]);
    return if last.None? then None else Some((obj.node, last.value)), false;
  }

  /** A value on the heap as plain JSON. */
  function Copy(v: Val, ghost t: Tree): (j: Json)
    requires Matches(t, v)
    reads Nodes(t)
    ensures j == Doc(t)
    decreases t
  {
    match v
    case Prim(j) => j
    case Ref(node) =>
      var slots := map k | k in node.slots :: Copy(node.slots[k], t.kids[k]);
      assert slots == map k | k in t.kids :: Doc(t.kids[k]);
      Box(node.isArray, node.length, slots)
  }

  // ------------------------------------------------- what a write does

  /** The heap has this shape, reading `slots` and `length` in place of what `x` holds. */
  ghost predicate MatchesBut(t: Tree, v: Val, x: JsObject, slots: map<Key, Val>, length: nat)
    reads Nodes(t) - {x}
  {
    match t
    case Leaf(j) => !j.Box? && v == Prim(j)
    case Branch(node, isArray, len, kids) =>
      && v == Ref(node) && node.isArray == isArray
      && len == (if node == x then length else node.length)
      && var held := if node == x then slots else node.slots;
         && held.Keys == kids.Keys
         && forall k | k in kids :: MatchesBut(kids[k], held[k], x, slots, length)
  }

  lemma {:induction false} MatchesApartFrom(t: Tree, v: Val, x: JsObject)
    requires Matches(t, v)
    ensures MatchesBut(t, v, x, x.slots, x.length)
  {
    if t.Branch? {
      forall k | k in t.kids ensures MatchesBut(t.kids[k], t.node.slots[k], x, x.slots, x.length) {
        MatchesApartFrom(t.kids[k], t.node.slots[k], x);
      }
    }
  }

  /** After one assignment to `x`, every value still has its shape, with the new part grafted on. */
  lemma {:induction false} GraftMatches(t: Tree, v: Val, x: JsObject, slots: map<Key, Val>, length: nat,
                                        key: Key, sub: Tree, val: Val)
    requires MatchesBut(t, v, x, slots, length) && Matches(sub, val)
    requires x.slots == slots[key := val] && x.length == Grown(length, key)
    ensures Matches(Graft(t, x, key, sub), v)
  {
    if t.Branch? {
      var held := if t.node == x then slots else t.node.slots;
      forall k | k in t.kids ensures Matches(Graft(t.kids[k], x, key, sub), held[k]) {
        GraftMatches(t.kids[k], held[k], x, slots, length, key, sub, val);
      }
    }
  }

  /** One assignment to one object; every value known to have a shape has the grafted one now. */
  method AssignIn(node: JsObject, key: Key, val: Val, ghost sub: Tree,
                  ghost shapes: seq<(Tree, Val)>, ghost seen: set<JsObject>)
    requires Matches(sub, val) && node !in Nodes(sub) && Nodes(sub) <= seen
    requires forall i | 0 <= i < |shapes| :: Matches(shapes[i].0, shapes[i].1) && Nodes(shapes[i].0) <= seen
    modifies node
    ensures forall i | 0 <= i < |shapes| :: Matches(Graft(shapes[i].0, node, key, sub), shapes[i].1)
  {
    forall i | 0 <= i < |shapes| ensures MatchesBut(shapes[i].0, shapes[i].1, node, node.slots, node.length) {
      MatchesApartFrom(shapes[i].0, shapes[i].1, node);
    }
    ghost var slots, length := node.slots, node.length;
    hide Matches, MatchesBut, Graft, Nodes;
    node.Assign(key, val);
    forall i | 0 <= i < |shapes| ensures Matches(Graft(shapes[i].0, node, key, sub), shapes[i].1) {
      assert MatchesBut(shapes[i].0, shapes[i].1, node, slots, length);
      GraftMatches(shapes[i].0, shapes[i].1, node, slots, length, key, sub, val);
    }
  }

  lemma {:induction false} GraftIdle(t: Tree, x: JsObject, key: Key, sub: Tree)
    requires x !in Nodes(t)
    ensures Graft(t, x, key, sub) == t
  {
    if t.Branch? {
      forall k | k in t.kids ensures Graft(t.kids[k], x, key, sub) == t.kids[k] {
        GraftIdle(t.kids[k], x, key, sub);
      }
      assert (map k | k in t.kids :: Graft(t.kids[k], x, key, sub)) == t.kids;
    }
  }

  lemma {:induction false} OccursWithin(b: Tree, t: Tree)
    requires Occurs(b, t)
    ensures Nodes(b) <= Nodes(t)
  {
    if b != t {
      var k :| k in t.kids && Occurs(b, t.kids[k]);
      OccursWithin(b, t.kids[k]);
    }
  }

  lemma {:induction false} OccursApart(b: Tree, t: Tree)
    requires Occurs(b, t) && Apart(t)
    ensures Apart(b)
  {
    if b != t {
      var k :| k in t.kids && Occurs(b, t.kids[k]);
      OccursApart(b, t.kids[k]);
    }
  }

  lemma {:induction false} TargetOccurs(t: Tree, segs: seq<string>)
    requires Target(t, segs).Some?
    ensures Occurs(Target(t, segs).value.0, t)
    decreases segs
  {
    if |segs| > 1 {
      TargetOccurs(t.kids[KeyAt(t.isArray, segs[0]).value], segs[1..]);
    }
  }

  /** The located container is one of the document's own objects. */
  lemma TargetWithin(t: Tree, segs: seq<string>)
    requires Target(t, segs).Some?
    ensures var b := Target(t, segs).value.0; Occurs(b, t) && b.node in Nodes(t)
  {
    TargetOccurs(t, segs);
    OccursWithin(Target(t, segs).value.0, t);
    assert Target(t, segs).value.0.node in Nodes(Target(t, segs).value.0);
  }

  ghost function KidNodes(b: Tree, key: Key): set<JsObject>
    requires b.Branch?
  {
    if key in b.kids then Nodes(b.kids[key]) else {}
  }

  lemma KidWithin(t: Tree, segs: seq<string>)
    requires Apart(t) && Target(t, segs).Some?
    ensures var (b, key) := Target(t, segs).value;
            key in b.kids ==>
              var kid := b.kids[key];
              Apart(kid) && b.node !in Nodes(kid) && Nodes(kid) <= Nodes(t) && KidNodes(b, key) == Nodes(kid)
  {
    var (b, key) := Target(t, segs).value;
    TargetOccurs(t, segs);
    OccursWithin(b, t);
    OccursApart(b, t);
    if key in b.kids {
      assert Nodes(b.kids[key]) <= Nodes(b);
    }
  }

  lemma {:induction false} GraftNodes(t: Tree, x: JsObject, key: Key, sub: Tree)
    ensures Nodes(Graft(t, x, key, sub)) <= Nodes(t) + Nodes(sub)
  {
    if t.Branch? {
      forall k | k in t.kids ensures Nodes(Graft(t.kids[k], x, key, sub)) <= Nodes(t.kids[k]) + Nodes(sub) {
        GraftNodes(t.kids[k], x, key, sub);
      }
    }
  }

  /** A branch with one kid put in place of another, or added. */
  ghost function With(t: Tree, length: nat, key: Key, kid: Tree): Tree
    requires t.Branch?
  {
    Branch(t.node, t.isArray, length, t.kids[key := kid])
  }

  lemma GraftHere(t: Tree, key: Key, sub: Tree)
    requires t.Branch? && Apart(t)
    ensures Graft(t, t.node, key, sub) == With(t, Grown(t.length, key), key, sub)
  {
    forall k | k in t.kids ensures Graft(t.kids[k], t.node, key, sub) == t.kids[k] {
      GraftIdle(t.kids[k], t.node, key, sub);
    }
    assert (map k | k in t.kids :: Graft(t.kids[k], t.node, key, sub)) == t.kids;
  }

  /** Where an object occurs under one key only, nothing else changes. */
  lemma GraftUnder(t: Tree, at: Key, x: JsObject, key: Key, sub: Tree)
    requires t.Branch? && at in t.kids && x != t.node && forall k | k in t.kids && k != at :: x !in Nodes(t.kids[k])
    ensures Graft(t, x, key, sub) == With(t, t.length, at, Graft(t.kids[at], x, key, sub))
  {
    forall k | k in t.kids && k != at ensures Graft(t.kids[k], x, key, sub) == t.kids[k] {
      GraftIdle(t.kids[k], x, key, sub);
    }
    assert (map k | k in t.kids :: Graft(t.kids[k], x, key, sub)) == t.kids[at := Graft(t.kids[at], x, key, sub)];
  }

  lemma GraftBelow(t: Tree, at: Key, x: JsObject, key: Key, sub: Tree)
    requires t.Branch? && Apart(t) && at in t.kids && x in Nodes(t.kids[at])
    ensures Graft(t, x, key, sub) == With(t, t.length, at, Graft(t.kids[at], x, key, sub))
  {
    GraftUnder(t, at, x, key, sub);
  }

  lemma WithApart(t: Tree, length: nat, key: Key, kid: Tree)
    requires t.Branch? && Apart(t) && Apart(kid) && t.node !in Nodes(kid)
    requires forall k | k in t.kids && k != key :: Nodes(t.kids[k]) !! Nodes(kid)
    ensures Apart(With(t, length, key, kid))
  {
  }

  lemma WithDoc(t: Tree, length: nat, key: Key, kid: Tree)
    requires t.Branch?
    ensures Doc(With(t, length, key, kid)) == Box(t.isArray, length, Doc(t).slots[key := Doc(kid)])
  {
    var kids := t.kids[key := kid];
    assert (map k | k in kids :: Doc(kids[k])) == Doc(t).slots[key := Doc(kid)];
  }

  /** A tree stays a tree if what is grafted on shares objects with nothing but the part it
      replaces. */
  lemma {:induction false} GraftApart(t: Tree, b: Tree, key: Key, sub: Tree)
    requires Apart(t) && Occurs(b, t) && b.Branch?
    requires Apart(sub) && b.node !in Nodes(sub)
    requires Nodes(sub) * Nodes(t) <= KidNodes(b, key)
    ensures Apart(Graft(t, b.node, key, sub))
  {
    if b == t {
      GraftHere(t, key, sub);
      forall k | k in t.kids && k != key ensures Nodes(t.kids[k]) !! Nodes(sub) {
        assert Nodes(t.kids[k]) <= Nodes(t);
      }
      WithApart(t, Grown(t.length, key), key, sub);
    } else {
      var at :| at in t.kids && Occurs(b, t.kids[at]);
      var kid := t.kids[at];
      assert Nodes(kid) <= Nodes(t);
      OccursWithin(b, kid);
      assert KidNodes(b, key) <= Nodes(b);
      GraftApart(kid, b, key, sub);
      GraftNodes(kid, b.node, key, sub);
      GraftBelow(t, at, b.node, key, sub);
      forall k | k in t.kids && k != at ensures Nodes(t.kids[k]) !! Nodes(Graft(kid, b.node, key, sub)) {
        assert Nodes(t.kids[k]) <= Nodes(t);
      }
      assert t.node in Nodes(t) && t.node !in Nodes(kid);
      WithApart(t, t.length, at, Graft(kid, b.node, key, sub));
    }
  }

  /** On a tree, writing to the located object is assignment at the path in the JSON value. */
  lemma {:induction false} GraftIsSet(t: Tree, segs: seq<string>, sub: Tree)
    requires Apart(t) && Target(t, segs).Some?
    ensures var (b, key) := Target(t, segs).value;
            Doc(Graft(t, b.node, key, sub)) == SetIn(Doc(t), segs, Doc(sub))
    decreases segs
  {
    var (b, key) := Target(t, segs).value;
    if |segs| == 1 {
      GraftHere(t, key, sub);
      WithDoc(t, Grown(t.length, key), key, sub);
    } else {
      var at := KeyAt(t.isArray, segs[0]).value;
      var kid := t.kids[at];
      GraftIsSet(kid, segs[1..], sub);
      TargetOccurs(kid, segs[1..]);
      OccursWithin(b, kid);
      GraftBelow(t, at, b.node, key, sub);
      WithDoc(t, t.length, at, Graft(kid, b.node, key, sub));
    }
  }

  lemma {:induction false} NoTargetNoSet(t: Tree, segs: seq<string>, v: Json)
    requires Apart(t) && Target(t, segs).None?
    ensures SetIn(Doc(t), segs, v) == Doc(t)
    decreases segs
  {
    if |segs| > 1 && t.Branch? && KeyAt(t.isArray, segs[0]).Some? {
      var key := KeyAt(t.isArray, segs[0]).value;
      if key in t.kids {
        NoTargetNoSet(t.kids[key], segs[1..], v);
        assert Doc(t).slots[key] == Doc(t.kids[key]);
        assert Doc(t).slots[key := Doc(t.kids[key])] == Doc(t).slots;
      }
    }
  }

  lemma {:induction false} TargetReads(t: Tree, segs: seq<string>)
    requires Target(t, segs).Some?
    ensures var (b, key) := Target(t, segs).value;
            ReadIn(Doc(t), segs) == if key in b.kids then Doc(b.kids[key]) else Undefined
    decreases segs
  {
    if |segs| > 1 {
      TargetReads(t.kids[KeyAt(t.isArray, segs[0]).value], segs[1..]);
    }
  }

  // ------------------------------------------------ reading the heap

  /** A property read on a value. */
  function Prop(v: Val, name: string): Val
    reads if v.Ref? then {v.node} else {}
  {
    if v.Ref? && !v.node.isArray && Name(name) in v.node.slots then v.node.slots[Name(name)] else Prim(Undefined)
  }

  ghost function PropTree(t: Tree, name: string): Tree {
    if t.Branch? && !t.isArray && Name(name) in t.kids then t.kids[Name(name)] else Leaf(Undefined)
  }

  lemma PropMatches(t: Tree, v: Val, name: string)
    requires Matches(t, v)
    ensures Matches(PropTree(t, name), Prop(v, name))
    ensures Doc(PropTree(t, name)) == Get(Doc(t), name)
    ensures Nodes(PropTree(t, name)) <= Nodes(t)
  {
  }

  lemma LeafShape(j: Json)
    requires !j.Box?
    ensures Matches(Leaf(j), Prim(j)) && Apart(Leaf(j)) && Nodes(Leaf(j)) == {} && Doc(Leaf(j)) == j
  {
  }

  /** Primitives are what they say; objects are containers. */
  lemma ValueMatches(t: Tree, v: Val)
    requires Matches(t, v)
    ensures v.Prim? <==> t.Leaf?
    ensures v.Prim? ==> Doc(t) == v.j && !v.j.Box?
    ensures v.Ref? ==> Doc(t).Box? && Doc(t).isArray == v.node.isArray && Doc(t).length == v.node.length
                       && t.node == v.node && v.node in Nodes(t)
  {
  }

  /** { ...cur, ...v } as a shape: a new object holding the parts of both. */
  lemma MergedShape(cur: Tree, add: Tree, node: JsObject, seen: set<JsObject>)
    requires cur.Branch? && add.Branch? && Apart(cur) && Apart(add)
    requires Nodes(cur) <= seen && Nodes(add) !! seen && node !in seen && node !in Nodes(add)
    ensures var sub := Branch(node, false, 0, cur.kids + add.kids);
            && Apart(sub) && Nodes(sub) <= {node} + (Nodes(cur) - {cur.node}) + Nodes(add)
            && Doc(sub) == Box(false, 0, Doc(cur).slots + Doc(add).slots)
  {
    var kids := cur.kids + add.kids;
    forall k, l | k in kids && l in kids && k != l ensures Nodes(kids[k]) !! Nodes(kids[l]) {
      assert k in add.kids ==> Nodes(add.kids[k]) <= Nodes(add);
      assert l in add.kids ==> Nodes(add.kids[l]) <= Nodes(add);
      assert k in cur.kids ==> Nodes(cur.kids[k]) <= Nodes(cur);
      assert l in cur.kids ==> Nodes(cur.kids[l]) <= Nodes(cur);
    }
    assert (map k | k in kids :: Doc(kids[k])) == Doc(cur).slots + Doc(add).slots;
  }

  lemma MergedMatches(was: Tree, add: Tree, cur: JsObject, extra: JsObject, merged: JsObject)
    requires was.Branch? && add.Branch? && Matches(was, Ref(cur)) && Matches(add, Ref(extra))
    requires !merged.isArray && merged.length == 0 && merged.slots == cur.slots + extra.slots
    ensures Matches(Branch(merged, false, 0, was.kids + add.kids), Ref(merged))
  {
  }

  /** { ...cur, ...v }: a new object, sharing the parts of `cur` and of the decoded `v`. */
  method MergeObjects(cur: JsObject, v: Json, ghost was: Tree, ghost seen: set<JsObject>)
    returns (merged: JsObject, ghost sub: Tree)
    requires was.Branch? && Matches(was, Ref(cur)) && Apart(was) && Nodes(was) <= seen && v.Box?
    ensures Matches(sub, Ref(merged)) && Apart(sub)
    ensures Doc(sub) == Box(false, 0, Doc(was).slots + v.slots)
    ensures Nodes(sub) * seen <= Nodes(was) && fresh(Nodes(sub) - Nodes(was))
    ensures sub.Branch? && sub.node !in seen && sub.kids.Keys == was.kids.Keys + v.slots.Keys
    ensures forall k | k in sub.kids :: if k in v.slots then Nodes(sub.kids[k]) !! seen else sub.kids[k] == was.kids[k]
  {
    var val, add := Build(v);
    ValueMatches(add, val);
    merged := new JsObject(false, 0, cur.slots + val.node.slots);
    sub := Branch(merged, false, 0, was.kids + add.kids);
    MergedShape(was, add, merged, seen);
    MergedMatches(was, add, cur, val.node, merged);
    assert add.kids.Keys == v.slots.Keys && forall k | k in add.kids :: Nodes(add.kids[k]) <= Nodes(add);
    hide Matches, Apart, Doc;
  }
}
