// What the captured message of browser-extension/src/adapters/chatgpt.ts has in common with the
// document: it starts as the document's own message, and a merge leaves it holding some of the
// same parts.
module ChatGptAlias {
  import opened Text
  import opened Json
  import opened ChatGptDoc

  /** How two values hang together: they are one object, or two that share what some of their
      slots hold. */
  datatype Link = Same | Parted(shared: map<Key, Link>)

  const UNLINKED := Parted(map[])

  /** What takes the place of a slot's value: new objects throughout, or a new object that keeps
      what the old one held, but for the slots it overrides. */
  datatype Change = Replaced | Merged(over: set<Key>)

  function SlotKeys(j: Json): set<Key> {
    if j.Box? then j.slots.Keys else {}
  }

  /** What is left of a link to a value with slots `held` when the value is replaced. */
  function Relink(link: Link, held: set<Key>, change: Change): (r: Link)
    ensures r.Parted?
  {
    match change
    case Replaced => UNLINKED
    case Merged(over) => Parted((if link.Same? then map k | k in held :: Same else link.shared) - over)
  }

  /** The link between a value `d` and another after a write at a path in `d`. */
  function LinkAfter(link: Link, d: Json, segs: seq<string>, change: Change): (r: Link)
    ensures link.Parted? ==> r.Parted?
    decreases segs
  {
    if segs == [] then Relink(link, SlotKeys(d), change)
    else if link.Same? || !d.Box? || KeyAt(d.isArray, segs[0]).None? then link
    else
      var key := KeyAt(d.isArray, segs[0]).value;
      if key in link.shared && key in d.slots then
        Parted(link.shared[key := LinkAfter(link.shared[key], d.slots[key], segs[1..], change)])
      else link
  }

  /** What the other value is after the write: it changes where the two share. */
  function Reached(a: Json, link: Link, d: Json, segs: seq<string>, v: Json): Json
    decreases segs
  {
    if segs == [] then a
    else if link.Same? then SetIn(a, segs, v)
    else if !d.Box? || !a.Box? || KeyAt(d.isArray, segs[0]).None? then a
    else
      var key := KeyAt(d.isArray, segs[0]).value;
      if key in link.shared && key in d.slots && key in a.slots then
        a.(slots := a.slots[key := Reached(a.slots[key], link.shared[key], d.slots[key], segs[1..], v)])
      else a
  }

  // --------------------------------------------------------- on the heap

  ghost function Kids(t: Tree): map<Key, Tree> {
    if t.Branch? then t.kids else map[]
  }

  /** The objects of two shapes meet exactly where the link says. */
  ghost predicate Linked(t: Tree, a: Tree, link: Link)
    decreases link
  {
    match link
    case Same => t == a
    case Parted(shared) =>
      && (t.Branch? ==> t.node !in Nodes(a)) && (a.Branch? ==> a.node !in Nodes(t))
      && (forall k | k in shared :: k in Kids(t) && k in Kids(a) && Linked(Kids(t)[k], Kids(a)[k], shared[k]))
      && forall k, l | k in Kids(t) && l in Kids(a) && (k != l || k !in shared) ::
           Nodes(Kids(t)[k]) !! Nodes(Kids(a)[l])
  }

  lemma KidNodesWithin(t: Tree, k: Key)
    requires k in Kids(t)
    ensures Nodes(Kids(t)[k]) <= Nodes(t)
  {
  }

  lemma NodesOfKids(t: Tree)
    ensures forall x | x in Nodes(t) :: (t.Branch? && x == t.node) || exists k :: k in Kids(t) && x in Nodes(Kids(t)[k])
  {
    forall x | x in Nodes(t) && !(t.Branch? && x == t.node)
      ensures exists k :: k in Kids(t) && x in Nodes(Kids(t)[k])
    {
      var k :| k in t.kids && x in Nodes(t.kids[k]);
      assert k in Kids(t);
    }
  }

  lemma UnsharedApart(t: Tree, a: Tree, shared: map<Key, Link>, k: Key)
    requires Linked(t, a, Parted(shared)) && k in Kids(t) && k !in shared
    ensures Nodes(Kids(t)[k]) !! Nodes(a)
  {
    KidNodesWithin(t, k);
    NodesOfKids(a);
  }

  lemma DisjointLinked(t: Tree, a: Tree)
    ensures Nodes(t) !! Nodes(a) <==> Linked(t, a, UNLINKED)
  {
    NodesOfKids(t);
    NodesOfKids(a);
    forall k, l | k in Kids(t) && l in Kids(a) && Nodes(t) !! Nodes(a) ensures Nodes(Kids(t)[k]) !! Nodes(Kids(a)[l]) {
      KidNodesWithin(t, k);
      KidNodesWithin(a, l);
    }
  }

  /** `sub` takes the place of `was` the way `change` says; `seen` are the objects there were. */
  ghost predicate Stands(sub: Tree, was: Tree, change: Change, seen: set<JsObject>) {
    match change
    case Replaced => Nodes(sub) !! seen
    case Merged(over) =>
      && was.Branch? && sub.Branch? && sub.node !in seen
      && (forall k | k in sub.kids :: if k in over then Nodes(sub.kids[k]) !! seen
                                      else k in was.kids && sub.kids[k] == was.kids[k])
      && forall k | k in was.kids && k !in over :: k in sub.kids
  }

  lemma StandsWithin(sub: Tree, was: Tree, change: Change, seen: set<JsObject>)
    requires Stands(sub, was, change, seen)
    ensures Nodes(sub) * seen <= Nodes(was)
  {
    NodesOfKids(sub);
    forall k | k in Kids(was) ensures Nodes(Kids(was)[k]) <= Nodes(was) {
      KidNodesWithin(was, k);
    }
  }

  /** A slot's new value is linked as its old one was, as far as it keeps what that held. */
  lemma SlotRelinked(was: Tree, a: Tree, link: Link, sub: Tree, change: Change, seen: set<JsObject>)
    requires Linked(was, a, link) && Apart(was) && Apart(a)
    requires Stands(sub, was, change, seen) && Nodes(was) <= seen && Nodes(a) <= seen
    ensures Linked(sub, a, Relink(link, Kids(was).Keys, change))
  {
    if change.Replaced? {
      DisjointLinked(sub, a);
    } else {
      var shared' := Relink(link, Kids(was).Keys, change).shared;
      StandsWithin(sub, was, change, seen);
      if link.Same? {
        OwnKidsApart(was);
      }
      forall k, l | k in Kids(sub) && l in Kids(a) && (k != l || k !in shared')
        ensures Nodes(Kids(sub)[k]) !! Nodes(Kids(a)[l])
      {
        KidNodesWithin(a, l);
      }
    }
  }

  lemma OwnKidsApart(t: Tree)
    requires Apart(t) && t.Branch?
    ensures forall k, l | k in t.kids && l in t.kids && k != l :: Nodes(t.kids[k]) !! Nodes(t.kids[l])
    ensures forall k | k in t.kids :: t.node !in Nodes(t.kids[k])
  {
  }

  ghost function KidAt(t: Tree, k: Key): Tree {
    if k in Kids(t) then Kids(t)[k] else Leaf(Undefined)
  }

  lemma WithNodes(t: Tree, length: nat, key: Key, kid: Tree)
    requires t.Branch?
    ensures Nodes(With(t, length, key, kid)) <= Nodes(t) + Nodes(kid)
  {
    NodesOfKids(With(t, length, key, kid));
    forall k | k in Kids(t) ensures Nodes(Kids(t)[k]) <= Nodes(t) {
      KidNodesWithin(t, k);
    }
  }

  /** A new value in a slot that was not shared, made of new objects and of the old value's. */
  lemma UnsharedRejoin(t: Tree, a: Tree, shared: map<Key, Link>, length: nat, k: Key, kid: Tree, seen: set<JsObject>)
    requires t.Branch? && Linked(t, a, Parted(shared)) && k !in shared
    requires Nodes(t) + Nodes(a) <= seen && Nodes(kid) * seen <= Nodes(KidAt(t, k))
    ensures Linked(With(t, length, k, kid), a, Parted(shared))
  {
    var t' := With(t, length, k, kid);
    if k in Kids(t) { UnsharedApart(t, a, shared, k); }
    assert Nodes(kid) !! Nodes(a);
    WithNodes(t, length, k, kid);
    forall l, m | l in Kids(t') && m in Kids(a) && (l != m || l !in shared)
      ensures Nodes(Kids(t')[l]) !! Nodes(Kids(a)[m])
    {
      KidNodesWithin(a, m);
    }
  }

  /** The objects of a linked pair of trees never meet but under one key. */
  lemma SharedCross(t: Tree, a: Tree, shared: map<Key, Link>, k: Key, l: Key, m: Key, kid: Tree, akid: Tree,
                    extra: set<JsObject>, seen: set<JsObject>)
    requires Linked(t, a, Parted(shared)) && Apart(t) && Apart(a) && k in shared && l != m
    requires l == k || l in Kids(t)
    requires m == k || m in Kids(a)
    requires Nodes(t) + Nodes(a) <= seen && extra * seen <= Nodes(KidAt(t, k))
    requires Nodes(kid) <= Nodes(KidAt(t, k)) + extra && Nodes(akid) <= Nodes(KidAt(a, k)) + extra
    ensures Nodes(if l == k then kid else Kids(t)[l]) !! Nodes(if m == k then akid else Kids(a)[m])
  {
    KidNodesWithin(t, k);
    KidNodesWithin(a, k);
    OwnKidsApart(t);
    OwnKidsApart(a);
    if l != k { KidNodesWithin(t, l); }
    if m != k { KidNodesWithin(a, m); }
  }

  lemma SharedHeads(t: Tree, a: Tree, shared: map<Key, Link>, length: nat, k: Key, kid: Tree, akid: Tree,
                    extra: set<JsObject>, seen: set<JsObject>)
    requires Linked(t, a, Parted(shared)) && Apart(t) && Apart(a) && k in shared
    requires Nodes(t) + Nodes(a) <= seen && extra * seen <= Nodes(KidAt(t, k))
    requires Nodes(kid) <= Nodes(KidAt(t, k)) + extra && Nodes(akid) <= Nodes(KidAt(a, k)) + extra
    ensures t.node !in Nodes(With(a, a.length, k, akid)) && a.node !in Nodes(With(t, length, k, kid))
  {
    KidNodesWithin(t, k);
    KidNodesWithin(a, k);
    OwnKidsApart(t);
    OwnKidsApart(a);
    WithNodes(t, length, k, kid);
    WithNodes(a, a.length, k, akid);
    assert t.node in Nodes(t) && a.node in Nodes(a);
  }

  /** New values in both ends of a shared slot, linked to one another. */
  lemma SharedRejoin(t: Tree, a: Tree, shared: map<Key, Link>, length: nat, k: Key, kid: Tree, akid: Tree, link: Link,
                     extra: set<JsObject>, seen: set<JsObject>)
    requires Linked(t, a, Parted(shared)) && Apart(t) && Apart(a) && k in shared && Linked(kid, akid, link)
    requires Nodes(t) + Nodes(a) <= seen && extra * seen <= Nodes(KidAt(t, k))
    requires Nodes(kid) <= Nodes(KidAt(t, k)) + extra && Nodes(akid) <= Nodes(KidAt(a, k)) + extra
    ensures Linked(With(t, length, k, kid), With(a, a.length, k, akid), Parted(shared[k := link]))
  {
    SharedHeads(t, a, shared, length, k, kid, akid, extra, seen);
    var t', a' := With(t, length, k, kid), With(a, a.length, k, akid);
    forall l, m | l in Kids(t') && m in Kids(a') && (l != m || l !in shared[k := link])
      ensures Nodes(Kids(t')[l]) !! Nodes(Kids(a')[m])
    {
      if l != m {
        SharedCross(t, a, shared, k, l, m, kid, akid, extra, seen);
      }
    }
  }

  /** A write in `t`: what becomes of the value linked to it, and of the link. */
  lemma {:induction false} LinkedGraft(t: Tree, a: Tree, link: Link, segs: seq<string>, b: Tree, key: Key, sub: Tree,
                                       change: Change, seen: set<JsObject>)
    requires Apart(t) && Apart(a) && Linked(t, a, link) && Target(t, segs) == Some((b, key))
    requires Nodes(t) + Nodes(a) <= seen && Stands(sub, KidAt(b, key), change, seen) && Apart(sub)
    ensures Linked(Graft(t, b.node, key, sub), Graft(a, b.node, key, sub), LinkAfter(link, Doc(t), segs, change))
    ensures Doc(Graft(a, b.node, key, sub)) == Reached(Doc(a), link, Doc(t), segs, Doc(sub))
    ensures Apart(Graft(a, b.node, key, sub))
    decreases segs
  {
    if link.Same? {
      GraftIsSet(t, segs, sub);
      WriteApart(t, segs, b, key, sub, change, seen);
    } else if |segs| == 1 {
      LinkedHere(t, a, link.shared, segs, key, sub, change, seen);
    } else {
      var k := KeyAt(t.isArray, segs[0]).value;
      if k in link.shared {
        LinkedGraft(t.kids[k], a.kids[k], link.shared[k], segs[1..], b, key, sub, change, seen);
        LinkedBelow(t, a, link.shared, segs, b, key, sub, change, seen);
      } else {
        UnlinkedBelow(t, a, link.shared, segs, b, key, sub, change, seen);
      }
    }
  }

  lemma AfterOne(t: Tree, a: Tree, shared: map<Key, Link>, segs: seq<string>, key: Key, change: Change, v: Json)
    requires Apart(t) && Linked(t, a, Parted(shared)) && |segs| == 1 && Target(t, segs) == Some((t, key))
    ensures LinkAfter(Parted(shared), Doc(t), segs, change)
         == Parted(if key in shared then shared[key := Relink(shared[key], Kids(KidAt(t, key)).Keys, change)]
                   else shared)
    ensures Reached(Doc(a), Parted(shared), Doc(t), segs, v) == Doc(a)
  {
    assert segs[1..] == [];
    if key in shared {
      assert a.Branch? && key in a.kids && Apart(t.kids[key]);
      hide Linked, Apart;
      KidDocs(t, key);
      KidDocs(a, key);
    }
  }

  lemma KidDocs(t: Tree, k: Key)
    requires t.Branch? && k in t.kids
    ensures Doc(t).Box? && k in Doc(t).slots && Doc(t).slots[k] == Doc(t.kids[k])
    ensures Doc(t).slots[k := Doc(t.kids[k])] == Doc(t).slots
    ensures Apart(t.kids[k]) ==> SlotKeys(Doc(t.kids[k])) == Kids(t.kids[k]).Keys
  {
    hide Nodes;
  }

  lemma LinkedHere(t: Tree, a: Tree, shared: map<Key, Link>, segs: seq<string>, key: Key, sub: Tree,
                   change: Change, seen: set<JsObject>)
    requires Apart(t) && Apart(a) && Linked(t, a, Parted(shared)) && |segs| == 1 && Target(t, segs) == Some((t, key))
    requires Nodes(t) + Nodes(a) <= seen && Stands(sub, KidAt(t, key), change, seen)
    ensures Linked(Graft(t, t.node, key, sub), Graft(a, t.node, key, sub),
                   LinkAfter(Parted(shared), Doc(t), segs, change))
    ensures Doc(Graft(a, t.node, key, sub)) == Reached(Doc(a), Parted(shared), Doc(t), segs, Doc(sub))
    ensures Apart(Graft(a, t.node, key, sub))
  {
    assert t.node !in Nodes(a);
    AfterOne(t, a, shared, segs, key, change, Doc(sub));
    hide Linked, Apart, Nodes, Stands, Graft, LinkAfter, Reached, Relink, Target, KidAt, Doc;
    GraftHere(t, key, sub);
    GraftIdle(a, t.node, key, sub);
    StandsWithin(sub, KidAt(t, key), change, seen);
    if key in shared {
      SlotHere(t, a, shared, key, sub, change, seen);
    } else {
      UnsharedRejoin(t, a, shared, Grown(t.length, key), key, sub, seen);
    }
  }

  lemma SlotHere(t: Tree, a: Tree, shared: map<Key, Link>, key: Key, sub: Tree, change: Change, seen: set<JsObject>)
    requires Apart(t) && Apart(a) && t.Branch? && Linked(t, a, Parted(shared)) && key in shared
    requires Nodes(t) + Nodes(a) <= seen && Stands(sub, KidAt(t, key), change, seen)
    ensures Linked(With(t, Grown(t.length, key), key, sub), a,
                   Parted(shared[key := Relink(shared[key], Kids(KidAt(t, key)).Keys, change)]))
  {
    var kid, akid := t.kids[key], a.kids[key];
    SharedKids(t, a, shared, key);
    assert Kids(t)[key] == kid && Kids(a)[key] == akid;
    WithSame(a, key);
    hide Linked, Stands, Apart, Nodes, Relink, Kids, With, Grown;
    StandsWithin(sub, kid, change, seen);
    SlotRelinked(kid, akid, shared[key], sub, change, seen);
    SharedRejoin(t, a, shared, Grown(t.length, key), key, sub, akid, Relink(shared[key], Kids(kid).Keys, change),
                 Nodes(sub), seen);
  }

  lemma WithSame(t: Tree, k: Key)
    requires t.Branch? && k in t.kids
    ensures With(t, t.length, k, t.kids[k]) == t
  {
    assert t.kids[k := t.kids[k]] == t.kids;
  }

  lemma SharedKids(t: Tree, a: Tree, shared: map<Key, Link>, k: Key)
    requires Apart(t) && Apart(a) && Linked(t, a, Parted(shared)) && k in shared
    ensures t.Branch? && a.Branch? && k in t.kids && k in a.kids && Linked(t.kids[k], a.kids[k], shared[k])
    ensures Apart(t.kids[k]) && Apart(a.kids[k])
    ensures Nodes(t.kids[k]) <= Nodes(t) && Nodes(a.kids[k]) <= Nodes(a)
  {
    KidNodesWithin(t, k);
    KidNodesWithin(a, k);
  }

  lemma LinkedBelow(t: Tree, a: Tree, shared: map<Key, Link>, segs: seq<string>, b: Tree, key: Key, sub: Tree,
                    change: Change, seen: set<JsObject>)
    requires Apart(t) && Apart(a) && Linked(t, a, Parted(shared)) && |segs| > 1 && Target(t, segs) == Some((b, key))
    requires Nodes(t) + Nodes(a) <= seen && Stands(sub, KidAt(b, key), change, seen)
    requires var k := KeyAt(t.isArray, segs[0]).value;
             && k in shared
             && Linked(Graft(t.kids[k], b.node, key, sub), Graft(a.kids[k], b.node, key, sub),
                       LinkAfter(shared[k], Doc(t.kids[k]), segs[1..], change))
             && Doc(Graft(a.kids[k], b.node, key, sub))
                == Reached(Doc(a.kids[k]), shared[k], Doc(t.kids[k]), segs[1..], Doc(sub))
             && Apart(Graft(a.kids[k], b.node, key, sub))
    ensures Linked(Graft(t, b.node, key, sub), Graft(a, b.node, key, sub),
                   LinkAfter(Parted(shared), Doc(t), segs, change))
    ensures Doc(Graft(a, b.node, key, sub)) == Reached(Doc(a), Parted(shared), Doc(t), segs, Doc(sub))
    ensures Apart(Graft(a, b.node, key, sub))
  {
    var k := KeyAt(t.isArray, segs[0]).value;
    var kid, akid := t.kids[k], a.kids[k];
    WriteWithin(kid, segs[1..], b, key, sub, change, seen);
    KidNodesWithin(t, k);
    GraftBelow(t, k, b.node, key, sub);
    AliasGraftBelow(t, a, shared, k, b.node, key, sub);
    GraftNodes(akid, b.node, key, sub);
    SharedRejoin(t, a, shared, t.length, k, Graft(kid, b.node, key, sub), Graft(akid, b.node, key, sub),
                 LinkAfter(shared[k], Doc(kid), segs[1..], change), Nodes(sub), seen);
    AliasApartBelow(t, a, shared, k, Graft(akid, b.node, key, sub), Nodes(sub), seen);
    WithDoc(a, a.length, k, Graft(akid, b.node, key, sub));
    assert Doc(a).slots[k] == Doc(akid) && Doc(t).slots[k] == Doc(kid);
  }

  lemma AliasApartBelow(t: Tree, a: Tree, shared: map<Key, Link>, k: Key, akid: Tree, extra: set<JsObject>,
                        seen: set<JsObject>)
    requires Linked(t, a, Parted(shared)) && Apart(a) && k in shared && Apart(akid)
    requires Nodes(t) + Nodes(a) <= seen && extra * seen <= Nodes(KidAt(t, k))
    requires Nodes(akid) <= Nodes(KidAt(a, k)) + extra
    ensures Apart(With(a, a.length, k, akid))
  {
    KidNodesWithin(t, k);
    OwnKidsApart(a);
    forall l | l in a.kids && l != k ensures Nodes(a.kids[l]) !! Nodes(akid) {
      KidNodesWithin(a, l);
    }
    WithApart(a, a.length, k, akid);
  }

  /** What a write puts in a tree leaves it one. */
  lemma WriteApart(t: Tree, segs: seq<string>, b: Tree, key: Key, sub: Tree, change: Change, seen: set<JsObject>)
    requires Apart(t) && Target(t, segs) == Some((b, key)) && Nodes(t) <= seen
    requires Stands(sub, KidAt(b, key), change, seen) && Apart(sub)
    ensures b.node !in Nodes(sub) && Nodes(sub) * Nodes(t) <= KidNodes(b, key)
    ensures Apart(Graft(t, b.node, key, sub))
  {
    TargetWithin(t, segs);
    TargetOccurs(t, segs);
    OccursApart(b, t);
    StandsWithin(sub, KidAt(b, key), change, seen);
    OwnKidsApart(b);
    GraftApart(t, b, key, sub);
  }

  /** The objects of a write below `kid` come from there or are new. */
  lemma WriteWithin(kid: Tree, segs: seq<string>, b: Tree, key: Key, sub: Tree, change: Change, seen: set<JsObject>)
    requires Target(kid, segs) == Some((b, key)) && Nodes(kid) <= seen && Stands(sub, KidAt(b, key), change, seen)
    ensures b.node in Nodes(kid) && Nodes(sub) * seen <= Nodes(kid)
    ensures Nodes(Graft(kid, b.node, key, sub)) <= Nodes(kid) + Nodes(sub)
  {
    TargetWithin(kid, segs);
    TargetOccurs(kid, segs);
    OccursWithin(b, kid);
    StandsWithin(sub, KidAt(b, key), change, seen);
    if key in Kids(b) { KidNodesWithin(b, key); }
    GraftNodes(kid, b.node, key, sub);
  }

  /** An object below a shared slot occurs in the other value below that slot only. */
  lemma AliasGraftBelow(t: Tree, a: Tree, shared: map<Key, Link>, k: Key, x: JsObject, key: Key, sub: Tree)
    requires Linked(t, a, Parted(shared)) && k in shared && x in Nodes(t.kids[k])
    ensures Graft(a, x, key, sub) == With(a, a.length, k, Graft(a.kids[k], x, key, sub))
  {
    KidNodesWithin(t, k);
    hide Nodes;
    assert Kids(t)[k] == t.kids[k];
    forall l | l in a.kids && l != k ensures x !in Nodes(a.kids[l]) {
      assert l in Kids(a) && Nodes(Kids(t)[k]) !! Nodes(Kids(a)[l]);
    }
    GraftUnder(a, k, x, key, sub);
  }

  lemma UnlinkedBelow(t: Tree, a: Tree, shared: map<Key, Link>, segs: seq<string>, b: Tree, key: Key, sub: Tree,
                      change: Change, seen: set<JsObject>)
    requires Apart(t) && Apart(a) && Linked(t, a, Parted(shared)) && |segs| > 1 && Target(t, segs) == Some((b, key))
    requires Nodes(t) + Nodes(a) <= seen && Stands(sub, KidAt(b, key), change, seen)
    requires KeyAt(t.isArray, segs[0]).value !in shared
    ensures Linked(Graft(t, b.node, key, sub), Graft(a, b.node, key, sub),
                   LinkAfter(Parted(shared), Doc(t), segs, change))
    ensures Doc(Graft(a, b.node, key, sub)) == Reached(Doc(a), Parted(shared), Doc(t), segs, Doc(sub))
    ensures Graft(a, b.node, key, sub) == a
  {
    var k := KeyAt(t.isArray, segs[0]).value;
    var kid := t.kids[k];
    KidNodesWithin(t, k);
    WriteWithin(kid, segs[1..], b, key, sub, change, seen);
    UnsharedApart(t, a, shared, k);
    GraftIdle(a, b.node, key, sub);
    GraftBelow(t, k, b.node, key, sub);
    UnsharedRejoin(t, a, shared, t.length, k, Graft(kid, b.node, key, sub), seen);
  }

  // --------------------------------------------------- the message slot

  const MESSAGE_KEY := Name("message")

  predicate IsObject(j: Json) {
    j.Box? && !j.isArray
  }

  /** The path leads into the message slot, or to it. */
  predicate AtSlot(doc: Json, segs: seq<string>) {
    IsObject(doc) && Has(doc, "message") && segs != [] && segs[0] == "message"
  }

  ghost predicate HasSlot(tree: Tree) {
    tree.Branch? && !tree.isArray && MESSAGE_KEY in tree.kids
  }

  /** The captured message meets the document in the message slot, as linked, and nowhere else. */
  ghost predicate SlotLinked(tree: Tree, alias: Tree, link: Link) {
    if HasSlot(tree) then
      Linked(tree.kids[MESSAGE_KEY], alias, link) && tree.node !in Nodes(alias)
      && forall k | k in tree.kids && k != MESSAGE_KEY :: Nodes(tree.kids[k]) !! Nodes(alias)
    else link == UNLINKED && Nodes(tree) !! Nodes(alias)
  }

  lemma ApartSlot(tree: Tree, alias: Tree)
    ensures Nodes(tree) !! Nodes(alias) <==> SlotLinked(tree, alias, UNLINKED)
  {
    NodesOfKids(tree);
    forall k | k in Kids(tree) ensures Nodes(Kids(tree)[k]) <= Nodes(tree) {
      KidNodesWithin(tree, k);
    }
    if HasSlot(tree) { DisjointLinked(tree.kids[MESSAGE_KEY], alias); }
  }

  /** The link and the captured message's value after a write in the document. */
  function SlotLinkAfter(doc: Json, link: Link, segs: seq<string>, change: Change): (r: Link)
    ensures link.Parted? ==> r.Parted?
  {
    if AtSlot(doc, segs) then LinkAfter(link, Get(doc, "message"), segs[1..], change) else link
  }

  function SlotReached(doc: Json, message: Json, link: Link, segs: seq<string>, v: Json): Json {
    if AtSlot(doc, segs) then Reached(message, link, Get(doc, "message"), segs[1..], v) else message
  }

  lemma SlotGraft(tree: Tree, alias: Tree, link: Link, segs: seq<string>, b: Tree, key: Key, sub: Tree,
                  change: Change, seen: set<JsObject>)
    requires Apart(tree) && Apart(alias) && SlotLinked(tree, alias, link) && Target(tree, segs) == Some((b, key))
    requires Nodes(tree) + Nodes(alias) <= seen && Stands(sub, KidAt(b, key), change, seen) && Apart(sub)
    ensures SlotLinked(Graft(tree, b.node, key, sub), Graft(alias, b.node, key, sub),
                       SlotLinkAfter(Doc(tree), link, segs, change))
    ensures Doc(Graft(alias, b.node, key, sub)) == SlotReached(Doc(tree), Doc(alias), link, segs, Doc(sub))
    ensures Apart(Graft(alias, b.node, key, sub))
  {
    WriteWithin(tree, segs, b, key, sub, change, seen);
    if AtSlot(Doc(tree), segs) {
      if |segs| == 1 {
        SlotWritten(tree, alias, link, sub, change, seen);
        assert segs[1..] == [];
      } else {
        WrittenInSlot(tree, alias, link, segs, b, key, sub, change, seen);
      }
    } else {
      WrittenElsewhere(tree, alias, link, segs, b, key, sub, change, seen);
    }
  }

  lemma SlotWritten(tree: Tree, alias: Tree, link: Link, sub: Tree, change: Change, seen: set<JsObject>)
    requires Apart(tree) && Apart(alias) && HasSlot(tree) && SlotLinked(tree, alias, link)
    requires Nodes(tree) + Nodes(alias) <= seen && Stands(sub, tree.kids[MESSAGE_KEY], change, seen)
    ensures SlotLinked(Graft(tree, tree.node, MESSAGE_KEY, sub), alias,
                       Relink(link, SlotKeys(Doc(tree.kids[MESSAGE_KEY])), change))
    ensures Graft(alias, tree.node, MESSAGE_KEY, sub) == alias
  {
    var slot := tree.kids[MESSAGE_KEY];
    KidNodesWithin(tree, MESSAGE_KEY);
    GraftHere(tree, MESSAGE_KEY, sub);
    GraftIdle(alias, tree.node, MESSAGE_KEY, sub);
    SlotRelinked(slot, alias, link, sub, change, seen);
    assert SlotKeys(Doc(slot)) == Kids(slot).Keys;
  }

  /** New values in the slot and for the captured message, linked to one another. */
  lemma SlotRejoin(tree: Tree, alias: Tree, link: Link, kid: Tree, alias': Tree, link': Link, extra: set<JsObject>,
                   seen: set<JsObject>)
    requires Apart(tree) && HasSlot(tree) && SlotLinked(tree, alias, link) && Linked(kid, alias', link')
    requires Nodes(tree) + Nodes(alias) <= seen && extra * seen <= Nodes(tree.kids[MESSAGE_KEY])
    requires Nodes(alias') <= Nodes(alias) + extra
    ensures SlotLinked(With(tree, tree.length, MESSAGE_KEY, kid), alias', link')
  {
    hide Linked;
    OwnKidsApart(tree);
    assert tree.node in Nodes(tree);
    forall k | k in tree.kids && k != MESSAGE_KEY ensures Nodes(tree.kids[k]) !! Nodes(alias') {
      KidNodesWithin(tree, k);
    }
  }

  lemma WrittenInSlot(tree: Tree, alias: Tree, link: Link, segs: seq<string>, b: Tree, key: Key, sub: Tree,
                      change: Change, seen: set<JsObject>)
    requires Apart(tree) && Apart(alias) && HasSlot(tree) && SlotLinked(tree, alias, link)
    requires |segs| > 1 && segs[0] == "message" && Target(tree, segs) == Some((b, key))
    requires Nodes(tree) + Nodes(alias) <= seen && Stands(sub, KidAt(b, key), change, seen) && Apart(sub)
    ensures Apart(Graft(alias, b.node, key, sub))
    ensures var d := Doc(tree.kids[MESSAGE_KEY]);
            && SlotLinked(Graft(tree, b.node, key, sub), Graft(alias, b.node, key, sub),
                          LinkAfter(link, d, segs[1..], change))
            && Doc(Graft(alias, b.node, key, sub)) == Reached(Doc(alias), link, d, segs[1..], Doc(sub))
  {
    var slot := tree.kids[MESSAGE_KEY];
    var link' := LinkAfter(link, Doc(slot), segs[1..], change);
    KidNodesWithin(tree, MESSAGE_KEY);
    assert Target(slot, segs[1..]) == Some((b, key)) && Apart(slot) && Linked(slot, alias, link);
    hide Linked, LinkAfter, Reached, Stands, Graft, Nodes, Doc, Apart, Target, SlotLinked, KidAt;
    LinkedGraft(slot, alias, link, segs[1..], b, key, sub, change, seen);
    WriteWithin(slot, segs[1..], b, key, sub, change, seen);
    GraftBelow(tree, MESSAGE_KEY, b.node, key, sub);
    GraftNodes(alias, b.node, key, sub);
    SlotRejoin(tree, alias, link, Graft(slot, b.node, key, sub), Graft(alias, b.node, key, sub), link', Nodes(sub),
               seen);
  }

  /** A new value in another slot of the document, made of new objects and of the old value's. */
  lemma OtherSlotRejoin(tree: Tree, alias: Tree, link: Link, length: nat, k: Key, kid: Tree, seen: set<JsObject>)
    requires HasSlot(tree) && SlotLinked(tree, alias, link) && k != MESSAGE_KEY
    requires Nodes(tree) + Nodes(alias) <= seen && Nodes(kid) * seen <= Nodes(KidAt(tree, k))
    ensures SlotLinked(With(tree, length, k, kid), alias, link)
  {
    hide Linked;
  }

  lemma WrittenElsewhere(tree: Tree, alias: Tree, link: Link, segs: seq<string>, b: Tree, key: Key, sub: Tree,
                         change: Change, seen: set<JsObject>)
    requires Apart(tree) && Apart(alias) && SlotLinked(tree, alias, link) && Target(tree, segs) == Some((b, key))
    requires Nodes(tree) + Nodes(alias) <= seen && Stands(sub, KidAt(b, key), change, seen)
    requires HasSlot(tree) ==> segs[0] != "message"
    ensures SlotLinked(Graft(tree, b.node, key, sub), alias, link) && Graft(alias, b.node, key, sub) == alias
  {
    WriteWithin(tree, segs, b, key, sub, change, seen);
    if !HasSlot(tree) {
      hide Linked, Stands, Apart;
      GraftIdle(alias, b.node, key, sub);
      ApartSlot(Graft(tree, b.node, key, sub), alias);
    } else {
      WrittenBeside(tree, alias, link, segs, b, key, sub, change, seen);
    }
  }

  lemma WrittenBeside(tree: Tree, alias: Tree, link: Link, segs: seq<string>, b: Tree, key: Key, sub: Tree,
                      change: Change, seen: set<JsObject>)
    requires Apart(tree) && SlotLinked(tree, alias, link) && Target(tree, segs) == Some((b, key))
    requires Nodes(tree) + Nodes(alias) <= seen && Stands(sub, KidAt(b, key), change, seen)
    requires HasSlot(tree) && segs[0] != "message"
    ensures SlotLinked(Graft(tree, b.node, key, sub), alias, link) && Graft(alias, b.node, key, sub) == alias
  {
    var k := KeyAt(tree.isArray, segs[0]).value;
    if |segs| == 1 {
      assert tree.node !in Nodes(alias);
      hide Linked, Stands, Apart, SlotLinked, Nodes, Graft;
      GraftHere(tree, key, sub);
      GraftIdle(alias, b.node, key, sub);
      StandsWithin(sub, KidAt(tree, key), change, seen);
      OtherSlotRejoin(tree, alias, link, Grown(tree.length, key), k, sub, seen);
    } else {
      var kid := tree.kids[k];
      KidNodesWithin(tree, k);
      assert Target(kid, segs[1..]) == Some((b, key)) && Nodes(kid) !! Nodes(alias);
      hide Linked, Stands, Apart, SlotLinked, Nodes, Graft, Target;
      WriteWithin(kid, segs[1..], b, key, sub, change, seen);
      GraftBelow(tree, k, b.node, key, sub);
      GraftIdle(alias, b.node, key, sub);
      OtherSlotRejoin(tree, alias, link, tree.length, k, Graft(kid, b.node, key, sub), seen);
    }
  }

  /** Where the walk finds no container, nothing moves. */
  lemma {:induction false} NoTargetNoLink(t: Tree, a: Tree, link: Link, segs: seq<string>, change: Change, v: Json)
    requires Apart(t) && Linked(t, a, link) && segs != [] && Target(t, segs).None?
    ensures LinkAfter(link, Doc(t), segs, change) == link
    ensures Reached(Doc(a), link, Doc(t), segs, v) == Doc(a)
    decreases segs
  {
    if link.Same? {
      NoTargetNoSet(t, segs, v);
    } else if t.Branch? && KeyAt(t.isArray, segs[0]).Some? && KeyAt(t.isArray, segs[0]).value in link.shared {
      var k := KeyAt(t.isArray, segs[0]).value;
      NoTargetNoLink(t.kids[k], a.kids[k], link.shared[k], segs[1..], change, v);
      hide Linked, Apart, Target;
      assert link.shared[k := link.shared[k]] == link.shared;
      KidDocs(t, k);
      KidDocs(a, k);
      hide Doc;
    }
  }

  lemma NoTargetNoMove(tree: Tree, alias: Tree, link: Link, segs: seq<string>, change: Change, v: Json)
    requires Apart(tree) && SlotLinked(tree, alias, link) && Target(tree, segs).None?
    ensures SlotLinkAfter(Doc(tree), link, segs, change) == link
    ensures SlotReached(Doc(tree), Doc(alias), link, segs, v) == Doc(alias)
  {
    if AtSlot(Doc(tree), segs) {
      NoTargetNoLink(tree.kids[MESSAGE_KEY], alias, link, segs[1..], change, v);
    }
  }
}
