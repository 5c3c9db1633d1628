// cli/beacon-hooks/cmd/cline_event.go: joining a tool's path onto a workspace root by the rules
// of the path's own platform, whatever the host's are.
module Paths {
  import opened Text

  predicate IsSeparator(c: char) { c == '/' || c == '\\' }

  /** The bytes that are 'a' to 'z' once bit 0x20 is set. */
  predicate IsLetter(c: char) { 'a' <= c <= 'z' || 'A' <= c <= 'Z' }

  predicate HasDrive(p: string) {
    |p| >= 2 && p[1] == ':' && IsLetter(p[0])
  }

  predicate IsUnc(p: string) {
    |p| >= 2 && IsSeparator(p[0]) && IsSeparator(p[1])
  }

  predicate IsRooted(path: string) {
    if path == "" then false
    else if IsSeparator(path[0]) then true
    else |path| >= 3 && HasDrive(path) && IsSeparator(path[2])
  }

  /** A drive letter and nothing else: as a root it stands for the root of that drive. */
  predicate BareDrive(root: string) {
    |root| == 2 && HasDrive(root)
  }

  /** A root whose joins name a location outright. */
  predicate Anchored(root: string) {
    IsRooted(root) || BareDrive(root)
  }

  /** indexPathSeparator: the first separator, |s| standing for none. */
  function SeparatorAt(s: string): (i: nat)
    ensures i <= |s| && (i < |s| ==> IsSeparator(s[i])) && forall j | 0 <= j < i :: !IsSeparator(s[j])
  {
    if s == "" || IsSeparator(s[0]) then 0 else 1 + SeparatorAt(s[1..])
  }

  /** How much of a path is its volume: a drive, or a UNC server and share. */
  function VolumeLength(p: string): (n: nat)
    ensures n <= |p|
  {
    if HasDrive(p) then 2
    else if IsUnc(p) then
      var rest := p[2..];
      var server := SeparatorAt(rest);
      if server == |rest| then |p|
      else
        var share := SeparatorAt(rest[server + 1..]);
        if share == |rest[server + 1..]| then |p| else 2 + server + 1 + share
    else 0
  }

  function SplitPathVolume(p: string): (string, string) {
    (p[..VolumeLength(p)], p[VolumeLength(p)..])
  }

  function ToSlash(p: string): string {
    ReplaceChar(p, '\\', "/")
  }

  // ------------------------------------------------------- path.Clean

  /** One segment onto the stack; `..` takes one off, and at the bottom stays only when there is
      no root to stop it. */
  function CleanStep(rooted: bool, stack: seq<string>, seg: string): seq<string> {
    if seg == "" || seg == "." then stack
    else if seg != ".." then stack + [seg]
    else if stack != [] && stack[|stack| - 1] != ".." then stack[..|stack| - 1]
    else if rooted then stack
    else stack + [seg]
  }

  function CleanSegs(rooted: bool, segs: seq<string>): seq<string> {
    if segs == [] then [] else CleanStep(rooted, CleanSegs(rooted, segs[..|segs| - 1]), segs[|segs| - 1])
  }

  function Clean(p: string): string {
    var rooted := p != "" && p[0] == '/';
    var text := Join(CleanSegs(rooted, Split(p, '/')), "/");
    if rooted then "/" + text else if text == "" then "." else text
  }

  /** path.Join of two elements: leading empty ones are dropped. */
  function PathJoin(a: string, b: string): string {
    if a != "" then Clean(a + "/" + b) else if b != "" then Clean(b) else ""
  }

  // --------------------------------------------------------- the join

  function SeparatorOf(root: string): char {
    if '\\' in root && '/' !in root then '\\'
    else if SplitPathVolume(root).0 != "" && forall c | c in root :: !IsSeparator(c) then '\\'
    else '/'
  }

  function JoinWorkspacePath(root: string, rel: string): string {
    var (volume, rest) := SplitPathVolume(root);
    var rootRest := if volume != "" && rest == "" then "/" else rest;
    var joined := PathJoin(ToSlash(rootRest), ToSlash(rel));
    volume + if SeparatorOf(root) == '/' then joined else ReplaceChar(joined, '/', [SeparatorOf(root)])
  }

  /** A tool's path resolved against the workspace root, when it needs and has one. */
  function ClineWorkspacePath(path: string, root: string): string {
    if path == "" || root == "" || IsRooted(path) then path else JoinWorkspacePath(root, path)
  }

  // ---------------------------------------------- where a path leads

  function Segments(p: string): seq<string> {
    Split(ToSlash(p), '/')
  }

  /** Following segments down from a directory; the root is its own parent. */
  function Follow(at: seq<string>, segs: seq<string>): seq<string>
    decreases segs
  {
    if segs == [] then at
    else if segs[0] == "" || segs[0] == "." then Follow(at, segs[1..])
    else if segs[0] == ".." then Follow(if at == [] then [] else at[..|at| - 1], segs[1..])
    else Follow(at + [segs[0]], segs[1..])
  }

  /** A name a directory entry can have. */
  predicate Proper(seg: string) {
    seg != "" && seg != "." && seg != ".." && '/' !in seg && '\\' !in seg
  }

  predicate AllProper(segs: seq<string>) {
    forall s | s in segs :: Proper(s)
  }

  lemma {:induction false} FollowAppend(at: seq<string>, a: seq<string>, b: seq<string>)
    ensures Follow(at, a + b) == Follow(Follow(at, a), b)
    decreases a
  {
    if a == [] {
      assert a + b == b;
    } else {
      assert (a + b)[1..] == a[1..] + b;
      var next := if a[0] == "" || a[0] == "." then at
                  else if a[0] == ".." then if at == [] then [] else at[..|at| - 1]
                  else at + [a[0]];
      FollowAppend(next, a[1..], b);
    }
  }

  lemma FollowOne(at: seq<string>, seg: string)
    ensures Follow(at, [seg]) == if seg == "" || seg == "." then at
                                 else if seg == ".." then if at == [] then [] else at[..|at| - 1]
                                 else at + [seg]
  {
    assert [seg][1..] == [];
  }

  predicate SlashFree(segs: seq<string>) {
    forall s | s in segs :: '/' !in s && '\\' !in s
  }

  /** Directories are only ever entered by proper names. */
  lemma {:induction false} FollowProper(at: seq<string>, segs: seq<string>)
    requires AllProper(at) && SlashFree(segs)
    ensures AllProper(Follow(at, segs))
    decreases segs
  {
    if segs != [] {
      assert segs[0] in segs;
      var next := if segs[0] == "" || segs[0] == "." then at
                  else if segs[0] == ".." then if at == [] then [] else at[..|at| - 1]
                  else at + [segs[0]];
      FollowProper(next, segs[1..]);
    }
  }

  lemma SegmentsSlashFree(p: string)
    ensures SlashFree(Segments(p))
  {
    JoinOfSplit(ToSlash(p), '/');
    ReplaceCharClears(p, '\\', "/");
    forall s | s in Segments(p) ensures '\\' !in s {
      if '\\' in s { SplitKeepsChars(ToSlash(p), '/', s, '\\'); }
    }
  }

  /** Under a root, cleaning segments is following them from the top. */
  lemma {:induction false} CleanIsFollow(segs: seq<string>)
    requires SlashFree(segs)
    ensures CleanSegs(true, segs) == Follow([], segs)
  {
    if segs != [] {
      var front, last := segs[..|segs| - 1], segs[|segs| - 1];
      assert segs == front + [last];
      CleanIsFollow(front);
      FollowAppend([], front, [last]);
      FollowOne(Follow([], front), last);
      FollowProper([], front);
      var at := Follow([], front);
      assert at != [] ==> at[|at| - 1] in at;
    }
  }

  lemma {:induction false} ReplaceInJoin(segs: seq<string>, c: char, d: char)
    requires forall s | s in segs :: c !in s
    ensures ReplaceChar(Join(segs, [c]), c, [d]) == Join(segs, [d])
  {
    if segs != [] {
      var first, more := segs[0], Join(segs[1..], [c]);
      ReplaceCharIdle(first, c, [d]);
      if |segs| > 1 {
        ReplaceInJoin(segs[1..], c, d);
        assert ReplaceChar([c], c, [d]) == [d];
        hide ReplaceChar;
        ReplaceAppend(first, [c] + more, c, [d]);
        ReplaceAppend([c], more, c, [d]);
        Assoc(first, [c], more);
        Assoc(first, [d], Join(segs[1..], [d]));
      }
    }
  }

  // ------------------------------------------------- joins under a root

  function Volume(root: string): string { SplitPathVolume(root).0 }
  function Rest(root: string): string { SplitPathVolume(root).1 }

  /** Where a path leads from a workspace root. */
  function Place(root: string, rel: string): seq<string> {
    Follow(Follow([], Segments(Rest(root))), Segments(rel))
  }

  lemma {:induction false} ToSlashHead(s: string)
    ensures |ToSlash(s)| == |s| && (s != "" ==> ToSlash(s)[0] == if s[0] == '\\' then '/' else s[0])
  {
    if s != "" { ToSlashHead(s[1..]); }
  }

  lemma {:induction false} JoinHasNone(segs: seq<string>, c: char, sep: char)
    requires c != sep && forall s | s in segs :: c !in s
    ensures c !in Join(segs, [sep])
  {
    if |segs| > 1 { JoinHasNone(segs[1..], c, sep); }
  }

  /** Cleaning a joined pair of slash paths, the first of them rooted. */
  lemma CleanPair(a: string, b: string)
    requires a != "" && a[0] == '/'
    requires SlashFree(Split(a, '/')) && SlashFree(Split(b, '/'))
    ensures PathJoin(a, b) == "/" + Join(Follow(Follow([], Split(a, '/')), Split(b, '/')), "/")
  {
    hide Follow, Split, Join;
    SplitAppend(a, b, '/');
    assert (a + "/" + b)[0] == '/' && a + ['/'] + b == a + "/" + b;
    CleanIsFollow(Split(a, '/') + Split(b, '/'));
    FollowAppend([], Split(a, '/'), Split(b, '/'));
  }

  /** What is left of a rooted root after its volume starts with a separator, if anything is. */
  lemma RestIsRooted(root: string)
    requires Anchored(root)
    ensures Rest(root) == "" || IsSeparator(Rest(root)[0])
    ensures Volume(root) == "" ==> Rest(root) == root && root != ""
  {
    var n := VolumeLength(root);
    if !HasDrive(root) && IsUnc(root) && n < |root| {
      var rest := root[2..];
      var server := SeparatorAt(rest);
      var share := SeparatorAt(rest[server + 1..]);
      assert rest[server + 1..][share] == root[n];
    }
  }

  /** The joined path: the root's volume, and then, under one separator, the place the root and the
      relative path lead to. */
  lemma JoinIsPlace(root: string, rel: string)
    requires Anchored(root)
    ensures var sep := SeparatorOf(root);
            JoinWorkspacePath(root, rel) == Volume(root) + [sep] + Join(Place(root, rel), [sep])
  {
    hide *;
    JoinInSlashes(root, rel);
    var place, sep := Place(root, rel), SeparatorOf(root);
    JoinUnfolds(root, rel);
    SeparatorIsOne(root);
    PlaceIsProper(root, rel);
    if sep != '/' {
      assert sep == '\\' by { OtherSeparator(sep); }
      ReplaceInJoin(place, '/', '\\');
      ReplaceAppend("/", Join(place, "/"), '/', "\\");
      ReplaceSlash();
    }
    assert Volume(root) + ([sep] + Join(place, [sep])) == Volume(root) + [sep] + Join(place, [sep]);
  }

  lemma OtherSeparator(c: char)
    requires IsSeparator(c) && c != '/'
    ensures c == '\\'
  {
  }

  function RootRest(root: string): string {
    if Volume(root) != "" && Rest(root) == "" then "/" else Rest(root)
  }

  lemma JoinUnfolds(root: string, rel: string)
    ensures var joined := PathJoin(ToSlash(RootRest(root)), ToSlash(rel));
            JoinWorkspacePath(root, rel)
            == Volume(root) + if SeparatorOf(root) == '/' then joined else ReplaceChar(joined, '/', [SeparatorOf(root)])
  {
    hide VolumeLength, PathJoin, SeparatorOf, ToSlash;
  }

  lemma JoinInSlashes(root: string, rel: string)
    requires Anchored(root)
    ensures PathJoin(ToSlash(RootRest(root)), ToSlash(rel)) == "/" + Join(Place(root, rel), "/")
  {
    hide Follow, Split, Join, VolumeLength, PathJoin, SlashFree;
    RestIsRooted(root);
    var rootRest := RootRest(root);
    assert rootRest != "" && IsSeparator(rootRest[0]);
    ToSlashHead(rootRest);
    SegmentsSlashFree(rootRest);
    SegmentsSlashFree(rel);
    CleanPair(ToSlash(rootRest), ToSlash(rel));
    if Rest(root) == "" { NothingFollowed(); }
    assert Follow(Follow([], Segments(rootRest)), Segments(rel)) == Place(root, rel);
  }

  lemma ReplaceSlash()
    ensures ReplaceChar("/", '/', "\\") == "\\"
  {
  }

  lemma SeparatorIsOne(root: string)
    ensures IsSeparator(SeparatorOf(root))
  {
  }

  lemma NothingFollowed()
    ensures Follow([], Segments("/")) == Follow([], Segments("")) == []
  {
    assert "/"[1..] == "" && ToSlash("") == "" && ToSlash("/") == "/" && Split("/", '/') == ["", ""];
    assert ["", ""][1..] == [""] && [""][1..] == [];
    assert Follow([], [""]) == Follow([], []) == [];
  }

  lemma PlaceIsProper(root: string, rel: string)
    ensures AllProper(Place(root, rel))
    ensures forall s | s in Place(root, rel) :: '/' !in s && '\\' !in s
  {
    hide Follow;
    SegmentsSlashFree(Rest(root));
    SegmentsSlashFree(rel);
    FollowProper([], Segments(Rest(root)));
    FollowProper(Follow([], Segments(Rest(root))), Segments(rel));
  }

  /** The join of a rooted root is rooted, starts with the root's own volume, and past the volume
      has one kind of separator and no empty, `.` or `..` segment: no `..` climbs out. */
  lemma JoinIsCanonical(root: string, rel: string)
    requires Anchored(root)
    ensures var joined, sep, volume := JoinWorkspacePath(root, rel), SeparatorOf(root), Volume(root);
            && IsRooted(joined) && volume + [sep] <= joined && IsSeparator(sep)
            && var tail := joined[|volume| + 1..];
               && AllProper(if tail == "" then [] else Split(tail, sep))
               && forall c | c in tail :: IsSeparator(c) ==> c == sep
  {
    hide Follow, Split, Join, SeparatorOf, VolumeLength, JoinWorkspacePath;
    JoinIsPlace(root, rel);
    PlaceIsProper(root, rel);
    SeparatorIsOne(root);
    var volume, sep, place := Volume(root), SeparatorOf(root), Place(root, rel);
    var tail := Join(place, [sep]);
    assert (volume + [sep] + tail)[|volume| + 1..] == tail;
    NamesOfTail(place, sep);
    JoinHasNone(place, if sep == '/' then '\\' else '/', sep);
    StillRooted(root, sep, tail);
  }

  /** The names of a path are read back off its text. */
  lemma NamesOfTail(names: seq<string>, sep: char)
    requires AllProper(names) && IsSeparator(sep)
    ensures var tail := Join(names, [sep]); names == if tail == "" then [] else Split(tail, sep)
  {
    if names != [] {
      assert Proper(names[0]) by { assert names[0] in names; }
      SplitOfJoin(names, sep);
    }
  }

  lemma StillRooted(root: string, sep: char, tail: string)
    requires Anchored(root) && IsSeparator(sep)
    ensures var joined := Volume(root) + [sep] + tail; IsRooted(joined) && Anchored(joined)
  {
    var volume := Volume(root);
    var joined := volume + [sep] + tail;
    assert joined[|volume|] == sep;
    if volume != "" {
      assert joined[0] == root[0];
      if HasDrive(root) { assert joined[1] == ':'; }
    }
  }

  /** A path that starts with a separator, or with a drive and one, is kept, and so is any path without a
      root. What is recorded under an anchored root names a location outright, or is empty. */
  lemma RecordedPathIsRooted(path: string, root: string)
    ensures var recorded := ClineWorkspacePath(path, root);
            && (path != "" && path[0] in "/\\" ==> recorded == path)
            && (|path| >= 3 && path[1] == ':' && path[2] in "/\\" && ('a' <= path[0] <= 'z' || 'A' <= path[0] <= 'Z')
                ==> recorded == path)
            && (path == "" || root == "" ==> recorded == path)
            && (Anchored(root) ==> (IsRooted(recorded) <==> path != "") && (IsRooted(path) ==> recorded == path))
            && (root != "" && path != "" && !IsRooted(path) ==> recorded == JoinWorkspacePath(root, path))
  {
    hide JoinWorkspacePath;
    if Anchored(root) { JoinIsCanonical(root, path); }
  }

  // ------------------------------------------------ which roots anchor

  /** No `..` above a name: the stack of a relative path. */
  predicate UpsFirst(stack: seq<string>) {
    && SlashFree(stack) && (forall s | s in stack :: s != "" && s != ".")
    && forall i, j | 0 <= i < j < |stack| :: stack[j] == ".." ==> stack[i] == ".."
  }

  lemma StepUpsFirst(stack: seq<string>, seg: string)
    requires UpsFirst(stack) && SlashFree([seg])
    ensures UpsFirst(CleanStep(false, stack, seg))
  {
    assert seg in [seg];
  }

  lemma {:induction false} CleanUpsFirst(segs: seq<string>)
    requires SlashFree(segs)
    ensures UpsFirst(CleanSegs(false, segs))
  {
    if segs != [] {
      hide UpsFirst, CleanStep;
      CleanUpsFirst(segs[..|segs| - 1]);
      StepUpsFirst(CleanSegs(false, segs[..|segs| - 1]), segs[|segs| - 1]);
    } else {
      assert UpsFirst([]);
    }
  }

  function Ups(n: nat): (ups: seq<string>)
    ensures |ups| == n && forall s | s in ups :: s == ".."
  {
    if n == 0 then [] else Ups(n - 1) + [".."]
  }

  lemma CleanSnoc(segs: seq<string>, seg: string)
    ensures CleanSegs(false, segs + [seg]) == CleanStep(false, CleanSegs(false, segs), seg)
  {
    hide CleanStep;
    assert (segs + [seg])[..|segs|] == segs;
  }

  /** Going up takes names off the stack. */
  lemma {:induction false} CleanUps(segs: seq<string>, n: nat)
    requires var stack := CleanSegs(false, segs); n <= |stack| && ".." !in stack
    ensures var stack := CleanSegs(false, segs); CleanSegs(false, segs + Ups(n)) == stack[..|stack| - n]
  {
    hide CleanSegs;
    var stack := CleanSegs(false, segs);
    if n == 0 {
      assert segs + Ups(0) == segs && stack[..|stack|] == stack;
    } else {
      CleanUps(segs, n - 1);
      CleanSnoc(segs + Ups(n - 1), "..");
      assert segs + Ups(n - 1) + [".."] == segs + Ups(n);
      var above := stack[..|stack| - (n - 1)];
      assert above[|above| - 1] == stack[|stack| - n] && above[|above| - 1] in stack;
      assert above[..|above| - 1] == stack[..|stack| - n];
    }
  }

  /** What is left of a root that is not anchored behind its volume starts with no separator. */
  lemma LooseRest(root: string)
    requires root != "" && !Anchored(root)
    ensures Rest(root) != "" && !IsSeparator(Rest(root)[0]) && RootRest(root) == Rest(root)
    ensures Volume(root) == if HasDrive(root) then root[..2] else ""
  {
  }

  /** A stack's text behind a volume. */
  function StackPath(volume: string, stack: seq<string>, sep: char): string {
    volume + if stack == [] then "." else Join(stack, [sep])
  }

  /** The join on a root that is not anchored is its volume and what is left of both paths' segments. */
  lemma LooseClean(root: string, rel: string)
    requires root != "" && !Anchored(root)
    ensures JoinWorkspacePath(root, rel)
         == StackPath(Volume(root), CleanSegs(false, Segments(Rest(root)) + Segments(rel)), SeparatorOf(root))
  {
    LooseRest(root);
    hide SeparatorOf, CleanStep, Split, Join, UpsFirst, VolumeLength, Anchored;
    var rest := Rest(root);
    ToSlashHead(rest);
    SplitAppend(ToSlash(rest), ToSlash(rel), '/');
    assert ToSlash(rest) + ['/'] + ToSlash(rel) == ToSlash(rest) + "/" + ToSlash(rel);
    SegmentsSlashFree(rest);
    SegmentsSlashFree(rel);
    var stack, sep := CleanSegs(false, Segments(rest) + Segments(rel)), SeparatorOf(root);
    CleanUpsFirst(Segments(rest) + Segments(rel));
    StackText(stack, sep);
    SeparatorIsOne(root);
    JoinUnfolds(root, rel);
    DotStays();
  }

  /** The join on a root without a volume that starts with no separator. */
  lemma LooseJoin(root: string, segs: seq<string>)
    requires root != "" && !IsSeparator(root[0]) && !HasDrive(root) && segs != [] && SlashFree(segs)
    ensures var stack, sep := CleanSegs(false, Segments(root) + segs), SeparatorOf(root);
            JoinWorkspacePath(root, Join(segs, "/")) == if stack == [] then "." else Join(stack, [sep])
  {
    var rel := Join(segs, "/");
    JoinHasNone(segs, '\\', '/');
    ReplaceCharIdle(rel, '\\', "/");
    SplitOfJoin(segs, '/');
    LooseClean(root, rel);
    assert Volume(root) == "" && Rest(root) == root;
    hide SeparatorOf, CleanSegs, Join, JoinWorkspacePath, Segments;
    assert forall t: string :: "" + t == t;
  }

  /** How far up from where a path starts, and down from there, segments lead. */
  datatype Way = Way(ups: nat, names: seq<string>)

  function Onward(at: Way, seg: string): Way {
    if seg == "" || seg == "." then at
    else if seg != ".." then at.(names := at.names + [seg])
    else if at.names == [] then at.(ups := at.ups + 1)
    else at.(names := at.names[..|at.names| - 1])
  }

  function Wander(at: Way, segs: seq<string>): Way
    decreases segs
  {
    if segs == [] then at else Wander(Onward(at, segs[0]), segs[1..])
  }

  lemma {:induction false} WanderSnoc(at: Way, segs: seq<string>, seg: string)
    ensures Wander(at, segs + [seg]) == Onward(Wander(at, segs), seg)
    decreases segs
  {
    hide Onward;
    if segs == [] {
      assert segs + [seg] == [seg] && [seg][1..] == [];
    } else {
      assert (segs + [seg])[1..] == segs[1..] + [seg];
      WanderSnoc(Onward(at, segs[0]), segs[1..], seg);
    }
  }

  function WayUp(w: Way): seq<string> {
    Ups(w.ups) + w.names
  }

  lemma WayStep(w: Way, seg: string)
    requires AllProper(w.names) && SlashFree([seg])
    ensures CleanStep(false, WayUp(w), seg) == WayUp(Onward(w, seg)) && AllProper(Onward(w, seg).names)
  {
    assert seg in [seg];
    var stack := WayUp(w);
    if w.names != [] {
      var last := w.names[|w.names| - 1];
      assert stack[|stack| - 1] == last && last in w.names;
      assert stack[..|stack| - 1] == Ups(w.ups) + w.names[..|w.names| - 1];
    } else {
      assert stack == Ups(w.ups);
      assert stack != [] ==> stack[|stack| - 1] in Ups(w.ups);
      assert Ups(w.ups + 1) + [] == Ups(w.ups) + [".."];
    }
    assert stack + [seg] == Ups(w.ups) + (w.names + [seg]);
  }

  /** Without a root to stop it, cleaning keeps the way up that is left over. */
  lemma {:induction false} CleanIsWander(segs: seq<string>)
    requires SlashFree(segs)
    ensures var w := Wander(Way(0, []), segs); CleanSegs(false, segs) == WayUp(w) && AllProper(w.names)
  {
    if segs != [] {
      var front, last := segs[..|segs| - 1], segs[|segs| - 1];
      assert segs == front + [last] && last in segs;
      CleanIsWander(front);
      hide CleanStep, Onward, Wander;
      WanderSnoc(Way(0, []), front, last);
      WayStep(Wander(Way(0, []), front), last);
    } else {
      assert WayUp(Way(0, [])) == [];
    }
  }

  /** The join on a root that is not anchored: its drive if it has one, then as many `..` as root and
      path go up in all, then the names they go down. */
  lemma LooseIsWay(root: string, rel: string)
    requires root != "" && !Anchored(root)
    ensures var w := Wander(Way(0, []), Segments(Rest(root)) + Segments(rel));
            && AllProper(w.names)
            && JoinWorkspacePath(root, rel)
               == (if HasDrive(root) then root[..2] else "")
                  + if w == Way(0, []) then "." else Join(Ups(w.ups) + w.names, [SeparatorOf(root)])
  {
    LooseRest(root);
    LooseClean(root, rel);
    hide Wander, SeparatorOf, Join, CleanSegs, JoinWorkspacePath, VolumeLength;
    SegmentsSlashFree(Rest(root));
    SegmentsSlashFree(rel);
    var segs := Segments(Rest(root)) + Segments(rel);
    CleanIsWander(segs);
    var w := Wander(Way(0, []), segs);
    assert WayUp(w) == [] <==> w.ups == 0 && w.names == [];
  }

  lemma DotStays()
    ensures ReplaceChar(".", '/', "\\") == "."
  {
  }

  lemma StackText(stack: seq<string>, sep: char)
    requires UpsFirst(stack)
    ensures ReplaceChar(Join(stack, "/"), '/', [sep]) == Join(stack, [sep])
    ensures Join(stack, "/") == "" <==> stack == []
  {
    ReplaceInJoin(stack, '/', sep);
    if stack != [] { assert stack[0] in stack; }
  }

  /** Of a stack's text only a drive in front makes a rooted path. */
  lemma StackRooted(stack: seq<string>, sep: char)
    requires UpsFirst(stack) && stack != [] && IsRooted(Join(stack, [sep])) && IsSeparator(sep)
    ensures HasDrive(stack[0])
  {
    var first := stack[0];
    assert first in stack && Join(stack, [sep])[0] == first[0];
  }

  /** Every join on a root is rooted exactly when the root is rooted or a bare drive. */
  lemma AnchoredExactly(root: string)
    ensures (forall rel :: IsRooted(JoinWorkspacePath(root, rel))) <==> Anchored(root)
  {
    hide JoinWorkspacePath;
    if Anchored(root) {
      forall rel ensures IsRooted(JoinWorkspacePath(root, rel)) {
        JoinIsCanonical(root, rel);
      }
    } else if root == "" {
      NoRoot();
    } else if HasDrive(root) {
      DriveRelative(root);
    } else {
      LooseEscapes(root);
    }
  }

  lemma NoRoot()
    ensures JoinWorkspacePath("", "") == ""
  {
  }

  lemma DriveRelative(root: string)
    requires HasDrive(root) && !Anchored(root)
    ensures !IsRooted(JoinWorkspacePath(root, "x"))
  {
    hide Split, Join, SeparatorOf, CleanStep, UpsFirst;
    var rest := root[2..];
    assert Volume(root) == root[..2] && Rest(root) == rest && rest != "" && !IsSeparator(rest[0]);
    LooseText(rest);
    JoinUnfolds(root, "x");
    var joined := PathJoin(ToSlash(rest), "x");
    assert ToSlash("x") == "x" by { ReplaceCharIdle("x", '\\', "/"); }
    SeparatorIsOne(root);
    ReplaceHead(joined, '/', SeparatorOf(root));
  }

  lemma {:induction false} ReplaceHead(s: string, c: char, d: char)
    ensures var t := ReplaceChar(s, c, [d]); |t| == |s| && (s != "" && s[0] != c ==> t[0] == s[0])
  {
    if s != "" { ReplaceHead(s[1..], c, d); }
  }

  /** The cleaned text of a relative path starts with no separator. */
  lemma LooseText(rest: string)
    requires rest != "" && !IsSeparator(rest[0])
    ensures var joined := PathJoin(ToSlash(rest), "x"); joined != "" && !IsSeparator(joined[0])
  {
    hide Split, Join, CleanStep;
    ToSlashHead(rest);
    SplitAppend(ToSlash(rest), "x", '/');
    SplitWithout("x", '/');
    assert ToSlash(rest) + ['/'] + "x" == ToSlash(rest) + "/" + "x";
    SegmentsSlashFree(rest);
    var stack := CleanSegs(false, Segments(rest) + ["x"]);
    CleanUpsFirst(Segments(rest) + ["x"]);
    if stack != [] {
      assert stack[0] in stack;
      JoinStarts(stack);
    }
    JoinOfNames('/');
  }

  lemma JoinStarts(stack: seq<string>)
    requires stack != [] && stack[0] != ""
    ensures Join(stack, "/") != "" && Join(stack, "/")[0] == stack[0][0]
  {
  }

  /** A relative root: either a name joined on stays relative, or going up leaves nothing of the drive. */
  lemma LooseEscapes(root: string)
    requires root != "" && !IsSeparator(root[0]) && !HasDrive(root)
    ensures exists rel :: !IsRooted(JoinWorkspacePath(root, rel))
  {
    hide JoinWorkspacePath, Join, CleanStep, Segments;
    SegmentsSlashFree(root);
    CleanUpsFirst(Segments(root));
    SeparatorIsOne(root);
    var stack, sep := CleanSegs(false, Segments(root)), SeparatorOf(root);
    if stack != [] && HasDrive(stack[0]) {
      var ups := Ups(|stack|);
      assert ".." !in stack;
      CleanUps(Segments(root), |stack|);
      LooseJoin(root, ups);
      assert !IsRooted(JoinWorkspacePath(root, Join(ups, "/")));
    } else {
      LooseJoin(root, ["x"]);
      CleanSnoc(Segments(root), "x");
      PlainStep(stack);
      var named := stack + ["x"];
      CleanUpsFirst(Segments(root) + ["x"]);
      if IsRooted(Join(named, [sep])) {
        StackRooted(named, sep);
      }
      assert !IsRooted(JoinWorkspacePath(root, Join(["x"], "/")));
    }
  }

  lemma PlainStep(stack: seq<string>)
    ensures CleanStep(false, stack, "x") == stack + ["x"]
  {
  }

  // -------------------------------------------- joining step by step

  /** `//server` with no share: the volume swallows whatever is joined on next. */
  predicate LacksShare(root: string) {
    !HasDrive(root) && IsUnc(root) && forall c | c in root[2..] :: !IsSeparator(c)
  }

  lemma {:induction false} SeparatorAtOver(s: string, tail: string)
    requires (forall c | c in s :: !IsSeparator(c)) && (tail == "" || IsSeparator(tail[0]))
    ensures SeparatorAt(s + tail) == |s|
  {
    if s == "" {
      assert s + tail == tail;
    } else {
      assert s[0] in s && (s + tail)[1..] == s[1..] + tail;
      SeparatorAtOver(s[1..], tail);
    }
  }

  /** A whole volume is found again in front of any rooted tail that does not make it a UNC path. */
  lemma VolumeFoundAgain(root: string, tail: string)
    requires Anchored(root) && !LacksShare(root)
    requires tail != "" && IsSeparator(tail[0]) && (|tail| >= 2 ==> !IsSeparator(tail[1]))
    ensures SplitPathVolume(Volume(root) + tail) == (Volume(root), tail)
  {
    var volume := Volume(root);
    var joined := volume + tail;
    if HasDrive(root) {
      assert joined[0] == root[0] && joined[1] == ':';
    } else if IsUnc(root) {
      UncFoundAgain(root, tail);
    } else {
      assert volume == "" && joined == tail;
    }
  }

  lemma UncFoundAgain(root: string, tail: string)
    requires !HasDrive(root) && IsUnc(root) && !LacksShare(root) && tail != "" && IsSeparator(tail[0])
    ensures SplitPathVolume(Volume(root) + tail) == (Volume(root), tail)
  {
    UncParts(root);
    hide SeparatorAt, IsSeparator, LacksShare;
    var volume, rest := Volume(root), root[2..];
    var server := SeparatorAt(rest);
    hide VolumeLength;
    var head, share := rest[..server], volume[2 + server + 1..];
    assert volume == root[..2] + head + [rest[server]] + share;
    VolumeOfParts(root[..2], head, [rest[server]], share, tail);
    assert volume + tail == root[..2] + head + [rest[server]] + share + tail;
  }

  lemma VolumeOfParts(start: string, head: string, sep: string, share: string, tail: string)
    requires |start| == 2 && IsUnc(start) && |sep| == 1 && IsSeparator(sep[0])
    requires tail == "" || IsSeparator(tail[0])
    requires forall c | c in head + share :: !IsSeparator(c)
    ensures SplitPathVolume(start + head + sep + share + tail) == (start + head + sep + share, tail)
  {
    var p := start + head + sep + share + tail;
    var rest := head + (sep + share + tail);
    assert p[2..] == rest && p[0] == start[0] && p[1] == start[1];
    forall c | c in head ensures !IsSeparator(c) { assert c in head + share; }
    SeparatorAtOver(head, sep + share + tail);
    assert rest[|head| + 1..] == share + tail && rest[|head|] == sep[0];
    forall c | c in share ensures !IsSeparator(c) { assert c in head + share; }
    SeparatorAtOver(share, tail);
  }

  /** A UNC volume with its share: two separators, the server, a separator, the share. */
  lemma UncParts(root: string)
    requires !HasDrive(root) && IsUnc(root) && !LacksShare(root)
    ensures var rest, volume := root[2..], Volume(root);
            var server := SeparatorAt(rest);
            && server < |rest| && 2 + server + 1 <= |volume| && volume <= root
            && (forall c | c in rest[..server] :: !IsSeparator(c))
            && forall c | c in volume[2 + server + 1..] :: !IsSeparator(c)
  {
    var rest := root[2..];
    var server := SeparatorAt(rest);
    var c :| c in rest && IsSeparator(c);
    var i :| 0 <= i < |rest| && rest[i] == c;
    assert server < |rest|;
    var share := SeparatorAt(rest[server + 1..]);
    assert VolumeLength(root) == 2 + (server + 1) + share;
    hide VolumeLength, SeparatorAt;
    Slices(root, 2, server + 1, share);
  }

  lemma Slices(s: string, i: nat, j: nat, n: nat)
    requires i + j + n <= |s|
    ensures s[..i + j + n][i + j..] == s[i..][j..][..n]
  {
  }

  lemma {:induction false} FollowNames(at: seq<string>, names: seq<string>)
    requires AllProper(names)
    ensures Follow(at, names) == at + names
    decreases names
  {
    if names != [] {
      assert Proper(names[0]) by { assert names[0] in names; }
      FollowNames(at + [names[0]], names[1..]);
      assert at + [names[0]] + names[1..] == at + names;
    } else {
      assert at + names == at;
    }
  }

  /** Reading a joined path's tail back leads to the place it was made from. */
  lemma TailLeadsBack(names: seq<string>, sep: char)
    requires AllProper(names) && IsSeparator(sep)
    ensures Follow([], Segments([sep] + Join(names, [sep]))) == names
  {
    TailInSlashes(names, sep);
    hide Split, ToSlash;
    var text := Join(names, "/");
    FollowNames([], names);
    assert [] + names == names && "" + ['/'] + text == "/" + text;
    SplitAppend("", text, '/');
    FollowBlank();
    FollowAppend([], Split("", '/'), Split(text, '/'));
    if names != [] {
      NamesOfTail(names, '/');
      SplitOfJoin(names, '/');
    }
  }

  lemma FollowBlank()
    ensures Split("", '/') == [""] && Follow([], [""]) == []
  {
    assert [""][1..] == [] && Follow([], []) == [];
  }

  lemma TailInSlashes(names: seq<string>, sep: char)
    requires AllProper(names) && IsSeparator(sep)
    ensures ToSlash([sep] + Join(names, [sep])) == "/" + Join(names, "/")
  {
    ReplaceAppend([sep], Join(names, [sep]), '\\', "/");
    assert ReplaceChar([sep], '\\', "/") == "/" by {
      assert [sep][1..] == "";
    }
    if sep == '\\' {
      ReplaceInJoin(names, '\\', '/');
    } else {
      JoinHasNone(names, '\\', '/');
      ReplaceCharIdle(Join(names, "/"), '\\', "/");
    }
  }

  lemma SeparatorStays(root: string, names: seq<string>)
    requires Anchored(root) && AllProper(names)
    ensures var sep := SeparatorOf(root);
            SeparatorOf(Volume(root) + [sep] + Join(names, [sep])) == sep
  {
    hide Join;
    var volume, sep := Volume(root), SeparatorOf(root);
    var joined := volume + [sep] + Join(names, [sep]);
    assert joined[|volume|] == sep && sep in joined;
    if !BareDrive(root) { HasSeparator(root); }
    if sep == '\\' {
      JoinHasNone(names, '/', '\\');
      assert '/' !in joined by {
        forall c | c in volume ensures c in root { }
      }
    }
  }

  lemma HasSeparator(root: string)
    requires IsRooted(root)
    ensures exists c :: c in root && IsSeparator(c)
  {
    if IsSeparator(root[0]) {
      assert root[0] in root;
    } else {
      assert root[2] in root;
    }
  }

  /** A place as seen again from a joined path. */
  lemma JoinedAgain(root: string, a: string)
    requires Anchored(root) && !LacksShare(root)
    ensures var joined := JoinWorkspacePath(root, a);
            && Anchored(joined) && Volume(joined) == Volume(root) && SeparatorOf(joined) == SeparatorOf(root)
            && Follow([], Segments(Rest(joined))) == Place(root, a)
  {
    hide *;
    JoinIsPlace(root, a);
    PlaceIsProper(root, a);
    SeparatorIsOne(root);
    var sep, names := SeparatorOf(root), Place(root, a);
    var tail := [sep] + Join(names, [sep]);
    assert Volume(root) + [sep] + Join(names, [sep]) == Volume(root) + tail;
    StillRooted(root, sep, Join(names, [sep]));
    TailIsNoUnc(names, sep);
    VolumeFoundAgain(root, tail);
    SplitIsPair(Volume(root) + tail);
    SeparatorStays(root, names);
    TailLeadsBack(names, sep);
  }

  lemma SplitIsPair(p: string)
    ensures SplitPathVolume(p) == (Volume(p), Rest(p))
  {
  }

  lemma TailIsNoUnc(names: seq<string>, sep: char)
    requires AllProper(names)
    ensures var tail := [sep] + Join(names, [sep]);
            |tail| >= 2 ==> !IsSeparator(tail[1])
  {
    if names != [] {
      assert Proper(names[0]) by { assert names[0] in names; }
      assert ([sep] + Join(names, [sep]))[1] == names[0][0];
    }
  }

  lemma SegmentsAppend(a: string, b: string)
    ensures Segments(a + "/" + b) == Segments(a) + Segments(b)
  {
    ReplaceAppend(a + "/", b, '\\', "/");
    ReplaceAppend(a, "/", '\\', "/");
    assert ReplaceChar("/", '\\', "/") == "/" by {
      assert "/"[1..] == "";
    }
    SplitAppend(ToSlash(a), ToSlash(b), '/');
  }

  /** Joining in two steps is joining once. */
  lemma JoinStepwise(root: string, a: string, b: string)
    requires Anchored(root) && !LacksShare(root)
    ensures JoinWorkspacePath(JoinWorkspacePath(root, a), b) == JoinWorkspacePath(root, a + "/" + b)
  {
    hide *;
    var joined := JoinWorkspacePath(root, a);
    JoinedAgain(root, a);
    JoinIsPlace(joined, b);
    JoinIsPlace(root, a + "/" + b);
    PlaceInSteps(root, a, b);
    PlaceUnfolds(joined, b);
  }

  lemma PlaceUnfolds(root: string, rel: string)
    ensures Place(root, rel) == Follow(Follow([], Segments(Rest(root))), Segments(rel))
  {
  }

  lemma PlaceInSteps(root: string, a: string, b: string)
    ensures Place(root, a + "/" + b) == Follow(Place(root, a), Segments(b))
  {
    hide Follow, Split, ToSlash;
    SegmentsAppend(a, b);
    FollowAppend(Follow([], Segments(Rest(root))), Segments(a), Segments(b));
  }

  /** Joining in steps is exact: it fails for some path under every UNC root without a share, where
      the first name joined on turns into the share. */
  lemma StepwiseExactly(root: string)
    requires Anchored(root)
    ensures (forall a, b :: JoinWorkspacePath(JoinWorkspacePath(root, a), b) == JoinWorkspacePath(root, a + "/" + b))
       <==> !LacksShare(root)
  {
    hide *;
    if LacksShare(root) {
      NameBecomesShare(root);
      assert "x" + "/" + ".." == "x/..";
    } else {
      forall a, b
        ensures JoinWorkspacePath(JoinWorkspacePath(root, a), b) == JoinWorkspacePath(root, a + "/" + b)
      {
        JoinStepwise(root, a, b);
      }
    }
  }

  lemma NameBecomesShare(root: string)
    requires Anchored(root) && LacksShare(root)
    ensures JoinWorkspacePath(JoinWorkspacePath(root, "x"), "..") != JoinWorkspacePath(root, "x" + "/" + "..")
  {
    hide JoinWorkspacePath, Follow, Split, Join, SeparatorOf;
    var sep := SeparatorOf(root);
    SeparatorIsOne(root);
    JoinIsPlace(root, "x");
    WholeVolume(root);
    FollowXs();
    PlaceInSteps(root, "x", "..");
    JoinOfNames(sep);
    var joined := JoinWorkspacePath(root, "x");
    assert joined == root + [sep] + "x";
    VolumeWithName(root, sep);
    StillRooted(root, sep, "x");
    JoinIsPlace(joined, "..");
    JoinIsPlace(root, "x" + "/" + "..");
    JoinOfNames(SeparatorOf(joined));
  }

  lemma JoinOfNames(sep: char)
    ensures Join([], [sep]) == "" && Join(["x"], [sep]) == "x"
  {
  }

  lemma FollowXs()
    ensures Follow([], Segments("")) == [] && Follow([], Segments("x")) == ["x"]
    ensures Follow(["x"], Segments("..")) == [] && Follow([], Segments("..")) == []
  {
    assert ToSlash("") == "" && Split("", '/') == [""];
    assert ToSlash("x") == "x" && ToSlash("..") == "..";
    SplitWithout("x", '/');
    SplitWithout("..", '/');
    FollowOne([], "");
    FollowOne([], "x");
    FollowOne([], "..");
    FollowOne(["x"], "..");
    assert [] + ["x"] == ["x"];
  }

  lemma WholeVolume(root: string)
    requires LacksShare(root)
    ensures Volume(root) == root && Rest(root) == ""
  {
    assert root[2..] + "" == root[2..];
    SeparatorAtOver(root[2..], "");
  }

  lemma VolumeWithName(root: string, sep: char)
    requires LacksShare(root) && IsSeparator(sep)
    ensures var joined := root + [sep] + "x"; Volume(joined) == joined && Rest(joined) == ""
  {
    var joined := root + [sep] + "x";
    var rest := joined[2..];
    assert rest == root[2..] + ([sep] + "x");
    SeparatorAtOver(root[2..], [sep] + "x");
    assert rest[|root[2..]| + 1..] == "x" && "x" + "" == "x";
    SeparatorAtOver("x", "");
  }

  /** Spellings that lead to one place are recorded as one path, and no others are. */
  lemma OnePathPerPlace(root: string, a: string, b: string)
    requires Anchored(root)
    ensures JoinWorkspacePath(root, a) == JoinWorkspacePath(root, b) <==> Place(root, a) == Place(root, b)
  {
    hide *;
    JoinIsPlace(root, a);
    JoinIsPlace(root, b);
    SeparatorIsOne(root);
    var sep := SeparatorOf(root);
    PlaceIsProper(root, a);
    PlaceIsProper(root, b);
    NamesOfTail(Place(root, a), sep);
    NamesOfTail(Place(root, b), sep);
    var s, t := Join(Place(root, a), [sep]), Join(Place(root, b), [sep]);
    var head := Volume(root) + [sep];
    assert (head + s)[|head|..] == s && (head + t)[|head|..] == t;
  }

  // --------------------------------------------- joins, in plain texts

  /** A volume is a letter and a colon, or two separators and up to the second separator behind them, or
      nothing. */
  lemma VolumeIs(root: string, a: char, b: char, server: string, c: char, share: string, tail: string)
    requires a in "/\\" && b in "/\\" && c in "/\\" && (tail == "" || tail[0] in "/\\")
    requires forall x | x in server + share :: x != '/' && x != '\\'
    ensures SplitPathVolume([a, b] + server + [c] + share + tail) == ([a, b] + server + [c] + share, tail)
    ensures SplitPathVolume([a, b] + server) == ([a, b] + server, "")
    ensures var drive := |root| >= 2 && root[1] == ':' && ('a' <= root[0] <= 'z' || 'A' <= root[0] <= 'Z');
            && (drive ==> SplitPathVolume(root) == (root[..2], root[2..]))
            && (!drive && !(|root| >= 2 && root[0] in "/\\" && root[1] in "/\\")
                ==> SplitPathVolume(root) == ("", root))
  {
    VolumeOfParts([a, b], server, [c], share, tail);
    var p := [a, b] + server;
    assert LacksShare(p) by {
      assert p[2..] == server;
      forall x | x in server ensures !IsSeparator(x) { assert x in server + share; }
    }
    WholeVolume(p);
    SplitIsPair(p);
    assert root[..0] == "" && root[0..] == root;
  }

  /** The separator put in is a slash if the root has one, or has neither a backslash nor a drive. */
  lemma SeparatorIs(root: string)
    ensures var drive := |root| >= 2 && root[1] == ':' && ('a' <= root[0] <= 'z' || 'A' <= root[0] <= 'Z');
            SeparatorOf(root) == if '/' !in root && ('\\' in root || drive) then '\\' else '/'
  {
    if IsUnc(root) { assert root[0] in root; }
  }

  /** Names joined onto names: under `/`, and under a drive with backslashes. */
  lemma PlainJoins(drive: char, names: seq<string>, more: seq<string>)
    requires 'a' <= drive <= 'z' || 'A' <= drive <= 'Z'
    requires forall s | s in names + more :: s !in ["", ".", ".."] && '/' !in s && '\\' !in s
    ensures JoinWorkspacePath("/" + Join(names, "/"), Join(more, "/")) == "/" + Join(names + more, "/")
    ensures JoinWorkspacePath([drive] + ":\\" + Join(names, "\\"), Join(more, "/"))
         == [drive] + ":\\" + Join(names + more, "\\")
  {
    BothProper(names, more);
    var posix, windows := "/" + Join(names, "/"), [drive] + ":\\" + Join(names, "\\");
    PosixRoot(names);
    WindowsRoot(drive, names);
    JoinedNames(posix, "", '/', names, more);
    JoinedNames(windows, [drive, ':'], '\\', names, more);
    hide *;
    assert "" + ['/'] + Join(names + more, "/") == "/" + Join(names + more, "/");
    assert [drive] + ":\\" == [drive, ':'] + ['\\'];
  }

  lemma BothProper(names: seq<string>, more: seq<string>)
    requires AllProper(names + more)
    ensures AllProper(names) && AllProper(more)
  {
    forall s | s in names || s in more ensures Proper(s) { assert s in names + more; }
  }

  lemma PosixRoot(names: seq<string>)
    requires AllProper(names)
    ensures var root := "/" + Join(names, "/");
            && Anchored(root) && SeparatorOf(root) == '/' && Volume(root) == "" && Rest(root) == "/" + Join(names, "/")
  {
    TailIsNoUnc(names, '/');
    hide Join, SeparatorOf, SeparatorAt, AllProper;
    var root := "/" + Join(names, "/");
    assert root[0] == '/' && root[0] in root && !HasDrive(root) && !IsUnc(root);
    assert root[..0] == "" && root[0..] == root;
    SeparatorIs(root);
  }

  lemma WindowsRoot(drive: char, names: seq<string>)
    requires 'a' <= drive <= 'z' || 'A' <= drive <= 'Z'
    requires AllProper(names)
    ensures var root := [drive] + ":\\" + Join(names, "\\");
            && Anchored(root) && SeparatorOf(root) == '\\'
            && Volume(root) == [drive, ':'] && Rest(root) == "\\" + Join(names, "\\")
  {
    JoinHasNone(names, '/', '\\');
    hide Join, SeparatorOf, SeparatorAt, AllProper;
    var tail := Join(names, "\\");
    var root := [drive] + ":\\" + tail;
    assert root == [drive, ':', '\\'] + tail;
    assert root[0] == drive && root[1] == ':' && root[2] == '\\' && root[2] in root && '/' !in root;
    assert root[2..] == "\\" + tail && root[..2] == [drive, ':'];
    SeparatorIs(root);
  }

  /** Names joined onto a root whose rest is names. */
  lemma JoinedNames(root: string, volume: string, sep: char, names: seq<string>, more: seq<string>)
    requires Anchored(root) && SeparatorOf(root) == sep && Volume(root) == volume
    requires Rest(root) == [sep] + Join(names, [sep]) && AllProper(names) && AllProper(more)
    ensures JoinWorkspacePath(root, Join(more, "/")) == volume + [sep] + Join(names + more, [sep])
  {
    hide *;
    SeparatorIsOne(root);
    JoinIsPlace(root, Join(more, "/"));
    PlaceUnfolds(root, Join(more, "/"));
    TailLeadsBack(names, sep);
    NamesLead(names, more);
  }

  lemma NamesLead(at: seq<string>, names: seq<string>)
    requires AllProper(names)
    ensures Follow(at, Segments(Join(names, "/"))) == at + names
  {
    FollowNames(at, names);
    JoinHasNone(names, '\\', '/');
    ReplaceCharIdle(Join(names, "/"), '\\', "/");
    if names != [] {
      SplitOfJoin(names, '/');
    } else {
      FollowXs();
      FollowOne(at, "");
      assert Segments("") == [""] && at + [] == at;
    }
  }

  /** One more name goes a directory down, `..` goes back up and stays at the top, `.` and an empty name
      stay. */
  lemma StepsLead(root: string, rel: string, name: string)
    requires name !in ["", ".", ".."] && '/' !in name && '\\' !in name
    ensures Place(root, rel + "/" + name) == Place(root, rel) + [name]
    ensures Place(root, rel + "/" + "..")
         == if Place(root, rel) == [] then [] else Place(root, rel)[..|Place(root, rel)| - 1]
    ensures Place(root, rel + "/" + ".") == Place(root, rel + "/" + "") == Place(root, rel)
  {
    hide *;
    StepLeads(root, rel, name);
    StepLeads(root, rel, "..");
    StepLeads(root, rel, ".");
    StepLeads(root, rel, "");
  }

  lemma StepLeads(root: string, rel: string, seg: string)
    requires '/' !in seg && '\\' !in seg
    ensures var at := Place(root, rel);
            Place(root, rel + "/" + seg)
            == if seg == "" || seg == "." then at
               else if seg == ".." then if at == [] then [] else at[..|at| - 1]
               else at + [seg]
  {
    hide *;
    PlaceInSteps(root, rel, seg);
    OneSegment(seg);
    FollowOne(Place(root, rel), seg);
  }

  lemma OneSegment(name: string)
    requires '/' !in name && '\\' !in name
    ensures Segments(name) == [name]
  {
    ReplaceCharIdle(name, '\\', "/");
    SplitWithout(name, '/');
  }

  /** Without `..` in it, a relative path stays below its root. */
  lemma StaysBelow(root: string, rel: string)
    requires ".." !in Segments(rel)
    ensures Follow([], Segments(Rest(root))) <= Place(root, rel)
  {
    FollowGrows(Follow([], Segments(Rest(root))), Segments(rel));
  }

  lemma {:induction false} FollowGrows(at: seq<string>, segs: seq<string>)
    requires ".." !in segs
    ensures at <= Follow(at, segs)
    decreases segs
  {
    if segs != [] {
      FollowGrows(if segs[0] == "" || segs[0] == "." then at else at + [segs[0]], segs[1..]);
    }
  }
}
