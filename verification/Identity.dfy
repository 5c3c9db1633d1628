// pkg/asymptoteobserve/identity.go: the derived identity of an event, which has to agree with
// the duplicate rule about what one call is.
module Identity {
  import opened Text
  import opened Dedupe
  import opened DedupeLines

  /** A SHA-1 digest: twenty bytes. */
  type Digest = d: seq<bv8> | |d| == 20 witness seq(20, _ => 0)

  /** The fixed namespace, one character a byte. */
  const NAMESPACE := "\U{1f}\U{4b}\U{2c}\U{8e}\U{6d}\U{3a}\U{5a}\U{7c}\U{9b}\U{61}\U{3f}\U{0d}\U{5e}\U{8c}\U{2a}\U{14}"

  // ---------------------------------------------------- what is hashed

  datatype Name = Name(kind: string, name: string)

  function Hashed(n: Name): string {
    NAMESPACE + n.kind + n.name
  }

  function CallParts(r: Reader, e: Event): seq<string> {
    var action := Trim(r, e.action);
    [Trim(r, e.sessionId), Lower(r, Trim(r, action)), DedupeTarget(r, action, e), Trim(r, e.callId)]
  }

  predicate NamesCall(r: Reader, e: Event) {
    Trim(r, e.callId) != "" && DedupeTarget(r, Trim(r, e.action), e) != ""
  }

  /** The runtime's own name for a call where there is one, the line itself otherwise. */
  function NameOf(r: Reader, line: string): Name {
    var e := r.decode(line);
    if e.Some? && NamesCall(r, e.value) then Name("call", Join(CallParts(r, e.value), NUL)) else Name("content", line)
  }

  /** The bytes hashed for a line, behind the sixteen of the namespace: a call's session, action, target
      and call ID with NULs between them where the line decodes and has the last two, and the line itself
      otherwise. */
  lemma HashInput(r: Reader, line: string)
    ensures var h, e := Hashed(NameOf(r, line)), r.decode(line);
            var space :=
              [0x1f, 0x4b, 0x2c, 0x8e, 0x6d, 0x3a, 0x5a, 0x7c, 0x9b, 0x61, 0x3f, 0x0d, 0x5e, 0x8c, 0x2a, 0x14];
            && |h| >= 16 && (forall i | 0 <= i < 16 :: h[i] as int == space[i])
            && h[16..] == if e.Some? && Trim(r, e.value.callId) != "" && DedupeTarget(r, e.value.action, e.value) != ""
                          then "call" + (Trim(r, e.value.sessionId) + "\0" + Lower(r, Trim(r, e.value.action)) + "\0"
                                         + DedupeTarget(r, e.value.action, e.value) + "\0" + Trim(r, e.value.callId))
                          else "content" + line
  {
    var n, e := NameOf(r, line), r.decode(line);
    if e.Some? {
      TrimTwice(r, e.value.action);
      TargetTrims(r, e.value);
      var p := CallParts(r, e.value);
      JoinFour(p[0], p[1], p[2], p[3]);
    }
    hide Trim, Lower, DedupeTarget, Join;
    assert Hashed(n)[16..] == n.kind + n.name && Hashed(n)[..16] == NAMESPACE;
  }

  // --------------------------------------------------------- the UUID

  function HexDigit(n: bv8): char
    requires n < 16
  {
    match n
    case 0 => '0' case 1 => '1' case 2 => '2' case 3 => '3'
    case 4 => '4' case 5 => '5' case 6 => '6' case 7 => '7'
    case 8 => '8' case 9 => '9' case 10 => 'a' case 11 => 'b'
    case 12 => 'c' case 13 => 'd' case 14 => 'e' case _ => 'f'
  }

  function HexByte(b: bv8): (s: string)
    ensures |s| == 2
  {
    [HexDigit(b >> 4), HexDigit(b & 0x0f)]
  }

  function Hex(bytes: seq<bv8>): (s: string)
    ensures |s| == 2 * |bytes|
  {
    if bytes == [] then "" else HexByte(bytes[0]) + Hex(bytes[1..])
  }

  /** Version 5 and the RFC 4122 variant put over the first sixteen bytes of a digest. */
  function Stamped(d: Digest): (id: seq<bv8>)
    ensures |id| == 16
  {
    d[..16][6 := (d[6] & 0x0f) | 0x50][8 := (d[8] & 0x3f) | 0x80]
  }

  function Dashed(hex: string): string
    requires |hex| == 32
  {
    hex[0..8] + "-" + hex[8..12] + "-" + hex[12..16] + "-" + hex[16..20] + "-" + hex[20..32]
  }

  method EventUuid(sha1: string -> Digest, kind: string, name: string) returns (uuid: string)
    ensures uuid == Dashed(Hex(Stamped(sha1(Hashed(Name(kind, name))))))
  {
    hide Hex, HexByte;
    var digest := sha1(NAMESPACE + kind + name);
    var id := new bv8[16];
    for i := 0 to 16
      invariant forall j | 0 <= j < i :: id[j] == digest[j]
    {
      id[i] := digest[i];
    }
    assert id[..] == digest[..16];
    id[6] := (id[6] & 0x0f) | 0x50;
    id[8] := (id[8] & 0x3f) | 0x80;
    assert id[..] == Stamped(digest);
    var out := Hex(id[..]);
    return out[0..8] + "-" + out[8..12] + "-" + out[12..16] + "-" + out[16..20] + "-" + out[20..32];
  }

  method EventIdForLine(r: Reader, sha1: string -> Digest, line: string) returns (id: string)
    ensures id == Dashed(Hex(Stamped(sha1(Hashed(NameOf(r, line))))))
  {
    var decoded := r.decode(line);
    if decoded.None? {
      id := EventUuid(sha1, "content", line);
      return;
    }
    var event := decoded.value;
    var action, callId := Trim(r, event.action), Trim(r, event.callId);
    var target := DedupeTarget(r, action, event);
    if callId != "" && target != "" {
      id := EventUuid(sha1, "call", Join([Trim(r, event.sessionId), Lower(r, Trim(r, action)), target, callId], NUL));
      return;
    }
    id := EventUuid(sha1, "content", line);
  }

  // ----------------------------------------------- what every ID shows

  /** Two digests agree on every bit a stamp keeps. */
  predicate SameKeptBits(d: Digest, e: Digest) {
    && (forall i | 0 <= i < 16 && i != 6 && i != 8 :: d[i] == e[i])
    && d[6] & 0x0f == e[6] & 0x0f && d[8] & 0x3f == e[8] & 0x3f
  }

  lemma HexDigitInjective(m: bv8, n: bv8)
    requires m < 16 && n < 16 && HexDigit(m) == HexDigit(n)
    ensures m == n
  {
  }

  lemma HexByteInjective(b: bv8, c: bv8)
    requires HexByte(b) == HexByte(c)
    ensures b == c
  {
    HexDigitInjective(b >> 4, c >> 4);
    HexDigitInjective(b & 0x0f, c & 0x0f);
  }

  lemma {:induction false} HexInjective(a: seq<bv8>, b: seq<bv8>)
    requires |a| == |b| && Hex(a) == Hex(b)
    ensures a == b
  {
    if a != [] {
      assert Hex(a)[..2] == HexByte(a[0]) && Hex(b)[..2] == HexByte(b[0]);
      assert Hex(a)[2..] == Hex(a[1..]) && Hex(b)[2..] == Hex(b[1..]);
      HexByteInjective(a[0], b[0]);
      HexInjective(a[1..], b[1..]);
      assert a == [a[0]] + a[1..] && b == [b[0]] + b[1..];
    }
  }

  lemma DashedInjective(a: string, b: string)
    requires |a| == |b| == 32 && Dashed(a) == Dashed(b)
    ensures a == b
  {
    var s := Dashed(a);
    assert s[0..8] == a[0..8] && s[9..13] == a[8..12] && s[14..18] == a[12..16] && s[19..23] == a[16..20] &&
           s[24..36] == a[20..32];
    assert s[0..8] == b[0..8] && s[9..13] == b[8..12] && s[14..18] == b[12..16] && s[19..23] == b[16..20] &&
           s[24..36] == b[20..32];
    assert a == a[0..8] + a[8..12] + a[12..16] + a[16..20] + a[20..32];
    assert b == b[0..8] + b[8..12] + b[12..16] + b[16..20] + b[20..32];
  }

  lemma StampBits(x: bv8, y: bv8)
    ensures (x & 0x0f) | 0x50 == (y & 0x0f) | 0x50 <==> x & 0x0f == y & 0x0f
    ensures (x & 0x3f) | 0x80 == (y & 0x3f) | 0x80 <==> x & 0x3f == y & 0x3f
  {
  }

  lemma StampedAt(d: Digest)
    ensures var u := Stamped(d);
            && u[6] == (d[6] & 0x0f) | 0x50 && u[8] == (d[8] & 0x3f) | 0x80
            && forall i | 0 <= i < 16 && i != 6 && i != 8 :: u[i] == d[i]
  {
  }

  lemma SameStamp(d: Digest, e: Digest)
    ensures Stamped(d) == Stamped(e) <==> SameKeptBits(d, e)
  {
    var u, v := Stamped(d), Stamped(e);
    StampedAt(d);
    StampedAt(e);
    hide Stamped;
    StampBits(d[6], e[6]);
    StampBits(d[8], e[8]);
    if u == v {
      assert forall i | 0 <= i < 16 && i != 6 && i != 8 :: d[i] == e[i];
    } else {
      var i :| 0 <= i < 16 && u[i] != v[i];
    }
  }

  /** The stamp loses six bits and the text none: IDs are equal exactly when all others are. */
  lemma SameIdExactly(d: Digest, e: Digest)
    ensures Dashed(Hex(Stamped(d))) == Dashed(Hex(Stamped(e))) <==> SameKeptBits(d, e)
  {
    hide Stamped, Hex, Dashed, SameKeptBits;
    SameStamp(d, e);
    if Dashed(Hex(Stamped(d))) == Dashed(Hex(Stamped(e))) {
      DashedInjective(Hex(Stamped(d)), Hex(Stamped(e)));
      HexInjective(Stamped(d), Stamped(e));
    }
  }

  predicate IsHexDigit(c: char) {
    '0' <= c <= '9' || 'a' <= c <= 'f'
  }

  lemma {:induction false} HexAt(bytes: seq<bv8>, i: nat)
    requires i < |bytes|
    ensures Hex(bytes)[2 * i] == HexDigit(bytes[i] >> 4) && Hex(bytes)[2 * i + 1] == HexDigit(bytes[i] & 0x0f)
  {
    if i > 0 { HexAt(bytes[1..], i - 1); }
  }

  lemma {:induction false} HexIsHex(bytes: seq<bv8>)
    ensures forall c | c in Hex(bytes) :: IsHexDigit(c)
  {
    if bytes != [] { HexIsHex(bytes[1..]); }
  }

  lemma StampDigits(x: bv8)
    ensures HexDigit(((x & 0x0f) | 0x50) >> 4) == '5' && HexDigit(((x & 0x3f) | 0x80) >> 4) in "89ab"
  {
    assert ((x & 0x0f) | 0x50) >> 4 == 5;
    var v := ((x & 0x3f) | 0x80) >> 4;
    assert v == 8 || v == 9 || v == 10 || v == 11;
  }

  /** Every ID is 8-4-4-4-12 hex digits of version 5 and variant 10. */
  lemma IdShape(d: Digest)
    ensures var s := Dashed(Hex(Stamped(d)));
            && |s| == 36 && s[8] == s[13] == s[18] == s[23] == '-'
            && (forall i | 0 <= i < 36 && i !in {8, 13, 18, 23} :: IsHexDigit(s[i]))
            && s[14] == '5' && s[19] in "89ab"
  {
    var hex, s := Hex(Stamped(d)), Dashed(Hex(Stamped(d)));
    HexIsHex(Stamped(d));
    HexAt(Stamped(d), 6);
    HexAt(Stamped(d), 8);
    StampDigits(d[6]);
    StampDigits(d[8]);
    assert s[14] == hex[12] && s[19] == hex[16];
    forall i | 0 <= i < 36 && i !in {8, 13, 18, 23} ensures IsHexDigit(s[i]) {
      var j := if i < 8 then i else if i < 13 then i - 1 else if i < 18 then i - 2 else if i < 23 then i - 3 else i - 4;
      assert s[i] == hex[j];
    }
  }

  /** A hex digit read by its place among the characters. */
  function Nibble(c: char): bv8
    requires IsHexDigit(c)
  {
    if c <= '9' then (c as int - '0' as int) as bv8 else (c as int - 'a' as int + 10) as bv8
  }

  /** The byte two digits of an ID write, the higher first. */
  function ByteAt(id: string, at: nat): bv8
    requires at + 2 <= |id| && IsHexDigit(id[at]) && IsHexDigit(id[at + 1])
  {
    (Nibble(id[at]) << 4) | Nibble(id[at + 1])
  }

  lemma NibbleOfDigit(n: bv8)
    requires n < 16
    ensures IsHexDigit(HexDigit(n)) && Nibble(HexDigit(n)) == n
  {
  }

  lemma StampMeans(x: bv8)
    ensures var v := (x & 0x0f) | 0x50; v >> 4 == 5 && v & 0x0f == x & 0x0f
    ensures var v := (x & 0x3f) | 0x80; v >> 6 == 2 && v & 0x3f == x & 0x3f
    ensures ((x >> 4) << 4) | (x & 0x0f) == x
  {
  }

  /** Read back, an ID's sixteen bytes are the digest's first sixteen, with version 5 for the upper half of
      the seventh and variant 2 for the upper quarter of the ninth. */
  lemma IdReads(d: Digest)
    ensures var s := Dashed(Hex(Stamped(d)));
            |s| == 36 && forall i | 0 <= i < 16 ::
              var at := [0, 2, 4, 6, 9, 11, 14, 16, 19, 21, 24, 26, 28, 30, 32, 34][i];
              && IsHexDigit(s[at]) && IsHexDigit(s[at + 1])
              && (i == 6 ==> ByteAt(s, at) >> 4 == 5 && ByteAt(s, at) & 0x0f == d[6] & 0x0f)
              && (i == 8 ==> ByteAt(s, at) >> 6 == 2 && ByteAt(s, at) & 0x3f == d[8] & 0x3f)
              && (i != 6 && i != 8 ==> ByteAt(s, at) == d[i])
  {
    var s, places := Dashed(Hex(Stamped(d))), [0, 2, 4, 6, 9, 11, 14, 16, 19, 21, 24, 26, 28, 30, 32, 34];
    forall i | 0 <= i < 16
      ensures IsHexDigit(s[places[i]]) && IsHexDigit(s[places[i] + 1]) && ByteAt(s, places[i]) == Stamped(d)[i]
    {
      DigitsAt(Stamped(d), i);
    }
    hide Dashed, Hex, ByteAt, IsHexDigit;
    StampMeans(d[6]);
    StampMeans(d[8]);
  }

  lemma DigitsAt(bytes: seq<bv8>, i: nat)
    requires |bytes| == 16 && i < 16
    ensures var s, at := Dashed(Hex(bytes)), [0, 2, 4, 6, 9, 11, 14, 16, 19, 21, 24, 26, 28, 30, 32, 34][i];
            |s| == 36 && IsHexDigit(s[at]) && IsHexDigit(s[at + 1]) && ByteAt(s, at) == bytes[i]
  {
    var s, hex := Dashed(Hex(bytes)), Hex(bytes);
    var at := [0, 2, 4, 6, 9, 11, 14, 16, 19, 21, 24, 26, 28, 30, 32, 34][i];
    HexAt(bytes, i);
    assert s[at] == hex[2 * i] && s[at + 1] == hex[2 * i + 1];
    hide Dashed, Hex, HexDigit;
    NibbleOfDigit(bytes[i] >> 4);
    NibbleOfDigit(bytes[i] & 0x0f);
    StampMeans(bytes[i]);
  }

  // ------------------------------------------- which lines share an ID

  lemma HashedApart(m: Name, n: Name)
    requires m.kind in {"call", "content"} && n.kind in {"call", "content"}
    ensures Hashed(m) == Hashed(n) <==> m == n
  {
    var k := |NAMESPACE|;
    assert Hashed(m)[k..] == m.kind + m.name && Hashed(n)[k..] == n.kind + n.name;
    assert (m.kind + m.name)[1] == m.kind[1] && (n.kind + n.name)[1] == n.kind[1];
    if Hashed(m) == Hashed(n) {
      assert m.kind[1] == n.kind[1];
      assert m.kind == n.kind;
      assert (m.kind + m.name)[|m.kind|..] == m.name && (n.kind + n.name)[|n.kind|..] == n.name;
    }
  }

  /** The event a line names by its call, if it names one. */
  function CallNamed(r: Reader, line: string): Option<Event> {
    var e := r.decode(line);
    if e.Some? && NamesCall(r, e.value) then e else None
  }

  /** What goes into the hash is the same for two lines exactly when both name a call and agree on
      session, action, target and call ID, or neither does and they are the same line. A call never
      gets the input of a content. */
  lemma SameInputExactly(r: Reader, a: string, b: string)
    requires CallNamed(r, a).Some? ==> Unmixed(r, CallNamed(r, a).value)
    requires CallNamed(r, b).Some? ==> Unmixed(r, CallNamed(r, b).value)
    ensures Hashed(NameOf(r, a)) == Hashed(NameOf(r, b))
       <==> match (CallNamed(r, a), CallNamed(r, b))
            case (Some(e), Some(f)) => CallParts(r, e) == CallParts(r, f)
            case (None, None) => a == b
            case _ => false
  {
    hide NamesCall, CallParts, Hashed, Unmixed, NulFree;
    HashedApart(NameOf(r, a), NameOf(r, b));
    if CallNamed(r, a).Some? && CallNamed(r, b).Some? {
      CallFrontNulFree(r, CallNamed(r, a).value);
      CallFrontNulFree(r, CallNamed(r, b).value);
      JoinInjective(CallParts(r, CallNamed(r, a).value), CallParts(r, CallNamed(r, b).value));
    }
  }

  /** Session and target hold no NUL. */
  predicate Unmixed(r: Reader, e: Event) {
    '\0' !in Trim(r, e.sessionId) && '\0' !in DedupeTarget(r, Trim(r, e.action), e)
  }

  lemma CallFrontNulFree(r: Reader, e: Event)
    requires NamesCall(r, e) && Unmixed(r, e)
    ensures |CallParts(r, e)| == 4 && NulFree(CallParts(r, e)[..3])
  {
    hide Trim, Lower, TargetOf;
    ActionsHoldNoNul(CallParts(r, e)[1]);
  }

  /** White space around a line spoils its decoding or makes no difference to it. */
  predicate Padded(r: Reader, line: string) {
    r.decode(line) == None || r.decode(line) == r.decode(Trim(r, line))
  }

  /** The parts of the key the duplicate rule makes of a line. */
  function PartsOf(r: Reader, line: string): seq<string>
    requires Candidate(r, line).Some?
  {
    KeyParts(r, r.decode(Trim(r, line)).value)
  }

  /** Two lines the duplicate rule takes for one call are duplicates whatever window it is given and
      however far apart they were written. What is hashed for their IDs is the same exactly when
      they are one line, or both decode as they stand and session, action and target run together
      into one text: which means one session and one target, unless a target holds a NUL, and is
      always so when no session or workspace holds one. */
  lemma OneCallOneId(r: Reader, a: string, b: string, window: Duration)
    requires Padded(r, a) && Padded(r, b) && Candidate(r, a).Some? && Candidate(r, b).Some?
    requires SameCall(Candidate(r, a).value, Candidate(r, b).value)
    ensures DuplicateLines(r, a, b, window) && DuplicateLines(r, b, a, window)
    ensures var p, q, decoded := PartsOf(r, a), PartsOf(r, b), r.decode(a).Some? && r.decode(b).Some?;
            && |p| == |q| == 4
            && (Hashed(NameOf(r, a)) == Hashed(NameOf(r, b))
                <==> a == b || (decoded && RunTogether(p) == RunTogether(q)))
            && (NulFree([p[3], q[3]]) ==> (RunTogether(p) == RunTogether(q) <==> p[1] == q[1]) && p[3] == q[3])
            && (p[1] == q[1] ==> (RunTogether(p) == RunTogether(q) <==> p[3] == q[3]))
            && (NulFree(p[1..3]) && NulFree(q[1..3]) ==> RunTogether(p) == RunTogether(q))
  {
    var p, q := PartsOf(r, a), PartsOf(r, b);
    CandidateNames(r, a);
    CandidateNames(r, b);
    SameKeySameNames(p, q, Candidate(r, a).value.callId);
    hide NameOf, Candidate, PartsOf, Hashed, Trim, Join, NulFree;
    HashedApart(NameOf(r, a), NameOf(r, b));
  }

  /** Session, action and target with a NUL between them, from the parts of a key. */
  function RunTogether(p: seq<string>): string
    requires |p| == 4
  {
    p[1] + NUL + p[0] + NUL + p[3]
  }

  /** The names of two calls under one key. */
  lemma SameKeySameNames(p: seq<string>, q: seq<string>, callId: string)
    requires |p| == |q| == 4 && p[0] in ACTIONS && q[0] in ACTIONS && Join(p, NUL) == Join(q, NUL)
    ensures var same := RunTogether(p) == RunTogether(q);
            && (CallText(p, callId) == CallText(q, callId) <==> same)
            && (NulFree([p[3], q[3]]) ==> (same <==> p[1] == q[1]) && p[3] == q[3])
            && (p[1] == q[1] ==> (same <==> p[3] == q[3]))
            && (NulFree(p[1..3]) && NulFree(q[1..3]) ==> same)
  {
    KeyFront(p);
    KeyFront(q);
    if NulFree(p[1..3]) && NulFree(q[1..3]) {
      ActionsHoldNoNul(p[0]);
      assert p[..3] == [p[0]] + p[1..3] && q[..3] == [q[0]] + q[1..3];
      JoinInjective(p, q);
    }
    if NulFree([p[3], q[3]]) {
      assert p[3] in [p[3], q[3]] && q[3] in [p[3], q[3]];
      KeyBack(p);
      KeyBack(q);
    }
    hide Join, NulFree;
    CallTextTail(p, q, callId);
    if p[1] == q[1] || p[3] == q[3] {
      SameRun(p, q);
    }
  }

  /** The name of a call, from the parts of its key. */
  function CallText(p: seq<string>, callId: string): string
    requires |p| == 4
  {
    Join([p[1], p[0], p[3], callId], NUL)
  }

  lemma CallTextTail(p: seq<string>, q: seq<string>, callId: string)
    requires |p| == |q| == 4
    ensures CallText(p, callId) == CallText(q, callId) <==> RunTogether(p) == RunTogether(q)
  {
    JoinFour(p[1], p[0], p[3], callId);
    JoinFour(q[1], q[0], q[3], callId);
    var m, n, back := RunTogether(p), RunTogether(q), NUL + callId;
    assert m + NUL + callId == m + back && n + NUL + callId == n + back;
    if m + back == n + back {
      assert |m| == |n| && (m + back)[..|m|] == m && (n + back)[..|n|] == n;
    }
  }

  /** What the duplicate rule and the identity read off one line. */
  lemma CandidateNames(r: Reader, line: string)
    requires Padded(r, line) && Candidate(r, line).Some? && Candidate(r, line).value.callId != ""
    ensures var p, c := PartsOf(r, line), Candidate(r, line).value;
            && |p| == 4 && p[0] in ACTIONS && c.key == Join(p, NUL)
            && NameOf(r, line) == if r.decode(line).None? then Name("content", line)
                                  else Name("call", CallText(p, c.callId))
  {
    hide Trim, Lower, DedupeTarget, FirstNonEmpty, Join;
    TrimTwice(r, r.decode(Trim(r, line)).value.action);
  }

  /** The action is read back off the front of the key, */
  lemma KeyFront(p: seq<string>)
    requires |p| == 4 && p[0] in ACTIONS
    ensures Split(Join(p, NUL), '\0')[0] == p[0]
  {
    hide Split;
    ActionsHoldNoNul(p[0]);
    SplitAtFirst(p[0], Join(p[1..], NUL), '\0');
    assert Join(p, NUL) == p[0] + ['\0'] + Join(p[1..], NUL);
  }

  /** and a target without a NUL off its end. */
  lemma KeyBack(p: seq<string>)
    requires |p| == 4 && '\0' !in p[3]
    ensures var parts := Split(Join(p, NUL), '\0'); parts[|parts| - 1] == p[3]
  {
    hide Split;
    JoinFour(p[0], p[1], p[2], p[3]);
    assert p == [p[0], p[1], p[2], p[3]] && NUL == ['\0'];
    var front := p[0] + NUL + p[1] + NUL + p[2];
    SplitAppend(front, p[3], '\0');
    SplitWithout(p[3], '\0');
  }

  /** Of calls with one action and one session, or one target, the other decides. */
  lemma SameRun(p: seq<string>, q: seq<string>)
    requires |p| == |q| == 4 && p[0] == q[0] && (p[1] == q[1] || p[3] == q[3])
    ensures RunTogether(p) == RunTogether(q) <==> p[1] == q[1] && p[3] == q[3]
  {
    var mid := NUL + p[0] + NUL;
    var m, n := p[1] + mid + p[3], q[1] + mid + q[3];
    assert RunTogether(p) == m && RunTogether(q) == n;
    if m == n {
      assert |p[1]| == |q[1]|;
      assert m[..|p[1]|] == p[1] && n[..|q[1]|] == q[1];
      assert m[|p[1]| + |mid|..] == p[3] && n[|q[1]| + |mid|..] == q[3];
    }
  }

  /** A reader that leaves text alone and reads two given events. */
  function TwoLines(e: Event, f: Event): Reader {
    Reader(line => if line == "a" then Some(e) else Some(f), c => c, c => false)
  }

  /** Reading a file called "p". */
  function Reading(sessionId: string, workspace: string): Event {
    Event("file.read", sessionId, Some(1), "", "c", workspace, "", "", "", "", "", "", "", "p", "", "")
  }

  lemma TextLeftAlone(e: Event, f: Event)
    ensures forall s: string :: Trim(TwoLines(e, f), s) == s && Lower(TwoLines(e, f), s) == s
  {
    forall s: string ensures Lower(TwoLines(e, f), s) == s { }
  }

  lemma ReadingKey(r: Reader, sessionId: string, workspace: string)
    requires forall s: string :: Trim(r, s) == s && Lower(r, s) == s
    ensures var e := Reading(sessionId, workspace);
            DedupeTarget(r, "file.read", e) == "file:p" &&
                KeyParts(r, e) == ["file.read", sessionId, workspace, "file:p"]
  {
    hide Trim, Lower;
    var e := Reading(sessionId, workspace);
    assert CleanParts(r, ["p"]) == ["p"] by {
      assert ["p"][..0] == [] && Colons("p") == "p" && CleanPart(r, "p") == "p";
    }
    assert TargetOf(r, "file", ["p"]) == "file:p";
    assert FirstNonEmpty(r, [workspace, ""]) == workspace by {
      assert [workspace, ""][1..] == [""] && [""][1..] == [];
      assert FirstNonEmpty(r, [""]) == "";
    }
  }

  lemma ReadingCandidate(r: Reader, line: string, sessionId: string, workspace: string)
    requires forall s: string :: Trim(r, s) == s && Lower(r, s) == s
    requires line != "" && r.decode(line) == Some(Reading(sessionId, workspace)) && sessionId != ""
    ensures Candidate(r, line)
         == Some(Report("file.read", "", Join(["file.read", sessionId, workspace, "file:p"], NUL), "c", 1))
    ensures NameOf(r, line) == Name("call", Join([sessionId, "file.read", "file:p", "c"], NUL))
  {
    hide Trim, Lower, DedupeTarget, KeyParts, Join;
    ReadingKey(r, sessionId, workspace);
  }

  /** With a NUL inside a part the rule and the identity can part ways: these two sessions and
      workspaces run together into one key, yet the lines get different names. */
  lemma NulPartsWays()
    ensures var r := TwoLines(Reading("s\0w", ""), Reading("s", "w\0"));
            && Candidate(r, "a").Some? && Candidate(r, "b").Some?
            && SameCall(Candidate(r, "a").value, Candidate(r, "b").value)
            && NameOf(r, "a") != NameOf(r, "b")
  {
    hide Candidate, NameOf;
    var e, f := Reading("s\0w", ""), Reading("s", "w\0");
    TextLeftAlone(e, f);
    ReadingCandidate(TwoLines(e, f), "a", "s\0w", "");
    ReadingCandidate(TwoLines(e, f), "b", "s", "w\0");
    JoinFour("file.read", "s\0w", "", "file:p");
    JoinFour("file.read", "s", "w\0", "file:p");
    JoinFour("s\0w", "file.read", "file:p", "c");
    JoinFour("s", "file.read", "file:p", "c");
    assert "file.read" + NUL + "s\0w" + NUL + "" + NUL + "file:p" ==
           "file.read" + NUL + "s" + NUL + "w\0" + NUL + "file:p";
  }

  lemma JoinFour(a: string, b: string, c: string, d: string)
    ensures Join([a, b, c, d], NUL) == a + NUL + b + NUL + c + NUL + d
  {
    assert [a, b, c, d][1..] == [b, c, d] && [b, c, d][1..] == [c, d] && [c, d][1..] == [d];
    assert Join([c, d], NUL) == c + NUL + d;
    assert Join([b, c, d], NUL) == b + NUL + Join([c, d], NUL);
  }
}
