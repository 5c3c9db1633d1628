// browser-extension/src/shared/normalize.ts: cutting a string of UTF-16 code units to a budget
// of UTF-8 bytes.
module CapBytes {

  type Unit = u: int | 0 <= u < 0x1_0000

  const REPLACEMENT := 0xFFFD

  predicate IsHigh(u: Unit) { 0xD800 <= u < 0xDC00 }
  predicate IsLow(u: Unit) { 0xDC00 <= u < 0xE000 }
  predicate IsSurrogate(u: Unit) { IsHigh(u) || IsLow(u) }

  predicate StartsPair(s: seq<Unit>) {
    |s| >= 2 && IsHigh(s[0]) && IsLow(s[1])
  }

  predicate IsScalar(c: int) {
    0 <= c < 0x11_0000 && !(0xD800 <= c < 0xE000)
  }

  /** The scalar values of a string; a surrogate on its own counts as U+FFFD. */
  function Scalars(s: seq<Unit>): (cs: seq<int>)
    ensures forall c | c in cs :: IsScalar(c)
  {
    if s == [] then []
    else if StartsPair(s) then [0x1_0000 + (s[0] - 0xD800) * 0x400 + (s[1] - 0xDC00)] + Scalars(s[2..])
    else [if IsSurrogate(s[0]) then REPLACEMENT else s[0]] + Scalars(s[1..])
  }

  /** One scalar value in UTF-8 (RFC 3629, section 3). */
  function Utf8(c: int): (bytes: seq<int>)
    requires IsScalar(c)
    ensures 1 <= |bytes| <= 4 && (c < 0x1_0000 ==> |bytes| <= 3)
  {
    if c < 0x80 then [c]
    else if c < 0x800 then [0xC0 + c / 0x40, 0x80 + c % 0x40]
    else if c < 0x1_0000 then [0xE0 + c / 0x1000, 0x80 + c / 0x40 % 0x40, 0x80 + c % 0x40]
    else [0xF0 + c / 0x4_0000, 0x80 + c / 0x1000 % 0x40, 0x80 + c / 0x40 % 0x40, 0x80 + c % 0x40]
  }

  function Utf8All(cs: seq<int>): seq<int>
    requires forall c | c in cs :: IsScalar(c)
  {
    if cs == [] then [] else Utf8(cs[0]) + Utf8All(cs[1..])
  }

  /** TextEncoder.encode */
  function Encode(s: seq<Unit>): seq<int> {
    Utf8All(Scalars(s))
  }

  function Size(s: seq<Unit>): nat {
    |Encode(s)|
  }

  // ------------------------------------------------ reading bytes back

  function Length(lead: int): nat {
    if lead < 0x80 then 1 else if lead < 0xE0 then 2 else if lead < 0xF0 then 3 else 4
  }

  function Value(b: seq<int>): int
    requires 1 <= |b| <= 4
  {
    if |b| == 1 then b[0]
    else if |b| == 2 then (b[0] - 0xC0) * 0x40 + b[1] - 0x80
    else if |b| == 3 then (b[0] - 0xE0) * 0x1000 + (b[1] - 0x80) * 0x40 + b[2] - 0x80
    else (b[0] - 0xF0) * 0x4_0000 + (b[1] - 0x80) * 0x1000 + (b[2] - 0x80) * 0x40 + b[3] - 0x80
  }

  /** Scalar values from bytes, each as long as its first byte says. */
  function Decode(bytes: seq<int>): seq<int>
    decreases |bytes|
  {
    if bytes == [] || Length(bytes[0]) > |bytes| then []
    else [Value(bytes[..Length(bytes[0])])] + Decode(bytes[Length(bytes[0])..])
  }

  lemma Utf8Value(c: int)
    requires IsScalar(c)
    ensures Length(Utf8(c)[0]) == |Utf8(c)| && Value(Utf8(c)) == c
  {
    var a, b, d := c / 0x40, c / 0x1000, c / 0x4_0000;
    assert a / 0x40 == b && b / 0x40 == d;
  }

  /** The encoding is UTF-8 of the scalar values: decoding gives them back. */
  lemma {:induction false} DecodeUtf8(cs: seq<int>)
    requires forall c | c in cs :: IsScalar(c)
    ensures Decode(Utf8All(cs)) == cs
  {
    if cs != [] {
      var first, rest := Utf8(cs[0]), Utf8All(cs[1..]);
      Utf8Value(cs[0]);
      DecodeUtf8(cs[1..]);
      assert (first + rest)[0] == first[0] && (first + rest)[..|first|] == first && (first + rest)[|first|..] == rest;
    }
  }

  predicate IsTail(b: int) { 0x80 <= b <= 0xBF }

  /** The four forms, byte by byte: the smallest number of bytes for the value, the first of them saying
      how many, six bits in each of the others. */
  lemma Utf8Forms(c: int)
    requires IsScalar(c)
    ensures var b := Utf8(c);
            && |b| == (if c <= 0x7F then 1 else if c <= 0x7FF then 2 else if c <= 0xFFFF then 3 else 4)
            && (forall i | 1 <= i < |b| :: IsTail(b[i]))
            && (|b| == 1 ==> b[0] == c)
            && (|b| == 2 ==> 0xC2 <= b[0] <= 0xDF && c == (b[0] - 0xC0) * 64 + (b[1] - 0x80))
            && (|b| == 3 ==> 0xE0 <= b[0] <= 0xEF && c == ((b[0] - 0xE0) * 64 + (b[1] - 0x80)) * 64 + (b[2] - 0x80))
            && (|b| == 4 ==> 0xF0 <= b[0] <= 0xF4)
            && (|b| == 4 ==> c == (((b[0] - 0xF0) * 64 + (b[1] - 0x80)) * 64 + (b[2] - 0x80)) * 64 + (b[3] - 0x80))
  {
    Utf8Value(c);
  }

  /** A pair of surrogates is one value above 0xFFFF, a surrogate on its own U+FFFD, any other unit
      itself. */
  lemma ScalarsRead(u: Unit, v: Unit, s: seq<Unit>)
    ensures Scalars([]) == []
    ensures 0xD800 <= u <= 0xDBFF && 0xDC00 <= v <= 0xDFFF
        ==> Scalars([u, v] + s) == [0x10000 + (u - 0xD800) * 1024 + (v - 0xDC00)] + Scalars(s)
    ensures u < 0xD800 || u > 0xDFFF ==> Scalars([u] + s) == [u] + Scalars(s)
    ensures 0xDC00 <= u <= 0xDFFF ==> Scalars([u] + s) == [0xFFFD] + Scalars(s)
    ensures 0xD800 <= u <= 0xDBFF && (s == [] || s[0] < 0xDC00 || s[0] > 0xDFFF)
        ==> Scalars([u] + s) == [0xFFFD] + Scalars(s)
  {
    assert ([u, v] + s)[2..] == s && ([u] + s)[1..] == s;
    assert s != [] ==> ([u] + s)[1] == s[0];
  }

  // ----------------------------------------------------- sizes of prefixes

  lemma {:induction false} ScalarStep(s: seq<Unit>)
    requires s != []
    ensures Size(s) == if StartsPair(s) then 4 + Size(s[2..]) else Size(s[..1]) + Size(s[1..])
    ensures 1 <= Size(s[..1]) <= 3 && (IsHigh(s[0]) ==> Size(s[..1]) == 3)
  {
    assert s[..1][1..] == [] && Scalars([]) == [] && Utf8All([]) == [];
    var c := if IsSurrogate(s[0]) then REPLACEMENT else s[0];
    assert Scalars(s[..1]) == [c] && [c][1..] == [];
    assert Utf8All([c]) == Utf8(c) + [];
    var cs := Scalars(s);
    if StartsPair(s) {
      assert cs[1..] == Scalars(s[2..]);
    } else {
      assert cs[1..] == Scalars(s[1..]);
    }
  }

  /** One more code unit takes one to three more bytes; completing a pair takes one. */
  lemma {:induction false} SizeGrows(s: seq<Unit>, u: Unit)
    ensures Size(s) + 1 <= Size(s + [u]) <= Size(s) + 3
    ensures s != [] && IsHigh(s[|s| - 1]) && IsLow(u) ==> Size(s + [u]) == Size(s) + 1
    decreases |s|
  {
    hide Size;
    var t := s + [u];
    ScalarStep(t);
    NoSize();
    if s == [] {
      assert t[..1] == t && t[1..] == [];
    } else if |s| == 1 {
      ScalarStep(s);
      ScalarStep([u]);
      assert s[..1] == s && s[1..] == [] && t[..1] == s && t[1..] == [u] && t[2..] == [] && [u][..1] == [u] &&
             [u][1..] == [];
    } else if StartsPair(s) {
      ScalarStep(s);
      assert t[2..] == s[2..] + [u];
      SizeGrows(s[2..], u);
    } else {
      ScalarStep(s);
      assert t[1..] == s[1..] + [u] && t[..1] == s[..1];
      SizeGrows(s[1..], u);
    }
  }

  lemma NoSize()
    ensures Size([]) == 0
  {
  }

  /** Longer prefixes take more bytes. */
  lemma {:induction false} SizeMonotone(s: seq<Unit>, i: nat, j: nat)
    requires i <= j <= |s|
    ensures Size(s[..i]) <= Size(s[..j]) && (i < j ==> Size(s[..i]) < Size(s[..j]))
    decreases j
  {
    if i < j {
      hide Size;
      SizeMonotone(s, i, j - 1);
      SizeGrows(s[..j - 1], s[j - 1]);
      assert s[..j] == s[..j - 1] + [s[j - 1]];
    }
  }

  // ------------------------------------------------------ the search

  /** Exactly the prefixes of up to `n` code units fit the budget. */
  predicate LongestFit(text: seq<Unit>, max: nat, n: nat) {
    n <= |text| && forall k: nat | k <= |text| :: Size(text[..k]) <= max <==> k <= n
  }

  /** The longest prefix that fits, and whether anything was cut. */
  method CapBytes(text: seq<Unit>, max: nat) returns (capped: seq<Unit>, truncated: bool)
    ensures capped <= text && LongestFit(text, max, |capped|)
    ensures truncated <==> capped != text
  {
    hide Size;
    if Size(text) <= max {
      forall k: nat | k <= |text| ensures Size(text[..k]) <= max {
        SizeMonotone(text, k, |text|);
        assert text[..|text|] == text;
      }
      return text, false;
    }
    assert text[..|text|] == text;
    NoSize();
    assert text[..0] == [];
    var lo, hi := 0, |text|;
    while lo < hi
      invariant 0 <= lo <= hi <= |text|
      invariant Size(text[..lo]) <= max
      invariant forall k: nat | hi < k <= |text| :: Size(text[..k]) > max
    {
      var mid := (lo + hi + 1) / 2;
      if Size(text[..mid]) <= max {
        lo := mid;
      } else {
        forall k: nat | mid <= k <= |text| ensures Size(text[..k]) > max {
          SizeMonotone(text, mid, k);
        }
        hi := mid - 1;
      }
    }
    forall k: nat | k <= lo ensures Size(text[..k]) <= max {
      SizeMonotone(text, k, lo);
    }
    return text[..lo], true;
  }

  /** There is one longest fit; when something is cut, at most two bytes of the budget are left,
      and none when the cut falls inside a surrogate pair. */
  lemma CutUsesTheBudget(text: seq<Unit>, max: nat, n: nat)
    requires LongestFit(text, max, n)
    ensures forall m: nat | LongestFit(text, max, m) :: m == n
    ensures n < |text| ==> max - 2 <= Size(text[..n]) <= max
    ensures 0 < n < |text| && IsHigh(text[n - 1]) && IsLow(text[n]) ==> Size(text[..n]) == max
  {
    hide Size;
    if n < |text| {
      SizeGrows(text[..n], text[n]);
      assert text[..n + 1] == text[..n] + [text[n]];
      assert Size(text[..n + 1]) > max;
    }
    forall m: nat | LongestFit(text, max, m) ensures m == n {
      assert Size(text[..m]) <= max && Size(text[..n]) <= max;
    }
  }
}
