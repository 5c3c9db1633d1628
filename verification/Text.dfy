// Stock text operations that several components lean on: Option, split, join and
// single-character replacement, with the laws the component proofs need.
module Text {

  datatype Option<+T> = None | Some(value: T)

  /** What a call leaves behind, and whether it threw. */
  datatype Outcome<+S> = Outcome(state: S, threw: bool)

  /** What producing something comes to: it may throw, and it may have nothing to give. */
  datatype Made<+T> = Made(value: Option<T>) | Threw

  const SECOND := 1_000_000_000  // in nanoseconds

  /** `s` cut at every `sep`; always at least one part, as String.split and bytes.Split give. */
  function Split(s: string, sep: char): (parts: seq<string>)
    ensures |parts| >= 1
  {
    if s == [] then [""]
    else
      var rest := Split(s[1..], sep);
      if s[0] == sep then [""] + rest else [[s[0]] + rest[0]] + rest[1..]
  }

  function Join(parts: seq<string>, sep: string): string {
    if parts == [] then ""
    else if |parts| == 1 then parts[0]
    else parts[0] + sep + Join(parts[1..], sep)
  }

  function ReplaceChar(s: string, c: char, to: string): string {
    if s == [] then "" else (if s[0] == c then to else [s[0]]) + ReplaceChar(s[1..], c, to)
  }

  lemma Assoc<T>(a: seq<T>, b: seq<T>, c: seq<T>)
    ensures a + b + c == a + (b + c)
  {
  }

  lemma {:induction false} SplitAtFirst(a: string, rest: string, sep: char)
    requires sep !in a
    ensures Split(a + [sep] + rest, sep) == [a] + Split(rest, sep)
  {
    if a == [] {
      assert (a + [sep] + rest)[1..] == rest;
    } else {
      assert a[0] != sep && [a[0]] + a[1..] == a;
      SplitAtFirst(a[1..], rest, sep);
      assert (a + [sep] + rest)[1..] == a[1..] + [sep] + rest;
    }
  }

  lemma {:induction false} SplitWithout(a: string, sep: char)
    requires sep !in a
    ensures Split(a, sep) == [a]
  {
    if a != [] {
      assert a[0] != sep && [a[0]] + a[1..] == a;
      SplitWithout(a[1..], sep);
    }
  }

  /** Splitting undoes joining as long as no part holds the separator. */
  lemma {:induction false} SplitOfJoin(parts: seq<string>, sep: char)
    requires |parts| >= 1
    requires forall p | p in parts :: sep !in p
    ensures Split(Join(parts, [sep]), sep) == parts
  {
    if |parts| == 1 {
      SplitWithout(parts[0], sep);
    } else {
      SplitOfJoin(parts[1..], sep);
      SplitAtFirst(parts[0], Join(parts[1..], [sep]), sep);
    }
  }

  lemma {:induction false} JoinAppend(a: seq<string>, b: seq<string>, sep: string)
    requires a != [] && b != []
    ensures Join(a + b, sep) == Join(a, sep) + sep + Join(b, sep)
  {
    if |a| == 1 {
      assert (a + b)[1..] == b;
    } else {
      assert (a + b)[1..] == a[1..] + b;
      JoinAppend(a[1..], b, sep);
      assert Join(a, sep) == a[0] + sep + Join(a[1..], sep);
    }
  }

  lemma {:induction false} SplitKeepsChars(s: string, sep: char, part: string, c: char)
    requires part in Split(s, sep) && c in part
    ensures c in s
  {
    if s != [] {
      var rest := Split(s[1..], sep);
      if s[0] == sep {
        assert part in rest;
        SplitKeepsChars(s[1..], sep, part, c);
      } else if part == [s[0]] + rest[0] {
        if c != s[0] { SplitKeepsChars(s[1..], sep, rest[0], c); }
      } else {
        assert part in rest[1..];
        SplitKeepsChars(s[1..], sep, part, c);
      }
    }
  }

  lemma SplitStep(c: char, s: string, sep: char)
    ensures Split([c] + s, sep) == if c == sep then [""] + Split(s, sep)
                                   else [[c] + Split(s, sep)[0]] + Split(s, sep)[1..]
  {
    assert ([c] + s)[1..] == s;
  }

  lemma {:induction false} SplitAppend(a: string, b: string, sep: char)
    ensures Split(a + [sep] + b, sep) == Split(a, sep) + Split(b, sep)
  {
    if a == [] {
      SplitStep(sep, b, sep);
      assert [] + [sep] + b == [sep] + b;
    } else {
      hide Split;
      var more := a[1..] + [sep] + b;
      assert a + [sep] + b == [a[0]] + more && a == [a[0]] + a[1..];
      SplitAppend(a[1..], b, sep);
      SplitStep(a[0], more, sep);
      SplitStep(a[0], a[1..], sep);
      LengthenFirst(a[0], Split(a[1..], sep), Split(b, sep));
    }
  }

  lemma LengthenFirst(c: char, p: seq<string>, q: seq<string>)
    requires p != []
    ensures ([[c] + p[0]] + p[1..]) + q == [[c] + (p + q)[0]] + (p + q)[1..]
    ensures ([""] + p) + q == [""] + (p + q)
  {
  }

  lemma {:induction false} ReplaceAppend(a: string, b: string, c: char, to: string)
    ensures ReplaceChar(a + b, c, to) == ReplaceChar(a, c, to) + ReplaceChar(b, c, to)
  {
    if a == "" {
      assert a + b == b;
    } else {
      assert (a + b)[1..] == a[1..] + b;
      ReplaceAppend(a[1..], b, c, to);
    }
  }

  /** Joining undoes splitting, and no part holds the separator. */
  lemma {:induction false} JoinOfSplit(s: string, sep: char)
    ensures Join(Split(s, sep), [sep]) == s
    ensures forall p | p in Split(s, sep) :: sep !in p
  {
    if s != [] {
      JoinOfSplit(s[1..], sep);
      var rest := Split(s[1..], sep);
      if s[0] == sep {
        assert Split(s, sep) == [""] + rest && ([""] + rest)[1..] == rest;
        assert Join(Split(s, sep), [sep]) == "" + [sep] + Join(rest, [sep]);
      } else {
        assert ([[s[0]] + rest[0]] + rest[1..])[1..] == rest[1..];
        if |rest| > 1 {
          assert Join(rest, [sep]) == rest[0] + [sep] + Join(rest[1..], [sep]);
        }
      }
    }
  }

  lemma {:induction false} ReplaceCharClears(s: string, c: char, to: string)
    requires c !in to
    ensures c !in ReplaceChar(s, c, to)
  {
    if s != [] { ReplaceCharClears(s[1..], c, to); }
  }

  lemma {:induction false} ReplaceCharIdle(s: string, c: char, to: string)
    requires c !in s
    ensures ReplaceChar(s, c, to) == s
  {
    if s != [] { ReplaceCharIdle(s[1..], c, to); }
  }

  // ------------------------------------------------------------ numbers

  predicate IsDigit(c: char) { '0' <= c <= '9' }

  predicate AllDigits(s: string) {
    forall i | 0 <= i < |s| :: IsDigit(s[i])
  }

  function ParseNat(s: string): nat
    requires AllDigits(s)
  {
    if s == "" then 0 else 10 * ParseNat(s[..|s| - 1]) + (s[|s| - 1] - '0') as nat
  }

  function Digit(d: nat): char
    requires d < 10
  {
    '0' + d as char
  }

  function ShowNat(n: nat): (s: string)
    ensures s != []
  {
    if n < 10 then [Digit(n)] else ShowNat(n / 10) + [Digit(n % 10)]
  }

  function Show(n: int): string {
    if n < 0 then "-" + ShowNat(-n) else ShowNat(n)
  }

  /** A number's decimal text reads back as the number, and starts with a zero only when that is all. */
  lemma {:induction false} ShowReads(n: nat)
    ensures AllDigits(ShowNat(n)) && ParseNat(ShowNat(n)) == n && (n > 0 ==> ShowNat(n)[0] != '0')
  {
    if n >= 10 {
      ShowReads(n / 10);
      assert ShowNat(n)[..|ShowNat(n)| - 1] == ShowNat(n / 10);
    } else {
      assert [Digit(n)][..0] == "";
    }
  }
}
