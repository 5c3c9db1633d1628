// beacon-sandbox/scenario/scenario.go: a name looked for as a whole path element.
module PathElement {

  predicate IsFilenameByte(b: char) {
    'a' <= b <= 'z' || 'A' <= b <= 'Z' || '0' <= b <= '9' || b == '.' || b == '_' || b == '-'
  }

  /** `name` stands at `at`, whatever is around it. */
  predicate OccursAt(text: string, name: string, at: nat) {
    at + |name| <= |text| && text[at..at + |name|] == name
  }

  /** strings.Index from `from` on: the first occurrence, |text| + 1 standing for none. */
  function IndexFrom(text: string, name: string, from: nat): (at: nat)
    requires from <= |text|
    ensures from <= at && forall k | from <= k < at :: !OccursAt(text, name, k)
    ensures at <= |text| ==> OccursAt(text, name, at)
    ensures at <= |text| + 1
    decreases |text| - from
  {
    if OccursAt(text, name, from) then from else if from == |text| then |text| + 1 else IndexFrom(text, name, from + 1)
  }

  /** The bytes on either side, where there are any, do not make the name longer. */
  predicate StandsAlone(text: string, name: string, at: nat) {
    && OccursAt(text, name, at)
    && (at == 0 || !IsFilenameByte(text[at - 1]))
    && (at + |name| == |text| || !IsFilenameByte(text[at + |name|]))
  }

  /** True exactly when some occurrence stands alone, overlapping occurrences included. Callers
      check that the name is not empty. */
  method ContainsPathElement(text: string, name: string) returns (found: bool)
    requires name != ""
    ensures found <==> exists at: nat :: StandsAlone(text, name, at)
  {
    var i := 0;
    while true
      invariant 0 <= i <= |text|
      invariant forall k: nat | k < i :: !StandsAlone(text, name, k)
      decreases |text| - i
    {
      var start := IndexFrom(text, name, i);
      if start > |text| {
        forall k: nat ensures !StandsAlone(text, name, k) {
          if k >= i && k <= |text| { assert !OccursAt(text, name, k); }
        }
        return false;
      }
      var end := start + |name|;
      var leftOk := start == 0 || !IsFilenameByte(text[start - 1]);
      var rightOk := end == |text| || !IsFilenameByte(text[end]);
      if leftOk && rightOk {
        assert StandsAlone(text, name, start);
        return true;
      }
      i := start + 1;
    }
  }

  /** Standing alone, in ASCII codes: nothing on either side but what is no letter, digit, hyphen, point
      or underscore. */
  lemma StandsAloneMeans(text: string, name: string, at: nat)
    ensures StandsAlone(text, name, at)
       <==> at + |name| <= |text| && text[at..at + |name|] == name
            && forall k | (k == at - 1 || k == at + |name|) && 0 <= k < |text| ::
                 var b := text[k] as int;
                 !(48 <= b <= 57 || 65 <= b <= 90 || 97 <= b <= 122 || b == 45 || b == 46 || b == 95)
  {
    var p, q := at - 1, at + |name|;
    assert 0 <= p < |text| ==> text[p] == text[at - 1];
  }

  /** A maximal run of filename bytes. */
  predicate IsElement(text: string, from: nat, to: nat) {
    && from < to <= |text| && (forall k | from <= k < to :: IsFilenameByte(text[k]))
    && (from == 0 || !IsFilenameByte(text[from - 1])) && (to == |text| || !IsFilenameByte(text[to]))
  }

  /** For a name made of filename bytes only, standing alone is being a whole element. */
  lemma StandsAloneIsElement(text: string, name: string, at: nat)
    requires name != "" && forall c | c in name :: IsFilenameByte(c)
    ensures StandsAlone(text, name, at) <==> IsElement(text, at, at + |name|) && text[at..at + |name|] == name
  {
    if StandsAlone(text, name, at) {
      forall k | at <= k < at + |name| ensures IsFilenameByte(text[k]) {
        assert text[k] == name[k - at] && name[k - at] in name;
      }
    }
  }
}
