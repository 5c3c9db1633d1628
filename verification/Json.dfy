// Decoded JSON values as the adapters see them, with the JavaScript reads they use.
module Json {
  import opened Text

  datatype Key = Name(name: string) | Index(index: nat)

  /** Arrays are containers too: `length` and slots at indices, with holes allowed.
      Objects keep `length` 0. `Undefined` is what an absent property reads as. */
  datatype Json =
    | Undefined
    | Null
    | Bool(b: bool)
    | Num(n: real)
    | Str(s: string)
    | Box(isArray: bool, length: nat, slots: map<Key, Json>)

  /** A plain property read; primitives and arrays have none of the properties asked for here. */
  function Get(j: Json, name: string): Json {
    if j.Box? && !j.isArray && Name(name) in j.slots then j.slots[Name(name)] else Undefined
  }

  predicate Has(j: Json, name: string) {
    j.Box? && !j.isArray && Name(name) in j.slots
  }

  predicate Nullish(j: Json) {
    j.Undefined? || j.Null?
  }

  predicate Truthy(j: Json) {
    match j
    case Undefined => false
    case Null => false
    case Bool(b) => b
    case Num(n) => n != 0.0
    case Str(s) => s != ""
    case Box(_, _, _) => true
  }

  /** The falsy values are undefined, null, false, zero and the empty text; a missing property reads as
      undefined, and so does every property of an array or a primitive. */
  lemma ReadsMean(j: Json, name: string)
    ensures Truthy(j) <==> j !in {Undefined, Null, Bool(false), Num(0.0), Str("")}
    ensures Get(j, name) != Undefined ==> j.Box? && !j.isArray && Name(name) in j.slots
    ensures j.Box? && !j.isArray && Name(name) in j.slots ==> Get(j, name) == j.slots[Name(name)]
  {
  }

  function OrElse(j: Json, fallback: Json): Json {
    if Nullish(j) then fallback else j
  }

  function AsString(j: Json): Option<string> {
    if j.Str? then Some(j.s) else None
  }

  function AsNumber(j: Json): Option<real> {
    if j.Num? then Some(j.n) else None
  }
}
