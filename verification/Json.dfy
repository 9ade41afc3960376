/** The plain JavaScript values that the blueprint and the command payloads are
    made of. An object is the sequence of its own properties in enumeration
    order. */
module Json {
  import opened Options

  datatype Json =
    | Undefined
    | Null
    | Bool(b: bool)
    | Int(n: int)            // an integer that `String` writes in digits
    | Real(literal: string)  // any other number, as `String` writes it
    | Str(s: string)
    | Arr(items: seq<Json>)
    | Obj(fields: seq<Field>)

  datatype Field = Field(key: string, value: Json)

  /** The accessor that every ordinary object inherits: assigning to it sets the
      prototype and makes no own property. */
  const PROTO := "__proto__"

  function IndexOfKey(fields: seq<Field>, key: string): (i: nat)
    ensures i <= |fields|
    ensures i < |fields| ==> fields[i].key == key
    ensures forall j :: 0 <= j < i ==> fields[j].key != key
  {
    if fields == [] || fields[0].key == key then 0 else 1 + IndexOfKey(fields[1..], key)
  }

  predicate HasKey(fields: seq<Field>, key: string) {
    exists i :: 0 <= i < |fields| && fields[i].key == key
  }

  /** The own property `key`, if there is one. */
  function Lookup(fields: seq<Field>, key: string): Option<Json> {
    var i := IndexOfKey(fields, key);
    if i == |fields| then None else Some(fields[i].value)
  }

  /** The own property `key` set to `value`, in place or at the end; for keys that
      are not array indices. */
  function SetField(fields: seq<Field>, key: string, value: Json): (r: seq<Field>)
    ensures !HasKey(fields, key) ==> r == fields + [Field(key, value)]
  {
    var i := IndexOfKey(fields, key);
    if i == |fields| then fields + [Field(key, value)] else fields[i := Field(key, value)]
  }

  /** The keys of one object differ pairwise. */
  predicate DistinctKeys(fields: seq<Field>) {
    forall i, j :: 0 <= i < j < |fields| ==> fields[i].key != fields[j].key
  }

  /** Every object in the value has distinct keys, as all JavaScript objects do. */
  predicate WellFormed(v: Json) {
    match v
    case Arr(items) => forall i :: 0 <= i < |items| ==> WellFormed(items[i])
    case Obj(fields) =>
      DistinctKeys(fields) && forall i :: 0 <= i < |fields| ==> WellFormed(fields[i].value)
    case _ => true
  }
}
