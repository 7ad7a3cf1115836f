/** Plain JavaScript objects as the application stores and submits them: a map from field
    names to JSON values. A missing key is `undefined`. */
module Records {
  import opened Wrappers

  /** The JSON values the stored records and the form states hold. */
  datatype Value = Str(s: string) | Num(n: int) | Null

  type Record = map<string, Value>

  /** `r[key]`, with `None` for `undefined`. */
  function Get(r: Record, key: string): (v: Option<Value>)
    ensures v.Some? <==> key in r
    ensures v.Some? ==> v.value == r[key]
  {
    if key in r then Some(r[key]) else None
  }

  /** `r?.[key]` on a record that may itself be absent. */
  function GetIn(r: Option<Record>, key: string): (v: Option<Value>)
    ensures v.Some? <==> r.Some? && key in r.value
    ensures v.Some? ==> v.value == r.value[key]
  {
    match r
    case None => None
    case Some(m) => Get(m, key)
  }

  /** JavaScript truthiness: `''`, `0`, `null` and `undefined` are falsy. */
  predicate Truthy(v: Option<Value>) {
    match v
    case None => false
    case Some(Str(s)) => s != ""
    case Some(Num(n)) => n != 0
    case Some(Null) => false
  }

  /** `v || d`: the value itself when it is truthy, the default otherwise. */
  function Or(v: Option<Value>, d: Value): (r: Value)
    ensures Truthy(v) ==> Some(r) == v
    ensures !Truthy(v) ==> r == d
  {
    if Truthy(v) then v.value else d
  }

  /** A field initialised with `given || d`: the given value when it is truthy, the default
      otherwise. */
  predicate Defaults(given: Option<Value>, v: Value, d: Value) {
    (Truthy(given) ==> Some(v) == given) && (!Truthy(given) ==> v == d)
  }

  /** `{ ...a, ...b }`: every field of either, the right-hand side winning on shared keys. */
  function Merge(a: Record, b: Record): (r: Record)
    ensures r.Keys == a.Keys + b.Keys
    ensures forall k :: k in b ==> r[k] == b[k]
    ensures forall k :: k in a && k !in b ==> r[k] == a[k]
  {
    a + b
  }

  /** Merging the same fields twice is the same as merging them once. */
  lemma MergeIdempotent(a: Record, b: Record)
    ensures Merge(Merge(a, b), b) == Merge(a, b)
  {
  }

  /** What a modal's submit handler asks its service to do. */
  datatype Save = Reject(reason: string) | Add(payload: Record) | Update(id: Option<Value>, payload: Record)
}
