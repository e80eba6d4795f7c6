/** The values `JSON.parse` produces, and the hypothesis the model makes about it.

    `JSON.parse` itself is a library routine and is not re-implemented: every
    operation that calls it takes the decoder as a parameter of type `Decoder`
    (`None` standing for a thrown `SyntaxError`). The one fact the model relies
    on, that a JSON text beginning with `{` denotes an object and one beginning
    with `[` denotes an array (RFC 8259, section 2), is the predicate
    `LeadingCharAxiom`, which lemmas take as a precondition. */
module Json {
  import opened Wrappers

  datatype Json =
    | JNull
    | JBool(b: bool)
    | JNumber(n: real)
    | JString(s: string)
    | JArray(items: seq<Json>)
    | JObject(fields: map<string, Json>)

  type Decoder = string -> Option<Json>

  /** What any faithful `JSON.parse` satisfies: a successfully decoded text that
      starts with `{` is an object, one that starts with `[` is an array. */
  ghost predicate LeadingCharAxiom(decode: Decoder)
  {
    forall t: string :: |t| > 0 && decode(t).Some? ==>
      (t[0] == '{' ==> decode(t).value.JObject?) &&
      (t[0] == '[' ==> decode(t).value.JArray?)
  }

  /** Property access `v.key` on a decoded value: `None` stands for `undefined`.
      Only objects carry the keys the model reads. */
  function Get(v: Json, key: string): (r: Option<Json>)
    ensures r.Some? <==> v.JObject? && key in v.fields
    ensures r.Some? ==> r.value == v.fields[key]
  {
    if v.JObject? && key in v.fields then Some(v.fields[key]) else None
  }

  /** `typeof x === 'number'` on a possibly missing property. */
  predicate IsNumber(x: Option<Json>)
  {
    x.Some? && x.value.JNumber?
  }

  /** `Array.isArray(x)` on a possibly missing property. */
  predicate IsArray(x: Option<Json>)
  {
    x.Some? && x.value.JArray?
  }

  /** `typeof x === 'string'` on a possibly missing property. */
  predicate IsString(x: Option<Json>)
  {
    x.Some? && x.value.JString?
  }
}
