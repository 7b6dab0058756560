/**
 * The JSON-like values the core receives from the language model and the
 * catalog, and JavaScript's property access on them.
 */
module Json {
  import opened Wrappers
  import opened Text

  /** A JavaScript number; fractional values are not part of this model. */
  datatype Num = Finite(v: int) | NaN | Infinity(negative: bool)

  /**
   * A JSON value. An object keeps its properties in the order in which
   * `Object.entries` enumerates them; a key occurs at most once in practice,
   * and lookups use its first occurrence.
   */
  datatype Json =
    | JNull
    | JBool(b: bool)
    | JNum(n: Num)
    | JStr(s: string)
    | JArr(items: seq<Json>)
    | JObj(fields: seq<Field>)

  datatype Field = Field(key: string, value: Json)

  /** The value of a property; `None` is JavaScript's `undefined`. */
  type Value = Option<Json>

  /** `record[key]` on an object. */
  function Get(fields: seq<Field>, key: string): (v: Value)
    ensures v.Some? <==> exists i :: 0 <= i < |fields| && fields[i].key == key
  {
    if fields == [] then None
    else if fields[0].key == key then Some(fields[0].value)
    else Get(fields[1..], key)
  }

  predicate HasKey(fields: seq<Field>, key: string) {
    Get(fields, key).Some?
  }

  /** `record[key] = value`: an existing property keeps its place, a new one goes last. */
  function SetField(fields: seq<Field>, key: string, value: Json): (r: seq<Field>)
    ensures |r| == |fields| || |r| == |fields| + 1
  {
    if fields == [] then [Field(key, value)]
    else if fields[0].key == key then [Field(key, value)] + fields[1..]
    else [fields[0]] + SetField(fields[1..], key, value)
  }

  lemma {:induction false} GetSetSame(fields: seq<Field>, key: string, value: Json)
    ensures Get(SetField(fields, key, value), key) == Some(value)
  {
    if fields != [] && fields[0].key != key {
      GetSetSame(fields[1..], key, value);
    }
  }

  lemma {:induction false} GetSetOther(fields: seq<Field>, key: string, value: Json, other: string)
    requires other != key
    ensures Get(SetField(fields, key, value), other) == Get(fields, other)
  {
    if fields != [] && fields[0].key != key {
      GetSetOther(fields[1..], key, value, other);
    }
  }

  /** `v?.[key]`: undefined unless `v` is an object that has the property. */
  function Member(v: Value, key: string): (r: Value)
    ensures r.Some? ==> v.Some? && v.value.JObj? && HasKey(v.value.fields, key)
  {
    if v.Some? && v.value.JObj? then Get(v.value.fields, key) else None
  }

  /** JavaScript truthiness. */
  predicate Truthy(v: Value) {
    match v
    case None => false
    case Some(JNull) => false
    case Some(JBool(b)) => b
    case Some(JNum(n)) => n != Finite(0) && n != NaN
    case Some(JStr(s)) => s != []
    case Some(_) => true
  }

  /** `value === undefined || value === null`, what `??` and `?.` test. */
  predicate IsNullish(v: Value) {
    v.None? || v == Some(JNull)
  }

  /** `typeof v === 'number' && Number.isFinite(v)` */
  predicate IsFiniteNumber(v: Value) {
    v.Some? && v.value.JNum? && v.value.n.Finite?
  }

  /** `a ?? b` */
  function OrElse(a: Value, b: Value): Value {
    if IsNullish(a) then b else a
  }

  /** `v.key` where `v` may be anything: `null` and `undefined` throw a `TypeError` (here `None`). */
  function Property(v: Value, key: string): (r: Option<Value>)
    ensures r.None? <==> IsNullish(v)
  {
    if IsNullish(v) then None
    else if v.value.JObj? then Some(Get(v.value.fields, key))
    else Some(None)
  }
}
