/**
 * The JavaScript values the core handles: what `JSON.parse` yields, read
 * through property access and inspected for truthiness.
 */
module Json {
  import opened Wrappers

  /** A value `JSON.parse` can produce. Numbers are exact reals: the core only
      tests them for truthiness and copies them. */
  datatype Value =
    | Null
    | Bool(b: bool)
    | Num(x: real)
    | Str(s: string)
    | Arr(items: seq<Value>)
    | Obj(fields: map<string, Value>)

  /** JSON text, modelled by what it denotes: the encoding of a value, or text
      that is not JSON at all. */
  datatype Text = Encoded(v: Value) | Unparsable(raw: string)

  /** The message of the SyntaxError `JSON.parse` throws. */
  const SYNTAX_ERROR: string := "Unexpected token in JSON"

  /** `JSON.stringify` of a parsed value. */
  function Stringify(v: Value): Text
  {
    Encoded(v)
  }

  /** `JSON.parse`: the denoted value, or the SyntaxError it throws. */
  function Parse(t: Text): (r: Result<Value, string>)
    ensures r.Failure? <==> t.Unparsable?
    ensures r.Failure? ==> r.error == SYNTAX_ERROR
    ensures r.Success? ==> t == Encoded(r.value)
  {
    match t
    case Encoded(v) => Success(v)
    case Unparsable(_) => Failure(SYNTAX_ERROR)
  }

  /** The property read `v.name`; None stands for `undefined`. Reading a
      property of null throws a TypeError in JavaScript: callers test for null
      first, as the source does. */
  function Field(v: Value, name: string): (r: Option<Value>)
    ensures r.Some? <==> v.Obj? && name in v.fields
    ensures r.Some? ==> r.value == v.fields[name]
  {
    if v.Obj? && name in v.fields then Some(v.fields[name]) else None
  }

  /** `JSON.parse(JSON.stringify(v))` gives back `v`. */
  lemma ParseStringify(v: Value)
    ensures Parse(Stringify(v)) == Success(v)
  {
  }

  /** The falsy JavaScript values a parsed value or a property read can give:
      undefined, null, false, 0 and the empty string. */
  const FALSY: set<Option<Value>> := {None, Some(Null), Some(Bool(false)), Some(Num(0.0)), Some(Str(""))}

  /** JavaScript truthiness (`!!o`) of a value or of `undefined`. */
  predicate Truthy(o: Option<Value>)
    ensures Truthy(o) <==> o !in FALSY
  {
    match o
    case None => false
    case Some(v) =>
      match v
      case Null => false
      case Bool(b) => b
      case Num(x) => x != 0.0
      case Str(s) => s != ""
      case Arr(_) => true
      case Obj(_) => true
  }
}
