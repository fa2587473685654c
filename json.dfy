/**
 * JavaScript values as the ingestion code sees them: what `JSON.parse` returns
 * for one log line, plus `undefined`, which is what reading an absent property
 * yields. Numbers are kept as integers: the core only copies them and asks
 * their `typeof`.
 */
module Json {

  datatype Value =
    | Undefined
    | Null
    | Bool(b: bool)
    | Num(n: int)
    | Str(s: string)
    | Arr(items: seq<Value>)
    | Obj(fields: map<string, Value>)

  /** The answers JavaScript's `typeof` gives for these values. */
  datatype TypeTag = UndefinedType | ObjectType | BooleanType | NumberType | StringType

  function TypeOf(v: Value): TypeTag {
    match v
    case Undefined => UndefinedType
    case Null => ObjectType  // typeof null === "object"
    case Bool(_) => BooleanType
    case Num(_) => NumberType
    case Str(_) => StringType
    case Arr(_) => ObjectType
    case Obj(_) => ObjectType
  }

  /** Reading a property of `null` or `undefined` throws a TypeError; of anything else it succeeds. */
  predicate HasProperties(v: Value) {
    !v.Null? && !v.Undefined?
  }

  /**
   * The property read `v[k]`. Only an object's own fields answer: none of the
   * property names the core reads is a built-in property of arrays, strings,
   * numbers or booleans at the places it reads them.
   */
  function Get(v: Value, k: string): Value
    requires HasProperties(v)
  {
    match v
    case Obj(fields) => if k in fields then fields[k] else Undefined
    case _ => Undefined
  }

  /** The two TypeErrors that end an ingestion run. */
  datatype Crash =
    | CannotDestructure   // `const { ... } = x` where x is null or undefined
    | ReadPropertyOfNull  // `value.content.type` where content is null
}
