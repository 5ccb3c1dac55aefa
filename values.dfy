/**
 * The values the engine stores: what the codec hands back from the backing
 * store, with JavaScript's truthiness, property access and constructor tags.
 */
module Values {
  import opened Wrappers

  /** A decoded JSON-like value. Numbers are modelled as integers. */
  datatype Value =
    | Undefined
    | Null
    | Bool(b: bool)
    | Num(n: int)
    | Str(s: string)
    | Rec(fields: map<string, Value>)
    | List(items: seq<Value>)

  /** A plain object: a record of named fields. */
  type Record = map<string, Value>

  /** JavaScript truthiness: undefined, null, false, 0 and "" are falsy. */
  predicate Truthy(v: Value)
    ensures Truthy(v) <==> v !in {Undefined, Null, Bool(false), Num(0), Str("")}
  {
    match v
    case Undefined => false
    case Null => false
    case Bool(b) => b
    case Num(n) => n != 0
    case Str(s) => s != ""
    case Rec(_) => true
    case List(_) => true
  }

  /** `record[name]`: a missing field reads as undefined. */
  function FieldOf(r: Record, name: string): Value
  {
    if name in r then r[name] else Undefined
  }

  /** `item[name]` for an element of a stored list; only objects carry fields. */
  function Field(item: Value, name: string): Value
  {
    if item.Rec? then FieldOf(item.fields, name) else Undefined
  }

  /** The constructors a definition's `type` can name. */
  datatype ValueType = StringType | NumberType | BooleanType | ObjectType | ArrayType | NoType

  /**
   * `value.constructor`; null and undefined have none (reading it throws).
   * NoType stands for a definition without a type, which no value matches.
   */
  function ConstructorOf(v: Value): (t: Option<ValueType>)
    ensures t.None? <==> v.Undefined? || v.Null?
    ensures t != Some(NoType)
    ensures t == Some(ArrayType) <==> v.List?
  {
    match v
    case Undefined => None
    case Null => None
    case Bool(_) => Some(BooleanType)
    case Num(_) => Some(NumberType)
    case Str(_) => Some(StringType)
    case Rec(_) => Some(ObjectType)
    case List(_) => Some(ArrayType)
  }
}
