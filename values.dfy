// The JSON-derived Python values that task settings and Manager replies carry,
// with Python's isinstance() and truthiness rules.
module Values {
  /** A Python value as decoded from JSON. */
  datatype Value =
    | NoneV
    | BoolV(b: bool)
    | IntV(i: int)
    | FloatV(f: real)
    | StrV(s: string)
    | ListV(items: seq<Value>)
    | DictV(entries: map<string, Value>)

  /** A command's settings dictionary. */
  type Settings = map<string, Value>

  datatype PyType = NoneType | BoolType | IntType | FloatType | StrType | ListType | DictType

  function TypeOf(v: Value): PyType
  {
    match v
    case NoneV => NoneType
    case BoolV(_) => BoolType
    case IntV(_) => IntType
    case FloatV(_) => FloatType
    case StrV(_) => StrType
    case ListV(_) => ListType
    case DictV(_) => DictType
  }

  /** isinstance(v, t): exact type, except that bool is a subclass of int. */
  predicate IsInstance(v: Value, t: PyType)
  {
    TypeOf(v) == t || (t == IntType && v.BoolV?)
  }

  /** The `__name__` of a Python class. */
  function TypeName(t: PyType): string
  {
    match t
    case NoneType => "NoneType"
    case BoolType => "bool"
    case IntType => "int"
    case FloatType => "float"
    case StrType => "str"
    case ListType => "list"
    case DictType => "dict"
  }

  /** The text `'%s' % t` gives for a Python class object. */
  function ClassRepr(t: PyType): (r: string)
    ensures StartsWithClass(r)
  {
    "<class '" + TypeName(t) + "'>"
  }

  predicate StartsWithClass(r: string) { |r| >= 8 && r[..8] == "<class '" }

  /** Python truthiness of a value (`if v:`). */
  predicate Truthy(v: Value)
  {
    match v
    case NoneV => false
    case BoolV(b) => b
    case IntV(i) => i != 0
    case FloatV(f) => f != 0.0
    case StrV(s) => s != []
    case ListV(items) => items != []
    case DictV(entries) => entries != map[]
  }

  /** The integer an int instance stands for (True is 1, False is 0). */
  function AsInt(v: Value): int
    requires IsInstance(v, IntType)
  {
    if v.BoolV? then (if v.b then 1 else 0) else v.i
  }

  /** settings.get(key), which gives None for a missing key. */
  function Get(settings: Settings, key: string): (v: Value)
    ensures key !in settings ==> v == NoneV
    ensures key in settings ==> v == settings[key]
  {
    if key in settings then settings[key] else NoneV
  }
}
