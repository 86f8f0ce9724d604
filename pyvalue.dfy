/** The decoded JSON payloads the reports work on: nested dictionaries whose leaves are
    strings, numbers, lists or null, together with the runtime behaviour of the few
    operations the report code applies to them (`d[k]`, `k in d`, `d.get(k, default)`,
    `d.pop(k)`), including the exceptions those operations raise. */
module PyValue {
  import opened Common
  import opened Text
  import opened OrderedDict

  /** A dictionary key: decoded JSON only produces string keys, but a payload built in
      code can carry an integer key, which the validators reject. */
  datatype Key = StrKey(s: string) | IntKey(i: int)

  /** One value of a payload. `VOther` stands for any object of another type (a tuple,
      a set, a date, ...), named by its type. */
  datatype Value =
    | VNone
    | VBool(b: bool)
    | VInt(i: int)
    | VFloat(r: real)
    | VStr(s: string)
    | VList(items: seq<Value>)
    | VDict(entries: seq<(Key, Value)>)
    | VOther(typeName: string)

  /** `type(v).__name__`. */
  function TypeName(v: Value): (name: string)
    ensures name != []
  {
    match v
    case VNone => "NoneType"
    case VBool(_) => "bool"
    case VInt(_) => "int"
    case VFloat(_) => "float"
    case VStr(_) => "str"
    case VList(_) => "list"
    case VDict(_) => "dict"
    case VOther(t) => if t == [] then "object" else t
  }

  /** `str(k)` for a key, as it appears in a formatted message. */
  function KeyText(k: Key): string {
    match k
    case StrKey(s) => s
    case IntKey(i) => IntToString(i)
  }

  /** `str(v)` for the scalar kinds whose text is fixed: strings, integers, booleans
      and None. The text of a float or a container is not modelled: a placeholder that
      names its type stands for it. */
  function Str(v: Value): (r: string)
    ensures v.VStr? ==> r == v.s
    ensures v.VInt? ==> r == IntToString(v.i)
  {
    match v
    case VStr(s) => s
    case VInt(i) => IntToString(i)
    case VBool(b) => if b then "True" else "False"
    case VNone => "None"
    case _ => "<" + TypeName(v) + ">"
  }

  /** `bool(v)`. */
  predicate Truthy(v: Value) {
    match v
    case VNone => false
    case VBool(b) => b
    case VInt(i) => i != 0
    case VFloat(r) => r != 0.0
    case VStr(s) => s != []
    case VList(items) => items != []
    case VDict(entries) => entries != []
    case VOther(_) => true
  }

  /** `isinstance(v, (int, float))`: booleans are integers to the runtime. */
  predicate IsNumber(v: Value) {
    v.VBool? || v.VInt? || v.VFloat?
  }

  /** The numeric value of a number. */
  function AsReal(v: Value): real
    requires IsNumber(v)
  {
    match v
    case VBool(b) => if b then 1.0 else 0.0
    case VInt(i) => i as real
    case VFloat(r) => r
  }

  /** `d[key]` for a string key. A dictionary without the key raises `KeyError`;
      strings and lists cannot be indexed by a string; other values are not
      subscriptable at all. */
  function Subscript(v: Value, key: string): (r: Result<Value>)
    ensures r.Ok? <==> v.VDict? && StrKey(key) in Keys(v.entries)
    ensures r.Ok? ==> (StrKey(key), r.value) in v.entries && Get(v.entries, StrKey(key)) == Some(r.value)
    ensures v.VDict? && r.Err? ==> r.error == KeyError(key)
  {
    match v
    case VDict(entries) =>
      (match Get(entries, StrKey(key))
       case Some(x) => Ok(x)
       case None => Err(KeyError(key)))
    case VStr(_) => Err(TypeError("string indices must be integers, not 'str'"))
    case VList(_) => Err(TypeError("list indices must be integers or slices, not str"))
    case _ => Err(TypeError("'" + TypeName(v) + "' object is not subscriptable"))
  }

  /** `key in v` for a string `key`: a key of a dictionary, an element of a list, a
      substring of a string; any other value is not a container and raises. */
  function In(key: string, v: Value): (r: Result<bool>)
    ensures v.VDict? ==> r == Ok(StrKey(key) in Keys(v.entries))
    ensures v.VList? ==> r == Ok(VStr(key) in v.items)
    ensures v.VStr? ==> r == Ok(Contains(v.s, key))
    ensures r.Err? <==> !(v.VDict? || v.VList? || v.VStr?)
  {
    match v
    case VDict(entries) => Ok(StrKey(key) in Keys(entries))
    case VList(items) => Ok(VStr(key) in items)
    case VStr(s) => Ok(Contains(s, key))
    case _ => Err(TypeError("argument of type '" + TypeName(v) + "' is not iterable"))
  }

  /** `v.get(key, default)`: only dictionaries have `get`. */
  function GetOr(v: Value, key: string, default: Value): (r: Result<Value>)
    ensures r.Err? <==> !v.VDict?
    ensures v.VDict? && StrKey(key) in Keys(v.entries) ==> r == Subscript(v, key)
    ensures v.VDict? && StrKey(key) !in Keys(v.entries) ==> r == Ok(default)
  {
    if v.VDict? then
      match Get(v.entries, StrKey(key))
      case Some(x) => Ok(x)
      case None => Ok(default)
    else
      Err(AttributeError("'" + TypeName(v) + "' object has no attribute 'get'"))
  }

  /** `d[key] = value` on a dictionary value. */
  function Store(entries: seq<(Key, Value)>, key: string, value: Value): (r: seq<(Key, Value)>)
    requires NoDupKeys(entries)
    ensures NoDupKeys(r)
    ensures Get(r, StrKey(key)) == Some(value)
    ensures forall k :: k != StrKey(key) ==> Get(r, k) == Get(entries, k)
  {
    var r := Set(entries, StrKey(key), value);
    forall k ensures Get(r, k) == if k == StrKey(key) then Some(value) else Get(entries, k) {
      GetSet(entries, StrKey(key), value, k);
    }
    GetSet(entries, StrKey(key), value, StrKey(key));
    r
  }

  /** `d[field].replace(" ", "_")`: only a string has `replace`. */
  function Underscored(d: seq<(Key, Value)>, field: string): (r: Result<string>)
    ensures r.Ok? <==> Get(d, StrKey(field)).Some? && Get(d, StrKey(field)).value.VStr?
    ensures r.Ok? ==> r.value == ReplaceChar(Get(d, StrKey(field)).value.s, ' ', '_')
    ensures Get(d, StrKey(field)).None? ==> r == Err(KeyError(field))
  {
    match Get(d, StrKey(field))
    case None => Err(KeyError(field))
    case Some(v) =>
      if v.VStr? then Ok(ReplaceChar(v.s, ' ', '_'))
      else Err(AttributeError("'" + TypeName(v) + "' object has no attribute 'replace'"))
  }

  /** A dictionary object that the report code updates in place: the caller's payload,
      from which the parser pops entries. */
  class DictObject {
    var entries: seq<(Key, Value)>

    constructor (entries: seq<(Key, Value)>)
      ensures this.entries == entries
    {
      this.entries := entries;
    }

    /** `d.pop(key)`: the stored value, which leaves the dictionary; a missing key
        raises `KeyError` and leaves the dictionary as it was. */
    method Pop(key: string) returns (r: Result<Value>)
      modifies this
      ensures StrKey(key) in Keys(old(entries)) ==>
        r == Ok(Get(old(entries), StrKey(key)).value) && entries == Remove(old(entries), StrKey(key))
      ensures StrKey(key) !in Keys(old(entries)) ==> r == Err(KeyError(key)) && entries == old(entries)
    {
      match Get(entries, StrKey(key))
      case Some(x) =>
        r := Ok(x);
        entries := Remove(entries, StrKey(key));
      case None =>
        r := Err(KeyError(key));
    }
  }
}
