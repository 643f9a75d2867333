/** A decoded JSON payload as Python sees it after `response.json()`, and
    the two operations the handlers apply to it: `key in data` and
    `data[key]` with a string key.  Both raise on some types; an outcome
    carries either the value or the text `str(e)` of what was raised.  The
    texts are those of CPython 3.11 and later. */
module PyJson {
  import opened Text

  datatype Json =
    | JNone
    | JBool(b: bool)
    | JInt(i: int)
    | JFloat(x: real)
    | JStr(s: string)
    | JList(items: seq<Json>)
    | JDict(fields: map<string, Json>)

  /** What a Python expression evaluates to: a value, or the message of
      the exception it raises. */
  datatype Outcome<T> = Value(value: T) | Raised(message: string)

  /** Python's name for the type of a decoded value. */
  function TypeName(v: Json): string {
    match v
    case JNone => "NoneType"
    case JBool(_) => "bool"
    case JInt(_) => "int"
    case JFloat(_) => "float"
    case JStr(_) => "str"
    case JList(_) => "list"
    case JDict(_) => "dict"
  }

  /** The containers: the values `in` can search. */
  predicate IsContainer(v: Json) {
    v.JStr? || v.JList? || v.JDict?
  }

  /** `key in data`: a dictionary's keys, a list's elements (only an
      equal string matches), a string's substrings; any other type raises
      a TypeError. */
  function HasKey(data: Json, key: string): (r: Outcome<bool>)
    ensures r.Raised? <==> !IsContainer(data)
    ensures r.Raised? ==> r.message == "argument of type '" + TypeName(data) + "' is not iterable"
  {
    match data
    case JDict(fields) => Value(key in fields)
    case JList(items) => Value(JStr(key) in items)
    case JStr(s) => Value(Contains(s, key))
    case _ => Raised("argument of type '" + TypeName(data) + "' is not iterable")
  }

  /** `data[key]` with a string key: only a dictionary holding the key
      gives a value.  A missing key raises KeyError, whose text is the
      key's repr; lists and strings want integer indices; the scalars are
      not subscriptable. */
  function Subscript(data: Json, key: string): (r: Outcome<Json>)
    ensures r.Value? <==> data.JDict? && key in data.fields
    ensures r.Value? ==> r.value == data.fields[key]
  {
    match data
    case JDict(fields) => if key in fields then Value(fields[key]) else Raised("'" + key + "'")
    case JList(_) => Raised("list indices must be integers or slices, not str")
    case JStr(_) => Raised("string indices must be integers, not 'str'")
    case _ => Raised("'" + TypeName(data) + "' object is not subscriptable")
  }

  /** When `key in data` holds, `data[key]` still raises unless `data` is
      a dictionary: a list holding the string, or a string containing it,
      passes the test and fails the lookup. */
  lemma MembershipThenLookup(data: Json, key: string)
    requires HasKey(data, key) == Value(true)
    ensures Subscript(data, key).Value? <==> data.JDict?
    ensures data.JList? ==> Subscript(data, key) == Raised("list indices must be integers or slices, not str")
  {
  }
}
