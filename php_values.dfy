/**
 * The PHP values that request payloads and model attributes are made of,
 * with the three PHP idioms the core relies on written out: truthiness
 * (`if ($x)`, `->filter()`), `isset` and the null-coalescing `??`.
 */
module PhpValues {
  import opened Wrappers

  /** A PHP value: scalars, a list-shaped array or a string-keyed array. */
  datatype Value =
    | Null
    | Bool(b: bool)
    | Int(i: int)
    | Str(s: string)
    | List(elems: seq<Value>)
    | Dict(entries: map<string, Value>)

  /** A model's attributes, or one item of a request payload. */
  type Attrs = map<string, Value>

  /** PHP's conversion to bool: null, false, 0, "", "0" and empty arrays are falsy. */
  predicate Truthy(v: Value) {
    match v
    case Null => false
    case Bool(b) => b
    case Int(i) => i != 0
    case Str(s) => s != "" && s != "0"
    case List(es) => |es| != 0
    case Dict(m) => |m| != 0
  }

  /** `isset($a[k])`: the key is there and its value is not null. */
  predicate IsSet(a: Attrs, k: string) {
    k in a && a[k] != Null
  }

  /** `$a[k] ?? d`. */
  function Coalesce(a: Attrs, k: string, d: Value): Value {
    if IsSet(a, k) then a[k] else d
  }

  /** Reading an attribute of a model: an attribute never set reads as null. */
  function Get(a: Attrs, k: string): Value {
    if k in a then a[k] else Null
  }

  /**
   * The primary key a value names when compared with an auto-increment id
   * column (`find`, `where('id', …)`, `whereNotIn('id', …)`).
   */
  function KeyOf(v: Value): Option<int> {
    if v.Int? then Some(v.i) else None
  }

  /** The characters PHP's `trim` removes. */
  predicate IsTrimmed(c: char) {
    c == ' ' || c == '\t' || c == '\n' || c == '\r' || c == '\0' || c == '\U{000B}'
  }

  /** `trim($s) === ''`. */
  predicate Blank(s: string) {
    forall i :: 0 <= i < |s| ==> IsTrimmed(s[i])
  }
}
