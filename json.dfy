/**
 * Decoded JSON as the Python code sees it: the bodies of introspection
 * replies, the claims of a JWT and request bodies are dicts of such values.
 * Python's truthiness, `dict.get`, `a or b` and the `in` operator are
 * defined here once, because the token logic leans on all four.
 */
module Json {
  import opened Wrappers
  import opened Text

  datatype Value =
    | Null
    | Bool(b: bool)
    | Number(n: int)
    | Str(s: string)
    | Array(items: seq<Value>)
    | Object(fields: map<string, Value>)

  /** `bool(v)` in Python. */
  predicate Truthy(v: Value) {
    match v
    case Null => false
    case Bool(b) => b
    case Number(n) => n != 0
    case Str(s) => s != []
    case Array(items) => items != []
    case Object(fields) => fields != map[]
  }

  /** `d.get(key, default)` */
  function Get(d: map<string, Value>, key: string, default: Value): (v: Value)
    ensures key in d ==> v == d[key]
    ensures key !in d ==> v == default
  {
    if key in d then d[key] else default
  }

  /** Python's `a or b`: a when a is truthy, otherwise b. */
  function Or(a: Value, b: Value): (v: Value)
    ensures Truthy(a) ==> v == a
    ensures !Truthy(a) ==> v == b
  {
    if Truthy(a) then a else b
  }

  /** The types for which `s in v` is defined when s is a string. */
  predicate IsContainer(v: Value) {
    v.Str? || v.Array? || v.Object?
  }

  /** `s in v` for a string s: membership in a list, a key of a dict, a
      substring of a string; None where Python raises TypeError. */
  function Contains(v: Value, s: string): (r: Option<bool>)
    ensures r.Some? <==> IsContainer(v)
    ensures v.Array? ==> r == Some(Str(s) in v.items)
    ensures v.Object? ==> r == Some(s in v.fields)
  {
    match v
    case Str(t) => Some(Occurs(s, t))
    case Array(items) => Some(Str(s) in items)
    case Object(fields) => Some(s in fields)
    case _ => None
  }

  /** A Python list of strings. */
  function StrList(ws: seq<string>): (v: Value)
    ensures v.Array? && |v.items| == |ws|
    ensures forall k :: 0 <= k < |ws| ==> v.items[k] == Str(ws[k])
  {
    Array(seq(|ws|, k requires 0 <= k < |ws| => Str(ws[k])))
  }

  /** Membership in a list of strings is membership of the string. */
  lemma StrListContains(ws: seq<string>, s: string)
    ensures Contains(StrList(ws), s) == Some(s in ws)
  {
    var items := StrList(ws).items;
    if s in ws {
      var k :| 0 <= k < |ws| && ws[k] == s;
      assert items[k] == Str(s);
    }
    if Str(s) in items {
      var k :| 0 <= k < |items| && items[k] == Str(s);
      assert ws[k] == s;
    }
  }

  lemma StrListInjective(a: seq<string>, b: seq<string>)
    requires StrList(a) == StrList(b)
    ensures a == b
  {
    assert |a| == |b|;
    forall k | 0 <= k < |a| ensures a[k] == b[k] {
      assert StrList(a).items[k] == Str(a[k]);
    }
  }
}
