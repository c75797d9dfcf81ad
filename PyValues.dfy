/**
 * The Python values viewunit inspects, and the few built-in
 * behaviours of Python it relies on: truthiness, `in`, item lookup,
 * attribute lookup, iteration and the string helpers it calls.
 */
module PyValues {
  import opened Wrappers

  /**
   * A Python value, tagged by the capability viewunit probes for.
   * Dictionaries are association lists in iteration order (the order
   * `items()` yields them); a lookup finds the first entry with the key.
   * `Object` is an instance with attributes; when `isMapping` holds it
   * is a dict subclass (Flask's session is one) and `items` are its entries.
   * `Callable(result)` is a zero-argument callable returning `result`.
   */
  datatype Value =
    | Null
    | Int(i: int)
    | Str(s: string)
    | Callable(result: Value)
    | List(elems: seq<Value>)
    | Dict(items: seq<(string, Value)>)
    | Object(attrs: seq<(string, Value)>, isMapping: bool, items: seq<(string, Value)>)

  /** The value stored under `k`: the first entry whose key is `k`. */
  function Find<V>(items: seq<(string, V)>, k: string): (r: Option<V>)
    ensures r.Some? <==> exists i :: 0 <= i < |items| && items[i].0 == k
    ensures r.Some? ==> exists i :: 0 <= i < |items| && items[i] == (k, r.value)
  {
    if items == [] then None
    else if items[0].0 == k then Some(items[0].1)
    else Find(items[1..], k)
  }

  /** The keys of an association list, in order. */
  function Keys<V>(items: seq<(string, V)>): (ks: seq<string>)
    ensures |ks| == |items|
    ensures forall i :: 0 <= i < |items| ==> ks[i] == items[i].0
  {
    if items == [] then [] else [items[0].0] + Keys(items[1..])
  }

  /** Every key occurs once, as in a Python dict. */
  predicate UniqueKeys(items: seq<(string, Value)>) {
    forall i, j :: 0 <= i < j < |items| ==> items[i].0 != items[j].0
  }

  /** `isinstance(v, dict)`: a plain dict or an instance of a dict subclass. */
  predicate IsMapping(v: Value) {
    v.Dict? || (v.Object? && v.isMapping)
  }

  /** Python truthiness (`if v:`). */
  predicate Truthy(v: Value) {
    match v
    case Null => false
    case Int(i) => i != 0
    case Str(s) => s != ""
    case Callable(_) => true
    case List(es) => es != []
    case Dict(items) => items != []
    case Object(_, isMapping, items) => !isMapping || items != []
  }

  /** `hasattr(v, k)`. Only instances carry attributes in the model. */
  predicate HasAttr(v: Value, k: string) {
    v.Object? && Find(v.attrs, k).Some?
  }

  /** `getattr(v, k)`, for a `k` that `HasAttr` accepts. */
  function GetAttr(v: Value, k: string): Value
    requires HasAttr(v, k)
  {
    Find(v.attrs, k).value
  }

  /** `x() if callable(x) else x`. */
  function Invoke(v: Value): Value {
    if v.Callable? then v.result else v
  }

  /** `hasattr(v, '__contains__')`. */
  predicate HasContains(v: Value) {
    IsMapping(v) || v.List? || v.Str?
  }

  /** `k` occurs as a contiguous piece of `s`. */
  predicate IsSubstring(k: string, s: string) {
    k <= s || (s != [] && IsSubstring(k, s[1..]))
  }

  /** `k in v`, for a `v` that supports `in`. */
  predicate In(k: string, v: Value)
    requires HasContains(v)
  {
    if IsMapping(v) then Find(v.items, k).Some?
    else if v.List? then Str(k) in v.elems
    else IsSubstring(k, v.s)
  }

  /** The single characters of a string, each as a Python string. */
  function Chars(s: string): (cs: seq<Value>)
    ensures |cs| == |s|
    ensures forall i :: 0 <= i < |s| ==> cs[i] == Str([s[i]])
  {
    if s == [] then [] else [Str([s[0]])] + Chars(s[1..])
  }

  /** The keys of a mapping, each as a Python string. */
  function KeyValues(items: seq<(string, Value)>): (ks: seq<Value>)
    ensures |ks| == |items|
    ensures forall i :: 0 <= i < |items| ==> ks[i] == Str(items[i].0)
  {
    if items == [] then [] else [Str(items[0].0)] + KeyValues(items[1..])
  }

  /**
   * What `iter(v)` yields, or `None` when `v` is not iterable (so that
   * `len(v)` and `zip` raise TypeError). A mapping yields its keys.
   */
  function Iter(v: Value): Option<seq<Value>> {
    match v
    case List(es) => Some(es)
    case Str(s) => Some(Chars(s))
    case Dict(items) => Some(KeyValues(items))
    case Object(_, isMapping, items) => if isMapping then Some(KeyValues(items)) else None
    case _ => None
  }

  // ---------------------------------------------------------------------
  // Strings

  /** `s.startswith(p)`. */
  predicate StartsWith(s: string, p: string) {
    p <= s
  }

  /** `s.endswith(p)`. */
  predicate EndsWith(s: string, p: string) {
    |p| <= |s| && s[|s| - |p|..] == p
  }

  /** `s[n:]`, which is empty when `s` is shorter than `n`. */
  function DropPrefix(s: string, n: nat): (r: string)
    ensures |r| == if |s| <= n then 0 else |s| - n
  {
    if |s| <= n then "" else s[n..]
  }

  /** `sep.join(parts)`. */
  function JoinWith(parts: seq<string>, sep: string): string {
    if parts == [] then ""
    else if |parts| == 1 then parts[0]
    else parts[0] + sep + JoinWith(parts[1..], sep)
  }
}
