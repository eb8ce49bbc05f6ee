/**
  * Values produced by Python's `json.loads` and the duck-typed operations the
  * server applies to them (`in`, `len`, iteration, truthiness, item
  * assignment). Where Python raises, the operation returns `None`.
  */
module PyJson {
  import opened Wrappers
  import opened PyStr

  /** A decoded JSON value. An object keeps its entries in insertion order;
      its keys are values because Python code may assign a non-string key. */
  datatype Value =
    | JNull
    | JBool(b: bool)
    | JNum(n: real)
    | JStr(s: string)
    | JArr(items: seq<Value>)
    | JObj(entries: seq<(Value, Value)>)

  /** A top-level Python `dict` with string keys: the exercise record, a request body. */
  type Record = map<string, Value>

  /** Python's `bool(v)`. */
  predicate Truthy(v: Value)
  {
    match v
    case JNull => false
    case JBool(b) => b
    case JNum(n) => n != 0.0
    case JStr(s) => s != ""
    case JArr(xs) => xs != []
    case JObj(es) => es != []
  }

  /** The keys of an object, in insertion order. */
  function Keys(es: seq<(Value, Value)>): (ks: seq<Value>)
    ensures |ks| == |es|
    ensures forall i :: 0 <= i < |es| ==> ks[i] == es[i].0
  {
    seq(|es|, i requires 0 <= i < |es| => es[i].0)
  }

  /** Lists and objects are unhashable: looking them up as dict keys raises. */
  predicate Hashable(v: Value)
  {
    !v.JArr? && !v.JObj?
  }

  /** Python's `item in container`; `None` where Python raises `TypeError`. */
  function In(item: Value, container: Value): (r: Option<bool>)
    ensures container.JArr? ==> r == Some(item in container.items)
    ensures container.JStr? ==> (r.Some? <==> item.JStr?)
    ensures r.Some? ==> container.JStr? || container.JArr? || container.JObj?
  {
    match container
    case JStr(c) => if item.JStr? then Some(Contains(c, item.s)) else None
    case JArr(xs) => Some(item in xs)
    case JObj(es) => if Hashable(item) then Some(item in Keys(es)) else None
    case _ => None
  }

  /** Python's `len(v)`; `None` where Python raises `TypeError`. */
  function Len(v: Value): (r: Option<nat>)
    ensures r.Some? <==> v.JStr? || v.JArr? || v.JObj?
  {
    match v
    case JStr(s) => Some(|s|)
    case JArr(xs) => Some(|xs|)
    case JObj(es) => Some(|es|)
    case _ => None
  }

  /** What `for x in v` yields: characters of a string, items of a list, keys of a dict. */
  function Iter(v: Value): (r: Option<seq<Value>>)
    ensures r.Some? <==> v.JStr? || v.JArr? || v.JObj?
    ensures v.JArr? ==> r == Some(v.items)
  {
    match v
    case JStr(s) => Some(seq(|s|, i requires 0 <= i < |s| => JStr([s[i]])))
    case JArr(xs) => Some(xs)
    case JObj(es) => Some(Keys(es))
    case _ => None
  }

  /** `d[k] = v` on a dict: replaces the entry for `k` in place, or appends one. */
  function Assign(es: seq<(Value, Value)>, k: Value, v: Value): (r: seq<(Value, Value)>)
    ensures (k, v) in r
    ensures k in Keys(es) ==> |r| == |es|
    ensures k !in Keys(es) ==> r == es + [(k, v)]
  {
    if es == [] then [(k, v)]
    else if es[0].0 == k then [(k, v)] + es[1..]
    else
      var rest := Assign(es[1..], k, v);
      assert Keys(es) == [es[0].0] + Keys(es[1..]);
      [es[0]] + rest
  }

  /** `d.get(k, default)`. */
  function Get(d: Record, k: string, default: Value): Value
  {
    if k in d then d[k] else default
  }

  /** Wraps a list of Python strings as a JSON list. */
  function Strs(xs: seq<string>): (r: Value)
    ensures r.JArr? && |r.items| == |xs|
    ensures forall i :: 0 <= i < |xs| ==> r.items[i] == JStr(xs[i])
  {
    JArr(seq(|xs|, i requires 0 <= i < |xs| => JStr(xs[i])))
  }
}
