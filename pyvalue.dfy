/** Values produced by Python's `json.loads`, and the parts of Python's
    semantics the quiz applies to them: subscripting (`q["options"]`),
    `.values()` and `==`. */
module PyValue {

  /** A decoded JSON value: `None`, `bool`, `int`, `float`, `str`, `list`, `dict`. */
  datatype Json =
    | JNull
    | JBool(b: bool)
    | JInt(i: int)
    | JFloat(x: real)
    | JString(s: string)
    | JArray(items: seq<Json>)
    | JObject(fields: map<string, Json>)

  /** The Python exceptions that subscripting and attribute access can raise. */
  datatype Fault = KeyError | IndexError | TypeError | AttributeError

  datatype Result<T> = Ok(value: T) | Err(fault: Fault) {
    predicate IsFailure() { Err? }
    function PropagateFailure<U>(): Result<U> requires Err? { Err(fault) }
    function Extract(): T requires Ok? { value }
  }

  datatype Option<T> = None | Some(value: T)

  /** `bool` is a subclass of `int` in Python, so both compare with numbers. */
  predicate IsNumeric(j: Json) {
    j.JBool? || j.JInt? || j.JFloat?
  }

  function NumericValue(j: Json): real
    requires IsNumeric(j)
  {
    match j
    case JBool(b) => if b then 1.0 else 0.0
    case JInt(i) => i as real
    case JFloat(x) => x
  }

  /** Python's `a == b` on decoded JSON values: numbers (and booleans) by
      value, strings by content, lists element by element, dicts by key set
      and values; no equality across other types. */
  predicate PyEq(a: Json, b: Json)
    ensures a.JString? && b.JString? ==> (PyEq(a, b) <==> a.s == b.s)
    ensures a.JNull? ==> (PyEq(a, b) <==> b.JNull?)
    ensures PyEq(a, b) && a.JString? ==> b.JString?
    decreases a
  {
    if IsNumeric(a) || IsNumeric(b) then
      IsNumeric(a) && IsNumeric(b) && NumericValue(a) == NumericValue(b)
    else
      match a
      case JNull => b.JNull?
      case JString(s) => b.JString? && b.s == s
      case JArray(xs) =>
        b.JArray? && |b.items| == |xs| &&
        forall i :: 0 <= i < |xs| ==> PyEq(xs[i], b.items[i])
      case JObject(m) =>
        b.JObject? && b.fields.Keys == m.Keys &&
        forall k :: k in m ==> PyEq(m[k], b.fields[k])
  }

  lemma {:induction false} PyEqReflexive(a: Json)
    ensures PyEq(a, a)
    decreases a
  {
    match a
    case JArray(xs) =>
      forall i | 0 <= i < |xs| ensures PyEq(xs[i], xs[i]) {
        PyEqReflexive(xs[i]);
      }
    case JObject(m) =>
      forall k | k in m ensures PyEq(m[k], m[k]) {
        PyEqReflexive(m[k]);
      }
    case _ =>
  }

  lemma {:induction false} PyEqSymmetric(a: Json, b: Json)
    requires PyEq(a, b)
    ensures PyEq(b, a)
    decreases a
  {
    if !IsNumeric(a) && !IsNumeric(b) {
      match a
      case JArray(xs) =>
        forall i | 0 <= i < |xs| ensures PyEq(b.items[i], xs[i]) {
          PyEqSymmetric(xs[i], b.items[i]);
        }
      case JObject(m) =>
        forall k | k in b.fields ensures PyEq(b.fields[k], m[k]) {
          PyEqSymmetric(m[k], b.fields[k]);
        }
      case _ =>
    }
  }

  /** The position `idx` selects in a sequence of length `n` under Python's
      indexing, where a negative index counts from the end. */
  function PyIndex(idx: int, n: nat): (r: Option<nat>)
    ensures r.Some? <==> -(n as int) <= idx < n
    ensures r.Some? ==> r.value < n && (r.value == idx || r.value == n + idx)
  {
    if 0 <= idx < n then Some(idx)
    else if -(n as int) <= idx < 0 then Some(n + idx)
    else None
  }

  /** An integer usable as a list index: an `int`, or a `bool`. */
  function AsIndex(k: Json): Option<int> {
    match k
    case JInt(i) => Some(i)
    case JBool(b) => Some(if b then 1 else 0)
    case _ => None
  }

  /** Python's `c[k]` on decoded values. A dict looks up a string key; its keys
      are all strings, so any other hashable key is missing and a list or dict
      key is unhashable. A list or string takes an integer index. */
  function Subscript(c: Json, k: Json): (r: Result<Json>)
    ensures c.JObject? && k.JString? ==>
              (r.Ok? <==> k.s in c.fields) && (r.Ok? ==> r.value == c.fields[k.s]) &&
              (r.Err? ==> r.fault == KeyError)
    ensures r.Ok? ==> c.JObject? || c.JArray? || c.JString?
  {
    match c
    case JObject(m) =>
      (match k
       case JString(s) => if s in m then Ok(m[s]) else Err(KeyError)
       case JArray(_) => Err(TypeError)
       case JObject(_) => Err(TypeError)
       case _ => Err(KeyError))
    case JArray(xs) =>
      (match AsIndex(k)
       case None => Err(TypeError)
       case Some(idx) =>
         match PyIndex(idx, |xs|)
         case None => Err(IndexError)
         case Some(p) => Ok(xs[p]))
    case JString(s) =>
      (match AsIndex(k)
       case None => Err(TypeError)
       case Some(idx) =>
         match PyIndex(idx, |s|)
         case None => Err(IndexError)
         case Some(p) => Ok(JString([s[p]])))
    case _ => Err(TypeError)
  }

  /** Python's `c.values()`: only a dict has it. The order of the values is
      not modelled, only which values there are. */
  function Values(c: Json): (r: Result<set<Json>>)
    ensures r.Ok? <==> c.JObject?
    ensures r.Ok? ==> forall k :: k in c.fields ==> c.fields[k] in r.value
    ensures r.Ok? ==> forall v :: v in r.value ==> exists k :: k in c.fields && c.fields[k] == v
  {
    match c
    case JObject(m) => Ok(m.Values)
    case _ => Err(AttributeError)
  }
}
