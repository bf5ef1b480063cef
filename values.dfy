/** The dynamic values the configurable transforms work with: configuration keyword
    values (`bool | int | str`) and the Python values reached by attribute paths. */
module PyValues {
  import opened Wrappers
  import opened Types

  /** A keyword argument of a transform as the configuration holds it. */
  datatype Value = VBool(b: bool) | VInt(i: int) | VStr(s: string)

  /** Python truthiness of a keyword value. */
  predicate Truthy(v: Value) {
    match v
    case VBool(b) => b
    case VInt(i) => i != 0
    case VStr(s) => s != ""
  }

  /** A Python value as `getattr_by_path` sees it. `PRaising` stands for a property
      whose evaluation raises `error` when it is read. */
  datatype PyVal =
    | PNone
    | PBool(b: bool)
    | PInt(i: int)
    | PStr(s: string)
    | PList(items: seq<PyVal>)
    | PDict(entries: map<string, PyVal>)
    | PObject(attrs: map<string, PyVal>)
    | PMoment(m: Moment)
    | PTimedelta(seconds: int)
    | PRaising(error: Error)

  /** The Python value of a keyword value. */
  function Lift(v: Value): PyVal {
    match v
    case VBool(b) => PBool(b)
    case VInt(i) => PInt(i)
    case VStr(s) => PStr(s)
  }

  function IntOfBool(b: bool): int {
    if b then 1 else 0
  }

  /** Python's `p == v`. A bool is an int: `True == 1` holds. Values of other kinds
      (None, lists, objects, dates) never equal a keyword value. */
  predicate Equals(p: PyVal, v: Value)
    ensures Equals(p, v) ==> p.PBool? || p.PInt? || p.PStr?
    ensures p == Lift(v) ==> Equals(p, v)
  {
    match (p, v)
    case (PStr(s), VStr(t)) => s == t
    case (PInt(i), VInt(j)) => i == j
    case (PInt(i), VBool(b)) => i == IntOfBool(b)
    case (PBool(a), VInt(j)) => IntOfBool(a) == j
    case (PBool(a), VBool(b)) => a == b
    case _ => false
  }

  function OptStr(o: Option<string>): PyVal {
    match o
    case Some(s) => PStr(s)
    case None => PNone
  }
}
