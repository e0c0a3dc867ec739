/** The values a state tree holds, and the few JavaScript and lodash notions the
    synchronisation code relies on: truthiness, `isEmpty`, `isObject`, key
    enumeration and property lookup. */
module Values {

  datatype Option<+T> = None | Some(value: T) {
    function GetOr(default: T): T {
      match this
      case Some(v) => v
      case None => default
    }
  }

  /** Why an operation threw. */
  datatype Error =
    | InvalidShapeLeaf     // fill-shape: a sink leaf that is not an object, function or `true`
    | InvalidFilterLeaf    // filter-object: a truthy filter leaf that is neither `true` nor an object
    | MissingDelta         // the renderer's reducer read `action.data` of an action that has none
    | PropertyOfNull       // a property of `null` was read
    | NoBrowserStore       // the renderer found no store in the browser process
    | CallbackThrew        // user code (a reducer or a dispatch callback) threw

  datatype Result<+T> = Ok(value: T) | Throws(error: Error)

  /** A JSON-like value. Arrays are atomic: nothing here descends into them. A
      Date has no own keys, so code that descends into one finds nothing there. */
  datatype Value =
    | Null
    | Bool(b: bool)
    | Num(n: int)
    | Str(s: string)
    | Date(instant: int)
    | Arr(items: seq<Value>)
    | Obj(fields: map<string, Value>)

  /** A state tree (the root of a store's state, an object). */
  type Tree = map<string, Value>

  /** The deletion marker, JavaScript's `true`. */
  const Marker: Value := Bool(true)

  const Empty: Value := Obj(map[])

  /** JavaScript truthiness (`!!v`). */
  predicate Truthy(v: Value) {
    match v
    case Null => false
    case Bool(b) => b
    case Num(n) => n != 0
    case Str(s) => s != ""
    case _ => true
  }

  /** lodash `isEmpty`; `None` is `undefined`. A Date has no own keys, so it is empty. */
  predicate IsEmpty(v: Option<Value>) {
    match v
    case None => true
    case Some(Str(s)) => s == ""
    case Some(Arr(items)) => items == []
    case Some(Obj(m)) => m == map[]
    case Some(_) => true
  }

  /** lodash `isObject` on values: plain objects, arrays and Dates. */
  predicate IsObject(v: Value) {
    v.Obj? || v.Arr? || v.Date?
  }

  /** The own enumerable keys the code iterates over (`keys`, `Object.keys`) with
      their values; strings and arrays are taken to have none. */
  function FieldsOf(v: Value): (m: map<string, Value>)
    ensures v.Obj? ==> m == v.fields
    ensures !v.Obj? ==> m == map[]
  {
    if v.Obj? then v.fields else map[]
  }

  /** `v[key]` for a value that is not `null` or `undefined`. */
  function Lookup(v: Value, key: string): Option<Value> {
    if v.Obj? && key in v.fields then Some(v.fields[key]) else None
  }

  /** JavaScript `a || b` on strings, where "" stands for every falsy value. */
  function Or(a: string, b: string): string {
    if a != "" then a else b
  }

  /** No Date anywhere in the value's object structure. */
  ghost predicate DateFree(v: Value)
    decreases v
  {
    !v.Date? && (v.Obj? ==> forall k :: k in v.fields ==> DateFree(v.fields[k]))
  }

  /** `r` is carved out of `s`: equal to it, or an object whose every key is a key
      of `s` holding something carved out of the value there. Such an `r` has no
      key path that `s` lacks. */
  ghost predicate Within(r: Value, s: Value)
    decreases r
  {
    r == s ||
    (r.Obj? && forall k :: k in r.fields ==> s.Obj? && k in s.fields && Within(r.fields[k], s.fields[k]))
  }

  /** `r` is `s` with parts of its objects left out: equal to it, or an object
      where `s` is an object too, each key of `r` holding something carved out of
      `s`'s value there. */
  ghost predicate Carved(r: Value, s: Value)
    decreases r
  {
    r == s ||
    (r.Obj? && s.Obj? && forall k :: k in r.fields ==> k in s.fields && Carved(r.fields[k], s.fields[k]))
  }
}
