/** Decoded JSON values as the connectors see them after `response.json()`:
    objects keep their key order, as Python dicts do. */
module Json {
  import opened Wrappers
  import opened Dicts
  import Text

  datatype Value =
    | JNull
    | JBool(b: bool)
    | JNum(n: int)
    | JStr(s: string)
    | JArr(items: seq<Value>)
    | JObj(members: Dict<Value>)

  /** Python truthiness: `None`, `False`, `0`, `""`, `[]` and `{}` are false. */
  predicate Truthy(v: Value)
  {
    match v
    case JNull => false
    case JBool(b) => b
    case JNum(n) => n != 0
    case JStr(s) => s != ""
    case JArr(items) => |items| > 0
    case JObj(members) => |members| > 0
  }

  /** `str(v)` for the scalar values; a list or object renders as "". */
  function Str(v: Value): string
  {
    match v
    case JNull => "None"
    case JBool(b) => if b then "True" else "False"
    case JNum(n) => Text.IntToString(n)
    case JStr(s) => s
    case _ => ""
  }

  /** `obj.get(k)` on an object; any other value has no members. */
  function Field(v: Value, k: string): Option<Value>
  {
    if v.JObj? then Get(v.members, k) else None
  }

  /** A nested-key lookup through objects along a path of segments, as
      `dpath.util.get` does without globbing: `None` where it raises KeyError. */
  function Lookup(v: Value, path: seq<string>): (r: Option<Value>)
    ensures |path| > 0 && r.Some? ==> v.JObj?
    ensures |path| == 0 ==> r == Some(v)
    ensures |path| == 1 ==> r == Field(v, path[0])
    decreases |path|
  {
    if |path| == 0 then Some(v)
    else match Field(v, path[0])
      case None => None
      case Some(child) => Lookup(child, path[1..])
  }

  /** A lookup along `p + q` is a lookup along `p` followed by one along `q`. */
  lemma {:induction false} LookupConcat(v: Value, p: seq<string>, q: seq<string>)
    ensures Lookup(v, p + q) == match Lookup(v, p) case None => None case Some(w) => Lookup(w, q)
    decreases |p|
  {
    if |p| > 0 {
      assert (p + q)[0] == p[0];
      assert (p + q)[1..] == p[1..] + q;
      match Field(v, p[0])
      case None =>
      case Some(child) => LookupConcat(child, p[1..], q);
    } else {
      assert p + q == q;
    }
  }
}
