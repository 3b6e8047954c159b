/**
 * The parsed YAML tree as the linter sees it: JavaScript values, with the
 * truthiness, `typeof` and property-read rules the source relies on.
 */
module JsValues {
  import opened Wrappers
  import opened Strings

  /** A decoded YAML value. Object fields keep their insertion order. */
  datatype Value =
    | Null
    | Bool(b: bool)
    | Num(n: int)
    | Str(s: string)
    | Arr(items: seq<Value>)
    | Obj(fields: seq<(string, Value)>)

  /** JavaScript truthiness: `""`, `0`, `false` and `null` are falsy; arrays and objects are truthy. */
  predicate Truthy(v: Value) {
    match v
    case Null => false
    case Bool(b) => b
    case Num(n) => n != 0
    case Str(s) => s != ""
    case Arr(_) => true
    case Obj(_) => true
  }

  /** `!!x` for a property read, where a missing property reads as the falsy `undefined`. */
  predicate Present(o: Option<Value>) {
    o.Some? && Truthy(o.value)
  }

  /** `typeof v`: arrays and `null` are reported as `"object"`. */
  function TypeOf(v: Value): (r: string)
    ensures r == "object" <==> v.Null? || v.Arr? || v.Obj?
  {
    match v
    case Null => "object"
    case Bool(_) => "boolean"
    case Num(_) => "number"
    case Str(_) => "string"
    case Arr(_) => "object"
    case Obj(_) => "object"
  }

  /** `v && typeof v === 'object'`: the shapes the linter treats as records. */
  predicate IsObjectLike(v: Value) {
    Truthy(v) && TypeOf(v) == "object"
  }

  /** `Object.entries(v)`: an object's own fields; index keys for arrays and strings. */
  function Entries(v: Value): (r: seq<(string, Value)>)
    ensures v.Obj? ==> r == v.fields
    ensures v.Arr? ==> |r| == |v.items|
    ensures v.Null? || v.Bool? || v.Num? ==> r == []
  {
    match v
    case Obj(fs) => fs
    case Arr(xs) => seq(|xs|, i requires 0 <= i < |xs| => (NatToString(i), xs[i]))
    case Str(s) => seq(|s|, i requires 0 <= i < |s| => (NatToString(i), Str([s[i]])))
    case _ => []
  }

  /**
   * The value of the first entry named `k` in a list of named entries: an object's own
   * property, a schema's field definition, a registry entry.
   */
  function Lookup<V>(fs: seq<(string, V)>, k: string): (r: Option<V>)
    ensures r.None? <==> forall i :: 0 <= i < |fs| ==> fs[i].0 != k
    ensures r.Some? ==> exists i :: 0 <= i < |fs| && fs[i] == (k, r.value)
  {
    if fs == [] then None
    else if fs[0].0 == k then Some(fs[0].1)
    else
      var r := Lookup(fs[1..], k);
      assert forall i :: 1 <= i < |fs| ==> fs[i] == fs[1..][i - 1];
      r
  }

  /** The lookup finds the first entry stored under `k`. */
  lemma {:induction false} LookupAt<V>(fs: seq<(string, V)>, k: string, i: nat)
    requires i < |fs| && fs[i].0 == k
    requires forall j :: 0 <= j < i ==> fs[j].0 != k
    ensures Lookup(fs, k) == Some(fs[i].1)
  {
    if i > 0 {
      LookupAt(fs[1..], k, i - 1);
    }
  }

  /** `v[k]` for an own property; `None` plays `undefined`. Arrays and strings also have `length`. */
  function Get(v: Value, k: string): Option<Value> {
    match v
    case Obj(fs) => Lookup(fs, k)
    case Arr(xs) => if k == "length" then Some(Num(|xs|)) else Lookup(Entries(v), k)
    case Str(s) => if k == "length" then Some(Num(|s|)) else Lookup(Entries(v), k)
    case _ => None
  }

  /** `Object.prototype.hasOwnProperty.call(v, k)`. */
  predicate HasOwn(v: Value, k: string) {
    Get(v, k).Some?
  }

  /** The keys of a list of entries, in order (an object's field names, or `Array.from(m.keys())` of a `Map`). */
  function Keys<V>(fs: seq<(string, V)>): (r: seq<string>)
    ensures |r| == |fs| && forall i :: 0 <= i < |fs| ==> r[i] == fs[i].0
  {
    seq(|fs|, i requires 0 <= i < |fs| => fs[i].0)
  }

  /** No two fields share a name, as in any object the YAML loader builds. */
  predicate DistinctKeys(fs: seq<(string, Value)>) {
    forall i, j :: 0 <= i < j < |fs| ==> fs[i].0 != fs[j].0
  }
}
