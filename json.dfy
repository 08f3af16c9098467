/**
 * JSON values as they come out of `JSON.parse` and go into `JSON.stringify`,
 * together with the JavaScript operations the store applies to them:
 * property lookup through optional chaining, object spread and truthiness.
 */
module JsonValues {
  import opened Wrappers

  /**
   * A JSON document. Numbers are carried as opaque reals: the store never
   * does arithmetic on them. Object keys are unordered, as the store never
   * depends on key order.
   */
  datatype Json =
    | JNull
    | JBool(b: bool)
    | JNum(n: real)
    | JStr(s: string)
    | JArr(items: seq<Json>)
    | JObj(fields: map<string, Json>)

  /** `o[k]` on a plain object, `undefined` (None) when the key is absent. */
  function Get(o: map<string, Json>, k: string): Option<Json>
  {
    if k in o then Some(o[k]) else None
  }

  /** `x?.k`: optional chaining on a value that may be missing or a non-object. */
  function Member(x: Option<Json>, k: string): Option<Json>
  {
    if x.Some? && x.value.JObj? then Get(x.value.fields, k) else None
  }

  /**
   * The own properties that `{ ...x }` copies. Spreading `null` or
   * `undefined` copies nothing; the store only ever spreads objects or
   * missing values.
   */
  function Own(x: Option<Json>): map<string, Json>
  {
    if x.Some? && x.value.JObj? then x.value.fields else map[]
  }

  /** JavaScript truthiness of a JSON value, as `Boolean(v)` decides it. */
  predicate Truthy(v: Json)
  {
    match v
    case JNull => false
    case JBool(b) => b
    case JNum(n) => n != 0.0
    case JStr(s) => s != ""
    case JArr(_) => true
    case JObj(_) => true
  }

  /** `items.filter(Boolean)`: keeps the truthy elements, in order. */
  function FilterTruthy(items: seq<Json>): (r: seq<Json>)
    ensures |r| <= |items|
    ensures forall i :: 0 <= i < |r| ==> Truthy(r[i])
    ensures forall v :: v in r ==> v in items
  {
    if items == [] then []
    else if Truthy(items[0]) then [items[0]] + FilterTruthy(items[1..])
    else FilterTruthy(items[1..])
  }

  /** `filter` distributes over concatenation. */
  lemma {:induction false} FilterTruthyAppend(a: seq<Json>, b: seq<Json>)
    ensures FilterTruthy(a + b) == FilterTruthy(a) + FilterTruthy(b)
  {
    if a == [] {
      assert a + b == b;
    } else {
      assert (a + b)[0] == a[0];
      assert (a + b)[1..] == a[1..] + b;
      FilterTruthyAppend(a[1..], b);
    }
  }

  /** `filter` keeps a list whose elements are all truthy as it is. */
  lemma {:induction false} FilterTruthyKeepsTruthy(items: seq<Json>)
    requires forall i :: 0 <= i < |items| ==> Truthy(items[i])
    ensures FilterTruthy(items) == items
  {
    if items != [] {
      FilterTruthyKeepsTruthy(items[1..]);
    }
  }

  /** Number of occurrences of `v` in a list. */
  function Count(items: seq<Json>, v: Json): nat
  {
    if items == [] then 0 else (if items[0] == v then 1 else 0) + Count(items[1..], v)
  }

  /** `filter` keeps every occurrence of a truthy value. */
  lemma {:induction false} FilterTruthyCount(items: seq<Json>, v: Json)
    requires Truthy(v)
    ensures Count(FilterTruthy(items), v) == Count(items, v)
  {
    if items != [] {
      FilterTruthyCount(items[1..], v);
      if Truthy(items[0]) {
        assert ([items[0]] + FilterTruthy(items[1..]))[1..] == FilterTruthy(items[1..]);
      }
    }
  }
}
