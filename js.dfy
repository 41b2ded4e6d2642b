/**
 The slice of JavaScript value semantics that the product card relies on:
 truthiness (the `!x`, `x && y` and `x || y` tests), `Number.isNaN`, a
 thrown `TypeError`, and plain objects as ordered key/value lists whose
 property assignment keeps the position of an existing key.
 */
module Js {

  datatype Option<+T> = None | Some(value: T)

  /** The outcome of evaluating an expression that may throw. The only
      exception the card can raise is a `TypeError` from reading a
      property of `undefined` or `null`. */
  datatype Result<+T> = Ok(value: T) | TypeError

  /** A JavaScript number: an integer, or NaN. */
  datatype Num = Int(i: int) | NaN

  /** A JavaScript value, as far as truthiness can tell values apart.
      Arrays, functions and non-null objects are all `Object`. */
  datatype JsValue =
    | Undefined
    | Null
    | Bool(b: bool)
    | Number(num: Num)
    | Str(s: string)
    | Object

  /** `Number.isNaN(n)` for a value that is a number. */
  predicate IsNaN(n: Num) {
    n.NaN?
  }

  /** `!!v`: false, 0, NaN, "", null and undefined are falsy; every other value is truthy. */
  predicate Truthy(v: JsValue) {
    match v
    case Undefined => false
    case Null => false
    case Bool(b) => b
    case Number(n) => n.Int? && n.i != 0
    case Str(s) => s != ""
    case Object => true
  }

  /** An optional string field read as a JavaScript value (absent is null). */
  function OptStr(o: Option<string>): (v: JsValue)
    ensures Truthy(v) <==> o.Some? && o.value != ""
  {
    match o
    case None => Null
    case Some(s) => Str(s)
  }

  /** A plain object: its own enumerable properties in `Object.entries` order. */
  type Obj = seq<(string, JsValue)>

  /** The keys of an object (`Object.keys`, as a set). */
  function Keys(o: Obj): set<string>
  {
    if o == [] then {} else {o[0].0} + Keys(o[1..])
  }

  /** Every key occurs once, as in any object JavaScript builds. */
  predicate Unique(o: Obj)
  {
    o == [] || (o[0].0 !in Keys(o[1..]) && Unique(o[1..]))
  }

  /** `o[k]`: the value stored under `k`, or `undefined` when there is none. */
  function Get(o: Obj, k: string): (v: JsValue)
    ensures k !in Keys(o) ==> v == Undefined
    ensures k in Keys(o) ==> (k, v) in o
  {
    if o == [] then Undefined
    else if o[0].0 == k then o[0].1
    else Get(o[1..], k)
  }

  /** `{ ...o, [k]: v }`: an existing key keeps its position and takes the
      new value; a new key goes last. */
  function Put(o: Obj, k: string, v: JsValue): (r: Obj)
    ensures Keys(r) == Keys(o) + {k}
    ensures Get(r, k) == v
    ensures forall k' :: k' != k ==> Get(r, k') == Get(o, k')
    ensures k !in Keys(o) ==> r == o + [(k, v)]
    ensures Unique(o) ==> Unique(r)
  {
    if o == [] then [(k, v)]
    else if o[0].0 == k then [(k, v)] + o[1..]
    else [o[0]] + Put(o[1..], k, v)
  }

  lemma {:induction false} KeysAppend(a: Obj, b: Obj)
    ensures Keys(a + b) == Keys(a) + Keys(b)
  {
    if a != [] {
      assert (a + b)[1..] == a[1..] + b;
      KeysAppend(a[1..], b);
    } else {
      assert a + b == b;
    }
  }

  /** Appending a key/value pair keeps keys unique exactly when the key is new. */
  lemma {:induction false} UniqueAppend(a: Obj, e: (string, JsValue))
    ensures Unique(a + [e]) <==> Unique(a) && e.0 !in Keys(a)
  {
    if a != [] {
      assert (a + [e])[1..] == a[1..] + [e];
      UniqueAppend(a[1..], e);
      KeysAppend(a[1..], [e]);
      assert Keys([e]) == {e.0};
    } else {
      assert a + [e] == [e];
      assert Keys([e]) == {e.0};
    }
  }
}
