/** JavaScript values as the image plugin sees them: the field values of an
    item, the results of JSON.parse and the file records of the store.
    Objects are ordered property lists kept in insertion order: assigning to
    a new key appends it, assigning to an existing key replaces its value in
    place, and delete removes it. JavaScript lists array-index keys such as
    "1" first, in numeric order; this model does not. */
module JsValue {
  import Numerals

  datatype Value =
    | Undefined
    | Null
    | Bool(b: bool)
    | Num(n: int)
    | Str(s: string)
    | Arr(items: seq<Value>)
    | Obj(props: seq<Prop>)

  datatype Prop = Prop(key: string, val: Value)

  /** JavaScript truthiness: `!v` holds exactly for these values */
  predicate IsFalsy(v: Value) {
    match v
    case Undefined => true
    case Null => true
    case Bool(b) => !b
    case Num(n) => n == 0
    case Str(s) => s == ""
    case Arr(_) => false
    case Obj(_) => false
  }

  /** `typeof v === 'object'`: true of null, arrays and plain objects */
  predicate IsObjectType(v: Value) {
    v.Null? || v.Arr? || v.Obj?
  }

  function KeySet(ps: seq<Prop>): set<string>
    decreases |ps|
  {
    if ps == [] then {} else {ps[0].key} + KeySet(ps[1..])
  }

  lemma {:induction false} KeySetConcat(a: seq<Prop>, b: seq<Prop>)
    ensures KeySet(a + b) == KeySet(a) + KeySet(b)
    decreases |a|
  {
    if a == [] {
      assert a + b == b;
    } else {
      assert (a + b)[0] == a[0];
      assert (a + b)[1..] == a[1..] + b;
      KeySetConcat(a[1..], b);
    }
  }

  /** A well-formed JavaScript object has each key at most once */
  predicate DistinctKeys(ps: seq<Prop>)
    decreases |ps|
  {
    ps == [] || (ps[0].key !in KeySet(ps[1..]) && DistinctKeys(ps[1..]))
  }

  /** Property read `o[k]` on an object: undefined when the key is absent */
  function Get(ps: seq<Prop>, k: string): (r: Value)
    ensures k !in KeySet(ps) ==> r == Undefined
    ensures forall i | 0 <= i < |ps| && ps[i].key == k && (forall j | 0 <= j < i :: ps[j].key != k) ::
              r == ps[i].val
    decreases |ps|
  {
    if ps == [] then Undefined
    else if ps[0].key == k then ps[0].val
    else
      var r := Get(ps[1..], k);
      assert forall i | 1 <= i < |ps| :: ps[i] == ps[1..][i - 1];
      r
  }

  /** Property read `v[k]` on any value; only plain objects have own
      properties under the names the plugin reads */
  function GetProperty(v: Value, k: string): (r: Value)
    ensures !v.Obj? ==> r == Undefined
  {
    if v.Obj? then Get(v.props, k) else Undefined
  }

  /** Assignment `o[k] = v` */
  function SetProp(ps: seq<Prop>, k: string, v: Value): (r: seq<Prop>)
    ensures Get(r, k) == v
    ensures forall k' | k' != k :: Get(r, k') == Get(ps, k')
    ensures KeySet(r) == KeySet(ps) + {k}
    ensures DistinctKeys(ps) ==> DistinctKeys(r)
    ensures AllPropsJson(ps) && IsJson(v) ==> AllPropsJson(r)
    ensures k !in KeySet(ps) ==> r == ps + [Prop(k, v)]
    decreases |ps|
  {
    if ps == [] then [Prop(k, v)]
    else if ps[0].key == k then [Prop(k, v)] + ps[1..]
    else
      var tail := SetProp(ps[1..], k, v);
      assert ([ps[0]] + tail)[1..] == tail;
      [ps[0]] + tail
  }

  /** `delete o[k]` */
  function Delete(ps: seq<Prop>, k: string): (r: seq<Prop>)
    ensures KeySet(r) == KeySet(ps) - {k}
    ensures forall k' | k' != k :: Get(r, k') == Get(ps, k')
    ensures DistinctKeys(ps) ==> DistinctKeys(r)
    ensures AllPropsJson(ps) ==> AllPropsJson(r)
    ensures k !in KeySet(ps) ==> r == ps
    decreases |ps|
  {
    if ps == [] then []
    else if ps[0].key == k then Delete(ps[1..], k)
    else
      var tail := Delete(ps[1..], k);
      assert ([ps[0]] + tail)[1..] == tail;
      [ps[0]] + tail
  }

  /** The properties of ps whose keys are not in ks, in their original order */
  function Without(ps: seq<Prop>, ks: set<string>): (r: seq<Prop>)
    decreases |ps|
  {
    if ps == [] then []
    else if ps[0].key in ks then Without(ps[1..], ks)
    else [ps[0]] + Without(ps[1..], ks)
  }

  /** Assigning a key that is filtered out anyway changes nothing else */
  lemma {:induction false} WithoutSetProp(ps: seq<Prop>, k: string, v: Value, ks: set<string>)
    requires k in ks
    ensures Without(SetProp(ps, k, v), ks) == Without(ps, ks)
    decreases |ps|
  {
    if ps != [] && ps[0].key != k {
      WithoutSetProp(ps[1..], k, v, ks);
      assert SetProp(ps, k, v) == [ps[0]] + SetProp(ps[1..], k, v);
      assert ([ps[0]] + SetProp(ps[1..], k, v))[1..] == SetProp(ps[1..], k, v);
    } else if ps == [] {
      assert Without([Prop(k, v)], ks) == Without([], ks);
    } else {
      assert ([Prop(k, v)] + ps[1..])[1..] == ps[1..];
    }
  }

  /** Deleting a key that is filtered out anyway changes nothing else */
  lemma {:induction false} WithoutDelete(ps: seq<Prop>, k: string, ks: set<string>)
    requires k in ks
    ensures Without(Delete(ps, k), ks) == Without(ps, ks)
    decreases |ps|
  {
    if ps != [] {
      WithoutDelete(ps[1..], k, ks);
      if ps[0].key != k {
        assert ([ps[0]] + Delete(ps[1..], k))[1..] == Delete(ps[1..], k);
      }
    }
  }

  /** A value JSON text can denote: no undefined anywhere, no repeated key */
  predicate IsJson(v: Value)
    decreases v
  {
    match v
    case Undefined => false
    case Arr(items) => AllJson(items)
    case Obj(ps) => DistinctKeys(ps) && AllPropsJson(ps)
    case _ => true
  }

  predicate AllJson(items: seq<Value>)
    decreases items
  {
    items == [] || (IsJson(items[0]) && AllJson(items[1..]))
  }

  predicate AllPropsJson(ps: seq<Prop>)
    decreases ps
  {
    ps == [] || (IsJson(ps[0].val) && AllPropsJson(ps[1..]))
  }

  /** JavaScript ToString, as used by string concatenation and by the
      argument coercion of JSON.parse */
  function ToText(v: Value): string
    decreases v
  {
    match v
    case Undefined => "undefined"
    case Null => "null"
    case Bool(b) => if b then "true" else "false"
    case Num(n) => Numerals.IntToText(n)
    case Str(s) => s
    case Arr(items) => JoinElements(items)
    case Obj(_) => "[object Object]"
  }

  /** Array.prototype.join(","): null and undefined elements print as "" */
  function JoinElements(items: seq<Value>): string
    decreases items
  {
    if items == [] then ""
    else
      var head := if items[0].Undefined? || items[0].Null? then "" else ToText(items[0]);
      if |items| == 1 then head else head + "," + JoinElements(items[1..])
  }
}
