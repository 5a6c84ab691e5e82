/**
 * JSON-like values as the document store sees them, with the structural
 * helpers the update operators call: property lookup and assignment in
 * enumeration order, dot-path reads and writes, `typeof v === "object"`,
 * and deep structural equality.
 *
 * An object is the sequence of its own enumerable properties in the order
 * a `for ... in` loop visits them.
 */
module Json {
  import opened Wrappers
  import Text

  datatype Value =
    | Undefined
    | Null
    | Bool(b: bool)
    | Num(n: int)
    | Str(s: string)
    | Arr(items: seq<Value>)
    | Obj(fields: seq<(string, Value)>)

  type Fields = seq<(string, Value)>

  /**
   * `new Query(filter).test(value)` of the mingo query engine, which this
   * model does not interpret: every property is proved for any matcher.
   */
  type Matcher = (Value, Value) -> bool

  /** `typeof v === "object"`: null, arrays and plain objects. */
  predicate IsObjectType(v: Value)
  {
    v.Null? || v.Arr? || v.Obj?
  }

  /** An object proper (not null), the test a dot-path write uses before descending. */
  predicate IsObject(v: Value)
  {
    v.Arr? || v.Obj?
  }

  /** Position of the property `k`, or `|fields|` when it is absent. */
  function KeyIndex(fields: Fields, k: string): (i: nat)
    ensures i <= |fields|
    ensures i < |fields| ==> fields[i].0 == k
    ensures forall j :: 0 <= j < i ==> fields[j].0 != k
  {
    if fields == [] then 0
    else if fields[0].0 == k then 0
    else 1 + KeyIndex(fields[1..], k)
  }

  /** `Object.hasOwn(obj, k)`. */
  predicate HasKey(fields: Fields, k: string)
  {
    KeyIndex(fields, k) < |fields|
  }

  /** `obj[k]`, undefined when the property is absent. */
  function Lookup(fields: Fields, k: string): Value
  {
    var i := KeyIndex(fields, k);
    if i < |fields| then fields[i].1 else Undefined
  }

  /** `obj[k] = x`: an existing property keeps its place, a new one goes last. */
  function SetField(fields: Fields, k: string, x: Value): (r: Fields)
    ensures Lookup(r, k) == x && HasKey(r, k)
    ensures forall k' :: k' != k ==> Lookup(r, k') == Lookup(fields, k') && (HasKey(r, k') <==> HasKey(fields, k'))
  {
    var i := KeyIndex(fields, k);
    var r := if i < |fields| then fields[i := (k, x)] else fields + [(k, x)];
    assert KeyIndex(r, k) == i by { KeyIndexAfterSet(fields, k, x, i, r); }
    forall k' | k' != k
      ensures Lookup(r, k') == Lookup(fields, k') && (HasKey(r, k') <==> HasKey(fields, k'))
    {
      KeyIndexOther(fields, k, x, i, r, k');
    }
    r
  }

  lemma KeyIndexAfterSet(fields: Fields, k: string, x: Value, i: nat, r: Fields)
    requires i == KeyIndex(fields, k)
    requires r == if i < |fields| then fields[i := (k, x)] else fields + [(k, x)]
    ensures KeyIndex(r, k) == i
    decreases |fields|
  {
    if fields != [] && fields[0].0 != k {
      var r' := if i - 1 < |fields| - 1 then fields[1..][i - 1 := (k, x)] else fields[1..] + [(k, x)];
      assert r[1..] == r';
      KeyIndexAfterSet(fields[1..], k, x, i - 1, r');
    }
  }

  lemma KeyIndexOther(fields: Fields, k: string, x: Value, i: nat, r: Fields, k': string)
    requires i == KeyIndex(fields, k) && k' != k
    requires r == if i < |fields| then fields[i := (k, x)] else fields + [(k, x)]
    ensures KeyIndex(r, k') == KeyIndex(fields, k') || (KeyIndex(r, k') == |r| && KeyIndex(fields, k') == |fields|)
    ensures Lookup(r, k') == Lookup(fields, k')
    ensures HasKey(r, k') <==> HasKey(fields, k')
    decreases |fields|
  {
    if fields != [] && fields[0].0 != k && fields[0].0 != k' {
      var r' := if i - 1 < |fields| - 1 then fields[1..][i - 1 := (k, x)] else fields[1..] + [(k, x)];
      assert r[1..] == r';
      KeyIndexOther(fields[1..], k, x, i - 1, r', k');
    }
  }

  /** No property name occurs twice, as in every JavaScript object. */
  predicate UniqueKeys(fields: Fields)
  {
    forall i, j :: 0 <= i < j < |fields| ==> fields[i].0 != fields[j].0
  }

  /** Every object inside `v` has distinct property names. */
  predicate WellFormed(v: Value)
  {
    match v
    case Arr(xs) => forall i :: 0 <= i < |xs| ==> WellFormed(xs[i])
    case Obj(fs) => UniqueKeys(fs) && forall i :: 0 <= i < |fs| ==> WellFormed(fs[i].1)
    case _ => true
  }

  lemma LookupUnique(fields: Fields, i: nat)
    requires UniqueKeys(fields) && i < |fields|
    ensures KeyIndex(fields, fields[i].0) == i
    ensures Lookup(fields, fields[i].0) == fields[i].1
  {
  }

  /**
   * Deep structural equality (`deepEqual` of fast-equals): arrays element by
   * element, objects by the same number of own properties and, for each
   * property of the left one, an equal property of the same name on the
   * right, whatever their order.
   */
  predicate DeepEqual(a: Value, b: Value)
    decreases a
  {
    match a
    case Arr(xs) =>
      b.Arr? && |xs| == |b.items| &&
      forall i :: 0 <= i < |xs| ==> DeepEqual(xs[i], b.items[i])
    case Obj(fs) =>
      b.Obj? && |fs| == |b.fields| &&
      forall i :: 0 <= i < |fs| ==> HasKey(b.fields, fs[i].0) && DeepEqual(fs[i].1, Lookup(b.fields, fs[i].0))
    case _ => a == b
  }

  /** Every well-formed value is deep-equal to itself. */
  lemma {:induction false} DeepEqualReflexive(a: Value)
    requires WellFormed(a)
    ensures DeepEqual(a, a)
    decreases a
  {
    match a
    case Arr(xs) =>
      forall i | 0 <= i < |xs| ensures DeepEqual(xs[i], xs[i]) {
        DeepEqualReflexive(xs[i]);
      }
    case Obj(fs) =>
      forall i | 0 <= i < |fs|
        ensures HasKey(fs, fs[i].0) && DeepEqual(fs[i].1, Lookup(fs, fs[i].0))
      {
        LookupUnique(fs, i);
        DeepEqualReflexive(fs[i].1);
      }
    case _ =>
  }

  /** Two values that are not deep-equal differ. */
  lemma NotDeepEqualDiffers(a: Value, b: Value)
    requires WellFormed(a) && !DeepEqual(a, b)
    ensures a != b
  {
    if a == b { DeepEqualReflexive(a); }
  }

  /** The segments of a dot path: `"a.b.c"` is `["a", "b", "c"]`. */
  function SplitPath(path: string): (segs: seq<string>)
    ensures |segs| >= 1
  {
    Text.Split(path, '.')
  }

  /** The value at a dot path; undefined as soon as a step has no object to enter. */
  function GetPath(v: Value, segs: seq<string>): Value
    decreases |segs|
  {
    if segs == [] then v
    else match v
      case Obj(fs) => GetPath(Lookup(fs, segs[0]), segs[1..])
      case _ => Undefined
  }

  /**
   * A dot-path write: every missing or non-object step on the way is replaced
   * by a fresh `{}`; a write into a value that is not an object is dropped.
   */
  function SetPath(v: Value, segs: seq<string>, x: Value): Value
    decreases |segs|
  {
    if segs == [] then v
    else match v
      case Obj(fs) =>
        if |segs| == 1 then Obj(SetField(fs, segs[0], x))
        else
          var child := Lookup(fs, segs[0]);
          var step := if IsObject(child) then child else Obj([]);
          Obj(SetField(fs, segs[0], SetPath(step, segs[1..], x)))
      case _ => v
  }

  /** No array stands on the way to the last segment of the path. */
  predicate NoArrayOnPath(v: Value, segs: seq<string>)
    decreases |segs|
  {
    |segs| <= 1 ||
    (v.Obj? &&
     var child := Lookup(v.fields, segs[0]);
     !child.Arr? && (child.Obj? ==> NoArrayOnPath(child, segs[1..])))
  }

  /** Reading a dot path right after writing it gives the value written. */
  lemma {:induction false} GetAfterSetPath(v: Value, segs: seq<string>, x: Value)
    requires v.Obj? && |segs| >= 1 && NoArrayOnPath(v, segs)
    ensures GetPath(SetPath(v, segs, x), segs) == x
    decreases |segs|
  {
    if |segs| > 1 {
      var child := Lookup(v.fields, segs[0]);
      var step := if IsObject(child) then child else Obj([]);
      GetAfterSetPath(step, segs[1..], x);
    }
  }

  /** A dot-path write leaves every other top-level property as it was. */
  lemma SetPathFrame(v: Value, segs: seq<string>, x: Value, k: string)
    requires v.Obj? && |segs| >= 1 && k != segs[0]
    ensures SetPath(v, segs, x).Obj?
    ensures Lookup(SetPath(v, segs, x).fields, k) == Lookup(v.fields, k)
  {
  }

  /** A mutable JavaScript value: a document object that operators update in place. */
  class JsonRef {
    var value: Value

    constructor (v: Value)
      ensures value == v
    {
      value := v;
    }

    /** A deep copy: a new object holding an equal value. */
    method Clone() returns (c: JsonRef)
      ensures fresh(c) && c.value == value
    {
      c := new JsonRef(value);
    }
  }
}
