/** JavaScript values as the structural comparison of the view sees them,
    and that comparison (`isEqual` of dist/view.js and src/view.ts). */
module JsValues {
  import opened Common

  /** A JavaScript value. Arrays and objects carry the identity of their
      allocation, which is what `===` compares; an object lists its own
      enumerable properties in order. */
  datatype JsValue =
    | Undefined
    | Null
    | Bool(b: bool)
    | Number(n: Num)
    | Str(s: string)
    | Arr(id: nat, elems: seq<JsValue>)
    | Obj(id: nat, fields: seq<Field>)
  {
    /** `typeof v === 'object'` for a value that is not null. */
    predicate IsObject() { Arr? || Obj? }
  }

  /** An own property of an object. */
  datatype Field = Field(key: string, value: JsValue)

  /** A size measure under which the parts of a value are smaller than the value. */
  function Size(v: JsValue): (n: nat)
    ensures n >= 1
  {
    match v
    case Arr(_, es) => 1 + ElemsSize(es)
    case Obj(_, fs) => 1 + FieldsSize(fs)
    case _ => 1
  }

  function ElemsSize(es: seq<JsValue>): nat
  {
    if es == [] then 0 else Size(es[0]) + ElemsSize(es[1..])
  }

  function FieldsSize(fs: seq<Field>): nat
  {
    if fs == [] then 0 else Size(fs[0].value) + FieldsSize(fs[1..])
  }

  /** `es[i]`, together with the size fact the recursion of IsEqual rests on. */
  function Elem(es: seq<JsValue>, i: nat): (v: JsValue)
    requires i < |es|
    ensures v == es[i]
    ensures Size(v) <= ElemsSize(es)
  {
    if i == 0 then es[0] else Elem(es[1..], i - 1)
  }

  /** The object has an own property called key. */
  predicate HasKey(fs: seq<Field>, key: string)
  {
    exists i :: 0 <= i < |fs| && fs[i].key == key
  }

  /** `o[key]`: the value of the first own property called key, or undefined. */
  function Lookup(fs: seq<Field>, key: string): (v: JsValue)
    ensures HasKey(fs, key) ==> Size(v) <= FieldsSize(fs)
    ensures !HasKey(fs, key) ==> v == Undefined
    ensures HasKey(fs, key) ==> exists i :: 0 <= i < |fs| && fs[i].key == key && v == fs[i].value
  {
    if fs == [] then Undefined
    else if fs[0].key == key then fs[0].value
    else
      assert HasKey(fs, key) ==> HasKey(fs[1..], key) by {
        if HasKey(fs, key) {
          var i :| 0 <= i < |fs| && fs[i].key == key;
          assert fs[1..][i - 1].key == key;
        }
      }
      var v := Lookup(fs[1..], key);
      assert HasKey(fs[1..], key) ==> exists i :: 0 <= i < |fs| && fs[i].key == key && v == fs[i].value by {
        if HasKey(fs[1..], key) {
          var j :| 0 <= j < |fs[1..]| && fs[1..][j].key == key && v == fs[1..][j].value;
          assert fs[j + 1].key == key && v == fs[j + 1].value;
        }
      }
      v
  }

  /** `a === b`: primitives by value (NaN equals nothing), arrays and objects by identity. */
  predicate StrictEquals(a: JsValue, b: JsValue)
  {
    match (a, b)
    case (Undefined, Undefined) => true
    case (Null, Null) => true
    case (Bool(x), Bool(y)) => x == y
    case (Number(x), Number(y)) => x.Fin? && y.Fin? && x.v == y.v
    case (Str(x), Str(y)) => x == y
    case (Arr(i, _), Arr(j, _)) => i == j
    case (Obj(i, _), Obj(j, _)) => i == j
    case _ => false
  }

  /** isEqual: identical values are equal; otherwise two arrays are compared
      element by element, two objects on the union of their keys, and
      anything else is different. */
  predicate IsEqual(a: JsValue, b: JsValue)
    decreases Size(a) + Size(b), 1
  {
    if StrictEquals(a, b) then true
    else if a.Undefined? || a.Null? || b.Undefined? || b.Null? then false
    else if !a.IsObject() || !b.IsObject() then false
    else if a.Arr? && b.Arr? then
      |a.elems| == |b.elems| && forall i :: 0 <= i < |a.elems| ==> IsEqual(Elem(a.elems, i), Elem(b.elems, i))
    else if a.Arr? != b.Arr? then false
    else
      && (forall i :: 0 <= i < |a.fields| ==> KeyEqual(a, b, a.fields[i].key))
      && (forall i :: 0 <= i < |b.fields| ==> KeyEqual(a, b, b.fields[i].key))
  }

  /** `isEqual(a[key], b[key])` for a key of one of the two objects. */
  predicate KeyEqual(a: JsValue, b: JsValue, key: string)
    requires a.Obj? && b.Obj?
    requires HasKey(a.fields, key) || HasKey(b.fields, key)
    decreases Size(a) + Size(b), 0
  {
    IsEqual(Lookup(a.fields, key), Lookup(b.fields, key))
  }

  /** listEquals (src/view.ts): equal lengths and isEqual position by position. */
  predicate ListEquals(xs: seq<JsValue>, ys: seq<JsValue>)
  {
    |xs| == |ys| && forall i :: 0 <= i < |xs| ==> IsEqual(xs[i], ys[i])
  }

  /** The comparison does not depend on the order of its arguments. */
  lemma {:induction false} IsEqualSymmetric(a: JsValue, b: JsValue)
    ensures IsEqual(a, b) == IsEqual(b, a)
    decreases Size(a) + Size(b), 1
  {
    StrictEqualsSymmetric(a, b);
    if StrictEquals(a, b) {
    } else if a.Undefined? || a.Null? || b.Undefined? || b.Null? {
    } else if !a.IsObject() || !b.IsObject() {
    } else if a.Arr? && b.Arr? {
      if |a.elems| == |b.elems| {
        ElemsSymmetric(a, b);
      }
    } else if a.Arr? != b.Arr? {
    } else {
      KeysSymmetric(a, b);
      IsEqualObjects(a, b);
      IsEqualObjects(b, a);
    }
  }

  lemma StrictEqualsSymmetric(a: JsValue, b: JsValue)
    ensures StrictEquals(a, b) == StrictEquals(b, a)
  {
  }

  lemma {:induction false} ElemsSymmetric(a: JsValue, b: JsValue)
    requires a.Arr? && b.Arr? && |a.elems| == |b.elems|
    ensures forall i :: 0 <= i < |a.elems| ==>
      IsEqual(Elem(a.elems, i), Elem(b.elems, i)) == IsEqual(Elem(b.elems, i), Elem(a.elems, i))
    decreases Size(a) + Size(b), 0
  {
    forall i | 0 <= i < |a.elems|
      ensures IsEqual(Elem(a.elems, i), Elem(b.elems, i)) == IsEqual(Elem(b.elems, i), Elem(a.elems, i))
    {
      IsEqualSymmetric(Elem(a.elems, i), Elem(b.elems, i));
    }
  }

  lemma {:induction false} KeysSymmetric(a: JsValue, b: JsValue)
    requires a.Obj? && b.Obj?
    ensures forall k :: HasKey(a.fields, k) || HasKey(b.fields, k) ==>
      IsEqual(Lookup(a.fields, k), Lookup(b.fields, k)) == IsEqual(Lookup(b.fields, k), Lookup(a.fields, k))
    decreases Size(a) + Size(b), 0
  {
    forall k | HasKey(a.fields, k) || HasKey(b.fields, k)
      ensures IsEqual(Lookup(a.fields, k), Lookup(b.fields, k)) == IsEqual(Lookup(b.fields, k), Lookup(a.fields, k))
    {
      IsEqualSymmetric(Lookup(a.fields, k), Lookup(b.fields, k));
    }
  }

  /** Every value equals itself except NaN, which `===` never matches and
      which is not an object. */
  lemma IsEqualReflexive(a: JsValue)
    ensures IsEqual(a, a) <==> a != Number(NaN)
  {
  }

  /** A value that is not an object is equal only to what it is `===` to, and
      an array is never equal to something that is not an array. */
  lemma IsEqualShapes(a: JsValue, b: JsValue)
    ensures !a.IsObject() || !b.IsObject() ==> (IsEqual(a, b) <==> StrictEquals(a, b))
    ensures a.Arr? != b.Arr? ==> !IsEqual(a, b)
  {
  }

  /** Two arrays are equal exactly when they are the same array or have equal
      lengths and pairwise equal elements; this is listEquals on their elements. */
  lemma IsEqualArrays(a: JsValue, b: JsValue)
    requires a.Arr? && b.Arr?
    ensures IsEqual(a, b) <==> a.id == b.id || ListEquals(a.elems, b.elems)
  {
    if |a.elems| == |b.elems| {
      forall i | 0 <= i < |a.elems|
        ensures IsEqual(Elem(a.elems, i), Elem(b.elems, i)) == IsEqual(a.elems[i], b.elems[i])
      {
        assert Elem(a.elems, i) == a.elems[i] && Elem(b.elems, i) == b.elems[i];
      }
    }
  }

  /** Two distinct objects are equal exactly when every key of either has equal
      values in both, a missing property reading as undefined. */
  lemma IsEqualObjects(a: JsValue, b: JsValue)
    requires a.Obj? && b.Obj? && a.id != b.id
    ensures IsEqual(a, b) <==> forall k :: HasKey(a.fields, k) || HasKey(b.fields, k) ==>
      IsEqual(Lookup(a.fields, k), Lookup(b.fields, k))
  {
  }

  /** A value with the identities of its arrays and objects forgotten. */
  function Erase(v: JsValue): JsValue
  {
    match v
    case Arr(_, es) => Arr(0, EraseElems(es))
    case Obj(_, fs) => Obj(0, EraseFields(fs))
    case _ => v
  }

  function EraseElems(es: seq<JsValue>): (r: seq<JsValue>)
    ensures |r| == |es|
  {
    if es == [] then [] else [Erase(es[0])] + EraseElems(es[1..])
  }

  function EraseFields(fs: seq<Field>): (r: seq<Field>)
    ensures |r| == |fs|
  {
    if fs == [] then [] else [Field(fs[0].key, Erase(fs[0].value))] + EraseFields(fs[1..])
  }

  /** No NaN occurs anywhere in the value. */
  predicate NoNaN(v: JsValue)
  {
    match v
    case Number(n) => n.Fin?
    case Arr(_, es) => ElemsNoNaN(es)
    case Obj(_, fs) => FieldsNoNaN(fs)
    case _ => true
  }

  predicate ElemsNoNaN(es: seq<JsValue>)
  {
    es != [] ==> NoNaN(es[0]) && ElemsNoNaN(es[1..])
  }

  predicate FieldsNoNaN(fs: seq<Field>)
  {
    fs != [] ==> NoNaN(fs[0].value) && FieldsNoNaN(fs[1..])
  }

  lemma {:induction false} EraseElemAt(es: seq<JsValue>, i: nat)
    requires i < |es|
    ensures EraseElems(es)[i] == Erase(es[i])
    ensures ElemsNoNaN(es) ==> NoNaN(es[i])
  {
    if i > 0 {
      EraseElemAt(es[1..], i - 1);
    }
  }

  lemma {:induction false} EraseLookup(fs: seq<Field>, k: string)
    ensures HasKey(EraseFields(fs), k) == HasKey(fs, k)
    ensures Lookup(EraseFields(fs), k) == Erase(Lookup(fs, k))
    ensures FieldsNoNaN(fs) ==> NoNaN(Lookup(fs, k))
  {
    if fs != [] {
      EraseLookup(fs[1..], k);
      var e := EraseFields(fs);
      assert e[0] == Field(fs[0].key, Erase(fs[0].value));
      assert e[1..] == EraseFields(fs[1..]);
      HasKeyCons(e, k);
      HasKeyCons(fs, k);
    }
  }

  /** A key is in a non-empty list of fields when it is the first key or in the rest. */
  lemma HasKeyCons(fs: seq<Field>, k: string)
    requires fs != []
    ensures HasKey(fs, k) <==> fs[0].key == k || HasKey(fs[1..], k)
  {
    if HasKey(fs, k) && fs[0].key != k {
      var i :| 0 <= i < |fs| && fs[i].key == k;
      assert fs[1..][i - 1].key == k;
    }
    if HasKey(fs[1..], k) {
      var i :| 0 <= i < |fs[1..]| && fs[1..][i].key == k;
      assert fs[i + 1].key == k;
    }
  }

  /** A structural copy is equal to the original: values that agree once
      identities are forgotten are isEqual, provided they hold no NaN. */
  lemma {:induction false} CopiesEqual(a: JsValue, b: JsValue)
    requires NoNaN(a) && Erase(a) == Erase(b)
    ensures IsEqual(a, b)
    decreases Size(a) + Size(b)
  {
    match a
    case Arr(_, es) =>
      assert b.Arr? && EraseElems(b.elems) == EraseElems(es);
      forall i | 0 <= i < |es|
        ensures IsEqual(Elem(es, i), Elem(b.elems, i))
      {
        EraseElemAt(es, i);
        EraseElemAt(b.elems, i);
        CopiesEqual(Elem(es, i), Elem(b.elems, i));
      }
    case Obj(_, fs) =>
      assert b.Obj? && EraseFields(b.fields) == EraseFields(fs);
      forall k | HasKey(fs, k) || HasKey(b.fields, k)
        ensures IsEqual(Lookup(fs, k), Lookup(b.fields, k))
      {
        EraseLookup(fs, k);
        EraseLookup(b.fields, k);
        CopiesEqual(Lookup(fs, k), Lookup(b.fields, k));
      }
    case Number(n) =>
    case _ =>
      assert a == Erase(a) && b == Erase(b);
  }

  /** listEquals is isEqual on two separately allocated arrays of the lists. */
  lemma ListEqualsArrays(xs: seq<JsValue>, ys: seq<JsValue>, i: nat, j: nat)
    requires i != j
    ensures ListEquals(xs, ys) <==> IsEqual(Arr(i, xs), Arr(j, ys))
  {
    IsEqualArrays(Arr(i, xs), Arr(j, ys));
  }
}
