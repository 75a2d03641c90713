/** A map keyed by tuples whose items are compared by identity (`===`).
    Every distinct item is interned to a small integer id with a reference
    count; a stored tuple is filed under the sequence of its items' ids, which
    stands for the '/'-joined string the JavaScript class uses (joining
    decimal ids with '/' is injective, so the sequence loses nothing). */
module TupleMaps {
  import opened Common

  /** An interned item: its id and how often it occurs across the stored tuples. */
  datatype Ident = Ident(id: nat, count: nat)

  /** Number of occurrences of x in key, repeats included. */
  ghost function Occ<T>(x: T, key: seq<T>): nat
  {
    if key == [] then 0 else (if key[0] == x then 1 else 0) + Occ(x, key[1..])
  }

  lemma {:induction false} OccPositive<T>(x: T, key: seq<T>)
    ensures Occ(x, key) > 0 <==> x in key
  {
    if key != [] {
      OccPositive(x, key[1..]);
      assert x in key <==> key[0] == x || x in key[1..];
    }
  }

  lemma {:induction false} OccAppend<T>(x: T, a: seq<T>, b: seq<T>)
    ensures Occ(x, a + b) == Occ(x, a) + Occ(x, b)
  {
    if a == [] {
      assert a + b == b;
    } else {
      assert (a + b)[1..] == a[1..] + b;
      OccAppend(x, a[1..], b);
    }
  }

  ghost predicate Interned<T>(m: map<T, Ident>, key: seq<T>)
  {
    forall i :: 0 <= i < |key| ==> key[i] in m
  }

  /** The internal key of a tuple: its items' ids in order. */
  ghost function Ids<T>(m: map<T, Ident>, key: seq<T>): seq<nat>
    requires Interned(m, key)
  {
    seq(|key|, i requires 0 <= i < |key| => m[key[i]].id)
  }

  /** Live items have pairwise distinct ids. */
  ghost predicate UniqueIds<T>(m: map<T, Ident>)
  {
    forall x, y :: x in m && y in m && x != y ==> m[x].id != m[y].id
  }

  /** With distinct ids, the id sequence identifies a tuple uniquely. */
  lemma IdsInjective<T>(m: map<T, Ident>, a: seq<T>, b: seq<T>)
    requires UniqueIds(m) && Interned(m, a) && Interned(m, b)
    requires Ids(m, a) == Ids(m, b)
    ensures a == b
  {
    assert |a| == |Ids(m, a)| == |Ids(m, b)| == |b|;
    forall i | 0 <= i < |a| ensures a[i] == b[i] {
      assert Ids(m, a)[i] == Ids(m, b)[i];
    }
  }

  /** Ids do not move when items are only added or recounted. */
  lemma IdsStable<T>(m: map<T, Ident>, m': map<T, Ident>, key: seq<T>)
    requires Interned(m, key)
    requires forall x :: x in m ==> x in m' && m'[x].id == m[x].id
    ensures Interned(m', key) && Ids(m', key) == Ids(m, key)
  {
  }

  ghost predicate Distinct<X>(s: seq<X>)
  {
    forall i, j :: 0 <= i < j < |s| ==> s[i] != s[j]
  }

  /** Total occurrences of x across the tuples stored under the internal keys ks. */
  ghost function TotalOcc<T, V>(x: T, ks: seq<seq<nat>>, e: map<seq<nat>, (seq<T>, V)>): nat
    requires forall k :: k in ks ==> k in e
  {
    if ks == [] then 0 else Occ(x, e[ks[0]].0) + TotalOcc(x, ks[1..], e)
  }

  lemma {:induction false} TotalOccAppend<T, V>(x: T, a: seq<seq<nat>>, b: seq<seq<nat>>, e: map<seq<nat>, (seq<T>, V)>)
    requires forall k :: k in a + b ==> k in e
    ensures TotalOcc(x, a + b, e) == TotalOcc(x, a, e) + TotalOcc(x, b, e)
  {
    if a == [] {
      assert a + b == b;
    } else {
      assert (a + b)[1..] == a[1..] + b;
      TotalOccAppend(x, a[1..], b, e);
    }
  }

  /** TotalOcc depends only on the tuples stored under ks. */
  lemma {:induction false} TotalOccFrame<T, V>(x: T, ks: seq<seq<nat>>, e: map<seq<nat>, (seq<T>, V)>, e': map<seq<nat>, (seq<T>, V)>)
    requires forall k :: k in ks ==> k in e && k in e' && e[k].0 == e'[k].0
    ensures TotalOcc(x, ks, e) == TotalOcc(x, ks, e')
  {
    if ks != [] {
      TotalOccFrame(x, ks[1..], e, e');
    }
  }

  /** s with every occurrence of k removed, the rest in order. */
  function Without<X(==, !new)>(s: seq<X>, k: X): (r: seq<X>)
    ensures forall y :: y in r <==> y in s && y != k
    ensures Distinct(s) ==> Distinct(r)
    ensures k !in s ==> r == s
    ensures k in s && Distinct(s) ==> |r| == |s| - 1
  {
    if s == [] then [] else
      var rest := Without(s[1..], k);
      assert forall y :: y in s <==> y == s[0] || y in s[1..];
      if s[0] == k then rest else
        assert Distinct(s) ==> s[0] !in s[1..] && Distinct(s[1..]);
        [s[0]] + rest
  }

  /** Removing a stored internal key subtracts exactly its tuple's occurrences. */
  lemma {:induction false} TotalOccWithout<T, V>(x: T, ks: seq<seq<nat>>, k: seq<nat>, e: map<seq<nat>, (seq<T>, V)>)
    requires forall j :: j in ks ==> j in e
    requires Distinct(ks) && k in ks
    ensures TotalOcc(x, ks, e) == TotalOcc(x, Without(ks, k), e) + Occ(x, e[k].0)
  {
    assert ks[0] !in ks[1..] && Distinct(ks[1..]);
    if ks[0] == k {
      assert Without(ks, k) == Without(ks[1..], k) == ks[1..];
    } else {
      assert k in ks[1..];
      TotalOccWithout(x, ks[1..], k, e);
      assert Without(ks, k) == [ks[0]] + Without(ks[1..], k);
      assert ([ks[0]] + Without(ks[1..], k))[1..] == Without(ks[1..], k);
    }
  }

  /** The invariant of a TupleMap's three fields (and the Map's insertion order). */
  ghost predicate ValidState<T, V>(m: map<T, Ident>, e: map<seq<nat>, (seq<T>, V)>, order: seq<seq<nat>>, lastId: nat)
  {
    && Distinct(order)
    && (forall k :: k in e <==> k in order)
    && (forall x :: x in m ==> m[x].id < lastId)
    && UniqueIds(m)
    && (forall k :: k in e ==> Interned(m, e[k].0) && Ids(m, e[k].0) == k)
    && (forall x {:trigger m[x].count} :: x in m ==> m[x].count == TotalOcc(x, order, e) && m[x].count > 0)
  }

  /** An item occurring in no tuple stored under ks has no occurrences there. */
  lemma {:induction false} TotalOccAbsent<T, V>(x: T, ks: seq<seq<nat>>, e: map<seq<nat>, (seq<T>, V)>)
    requires forall k :: k in ks ==> k in e && x !in e[k].0
    ensures TotalOcc(x, ks, e) == 0
  {
    if ks != [] {
      OccPositive(x, e[ks[0]].0);
      TotalOccAbsent(x, ks[1..], e);
    }
  }

  /** Two internal keys never hold the same tuple. */
  ghost predicate KeyFaithful<T, V>(e: map<seq<nat>, (seq<T>, V)>)
  {
    forall a, b {:trigger e[a].0, e[b].0} :: a in e && b in e && e[a].0 == e[b].0 ==> a == b
  }

  lemma ValidKeyFaithful<T, V>(m: map<T, Ident>, e: map<seq<nat>, (seq<T>, V)>, order: seq<seq<nat>>, lastId: nat)
    requires ValidState(m, e, order, lastId)
    ensures KeyFaithful(e)
  {
  }

  /** The abstract content: stored tuple to value. */
  ghost function ContentsOf<T, V>(e: map<seq<nat>, (seq<T>, V)>): map<seq<T>, V>
    requires KeyFaithful(e)
  {
    map sk | sk in e :: e[sk].0 := e[sk].1
  }

  /** A tuple is stored iff all its items are interned and its id sequence is a key of the internal Map. */
  lemma ContentsLookup<T, V>(m: map<T, Ident>, e: map<seq<nat>, (seq<T>, V)>, order: seq<seq<nat>>, lastId: nat, key: seq<T>)
    requires ValidState(m, e, order, lastId)
    ensures KeyFaithful(e)
    ensures key in ContentsOf(e) <==> Interned(m, key) && Ids(m, key) in e
    ensures key in ContentsOf(e) ==> e[Ids(m, key)] == (key, ContentsOf(e)[key])
  {
    if key in ContentsOf(e) {
      var sk :| sk in e && e[sk].0 == key;
      assert Interned(m, key) && Ids(m, key) == sk;
    }
    if Interned(m, key) && Ids(m, key) in e {
      var sk := Ids(m, key);
      IdsInjective(m, e[sk].0, key);
      assert e[sk].0 == key;
      assert key in ContentsOf(e);
    }
  }

  /** Every id used by a stored internal key is below lastId. */
  lemma StoredIdsBelow<T, V>(m: map<T, Ident>, e: map<seq<nat>, (seq<T>, V)>, order: seq<seq<nat>>, lastId: nat, sk: seq<nat>, i: nat)
    requires ValidState(m, e, order, lastId)
    requires sk in e && i < |sk|
    ensures sk[i] < lastId
  {
    assert sk == Ids(m, e[sk].0);
    assert e[sk].0[i] in m;
  }

  /** Every internal key of the Map, in insertion order: the order in which entries(), keys() and values() yield. */
  ghost function EntryList<T, V>(e: map<seq<nat>, (seq<T>, V)>, order: seq<seq<nat>>): seq<(seq<T>, V)>
    requires forall k :: k in order ==> k in e
  {
    seq(|order|, i requires 0 <= i < |order| => e[order[i]])
  }

  /** The entries enumerate the content exactly: each stored tuple once, with its value. */
  lemma EntryListExact<T, V>(m: map<T, Ident>, e: map<seq<nat>, (seq<T>, V)>, order: seq<seq<nat>>, lastId: nat)
    requires ValidState(m, e, order, lastId)
    ensures KeyFaithful(e)
    ensures var es := EntryList(e, order);
      && (forall i :: 0 <= i < |es| ==> es[i].0 in ContentsOf(e) && ContentsOf(e)[es[i].0] == es[i].1)
      && (forall i, j :: 0 <= i < j < |es| ==> es[i].0 != es[j].0)
      && (forall key :: key in ContentsOf(e) ==> exists i :: 0 <= i < |es| && es[i].0 == key)
  {
    var es := EntryList(e, order);
    forall i | 0 <= i < |es| ensures es[i].0 in ContentsOf(e) && ContentsOf(e)[es[i].0] == es[i].1 {
      assert order[i] in e;
    }
    forall key | key in ContentsOf(e) ensures exists i :: 0 <= i < |es| && es[i].0 == key {
      var sk :| sk in e && e[sk].0 == key;
      var i :| 0 <= i < |order| && order[i] == sk;
      assert es[i].0 == key;
    }
  }

  /** Distinct sequences have as many elements as their set. */
  lemma {:induction false} DistinctCard<X>(s: seq<X>)
    requires Distinct(s)
    ensures |set x | x in s| == |s|
  {
    if s != [] {
      assert Distinct(s[1..]);
      DistinctCard(s[1..]);
      assert (set x | x in s) == (set x | x in s[1..]) + {s[0]};
      assert s[0] !in (set x | x in s[1..]);
    }
  }

  /** The Map's size equals the length of its insertion order. */
  lemma SizeIsOrderLength<T, V>(m: map<T, Ident>, e: map<seq<nat>, (seq<T>, V)>, order: seq<seq<nat>>, lastId: nat)
    requires ValidState(m, e, order, lastId)
    ensures |e| == |order|
  {
    DistinctCard(order);
    assert e.Keys == set x | x in order;
  }

  /** What interning the prefix of a tuple has done so far, relative to the map m0 and counter last0 it started from. */
  ghost predicate AddInv<T>(m0: map<T, Ident>, last0: nat, m: map<T, Ident>, last: nat, prefix: seq<T>)
  {
    && (forall x :: x in m ==> x in m0 || x in prefix)
    && (forall x :: x in m0 ==> x in m)
    && (forall x :: x in m ==> m[x].count == (if x in m0 then m0[x].count else 0) + Occ(x, prefix))
    && (forall x :: x in m0 ==> m[x].id == m0[x].id)
    && (forall x :: x in m && x !in m0 ==> last0 <= m[x].id)
    && (forall x :: x in m ==> m[x].id < last)
    && last0 <= last
    && UniqueIds(m)
    && Interned(m, prefix)
  }

  /** One item of addKey: reuse its entry, or create one with the next id; then count it. */
  lemma AddStep<T>(m0: map<T, Ident>, last0: nat, m: map<T, Ident>, last: nat, prefix: seq<T>, item: T,
                   entry: Ident, m': map<T, Ident>, last': nat)
    requires AddInv(m0, last0, m, last, prefix)
    requires entry == if item in m then m[item] else Ident(last, 0)
    requires last' == if item in m then last else last + 1
    requires m' == m[item := Ident(entry.id, entry.count + 1)]
    ensures AddInv(m0, last0, m', last', prefix + [item])
    ensures Ids(m', prefix + [item]) == Ids(m, prefix) + [entry.id]
  {
    var p' := prefix + [item];
    forall x | x in m' ensures m'[x].count == (if x in m0 then m0[x].count else 0) + Occ(x, p') {
      OccAppend(x, prefix, [item]);
      if x != item {
        assert x in m;
      } else if item !in m {
        OccPositive(item, prefix);
        assert item !in m0;
      }
    }
    forall x | x in m' ensures x in m0 || x in p' {
      if x != item { assert x in m; }
    }
    forall x, y | x in m' && y in m' && x != y ensures m'[x].id != m'[y].id {
      if x != item && y != item {
        assert x in m && y in m;
      }
    }
    assert Interned(m', p') by {
      forall i | 0 <= i < |p'| ensures p'[i] in m' {
        if i < |prefix| { assert p'[i] == prefix[i]; }
      }
    }
    IdsStable(m, m', prefix);
  }

  /** Each stored tuple's occurrences of x are part of x's total. */
  lemma {:induction false} TotalOccAtLeast<T, V>(x: T, ks: seq<seq<nat>>, k: seq<nat>, e: map<seq<nat>, (seq<T>, V)>)
    requires forall j :: j in ks ==> j in e
    requires k in ks
    ensures TotalOcc(x, ks, e) >= Occ(x, e[k].0)
  {
    if ks[0] != k {
      TotalOccAtLeast(x, ks[1..], k, e);
    }
  }

  /** The reference-count invariant read both ways: an item is interned exactly when some stored tuple contains it. */
  lemma InternedIffStored<T, V>(m: map<T, Ident>, e: map<seq<nat>, (seq<T>, V)>, order: seq<seq<nat>>, lastId: nat, x: T)
    requires ValidState(m, e, order, lastId)
    ensures x in m <==> exists k :: k in e && x in e[k].0
  {
    if x in m && forall k :: k in order ==> x !in e[k].0 {
      TotalOccAbsent(x, order, e);
      assert false;
    }
    if k :| k in e && x in e[k].0 {
      var i :| 0 <= i < |e[k].0| && e[k].0[i] == x;
      assert Interned(m, e[k].0);
    }
  }

  lemma StoreFaithful<T, V>(e: map<seq<nat>, (seq<T>, V)>, sk: seq<nat>, key: seq<T>, value: V)
    requires KeyFaithful(e)
    requires sk in e ==> e[sk].0 == key
    requires sk !in e ==> key !in ContentsOf(e)
    ensures KeyFaithful(e[sk := (key, value)])
  {
    var e' := e[sk := (key, value)];
    forall a, b | a in e' && b in e' && e'[a].0 == e'[b].0 ensures a == b {
      if a != sk && b != sk {
        assert e[a].0 == e[b].0;
      } else if a != b {
        assert false;
      }
    }
  }

  /** Tuples stored after a store: the stored ones, plus key. */
  lemma StoreMembers<T, V>(e: map<seq<nat>, (seq<T>, V)>, sk: seq<nat>, key: seq<T>, value: V, t: seq<T>)
    requires KeyFaithful(e) && KeyFaithful(e[sk := (key, value)])
    requires sk in e ==> e[sk].0 == key
    ensures t in ContentsOf(e[sk := (key, value)]) <==> t in ContentsOf(e) || t == key
    ensures t in ContentsOf(e) && t != key ==> ContentsOf(e[sk := (key, value)])[t] == ContentsOf(e)[t]
  {
    var e' := e[sk := (key, value)];
    if t in ContentsOf(e') {
      var a :| a in e' && e'[a].0 == t;
      if a != sk { assert a in e && e[a].0 == t; }
    }
    if t in ContentsOf(e) && t != key {
      var a :| a in e && e[a].0 == t;
      assert a != sk && a in e' && e'[a].0 == t;
    }
    if t == key {
      assert e'[sk].0 == key;
    }
  }

  /** Replacing the value under an internal key, or adding a key for a tuple not yet stored, updates the content pointwise. */
  lemma ContentsOfStore<T, V>(e: map<seq<nat>, (seq<T>, V)>, sk: seq<nat>, key: seq<T>, value: V)
    requires KeyFaithful(e)
    requires sk in e ==> e[sk].0 == key
    requires sk !in e ==> key !in ContentsOf(e)
    ensures KeyFaithful(e[sk := (key, value)])
    ensures ContentsOf(e[sk := (key, value)]) == ContentsOf(e)[key := value]
  {
    var e' := e[sk := (key, value)];
    StoreFaithful(e, sk, key, value);
    var c, c' := ContentsOf(e), ContentsOf(e');
    forall t ensures t in c' <==> t in c[key := value] {
      StoreMembers(e, sk, key, value, t);
    }
    forall t | t in c' ensures c'[t] == c[key := value][t] {
      StoreMembers(e, sk, key, value, t);
      if t == key {
        assert e'[sk].0 == key;
      }
    }
    MapExt(c', c[key := value]);
  }

  /** Maps with the same keys and the same values are equal. */
  lemma MapExt<K, W>(a: map<K, W>, b: map<K, W>)
    requires forall k :: k in a <==> k in b
    requires forall k :: k in a ==> a[k] == b[k]
    ensures a == b
  {
  }

  /** Tuples stored after removing an internal key: the stored ones but its tuple. */
  lemma RemoveMembers<T, V>(e: map<seq<nat>, (seq<T>, V)>, sk: seq<nat>, t: seq<T>)
    requires KeyFaithful(e) && sk in e
    ensures t in ContentsOf(e - {sk}) <==> t in ContentsOf(e) && t != e[sk].0
    ensures t in ContentsOf(e - {sk}) ==> ContentsOf(e - {sk})[t] == ContentsOf(e)[t]
  {
    var e' := e - {sk};
    if t in ContentsOf(e') {
      var a :| a in e' && e'[a].0 == t;
      assert a in e;
    }
    if t in ContentsOf(e) && t != e[sk].0 {
      var a :| a in e && e[a].0 == t;
      assert a != sk && a in e' && e'[a].0 == t;
    }
  }

  /** Removing an internal key removes exactly its tuple from the content. */
  lemma ContentsOfRemove<T, V>(e: map<seq<nat>, (seq<T>, V)>, sk: seq<nat>)
    requires KeyFaithful(e) && sk in e
    ensures KeyFaithful(e - {sk})
    ensures ContentsOf(e - {sk}) == ContentsOf(e) - {e[sk].0}
  {
    var c, c' := ContentsOf(e), ContentsOf(e - {sk});
    forall t ensures t in c' <==> t in c - {e[sk].0} {
      RemoveMembers(e, sk, t);
    }
    forall t | t in c' ensures c'[t] == (c - {e[sk].0})[t] {
      RemoveMembers(e, sk, t);
    }
    MapExt(c', c - {e[sk].0});
  }

  /** Content and internal Map have the same size. */
  lemma {:induction false} ContentsOfSize<T, V>(e: map<seq<nat>, (seq<T>, V)>)
    requires KeyFaithful(e)
    ensures |ContentsOf(e)| == |e|
    decreases |e|
  {
    if e != map[] {
      var sk :| sk in e;
      var c, t := ContentsOf(e), e[sk].0;
      assert t in c;
      MapRemoveSize(e, sk);
      ContentsOfRemove(e, sk);
      ContentsOfSize(e - {sk});
      MapRemoveSize(c, t);
    }
  }

  lemma MapRemoveSize<K, W>(m: map<K, W>, k: K)
    requires k in m
    ensures |m - {k}| == |m| - 1
  {
    assert (m - {k}).Keys == m.Keys - {k};
  }

  /** addKey on a tuple with a never-interned item yields an internal key no stored tuple has. */
  lemma FreshKeyUnstored<T, V>(m: map<T, Ident>, e: map<seq<nat>, (seq<T>, V)>, order: seq<seq<nat>>, lastId: nat,
                               key: seq<T>, m': map<T, Ident>, lastId': nat)
    requires ValidState(m, e, order, lastId)
    requires AddInv(m, lastId, m', lastId', key)
    requires !Interned(m, key)
    ensures Ids(m', key) !in e
  {
    var i :| 0 <= i < |key| && key[i] !in m;
    if Ids(m', key) in e {
      StoredIdsBelow(m, e, order, lastId, Ids(m', key), i);
      assert false;
    }
  }

  /** set on a tuple that is not stored: addKey, then file the tuple under the new internal key at the end of the order. */
  lemma SetFreshKeeps<T, V>(m: map<T, Ident>, e: map<seq<nat>, (seq<T>, V)>, order: seq<seq<nat>>, lastId: nat,
                            key: seq<T>, value: V, m': map<T, Ident>, lastId': nat)
    requires ValidState(m, e, order, lastId)
    requires AddInv(m, lastId, m', lastId', key)
    requires Ids(m', key) !in e
    ensures ValidState(m', e[Ids(m', key) := (key, value)], order + [Ids(m', key)], lastId')
  {
    var sk := Ids(m', key);
    var e' := e[sk := (key, value)];
    var order' := order + [sk];
    forall k | k in e' ensures Interned(m', e'[k].0) && Ids(m', e'[k].0) == k {
      if k != sk {
        IdsStable(m, m', e[k].0);
      }
    }
    forall x | x in m' ensures m'[x].count == TotalOcc(x, order', e') && m'[x].count > 0 {
      TotalOccAppend(x, order, [sk], e');
      TotalOccFrame(x, order, e, e');
      var none: seq<seq<nat>> := [];
      assert [sk][1..] == none;
      if x !in m {
        assert forall k :: k in order ==> k in e && x !in e[k].0;
        TotalOccAbsent(x, order, e);
        OccPositive(x, key);
      }
    }
  }

  /** set on a stored tuple: only its value changes. */
  lemma SetStoredKeeps<T, V>(m: map<T, Ident>, e: map<seq<nat>, (seq<T>, V)>, order: seq<seq<nat>>, lastId: nat,
                             key: seq<T>, value: V)
    requires ValidState(m, e, order, lastId)
    requires Interned(m, key) && Ids(m, key) in e
    ensures e[Ids(m, key)].0 == key
    ensures ValidState(m, e[Ids(m, key) := (key, value)], order, lastId)
  {
    ContentsLookup(m, e, order, lastId, key);
    var e' := e[Ids(m, key) := (key, value)];
    forall x | x in m ensures m[x].count == TotalOcc(x, order, e') {
      TotalOccFrame(x, order, e, e');
    }
  }

  /** Everything set promises when the tuple is not stored yet. */
  lemma SetFreshPost<T, V>(m: map<T, Ident>, e: map<seq<nat>, (seq<T>, V)>, order: seq<seq<nat>>, lastId: nat,
                           key: seq<T>, value: V, m': map<T, Ident>, lastId': nat)
    requires ValidState(m, e, order, lastId)
    requires AddInv(m, lastId, m', lastId', key)
    requires !Interned(m, key) || Ids(m, key) !in e
    ensures KeyFaithful(e) && key !in ContentsOf(e)
    ensures var sk := Ids(m', key);
      && sk !in e
      && ValidState(m', e[sk := (key, value)], order + [sk], lastId')
      && KeyFaithful(e[sk := (key, value)])
      && ContentsOf(e[sk := (key, value)]) == ContentsOf(e)[key := value]
      && |ContentsOf(e[sk := (key, value)])| == |ContentsOf(e)| + 1
    ensures lastId' >= lastId
  {
    ContentsLookup(m, e, order, lastId, key);
    if Interned(m, key) {
      IdsStable(m, m', key);
    } else {
      FreshKeyUnstored(m, e, order, lastId, key, m', lastId');
    }
    var sk := Ids(m', key);
    SetFreshKeeps(m, e, order, lastId, key, value, m', lastId');
    ContentsOfStore(e, sk, key, value);
    ContentsOfSize(e);
    ContentsOfSize(e[sk := (key, value)]);
  }

  /** Everything set promises when the tuple is stored already. */
  lemma SetStoredPost<T, V>(m: map<T, Ident>, e: map<seq<nat>, (seq<T>, V)>, order: seq<seq<nat>>, lastId: nat,
                            key: seq<T>, value: V)
    requires ValidState(m, e, order, lastId)
    requires Interned(m, key) && Ids(m, key) in e
    ensures KeyFaithful(e) && key in ContentsOf(e)
    ensures var sk := Ids(m, key);
      && ValidState(m, e[sk := (key, value)], order, lastId)
      && KeyFaithful(e[sk := (key, value)])
      && ContentsOf(e[sk := (key, value)]) == ContentsOf(e)[key := value]
      && |ContentsOf(e[sk := (key, value)])| == |ContentsOf(e)|
  {
    ContentsLookup(m, e, order, lastId, key);
    var sk := Ids(m, key);
    SetStoredKeeps(m, e, order, lastId, key, value);
    ContentsOfStore(e, sk, key, value);
    ContentsOfSize(e);
    ContentsOfSize(e[sk := (key, value)]);
  }

  /** A stored tuple's items are interned with counts covering their occurrences in it, as deleteKey expects. */
  lemma DeleteKeyReady<T, V>(m: map<T, Ident>, e: map<seq<nat>, (seq<T>, V)>, order: seq<seq<nat>>, lastId: nat, key: seq<T>)
    requires ValidState(m, e, order, lastId)
    requires Interned(m, key) && Ids(m, key) in e
    ensures forall x :: x in key ==> x in m && m[x].count >= Occ(x, key)
    ensures forall x :: x in m ==> m[x].count > 0
  {
    ContentsLookup(m, e, order, lastId, key);
    var sk := Ids(m, key);
    forall x | x in key ensures x in m && m[x].count >= Occ(x, key) {
      var i :| 0 <= i < |key| && key[i] == x;
      TotalOccAtLeast(x, order, sk, e);
    }
  }

  /** delete on a stored tuple: drop its internal key from the Map and its order, and its items' counts as deleteKey does. */
  lemma DeleteKeeps<T, V>(m: map<T, Ident>, e: map<seq<nat>, (seq<T>, V)>, order: seq<seq<nat>>, lastId: nat,
                          sk: seq<nat>, m': map<T, Ident>)
    requires ValidState(m, e, order, lastId)
    requires sk in e
    requires forall x :: x in m' ==> x in m && m[x].count > Occ(x, e[sk].0)
    requires forall x :: x in m && m[x].count > Occ(x, e[sk].0) ==> x in m'
    requires forall x :: x in m' ==> m'[x] == Ident(m[x].id, m[x].count - Occ(x, e[sk].0))
    ensures ValidState(m', e - {sk}, Without(order, sk), lastId)
  {
    var e', order' := e - {sk}, Without(order, sk);
    forall x | x in m' ensures m'[x].count == TotalOcc(x, order', e') {
      TotalOccWithout(x, order, sk, e);
      TotalOccFrame(x, order', e, e');
    }
    forall k | k in e' ensures Interned(m', e'[k].0) && Ids(m', e'[k].0) == k {
      var t := e[k].0;
      assert Interned(m, t) && Ids(m, t) == k;
      forall i | 0 <= i < |t| ensures t[i] in m' {
        var y := t[i];
        assert y in m;
        TotalOccWithout(y, order, sk, e);
        TotalOccAtLeast(y, order', k, e);
        OccPositive(y, t);
      }
      assert Ids(m', t) == Ids(m, t);
    }
  }

  /** Everything delete promises when the tuple is stored, given what deleteKey did to the items. */
  lemma DeletePost<T, V>(m: map<T, Ident>, e: map<seq<nat>, (seq<T>, V)>, order: seq<seq<nat>>, lastId: nat,
                         key: seq<T>, m': map<T, Ident>)
    requires ValidState(m, e, order, lastId)
    requires Interned(m, key) && Ids(m, key) in e
    requires forall x :: x in m' ==> x in m && m[x].count > Occ(x, key)
    requires forall x :: x in m && m[x].count > Occ(x, key) ==> x in m'
    requires forall x :: x in m' ==> m'[x] == Ident(m[x].id, m[x].count - Occ(x, key))
    ensures KeyFaithful(e) && key in ContentsOf(e)
    ensures var sk := Ids(m, key);
      && ValidState(m', e - {sk}, Without(order, sk), lastId)
      && KeyFaithful(e - {sk})
      && ContentsOf(e - {sk}) == ContentsOf(e) - {key}
  {
    ContentsLookup(m, e, order, lastId, key);
    var sk := Ids(m, key);
    DeleteKeeps(m, e, order, lastId, sk, m');
    ContentsOfRemove(e, sk);
  }

  class TupleMap<T(==), V> {
    var identifierMap: map<T, Ident>
    var internalEntries: map<seq<nat>, (seq<T>, V)>
    /** The insertion order of internalEntries (a JavaScript Map iterates in insertion order). */
    var order: seq<seq<nat>>
    var lastId: nat

    ghost predicate Valid()
      reads this
    {
      ValidState(identifierMap, internalEntries, order, lastId)
    }

    ghost function Contents(): map<seq<T>, V>
      reads this
      requires Valid()
    {
      ValidKeyFaithful(identifierMap, internalEntries, order, lastId);
      ContentsOf(internalEntries)
    }

    constructor ()
      ensures Valid() && Contents() == map[]
      ensures identifierMap == map[] && internalEntries == map[] && order == [] && lastId == 0
    {
      identifierMap := map[];
      internalEntries := map[];
      order := [];
      lastId := 0;
    }

    /** Interns every item of key (fresh items take lastId, which then
        increments), bumps every item's count once per occurrence, and
        returns the tuple's internal key. */
    method AddKey(key: seq<T>) returns (skey: seq<nat>)
      requires UniqueIds(identifierMap)
      requires forall x :: x in identifierMap ==> identifierMap[x].id < lastId
      modifies this`identifierMap, this`lastId
      ensures AddInv(old(identifierMap), old(lastId), identifierMap, lastId, key)
      ensures skey == Ids(identifierMap, key)
    {
      ghost var m0 := identifierMap;
      var ids: seq<nat> := [];
      var i := 0;
      while i < |key|
        invariant 0 <= i <= |key|
        invariant AddInv(m0, old(lastId), identifierMap, lastId, key[..i])
        invariant ids == Ids(identifierMap, key[..i])
      {
        var item := key[i];
        assert key[..i + 1] == key[..i] + [item];
        var id := Intern(m0, old(lastId), key[..i], item);
        ids := ids + [id];
        i := i + 1;
      }
      assert key[..i] == key;
      skey := ids;
    }

    /** One item of addKey: a fresh item takes lastId, and its count goes up by one. */
    method Intern(ghost m0: map<T, Ident>, ghost last0: nat, ghost prefix: seq<T>, item: T) returns (id: nat)
      requires AddInv(m0, last0, identifierMap, lastId, prefix)
      modifies this`identifierMap, this`lastId
      ensures AddInv(m0, last0, identifierMap, lastId, prefix + [item])
      ensures Ids(identifierMap, prefix + [item]) == Ids(old(identifierMap), prefix) + [id]
    {
      ghost var m, last := identifierMap, lastId;
      var entry: Ident;
      if item in identifierMap {
        entry := identifierMap[item];
      } else {
        entry := Ident(lastId, 0);
        lastId := lastId + 1;
      }
      identifierMap := identifierMap[item := Ident(entry.id, entry.count + 1)];
      AddStep(m0, last0, m, last, prefix, item, entry, identifierMap, lastId);
      id := entry.id;
    }

    /** The internal key of a tuple, or None as soon as an item was never interned. */
    method KeyToString(key: seq<T>) returns (skey: Option<seq<nat>>)
      ensures skey.Some? <==> Interned(identifierMap, key)
      ensures skey.Some? ==> skey.value == Ids(identifierMap, key)
    {
      var ids: seq<nat> := [];
      var i := 0;
      while i < |key|
        invariant 0 <= i <= |key|
        invariant Interned(identifierMap, key[..i]) && ids == Ids(identifierMap, key[..i])
      {
        var item := key[i];
        if item !in identifierMap {
          return None;
        }
        ids := ids + [identifierMap[item].id];
        i := i + 1;
      }
      assert key[..i] == key;
      return Some(ids);
    }

    /** Decrements the count of every item of key once per occurrence, dropping items that reach 0. */
    method DeleteKey(key: seq<T>)
      requires forall x :: x in key ==> x in identifierMap && identifierMap[x].count >= Occ(x, key)
      requires forall x :: x in identifierMap ==> identifierMap[x].count > 0
      modifies this`identifierMap
      ensures forall x :: x in identifierMap <==> x in old(identifierMap) && old(identifierMap)[x].count > Occ(x, key)
      ensures forall x :: x in identifierMap ==>
        identifierMap[x] == Ident(old(identifierMap)[x].id, old(identifierMap)[x].count - Occ(x, key))
    {
      ghost var m0 := identifierMap;
      var i := 0;
      while i < |key|
        invariant 0 <= i <= |key|
        invariant forall x :: x in identifierMap <==> x in m0 && m0[x].count > Occ(x, key[..i])
        invariant forall x :: x in identifierMap ==>
          identifierMap[x] == Ident(m0[x].id, m0[x].count - Occ(x, key[..i]))
      {
        var item := key[i];
        assert key[..i + 1] == key[..i] + [item];
        assert key == key[..i + 1] + key[i + 1..];
        forall x ensures Occ(x, key[..i + 1]) == Occ(x, key[..i]) + (if x == item then 1 else 0) {
          OccAppend(x, key[..i], [item]);
        }
        OccAppend(item, key[..i + 1], key[i + 1..]);
        assert item in identifierMap;
        var entry := identifierMap[item];
        if entry.count - 1 == 0 {
          identifierMap := identifierMap - {item};
        } else {
          identifierMap := identifierMap[item := Ident(entry.id, entry.count - 1)];
        }
        i := i + 1;
      }
      assert key[..i] == key;
    }

    /** Stores value under key: a stored tuple keeps its internal key and
        place; any other tuple is interned by addKey and appended. */
    method Set(key: seq<T>, value: V)
      requires Valid()
      modifies this
      ensures Valid()
      ensures Contents() == old(Contents())[key := value]
      ensures |Contents()| == |old(Contents())| + (if key in old(Contents()) then 0 else 1)
      ensures key in old(Contents()) ==>
        identifierMap == old(identifierMap) && lastId == old(lastId) && order == old(order)
      ensures key !in old(Contents()) ==> |order| == |old(order)| + 1 && order[..|old(order)|] == old(order)
      ensures lastId >= old(lastId)
    {
      var skey := KeyToString(key);
      if skey.None? || skey.value !in internalEntries {
        SetFresh(key, value);
      } else {
        SetStored(key, skey.value, value);
      }
    }

    /** The branch of set for a tuple not stored yet. */
    method SetFresh(key: seq<T>, value: V)
      requires Valid() && (!Interned(identifierMap, key) || Ids(identifierMap, key) !in internalEntries)
      modifies this
      ensures Valid() && key !in old(Contents())
      ensures Contents() == old(Contents())[key := value]
      ensures |Contents()| == |old(Contents())| + 1
      ensures |order| == |old(order)| + 1 && order[..|old(order)|] == old(order)
      ensures lastId >= old(lastId)
    {
      var sk := AddKey(key);
      internalEntries := internalEntries[sk := (key, value)];
      order := order + [sk];
      SetFreshPost(old(identifierMap), old(internalEntries), old(order), old(lastId), key, value, identifierMap, lastId);
      assert order[..|old(order)|] == old(order);
    }

    /** The branch of set for a stored tuple, whose internal key is sk: only its value changes. */
    method SetStored(key: seq<T>, sk: seq<nat>, value: V)
      requires Valid() && Interned(identifierMap, key) && sk == Ids(identifierMap, key) && sk in internalEntries
      modifies this`internalEntries
      ensures Valid() && key in old(Contents())
      ensures Contents() == old(Contents())[key := value]
      ensures |Contents()| == |old(Contents())|
    {
      internalEntries := internalEntries[sk := (key, value)];
      SetStoredPost(identifierMap, old(internalEntries), order, lastId, key, value);
    }

    /** The value stored under key, or None. */
    method Get(key: seq<T>) returns (r: Option<V>)
      requires Valid()
      ensures r == if key in Contents() then Some(Contents()[key]) else None
    {
      ContentsLookup(identifierMap, internalEntries, order, lastId, key);
      var skey := KeyToString(key);
      r := None;
      if skey.Some? {
        if skey.value in internalEntries {
          r := Some(internalEntries[skey.value].1);
        }
      }
    }

    /** get as the TypeScript class writes it: the internal key is checked
        for truthiness, and the empty tuple's internal key '' is falsy. */
    method GetLegacy(key: seq<T>) returns (r: Option<V>)
      requires Valid()
      ensures r == if key != [] && key in Contents() then Some(Contents()[key]) else None
    {
      ContentsLookup(identifierMap, internalEntries, order, lastId, key);
      var skey := KeyToString(key);
      r := None;
      if skey.Some? && skey.value != [] {
        if skey.value in internalEntries {
          r := Some(internalEntries[skey.value].1);
        }
      }
    }

    /** Whether key is stored. */
    method Has(key: seq<T>) returns (b: bool)
      requires Valid()
      ensures b <==> key in Contents()
    {
      ContentsLookup(identifierMap, internalEntries, order, lastId, key);
      var skey := KeyToString(key);
      b := skey.Some? && skey.value in internalEntries;
    }

    /** Removes key if stored, releasing its items' references; reports whether it was stored. */
    method Delete(key: seq<T>) returns (removed: bool)
      requires Valid()
      modifies this
      ensures Valid()
      ensures removed <==> key in old(Contents())
      ensures Contents() == old(Contents()) - {key}
      ensures !removed ==>
        identifierMap == old(identifierMap) && internalEntries == old(internalEntries) && order == old(order)
      ensures lastId == old(lastId)
    {
      var skey := KeyToString(key);
      removed := skey.Some? && skey.value in internalEntries;
      if removed {
        RemoveStored(key, skey.value);
      } else {
        ContentsLookup(identifierMap, internalEntries, order, lastId, key);
        assert Contents() - {key} == Contents();
      }
    }

    /** The branch of delete for a stored tuple, whose internal key is sk. */
    method RemoveStored(key: seq<T>, sk: seq<nat>)
      requires Valid() && Interned(identifierMap, key) && sk == Ids(identifierMap, key) && sk in internalEntries
      modifies this`identifierMap, this`internalEntries, this`order
      ensures Valid() && key in old(Contents())
      ensures Contents() == old(Contents()) - {key}
    {
      DeleteKeyReady(identifierMap, internalEntries, order, lastId, key);
      internalEntries := internalEntries - {sk};
      order := Without(order, sk);
      DeleteKey(key);
      DeletePost(old(identifierMap), old(internalEntries), old(order), lastId, key, identifierMap);
    }

    /** The stored [key, value] pairs in the Map's insertion order: each stored tuple exactly once. */
    method Entries() returns (es: seq<(seq<T>, V)>)
      requires Valid()
      ensures es == EntryList(internalEntries, order)
      ensures |es| == |Contents()|
      ensures forall i :: 0 <= i < |es| ==> es[i].0 in Contents() && Contents()[es[i].0] == es[i].1
      ensures forall i, j :: 0 <= i < j < |es| ==> es[i].0 != es[j].0
      ensures forall key :: key in Contents() ==> exists i :: 0 <= i < |es| && es[i].0 == key
    {
      es := EntriesInOrder();
      EntryListExact(identifierMap, internalEntries, order, lastId);
      SizeIsOrderLength(identifierMap, internalEntries, order, lastId);
      ContentsOfSize(internalEntries);
    }

    /** The loop of entries: the Map's values in insertion order. */
    method EntriesInOrder() returns (es: seq<(seq<T>, V)>)
      requires forall k :: k in order ==> k in internalEntries
      ensures es == EntryList(internalEntries, order)
    {
      es := [];
      var i := 0;
      while i < |order|
        invariant 0 <= i <= |order|
        invariant |es| == i
        invariant forall j :: 0 <= j < i ==> es[j] == internalEntries[order[j]]
      {
        es := es + [internalEntries[order[i]]];
        i := i + 1;
      }
    }

    /** The stored tuples, in the order of Entries. */
    method Keys() returns (ks: seq<seq<T>>)
      requires Valid()
      ensures |ks| == |order|
      ensures forall i :: 0 <= i < |ks| ==> ks[i] == EntryList(internalEntries, order)[i].0
    {
      ks := [];
      var i := 0;
      while i < |order|
        invariant 0 <= i <= |order|
        invariant |ks| == i
        invariant forall j :: 0 <= j < i ==> ks[j] == internalEntries[order[j]].0
      {
        ks := ks + [internalEntries[order[i]].0];
        i := i + 1;
      }
    }

    /** The stored values, in the order of Entries. */
    method Values() returns (vs: seq<V>)
      requires Valid()
      ensures |vs| == |order|
      ensures forall i :: 0 <= i < |vs| ==> vs[i] == EntryList(internalEntries, order)[i].1
    {
      vs := [];
      var i := 0;
      while i < |order|
        invariant 0 <= i <= |order|
        invariant |vs| == i
        invariant forall j :: 0 <= j < i ==> vs[j] == internalEntries[order[j]].1
      {
        vs := vs + [internalEntries[order[i]].1];
        i := i + 1;
      }
    }

    /** The number of stored tuples. */
    method Size() returns (n: nat)
      requires Valid()
      ensures n == |Contents()|
      ensures n == |order|
    {
      SizeIsOrderLength(identifierMap, internalEntries, order, lastId);
      ContentsOfSize(internalEntries);
      n := |internalEntries|;
    }

    /** Forgets every tuple and item and restarts ids at 0. */
    method Clear()
      modifies this
      ensures identifierMap == map[] && internalEntries == map[] && order == [] && lastId == 0
      ensures Valid() && Contents() == map[]
    {
      lastId := 0;
      identifierMap := map[];
      internalEntries := map[];
      order := [];
    }
  }

  /** On the TypeScript class, after set([], v) has([]) holds while get([]) is undefined;
      the corrected get returns v. */
  method EmptyTupleDivergence() returns (stored: bool, legacy: Option<int>, corrected: Option<int>)
    ensures stored && legacy == None && corrected == Some(1)
  {
    var t := new TupleMap<int, int>();
    t.Set([], 1);
    stored := t.Has([]);
    legacy := t.GetLegacy([]);
    corrected := t.Get([]);
  }
}
