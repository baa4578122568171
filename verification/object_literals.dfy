/** JavaScript object literals used as ordered dictionaries. A literal such as
    `{ a: 1, b: 2, a: 3 }` defines its properties left to right: a repeated key
    keeps the position of its first definition and takes the value of its last.
    `for (k in obj)` visits keys in that position order. */
module ObjectLiterals {
  import opened Results
  import opened InsertionSets

  /** The keys of a property list, in order. */
  function Keys<K, V>(props: seq<(K, V)>): (ks: seq<K>)
    ensures |ks| == |props|
    ensures forall i :: 0 <= i < |props| ==> ks[i] == props[i].0
  {
    seq(|props|, i requires 0 <= i < |props| => props[i].0)
  }

  /** `obj[k]`: the value of the first property named `k`, if any. */
  function Get<K(==), V>(o: seq<(K, V)>, k: K): (r: Option<V>)
    ensures r.Some? <==> k in Keys(o)
  {
    if |o| == 0 then None
    else if o[0].0 == k then Some(o[0].1)
    else
      assert Keys(o) == [o[0].0] + Keys(o[1..]);
      Get(o[1..], k)
  }

  /** Defining property `k: v`: an existing key keeps its position and takes the
      new value; a new key goes last. */
  function Define<K(==), V>(o: seq<(K, V)>, k: K, v: V): seq<(K, V)>
  {
    if |o| == 0 then [(k, v)]
    else if o[0].0 == k then [(k, v)] + o[1..]
    else [o[0]] + Define(o[1..], k, v)
  }

  /** The object an object literal denotes: its properties defined left to right. */
  function ObjectLiteral<K(==), V>(props: seq<(K, V)>): seq<(K, V)>
    decreases |props|
  {
    if |props| == 0 then []
    else
      var last := props[|props| - 1];
      Define(ObjectLiteral(props[..|props| - 1]), last.0, last.1)
  }

  /** Reference definition: the value of the last property named `k`. */
  function LastValue<K(==), V>(props: seq<(K, V)>, k: K): Option<V>
    decreases |props|
  {
    if |props| == 0 then None
    else if props[|props| - 1].0 == k then Some(props[|props| - 1].1)
    else LastValue(props[..|props| - 1], k)
  }

  /** Every key of an object was written in its literal. */
  lemma ObjectLiteralKeyWritten<K, V>(props: seq<(K, V)>, i: nat) returns (j: nat)
    requires i < |ObjectLiteral(props)|
    ensures j < |props| && props[j].0 == ObjectLiteral(props)[i].0
  {
    ObjectLiteralKeys(props);
    var k := ObjectLiteral(props)[i].0;
    assert Keys(ObjectLiteral(props))[i] == k;
    assert k in Elements(Keys(props));
    j :| 0 <= j < |props| && Keys(props)[j] == k;
  }

  /** `Get` returns the value at the first position holding the key. */
  lemma {:induction false} GetFirst<K, V>(o: seq<(K, V)>, k: K) returns (i: nat)
    requires Get(o, k).Some?
    ensures i < |o| && o[i] == (k, Get(o, k).value)
    ensures forall j :: 0 <= j < i ==> o[j].0 != k
    decreases |o|
  {
    if o[0].0 == k {
      i := 0;
    } else {
      var i' := GetFirst(o[1..], k);
      i := i' + 1;
    }
  }

  /** With distinct keys, every property is found by its own key. */
  lemma GetDistinct<K, V>(o: seq<(K, V)>, i: nat)
    requires Distinct(Keys(o)) && i < |o|
    ensures Get(o, o[i].0) == Some(o[i].1)
  {
    var k := o[i].0;
    assert Keys(o)[i] == k;
    var j := GetFirst(o, k);
    assert Keys(o)[j] == k;
    assert j == i;
  }

  /** Defining a property appends its key if it is new and otherwise leaves
      the key order alone. */
  lemma {:induction false} DefineKeys<K, V>(o: seq<(K, V)>, k: K, v: V)
    ensures Keys(Define(o, k, v)) == Add(Keys(o), k)
    decreases |o|
  {
    if |o| > 0 {
      assert Keys(o) == [o[0].0] + Keys(o[1..]);
      if o[0].0 != k {
        DefineKeys(o[1..], k, v);
        assert Keys(Define(o, k, v)) == [o[0].0] + Keys(Define(o[1..], k, v));
        if k in Keys(o[1..]) {
          assert Add(Keys(o), k) == Keys(o);
        } else {
          assert Add(Keys(o), k) == Keys(o) + [k];
        }
      } else {
        assert Keys(Define(o, k, v)) == [k] + Keys(o[1..]);
      }
    }
  }

  /** Defining a property changes the value of that key only. */
  lemma {:induction false} DefineGet<K, V>(o: seq<(K, V)>, k: K, v: V, k': K)
    ensures Get(Define(o, k, v), k') == if k' == k then Some(v) else Get(o, k')
    decreases |o|
  {
    if |o| > 0 && o[0].0 != k {
      var d := Define(o, k, v);
      assert d[0] == o[0] && d[1..] == Define(o[1..], k, v);
      DefineGet(o[1..], k, v, k');
    }
  }

  /** The keys of an object literal are its property keys in order of first
      definition, each once (the duplicates collapse onto the first position). */
  lemma {:induction false} ObjectLiteralKeys<K, V>(props: seq<(K, V)>)
    ensures Keys(ObjectLiteral(props)) == FromSeq(Keys(props))
    ensures Distinct(Keys(ObjectLiteral(props)))
    decreases |props|
  {
    if |props| > 0 {
      var init := props[..|props| - 1];
      var last := props[|props| - 1];
      ObjectLiteralKeys(init);
      DefineKeys(ObjectLiteral(init), last.0, last.1);
      assert Keys(init) == Keys(props)[..|props| - 1];
    }
  }

  /** Looking a key up in an object literal yields the value of its LAST definition. */
  lemma {:induction false} ObjectLiteralGet<K, V>(props: seq<(K, V)>, k: K)
    ensures Get(ObjectLiteral(props), k) == LastValue(props, k)
    decreases |props|
  {
    if |props| > 0 {
      var init := props[..|props| - 1];
      var last := props[|props| - 1];
      ObjectLiteralGet(init, k);
      DefineGet(ObjectLiteral(init), last.0, last.1, k);
    }
  }

  /** The last definition of `k` is the one at index `i` when no later property
      redefines `k`. */
  lemma {:induction false} LastValueAt<K, V>(props: seq<(K, V)>, k: K, i: nat)
    requires i < |props| && props[i].0 == k
    requires forall j :: i < j < |props| ==> props[j].0 != k
    ensures LastValue(props, k) == Some(props[i].1)
    decreases |props|
  {
    if i < |props| - 1 {
      LastValueAt(props[..|props| - 1], k, i);
    }
  }

  /** `k` is written nowhere in `props`. */
  ghost predicate NotWritten<K, V>(props: seq<(K, V)>, k: K) {
    forall j :: 0 <= j < |props| ==> props[j].0 != k
  }

  /** A key is written nowhere in a concatenation exactly when it is written in neither part. */
  lemma NotWrittenConcat<K, V>(a: seq<(K, V)>, b: seq<(K, V)>, k: K)
    ensures NotWritten(a + b, k) <==> NotWritten(a, k) && NotWritten(b, k)
  {
    if NotWritten(a, k) && NotWritten(b, k) {
      forall j | 0 <= j < |a + b| ensures (a + b)[j].0 != k {
        if j >= |a| { assert (a + b)[j] == b[j - |a|]; }
      }
    }
    if NotWritten(a + b, k) {
      forall j | 0 <= j < |a| ensures a[j].0 != k {
        assert (a + b)[j] == a[j];
      }
      forall j | 0 <= j < |b| ensures b[j].0 != k {
        assert (a + b)[|a| + j] == b[j];
      }
    }
  }

  /** The last value in a concatenation comes from the second part whenever
      that part writes the key at all. */
  lemma {:induction false} LastValueConcat<K, V>(a: seq<(K, V)>, b: seq<(K, V)>, k: K)
    ensures LastValue(a + b, k) == if NotWritten(b, k) then LastValue(a, k) else LastValue(b, k)
    decreases |b|
  {
    if |b| > 0 {
      var b' := b[..|b| - 1];
      assert (a + b)[..|a + b| - 1] == a + b';
      LastValueConcat(a, b', k);
      if b[|b| - 1].0 != k {
        assert NotWritten(b', k) <==> NotWritten(b, k) by {
          if NotWritten(b', k) {
            forall j | 0 <= j < |b| ensures b[j].0 != k {
              if j < |b| - 1 { assert b[j] == b'[j]; }
            }
          }
          if NotWritten(b, k) {
            forall j | 0 <= j < |b'| ensures b'[j].0 != k { assert b'[j] == b[j]; }
          }
        }
      }
    } else {
      assert a + b == a;
    }
  }

  /** A key that no property defines has no value. */
  lemma {:induction false} LastValueAbsent<K, V>(props: seq<(K, V)>, k: K)
    requires forall j :: 0 <= j < |props| ==> props[j].0 != k
    ensures LastValue(props, k) == None
    decreases |props|
  {
    if |props| > 0 {
      LastValueAbsent(props[..|props| - 1], k);
    }
  }

  /** `for (k in obj)` stopping at the first key that satisfies `p`, starting
      at position `from`: the index of that key, or `None`. */
  function FirstKeyWhere<K, V>(o: seq<(K, V)>, p: K -> bool, from: nat): (r: Option<nat>)
    requires from <= |o|
    ensures r.Some? ==> from <= r.value < |o| && p(o[r.value].0)
    ensures r.Some? ==> forall j :: from <= j < r.value ==> !p(o[j].0)
    ensures r.None? ==> forall j :: from <= j < |o| ==> !p(o[j].0)
    decreases |o| - from
  {
    if from == |o| then None
    else if p(o[from].0) then Some(from)
    else FirstKeyWhere(o, p, from + 1)
  }

  /** Two tests that agree on every key of an object stop the scan at the
      same key. */
  lemma {:induction false} FirstKeyWhereAgree<K, V>(o: seq<(K, V)>, p: K -> bool, q: K -> bool, from: nat)
    requires from <= |o|
    requires forall i :: from <= i < |o| ==> p(o[i].0) == q(o[i].0)
    ensures FirstKeyWhere(o, p, from) == FirstKeyWhere(o, q, from)
    decreases |o| - from
  {
    if from < |o| {
      FirstKeyWhereAgree(o, p, q, from + 1);
    }
  }

  /** De-duplicating keeps the prefix structure: the distinct elements of a
      prefix come first, in the same order. */
  lemma {:induction false} FromSeqPrefix<T>(xs: seq<T>, n: nat)
    requires n <= |xs|
    ensures FromSeq(xs[..n]) <= FromSeq(xs)
    decreases |xs| - n
  {
    if n < |xs| {
      FromSeqPrefix(xs, n + 1);
      assert xs[..n + 1][..n] == xs[..n];
    } else {
      assert xs[..n] == xs;
    }
  }

  /** No element of a de-duplicated prefix satisfies `p` when no element of
      the prefix does. */
  lemma FromSeqNoneMatch<T>(ks: seq<T>, p: T -> bool, i: nat)
    requires i <= |ks|
    requires forall j :: 0 <= j < i ==> !p(ks[j])
    ensures forall x :: x in FromSeq(ks[..i]) ==> !p(x)
  {
    forall x | x in FromSeq(ks[..i])
      ensures !p(x)
    {
      assert x in Elements(FromSeq(ks[..i]));
      assert x in Elements(ks[..i]);
      var j :| 0 <= j < i && ks[..i][j] == x;
    }
  }

  /** The first element satisfying `p` survives de-duplication, and nothing
      before it in the de-duplicated sequence satisfies `p`. */
  lemma FromSeqFirstMatch<T>(ks: seq<T>, p: T -> bool, i: nat) returns (m: nat)
    requires i < |ks| && p(ks[i])
    requires forall j :: 0 <= j < i ==> !p(ks[j])
    ensures m < |FromSeq(ks)| && FromSeq(ks)[m] == ks[i]
    ensures forall j :: 0 <= j < m ==> !p(FromSeq(ks)[j])
  {
    var before := FromSeq(ks[..i]);
    FromSeqNoneMatch(ks, p, i);
    assert ks[i] !in before;
    var upto := FromSeq(ks[..i + 1]);
    assert ks[..i + 1][..i] == ks[..i] && ks[..i + 1][i] == ks[i];
    assert upto == Add(before, ks[i]);
    assert upto == before + [ks[i]];
    FromSeqPrefix(ks, i + 1);
    m := |before|;
    assert FromSeq(ks)[m] == upto[m];
    forall j | 0 <= j < m ensures !p(FromSeq(ks)[j]) {
      assert FromSeq(ks)[j] == upto[j] == before[j];
    }
  }

  /** The first property whose key satisfies `p` also owns the first key of the
      object that satisfies `p`: scanning the object in `for ... in` order finds
      the same key as scanning the literal's source text. */
  lemma ObjectLiteralFirstMatch<K, V>(props: seq<(K, V)>, p: K -> bool, i: nat)
    requires i < |props| && p(props[i].0)
    requires forall j :: 0 <= j < i ==> !p(props[j].0)
    ensures FirstKeyWhere(ObjectLiteral(props), p, 0).Some?
    ensures ObjectLiteral(props)[FirstKeyWhere(ObjectLiteral(props), p, 0).value].0 == props[i].0
  {
    var o := ObjectLiteral(props);
    ObjectLiteralKeys(props);
    var m := FromSeqFirstMatch(Keys(props), p, i);
    assert o[m].0 == props[i].0;
    assert forall j :: 0 <= j < m ==> !p(o[j].0) by {
      assert forall j :: 0 <= j < m ==> o[j].0 == Keys(o)[j];
    }
    var r := FirstKeyWhere(o, p, 0);
    assert r.Some? && r.value == m;
  }
}
