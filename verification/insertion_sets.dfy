/** JavaScript's `Set`: a collection without duplicates that remembers
    insertion order (`Array.from(set)` lists elements in that order). It is
    modelled as a duplicate-free sequence. */
module InsertionSets {

  /** No element occurs twice. */
  predicate Distinct<T(==)>(s: seq<T>) {
    forall i, j :: 0 <= i < j < |s| ==> s[i] != s[j]
  }

  /** The elements, forgetting order. */
  function Elements<T>(s: seq<T>): set<T> {
    set x | x in s
  }

  /** `set.add(x)`: appends `x` unless it is already present. */
  function Add<T(==)>(s: seq<T>, x: T): (r: seq<T>)
    ensures Elements(r) == Elements(s) + {x}
    ensures x in s ==> r == s
    ensures x !in s ==> r == s + [x]
    ensures Distinct(s) ==> Distinct(r)
  {
    if x in s then s else s + [x]
  }

  /** `set.delete(x)`: removes `x`, keeping the order of the rest. */
  function Delete<T(==)>(s: seq<T>, x: T): (r: seq<T>)
    ensures Elements(r) == Elements(s) - {x}
    ensures Distinct(s) ==> Distinct(r)
    ensures x !in s ==> r == s
  {
    if |s| == 0 then []
    else
      var rest := Delete(s[1..], x);
      assert s == [s[0]] + s[1..];
      assert Elements(s) == {s[0]} + Elements(s[1..]);
      assert Distinct(s) ==> Distinct(s[1..]) && s[0] !in Elements(s[1..]);
      if s[0] == x then rest
      else
        assert s[0] in Elements(s) - {x};
        assert Elements([s[0]] + rest) == {s[0]} + Elements(rest);
        [s[0]] + rest
  }

  /** Deleting an element of a duplicate-free sequence removes it from its
      position and keeps the others in order. */
  lemma {:induction false} DeleteAt<T>(s: seq<T>, i: nat)
    requires Distinct(s) && i < |s|
    ensures Delete(s, s[i]) == s[..i] + s[i + 1..]
    decreases |s|
  {
    var x := s[i];
    if i == 0 {
      assert x !in s[1..] by {
        forall k | 0 <= k < |s[1..]| ensures s[1..][k] != x { assert s[k + 1] != s[0]; }
      }
    } else {
      assert Distinct(s[1..]) by {
        forall a, b | 0 <= a < b < |s[1..]| ensures s[1..][a] != s[1..][b] { assert s[a + 1] != s[b + 1]; }
      }
      assert s[0] != x;
      assert s[1..][i - 1] == x;
      DeleteAt(s[1..], i - 1);
      assert s[..i] + s[i + 1..] == [s[0]] + (s[1..][..i - 1] + s[1..][i..]);
    }
  }

  /** `new Set(xs)`: keeps the first occurrence of every element. */
  function FromSeq<T(==)>(xs: seq<T>): (r: seq<T>)
    ensures Distinct(r)
    ensures Elements(r) == Elements(xs)
    decreases |xs|
  {
    if |xs| == 0 then [] else Add(FromSeq(xs[..|xs| - 1]), xs[|xs| - 1])
  }

  /** Building a `Set` from a duplicate-free array gives back that array, in
      its order: what `Array.from` saved is what `new Set` restores. */
  lemma {:induction false} FromDistinctSeq<T>(xs: seq<T>)
    requires Distinct(xs)
    ensures FromSeq(xs) == xs
    decreases |xs|
  {
    if |xs| > 0 {
      var init, x := xs[..|xs| - 1], xs[|xs| - 1];
      assert Distinct(init) by {
        forall i, j | 0 <= i < j < |init| ensures init[i] != init[j] {
          assert init[i] == xs[i] && init[j] == xs[j];
        }
      }
      FromDistinctSeq(init);
      assert x !in init by {
        forall i | 0 <= i < |init| ensures init[i] != x {
          assert init[i] == xs[i];
        }
      }
      assert FromSeq(xs) == Add(FromSeq(init), x);
      assert init + [x] == xs;
    }
  }

  /** `set.size` is the number of distinct elements. */
  lemma {:induction false} DistinctCardinality<T>(s: seq<T>)
    requires Distinct(s)
    ensures |Elements(s)| == |s|
    decreases |s|
  {
    if |s| > 0 {
      var init := s[..|s| - 1];
      assert Distinct(init);
      DistinctCardinality(init);
      assert Elements(s) == Elements(init) + {s[|s| - 1]} by {
        assert s == init + [s[|s| - 1]];
      }
      assert s[|s| - 1] !in Elements(init);
    }
  }
}
