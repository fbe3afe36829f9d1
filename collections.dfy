/**
 * Value-level building blocks shared by the game model: an optional value,
 * the array filter the server uses to drop one id from a list, and the
 * plain JavaScript object keyed by socket id, whose key order (insertion
 * order) decides the order of result lists and history entries.
 */
module Collections {

  datatype Option<+T> = None | Some(value: T)

  /** All elements of `s` are different. */
  predicate Distinct<T(==)>(s: seq<T>) {
    forall i, j :: 0 <= i < j < |s| ==> s[i] != s[j]
  }

  /**
   * `s` with every occurrence of `x` dropped and the rest in order:
   * the effect of `s.filter(v => v !== x)`.
   */
  function Without<T(==,!new)>(s: seq<T>, x: T): (r: seq<T>)
    ensures x !in r
    ensures forall y :: y in r <==> y in s && y != x
  {
    if s == [] then []
    else
      assert s == [s[0]] + s[1..];
      (if s[0] == x then [] else [s[0]]) + Without(s[1..], x)
  }

  /** The filter drops exactly the occurrences of `x`. */
  lemma {:induction false} WithoutCounts<T(!new)>(s: seq<T>, x: T)
    ensures multiset(Without(s, x))[x] == 0
    ensures forall y :: y != x ==> multiset(Without(s, x))[y] == multiset(s)[y]
    ensures |Without(s, x)| == |s| - multiset(s)[x]
  {
    if s != [] {
      assert s == [s[0]] + s[1..];
      WithoutCounts(s[1..], x);
    }
  }

  /** The filter works element by element: filtering a concatenation filters each part in place. */
  lemma {:induction false} WithoutAppend<T(!new)>(a: seq<T>, b: seq<T>, x: T)
    ensures Without(a + b, x) == Without(a, x) + Without(b, x)
  {
    if a != [] {
      assert (a + b)[0] == a[0] && (a + b)[1..] == a[1..] + b;
      WithoutAppend(a[1..], b, x);
    } else {
      assert a + b == b;
    }
  }

  /** A one-element list keeps its element exactly when it is not the one dropped. */
  lemma WithoutSingle<T(!new)>(y: T, x: T)
    ensures Without([y], x) == if y == x then [] else [y]
  {
    assert [y][1..] == [];
  }

  /** Filtering out an element that is not there changes nothing. */
  lemma {:induction false} WithoutAbsent<T(!new)>(s: seq<T>, x: T)
    requires x !in s
    ensures Without(s, x) == s
  {
    if s != [] {
      assert s == [s[0]] + s[1..];
      WithoutAbsent(s[1..], x);
    }
  }

  /**
   * A JavaScript object used as a dictionary from socket id to `V`:
   * `keys` lists the own keys in insertion order, `vals` holds the entries.
   */
  datatype Dict<V> = Dict(keys: seq<string>, vals: map<string, V>) {

    /** The keys are listed once each, and exactly the keys that have an entry. */
    predicate Wf() {
      && Distinct(keys)
      && (forall k :: k in vals ==> k in keys)
      && (forall k :: k in keys ==> k in vals)
    }

    /** `obj[k] = v`: an existing key keeps its place, a new key goes last. */
    function Put(k: string, v: V): (r: Dict<V>)
      requires Wf()
      ensures r.Wf()
      ensures r.vals == vals[k := v]
      ensures keys <= r.keys
      ensures k in vals ==> r.keys == keys
      ensures k !in vals ==> r.keys == keys + [k]
    {
      if k in vals then Dict(keys, vals[k := v]) else Dict(keys + [k], vals[k := v])
    }

    /** `delete obj[k]`: the other keys keep their entries and their order. */
    function Remove(k: string): (r: Dict<V>)
      requires Wf()
      ensures r.Wf()
      ensures r.vals == vals - {k}
      ensures r.keys == Without(keys, k)
      ensures |r.keys| == if k in vals then |keys| - 1 else |keys|
    {
      assert k in vals ==> multiset(keys)[k] == 1 by {
        if k in vals { DistinctOnce(keys, k); }
      }
      WithoutCounts(keys, k);
      WithoutDistinct(keys, k);
      Dict(Without(keys, k), vals - {k})
    }
  }

  /** Dropping an element keeps a list of distinct elements distinct. */
  lemma {:induction false} WithoutDistinct<T(!new)>(s: seq<T>, x: T)
    requires Distinct(s)
    ensures Distinct(Without(s, x))
  {
    if s != [] {
      WithoutDistinct(s[1..], x);
      assert s[0] !in s[1..];
    }
  }

  /** `delete obj[k]` on keys `a`, `k`, `b` leaves `a` followed by `b`: the other keys keep their order. */
  lemma RemoveKeepsOrder<V>(d: Dict<V>, a: seq<string>, k: string, b: seq<string>)
    requires d.Wf() && d.keys == a + [k] + b
    ensures d.Remove(k).keys == a + b
  {
    assert k !in a && k !in b by {
      forall i | 0 <= i < |a| ensures a[i] != k {
        assert a[i] == d.keys[i] && k == d.keys[|a|];
      }
      forall j | 0 <= j < |b| ensures b[j] != k {
        assert b[j] == d.keys[|a| + 1 + j] && k == d.keys[|a|];
      }
    }
    calc {
      d.Remove(k).keys;
      Without(a + [k] + b, k);
      { WithoutAppend(a + [k], b, k); }
      Without(a + [k], k) + Without(b, k);
      { WithoutAppend(a, [k], k); WithoutSingle(k, k); }
      Without(a, k) + Without(b, k);
      { WithoutAbsent(a, k); WithoutAbsent(b, k); }
      a + b;
    }
  }

  /** `{}` */
  function EmptyDict<V>(): (r: Dict<V>)
    ensures r.Wf() && |r.keys| == 0 && r.vals == map[]
  {
    Dict([], map[])
  }

  /** An element of a sequence of distinct elements occurs in it exactly once. */
  lemma {:induction false} DistinctOnce<T>(s: seq<T>, x: T)
    requires Distinct(s) && x in s
    ensures multiset(s)[x] == 1
  {
    assert s == [s[0]] + s[1..];
    if s[0] == x {
      assert x !in s[1..];
    } else {
      DistinctOnce(s[1..], x);
    }
  }

  /** Two lists of distinct elements with no element in common make a list of distinct elements. */
  lemma DistinctAppend<T>(a: seq<T>, b: seq<T>)
    requires Distinct(a) && Distinct(b)
    requires forall x :: x in a ==> x !in b
    ensures Distinct(a + b)
  {
    forall i, j | 0 <= i < j < |a + b| ensures (a + b)[i] != (a + b)[j] {
      if j < |a| {
        assert (a + b)[i] == a[i] && (a + b)[j] == a[j];
      } else if i >= |a| {
        assert (a + b)[i] == b[i - |a|] && (a + b)[j] == b[j - |a|];
      } else {
        assert (a + b)[i] == a[i] && (a + b)[j] == b[j - |a|];
        assert a[i] in a && a[i] !in b;
      }
    }
  }
}
