/** Generic operations on sequences that the application performs with
    JavaScript's `filter`, `reduce` and `find`, and the facts about them that
    the rest of the model relies on. */
module Seqs {
  import opened Wrappers

  /** `s.filter(keep)`: the elements of `s` that satisfy `keep`, in order. */
  function Filter<T(==,!new)>(s: seq<T>, keep: T -> bool): (r: seq<T>)
    ensures |r| <= |s|
    ensures forall x :: x in r <==> x in s && keep(x)
  {
    if |s| == 0 then []
    else (if keep(s[0]) then [s[0]] else []) + Filter(s[1..], keep)
  }

  /** `s.reduce((sum, x) => sum + f(x), 0)`. */
  function Sum<T>(s: seq<T>, f: T -> int): int
  {
    if |s| == 0 then 0 else f(s[0]) + Sum(s[1..], f)
  }

  /** `s.find(x => key(x) === id)`: the first element whose key is `id`. */
  function Find<T>(s: seq<T>, key: T -> nat, id: nat): (r: Option<T>)
    ensures r.Some? ==> key(r.value) == id
    ensures r.Some? ==> exists i :: 0 <= i < |s| && s[i] == r.value
    ensures r.None? <==> forall i :: 0 <= i < |s| ==> key(s[i]) != id
  {
    if |s| == 0 then None
    else if key(s[0]) == id then Some(s[0])
    else
      var r := Find(s[1..], key, id);
      assert forall i :: 1 <= i < |s| ==> s[i] == s[1..][i - 1];
      r
  }

  /** No two elements share a key. */
  predicate Distinct<T>(s: seq<T>, key: T -> nat)
  {
    forall i, j :: 0 <= i < j < |s| ==> key(s[i]) != key(s[j])
  }

  /** The keys increase strictly along `s` and all lie below `next`: the shape of
      a table whose primary keys come from an auto-increment counter. */
  predicate KeyedBelow<T>(s: seq<T>, key: T -> nat, next: nat)
  {
    && (forall i, j :: 0 <= i < j < |s| ==> key(s[i]) < key(s[j]))
    && (forall i :: 0 <= i < |s| ==> key(s[i]) < next)
  }

  lemma KeyedBelowDistinct<T>(s: seq<T>, key: T -> nat, next: nat)
    requires KeyedBelow(s, key, next)
    ensures Distinct(s, key)
  {
  }

  /** Appending a record under the counter's value keeps the table keyed. */
  lemma KeyedBelowAppend<T>(s: seq<T>, key: T -> nat, next: nat, x: T)
    requires KeyedBelow(s, key, next) && key(x) == next
    ensures KeyedBelow(s + [x], key, next + 1)
  {
    var t := s + [x];
    forall i, j | 0 <= i < j < |t| ensures key(t[i]) < key(t[j]) {
      if j < |s| { assert t[i] == s[i] && t[j] == s[j]; }
    }
  }

  /** Removing records keeps a table keyed. */
  lemma {:induction false} FilterKeyedBelow<T(!new)>(s: seq<T>, keep: T -> bool, key: T -> nat, next: nat)
    requires KeyedBelow(s, key, next)
    ensures KeyedBelow(Filter(s, keep), key, next)
  {
    if |s| > 0 {
      var rest := Filter(s[1..], keep);
      FilterKeyedBelow(s[1..], keep, key, next);
      forall x | x in rest ensures key(s[0]) < key(x) {
        var m :| 0 <= m < |s[1..]| && s[1..][m] == x;
        assert s[m + 1] == x;
      }
      var r := Filter(s, keep);
      assert r == (if keep(s[0]) then [s[0]] else []) + rest;
      forall i | 0 <= i < |r| ensures key(r[i]) < next {
        assert r[i] in r;
        var m :| 0 <= m < |s| && s[m] == r[i];
      }
      if keep(s[0]) {
        forall i, j | 0 <= i < j < |r| ensures key(r[i]) < key(r[j]) {
          assert r[j] == rest[j - 1];
          assert rest[j - 1] in rest;
          if i > 0 { assert r[i] == rest[i - 1]; }
        }
      }
    }
  }

  /** Removing records keeps the keys of a table distinct. */
  lemma {:induction false} FilterDistinct<T(!new)>(s: seq<T>, keep: T -> bool, key: T -> nat)
    requires Distinct(s, key)
    ensures Distinct(Filter(s, keep), key)
  {
    if |s| > 0 {
      var rest := Filter(s[1..], keep);
      FilterDistinct(s[1..], keep, key);
      forall x | x in rest ensures key(s[0]) != key(x) {
        var m :| 0 <= m < |s[1..]| && s[1..][m] == x;
        assert s[m + 1] == x;
      }
      var r := Filter(s, keep);
      if keep(s[0]) {
        forall i, j | 0 <= i < j < |r| ensures key(r[i]) != key(r[j]) {
          assert r[j] == rest[j - 1];
          assert rest[j - 1] in rest;
          if i > 0 { assert r[i] == rest[i - 1]; }
        }
      }
    }
  }

  /** With distinct keys, looking up the key of an element finds that element. */
  lemma {:induction false} FindDistinct<T>(s: seq<T>, key: T -> nat, k: nat)
    requires Distinct(s, key) && k < |s|
    ensures Find(s, key, key(s[k])) == Some(s[k])
  {
    if k > 0 {
      assert key(s[0]) != key(s[k]);
      assert Distinct(s[1..], key) by {
        forall i, j | 0 <= i < j < |s[1..]| ensures key(s[1..][i]) != key(s[1..][j]) {
          assert s[1..][i] == s[i + 1] && s[1..][j] == s[j + 1];
        }
      }
      FindDistinct(s[1..], key, k - 1);
    }
  }

  lemma {:induction false} FilterAppend<T(!new)>(a: seq<T>, b: seq<T>, keep: T -> bool)
    ensures Filter(a + b, keep) == Filter(a, keep) + Filter(b, keep)
  {
    if |a| == 0 {
      assert a + b == b;
    } else {
      assert (a + b)[1..] == a[1..] + b;
      FilterAppend(a[1..], b, keep);
    }
  }

  /** A filter that every element passes is the identity. */
  lemma {:induction false} FilterAll<T(!new)>(s: seq<T>, keep: T -> bool)
    requires forall i :: 0 <= i < |s| ==> keep(s[i])
    ensures Filter(s, keep) == s
  {
    if |s| > 0 {
      FilterAll(s[1..], keep);
      assert [s[0]] + s[1..] == s;
    }
  }

  /** A filter that no element passes is empty. */
  lemma FilterNone<T(!new)>(s: seq<T>, keep: T -> bool)
    requires forall i :: 0 <= i < |s| ==> !keep(s[i])
    ensures Filter(s, keep) == []
  {
  }

  lemma {:induction false} SumAppend<T>(a: seq<T>, b: seq<T>, f: T -> int)
    ensures Sum(a + b, f) == Sum(a, f) + Sum(b, f)
  {
    if |a| == 0 {
      assert a + b == b;
    } else {
      assert (a + b)[1..] == a[1..] + b;
      SumAppend(a[1..], b, f);
    }
  }

  /** A sum splits over a pointwise decomposition of its summand. */
  lemma {:induction false} SumSplit<T>(s: seq<T>, f: T -> int, g: T -> int, h: T -> int)
    requires forall i :: 0 <= i < |s| ==> f(s[i]) == g(s[i]) + h(s[i])
    ensures Sum(s, f) == Sum(s, g) + Sum(s, h)
  {
    if |s| > 0 {
      SumSplit(s[1..], f, g, h);
    }
  }

  /** Summing over the elements a filter keeps is summing a summand that is
      zero on the elements it drops. */
  lemma {:induction false} SumFilter<T(!new)>(s: seq<T>, keep: T -> bool, f: T -> int, g: T -> int)
    requires forall i :: 0 <= i < |s| ==> g(s[i]) == if keep(s[i]) then f(s[i]) else 0
    ensures Sum(Filter(s, keep), f) == Sum(s, g)
  {
    if |s| > 0 {
      SumFilter(s[1..], keep, f, g);
      var rest := Filter(s[1..], keep);
      if keep(s[0]) {
        assert Filter(s, keep) == [s[0]] + rest;
        assert ([s[0]] + rest)[1..] == rest;
      } else {
        assert Filter(s, keep) == rest;
      }
    }
  }

  /** Sums respect a pointwise bound. */
  lemma {:induction false} SumMono<T>(s: seq<T>, f: T -> int, g: T -> int)
    requires forall i :: 0 <= i < |s| ==> f(s[i]) <= g(s[i])
    ensures Sum(s, f) <= Sum(s, g)
  {
    if |s| > 0 {
      SumMono(s[1..], f, g);
    }
  }

  /** Filtering two arrangements of the same elements keeps the same elements. */
  lemma {:induction false} FilterPermutation<T(!new)>(a: seq<T>, b: seq<T>, keep: T -> bool)
    requires multiset(a) == multiset(b)
    ensures multiset(Filter(a, keep)) == multiset(Filter(b, keep))
    decreases |a|
  {
    if |a| == 0 {
      assert |b| == |multiset(b)|;
      assert b == [];
    } else {
      var x := a[0];
      assert x in multiset(b);
      var j :| 0 <= j < |b| && b[j] == x;
      var b1, b2 := b[..j], b[j + 1..];
      assert b == b1 + [x] + b2;
      assert a == [x] + a[1..];
      calc {
        multiset(a[1..]);
        multiset(a) - multiset{x};
        multiset(b1 + [x] + b2) - multiset{x};
        multiset(b1) + multiset{x} + multiset(b2) - multiset{x};
        multiset(b1 + b2);
      }
      FilterPermutation(a[1..], b1 + b2, keep);
      FilterAppend(b1, b2, keep);
      FilterAppend(b1 + [x], b2, keep);
      FilterAppend(b1, [x], keep);
      FilterAppend([x], a[1..], keep);
    }
  }
}
