/** String comparisons the application relies on: `String.prototype.startsWith`
    for the "today" filter, and the order of Unicode scalar values, standing in for the
    order in which the database sorts string keys (`orderBy('name')`, `sortBy('created_at')`). */
module Text {

  /** `s.startsWith(prefix)`. */
  predicate StartsWith(s: string, prefix: string)
  {
    |prefix| <= |s| && s[..|prefix|] == prefix
  }

  /** Lexicographic order on strings, character by character; a prefix comes first. */
  predicate LexLe(a: string, b: string)
  {
    |a| == 0 || (|b| > 0 && (a[0] < b[0] || (a[0] == b[0] && LexLe(a[1..], b[1..]))))
  }

  /** Any two strings are comparable. */
  lemma {:induction false} LexLeTotal(a: string, b: string)
    ensures LexLe(a, b) || LexLe(b, a)
  {
    if |a| > 0 && |b| > 0 && a[0] == b[0] {
      LexLeTotal(a[1..], b[1..]);
    }
  }

  /** The order is transitive. */
  lemma {:induction false} LexLeTransitive(a: string, b: string, c: string)
    requires LexLe(a, b) && LexLe(b, c)
    ensures LexLe(a, c)
  {
    if |a| > 0 && a[0] == b[0] && b[0] == c[0] {
      LexLeTransitive(a[1..], b[1..], c[1..]);
    }
  }

  /** `a` may stand before `b` in ascending, or in descending, order. */
  predicate Precedes(a: string, b: string, descending: bool)
  {
    if descending then LexLe(b, a) else LexLe(a, b)
  }

  lemma PrecedesTransitive(a: string, b: string, c: string, descending: bool)
    requires Precedes(a, b, descending) && Precedes(b, c, descending)
    ensures Precedes(a, c, descending)
  {
    if descending { LexLeTransitive(c, b, a); } else { LexLeTransitive(a, b, c); }
  }

  /** `s` is ordered by `key`: every element may stand before every later one. */
  predicate SortedBy<T>(s: seq<T>, key: T -> string, descending: bool)
  {
    forall i, j :: 0 <= i < j < |s| ==> Precedes(key(s[i]), key(s[j]), descending)
  }

  /** An element that may precede every element of an ordered sequence can head it. */
  lemma ConsSorted<T>(h: T, rest: seq<T>, key: T -> string, descending: bool)
    requires SortedBy(rest, key, descending)
    requires forall j :: 0 <= j < |rest| ==> Precedes(key(h), key(rest[j]), descending)
    ensures SortedBy([h] + rest, key, descending)
  {
    var r := [h] + rest;
    forall i, j | 0 <= i < j < |r| ensures Precedes(key(r[i]), key(r[j]), descending) {
      assert r[j] == rest[j - 1];
      if i > 0 {
        assert r[i] == rest[i - 1];
      }
    }
  }

  /** What may precede the head of an ordered sequence may precede all of it. */
  lemma PrecedesAll<T>(x: T, s: seq<T>, key: T -> string, descending: bool)
    requires SortedBy(s, key, descending) && |s| > 0
    requires Precedes(key(x), key(s[0]), descending)
    ensures forall j :: 0 <= j < |s| ==> Precedes(key(x), key(s[j]), descending)
  {
    forall j | 0 < j < |s| ensures Precedes(key(x), key(s[j]), descending) {
      PrecedesTransitive(key(x), key(s[0]), key(s[j]), descending);
    }
  }

  /** The head of an ordered sequence may precede every element of the rest with
      `x` inserted, when it may precede `x`. */
  lemma HeadPrecedesInserted<T>(x: T, s: seq<T>, rest: seq<T>, key: T -> string, descending: bool)
    requires SortedBy(s, key, descending) && |s| > 0
    requires Precedes(key(s[0]), key(x), descending)
    requires multiset(rest) == multiset(s[1..]) + multiset{x}
    ensures forall j :: 0 <= j < |rest| ==> Precedes(key(s[0]), key(rest[j]), descending)
  {
    forall j | 0 <= j < |rest| ensures Precedes(key(s[0]), key(rest[j]), descending) {
      assert rest[j] in multiset(rest);
      if rest[j] != x {
        assert rest[j] in multiset(s[1..]);
        var m :| 0 <= m < |s[1..]| && s[1..][m] == rest[j];
        assert s[m + 1] == rest[j];
      }
    }
  }

  /** Inserts `x` into an ordered sequence, before the first element it may precede. */
  function Insert<T>(x: T, s: seq<T>, key: T -> string, descending: bool): (r: seq<T>)
    requires SortedBy(s, key, descending)
    ensures multiset(r) == multiset(s) + multiset{x}
    ensures SortedBy(r, key, descending)
  {
    if |s| == 0 then [x]
    else if Precedes(key(x), key(s[0]), descending) then
      PrecedesAll(x, s, key, descending);
      ConsSorted(x, s, key, descending);
      [x] + s
    else
      LexLeTotal(key(x), key(s[0]));
      assert s == [s[0]] + s[1..];
      var rest := Insert(x, s[1..], key, descending);
      HeadPrecedesInserted(x, s, rest, key, descending);
      ConsSorted(s[0], rest, key, descending);
      [s[0]] + rest
  }

  /** The sequence ordered by `key` (the database's `sortBy`, and `orderBy` on an index):
      a permutation of `s` that is sorted. */
  function Sort<T>(s: seq<T>, key: T -> string, descending: bool): (r: seq<T>)
    ensures multiset(r) == multiset(s)
    ensures SortedBy(r, key, descending)
  {
    if |s| == 0 then []
    else
      assert s == [s[0]] + s[1..];
      Insert(s[0], Sort(s[1..], key, descending), key, descending)
  }
}
