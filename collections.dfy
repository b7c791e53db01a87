/**
 * The array operations the UI components chain together: `filter`, the
 * first-occurrence de-duplication of `Array.from(new Set(...))`, and `sort`
 * with a comparator, here expressed as sorting by a key.
 */
module Collections {

  /** `s.filter(p)`. */
  function Filter<T(!new)>(s: seq<T>, p: T -> bool): (r: seq<T>)
    ensures |r| <= |s|
    ensures forall x :: x in r <==> x in s && p(x)
    ensures multiset(r) <= multiset(s)
  {
    if s == [] then []
    else
      var rest := Filter(s[1..], p);
      assert s == [s[0]] + s[1..];
      if p(s[0]) then [s[0]] + rest else rest
  }

  /** Filtering a concatenation filters each part, in order. */
  lemma {:induction false} FilterConcat<T(!new)>(a: seq<T>, b: seq<T>, p: T -> bool)
    ensures Filter(a + b, p) == Filter(a, p) + Filter(b, p)
  {
    if a == [] {
      assert a + b == b;
    } else {
      var head := if p(a[0]) then [a[0]] else [];
      var ab := a + b;
      assert ab != [] && ab[0] == a[0] && ab[1..] == a[1..] + b;
      assert Filter(ab, p) == head + Filter(a[1..] + b, p);
      FilterConcat(a[1..], b, p);
      AppendAssociative(head, Filter(a[1..], p), Filter(b, p));
    }
  }

  /** `filter` keeps every passing element as often as it occurs, and no other. */
  lemma {:induction false} FilterMultiplicity<T(!new)>(s: seq<T>, p: T -> bool)
    ensures forall x :: multiset(Filter(s, p))[x] == if p(x) then multiset(s)[x] else 0
  {
    if s != [] {
      FilterMultiplicity(s[1..], p);
      assert s == [s[0]] + s[1..];
    }
  }

  /** A one-element sequence keeps its element iff it passes. */
  lemma FilterSingle<T(!new)>(x: T, p: T -> bool)
    ensures Filter([x], p) == if p(x) then [x] else []
  {
    assert [x][1..] == [];
  }

  lemma AppendAssociative<T>(a: seq<T>, b: seq<T>, c: seq<T>)
    ensures a + (b + c) == (a + b) + c
  {
  }

  /** A filter that every element passes keeps the sequence as it is. */
  lemma {:induction false} FilterAllPass<T(!new)>(s: seq<T>, p: T -> bool)
    requires forall x :: x in s ==> p(x)
    ensures Filter(s, p) == s
  {
    if s != [] {
      FilterAllPass(s[1..], p);
    }
  }

  /** Two tests that agree on every element of `s` filter it alike. */
  lemma {:induction false} FilterAgrees<T(!new)>(s: seq<T>, p: T -> bool, q: T -> bool)
    requires forall x :: x in s ==> p(x) == q(x)
    ensures Filter(s, p) == Filter(s, q)
  {
    if s != [] {
      FilterAgrees(s[1..], p, q);
    }
  }

  predicate Distinct<T(==)>(s: seq<T>) {
    forall i, j :: 0 <= i < j < |s| ==> s[i] != s[j]
  }

  /**
   * `Array.from(new Set(s))`: each value once, in order of first
   * occurrence.
   */
  function Dedup<T(==,!new)>(s: seq<T>): (r: seq<T>)
    ensures Distinct(r)
    ensures forall x :: x in r <==> x in s
    ensures |r| <= |s|
  {
    if s == [] then []
    else
      var d := Dedup(s[..|s| - 1]);
      assert s == s[..|s| - 1] + [s[|s| - 1]];
      if s[|s| - 1] in d then d else d + [s[|s| - 1]]
  }

  /**
   * `r` lists values in the order they first occur in `s`: wherever a later
   * value of `r` occurs in `s`, an earlier one occurred before.
   */
  predicate FirstOccurrenceOrder<T(==)>(r: seq<T>, s: seq<T>) {
    forall i, j, k :: 0 <= i < j < |r| && 0 <= k < |s| && s[k] == r[j] ==>
      exists l :: 0 <= l < k && s[l] == r[i]
  }

  /** `Dedup` lists the values in the order in which they first occur. */
  lemma {:induction false} DedupOrder<T(!new)>(s: seq<T>)
    ensures FirstOccurrenceOrder(Dedup(s), s)
  {
    if s != [] {
      var init, last := s[..|s| - 1], s[|s| - 1];
      var d := Dedup(init);
      DedupOrder(init);
      assert s == init + [last];
      var r := Dedup(s);
      assert r == if last in d then d else d + [last];
      forall i, j, k | 0 <= i < j < |r| && 0 <= k < |s| && s[k] == r[j]
        ensures exists l :: 0 <= l < k && s[l] == r[i]
      {
        assert r[i] == d[i] && r[i] in init;
        if k < |s| - 1 {
          assert init[k] == s[k];
          var l :| 0 <= l < k && init[l] == d[i];
          assert s[l] == init[l];
        } else {
          var l :| 0 <= l < |init| && init[l] == r[i];
          assert s[l] == init[l];
        }
      }
    }
  }

  /** A value that already occurs once is not repeated by `Dedup`. */
  lemma {:induction false} DedupOfDistinct<T(!new)>(s: seq<T>)
    requires Distinct(s)
    ensures Dedup(s) == s
  {
    if s != [] {
      var init := s[..|s| - 1];
      assert Distinct(init);
      DedupOfDistinct(init);
      assert s[|s| - 1] !in init;
      assert s == init + [s[|s| - 1]];
    }
  }

  /**
   * A sort key. Numbers compare numerically, texts by code points
   * (lexicographically); all numbers come before all texts, a case that no
   * single sort mode produces.
   */
  datatype Key = Num(value: real) | Text(text: string)

  /** Lexicographic order on strings, by code point. */
  predicate LexLeq(s: string, t: string) {
    if s == [] then true
    else if t == [] then false
    else if s[0] != t[0] then s[0] < t[0]
    else LexLeq(s[1..], t[1..])
  }

  lemma {:induction false} LexLeqTotal(s: string, t: string)
    ensures LexLeq(s, t) || LexLeq(t, s)
  {
    if s != [] && t != [] && s[0] == t[0] {
      LexLeqTotal(s[1..], t[1..]);
    }
  }

  lemma {:induction false} LexLeqTransitive(s: string, t: string, u: string)
    requires LexLeq(s, t) && LexLeq(t, u)
    ensures LexLeq(s, u)
  {
    if s != [] && t != [] && u != [] && s[0] == t[0] && t[0] == u[0] {
      LexLeqTransitive(s[1..], t[1..], u[1..]);
    }
  }

  predicate KeyLeq(a: Key, b: Key) {
    match (a, b)
    case (Num(x), Num(y)) => x <= y
    case (Text(s), Text(t)) => LexLeq(s, t)
    case (Num(_), Text(_)) => true
    case (Text(_), Num(_)) => false
  }

  lemma KeyLeqTotal(a: Key, b: Key)
    ensures KeyLeq(a, b) || KeyLeq(b, a)
  {
    if a.Text? && b.Text? {
      LexLeqTotal(a.text, b.text);
    }
  }

  lemma KeyLeqTransitive(a: Key, b: Key, c: Key)
    requires KeyLeq(a, b) && KeyLeq(b, c)
    ensures KeyLeq(a, c)
  {
    if a.Text? && b.Text? && c.Text? {
      LexLeqTransitive(a.text, b.text, c.text);
    }
  }

  /** `s` is in ascending order of `key`. */
  ghost predicate SortedBy<T>(s: seq<T>, key: T -> Key) {
    forall i, j :: 0 <= i < j < |s| ==> KeyLeq(key(s[i]), key(s[j]))
  }

  /** Every element of `s` has a key no smaller than `k`. */
  ghost predicate BoundedBelow<T>(k: Key, s: seq<T>, key: T -> Key) {
    forall j :: 0 <= j < |s| ==> KeyLeq(k, key(s[j]))
  }

  lemma SortedCons<T>(a: T, s: seq<T>, key: T -> Key)
    requires SortedBy(s, key) && BoundedBelow(key(a), s, key)
    ensures SortedBy([a] + s, key)
  {
    forall i, j | 0 <= i < j < |[a] + s| ensures KeyLeq(key(([a] + s)[i]), key(([a] + s)[j])) {
      if i > 0 {
        assert ([a] + s)[i] == s[i - 1];
      }
      assert ([a] + s)[j] == s[j - 1];
    }
  }

  /**
   * Inserts `x` into the sorted `s` after every element whose key is not
   * greater than its own, so that equal keys keep their arrival order.
   */
  function Insert<T>(x: T, s: seq<T>, key: T -> Key): (r: seq<T>)
    requires SortedBy(s, key)
    ensures SortedBy(r, key)
    ensures multiset(r) == multiset(s) + multiset{x}
    ensures forall k :: BoundedBelow(k, s, key) && KeyLeq(k, key(x)) ==> BoundedBelow(k, r, key)
  {
    if s == [] then [x]
    else if !KeyLeq(key(s[0]), key(x)) then
      KeyLeqTotal(key(s[0]), key(x));
      forall j | 0 <= j < |s| ensures KeyLeq(key(x), key(s[j])) {
        if j > 0 { KeyLeqTransitive(key(x), key(s[0]), key(s[j])); }
      }
      SortedCons(x, s, key);
      [x] + s
    else
      var rest := Insert(x, s[1..], key);
      assert BoundedBelow(key(s[0]), s[1..], key);
      SortedCons(s[0], rest, key);
      assert s == [s[0]] + s[1..];
      forall k | BoundedBelow(k, s, key) && KeyLeq(k, key(x)) ensures BoundedBelow(k, [s[0]] + rest, key) {
        assert BoundedBelow(k, s[1..], key);
      }
      [s[0]] + rest
  }

  /**
   * `s.sort((a, b) => compare(key(a), key(b)))` for the comparators the
   * components use: the result holds the same elements, in ascending key
   * order.
   */
  function SortBy<T>(s: seq<T>, key: T -> Key): (r: seq<T>)
    ensures SortedBy(r, key)
    ensures multiset(r) == multiset(s)
    ensures |r| == |s|
  {
    if s == [] then []
    else
      var init := SortBy(s[..|s| - 1], key);
      assert s == s[..|s| - 1] + [s[|s| - 1]];
      var r := Insert(s[|s| - 1], init, key);
      assert |r| == |multiset(r)|;
      r
  }
}
