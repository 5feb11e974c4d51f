/** Orders of duplicate-free lists: numbering, sorting by number, and lists that agree on order. */
module EdgeOrders {
  import opened Prelude
  import opened Sorting

  /** `numbers` assigns to each key its place. */
  ghost predicate Numbers<K(!new)>(numbers: map<K, nat>, keys: seq<K>) {
    && Distinct(keys)
    && numbers.Keys == Elements(keys)
    && forall i :: 0 <= i < |keys| ==> keys[i] in numbers && numbers[keys[i]] == i
  }

  function Rank<K>(numbers: map<K, nat>, k: K): nat {
    if k in numbers then numbers[k] else 0xFFFF_FFFF_FFFF_FFFF
  }

  predicate Lower<K>(numbers: map<K, nat>, a: K, b: K) {
    Rank(numbers, a) <= Rank(numbers, b)
  }

  function ByNumber<K>(numbers: map<K, nat>): (K, K) -> bool {
    (a: K, b: K) => Lower(numbers, a, b)
  }

  function SortByOrdinal<K>(s: seq<K>, numbers: map<K, nat>): seq<K> {
    SortBy(s, ByNumber(numbers))
  }

  /** `e` stands before `f`. */
  ghost predicate Before<K>(s: seq<K>, e: K, f: K) {
    exists i, j :: 0 <= i < j < |s| && s[i] == e && s[j] == f
  }

  lemma {:induction false} FilterBefore<K>(s: seq<K>, p: K -> bool, e: K, f: K)
    requires p(e) && p(f)
    ensures Before(Filter(s, p), e, f) <==> Before(s, e, f)
  {
    if s != [] {
      var h := if p(s[0]) then [s[0]] else [];
      FilterBefore(s[1..], p, e, f);
      FilterMember(s[1..], p, f);
      BeforeCons(s[0], s[1..], e, f);
      assert s == [s[0]] + s[1..];
      if p(s[0]) {
        BeforeCons(s[0], Filter(s[1..], p), e, f);
      } else {
        assert Filter(s, p) == Filter(s[1..], p);
      }
    }
  }

  /** Every two elements stand as `order` says, the earlier one first. */
  ghost predicate Pairwise<K(!new)>(s: seq<K>, order: (K, K) -> bool) {
    forall i, j :: 0 <= i < j < |s| ==> order(s[i], s[j])
  }

  lemma PairwiseConcat<K(!new)>(s: seq<K>, t: seq<K>, order: (K, K) -> bool)
    requires Pairwise(s, order) && Pairwise(t, order)
    requires forall x, y :: x in s && y in t ==> order(x, y)
    ensures Pairwise(s + t, order)
  {
    var u := s + t;
    forall i, j | 0 <= i < j < |u| ensures order(u[i], u[j]) {
      if i < |s| {
        assert u[i] in s && (j < |s| || u[j] in t);
      } else {
        assert u[i] == t[i - |s|] && u[j] == t[j - |s|];
      }
    }
  }

  /** What is selected and wrapped keeps the order of the list. */
  lemma PairwiseSelected<T(!new), K(!new)>(s: seq<T>, chosen: T -> bool, wrap: T -> K, order: (K, K) -> bool)
    requires forall x, y :: Before(s, x, y) ==> order(wrap(x), wrap(y))
    ensures Pairwise(Map(wrap, Filter(s, chosen)), order)
  {
    var f := Filter(s, chosen);
    FilterMembers(s, chosen);
    forall i, j | 0 <= i < j < |f| ensures order(Map(wrap, f)[i], Map(wrap, f)[j]) {
      assert f[i] in f && f[j] in f && Before(f, f[i], f[j]);
      FilterBefore(s, chosen, f[i], f[j]);
    }
  }

  lemma BeforeCons<K>(h: K, t: seq<K>, e: K, f: K)
    ensures Before([h] + t, e, f) <==> (h == e && f in t) || Before(t, e, f)
  {
    var s := [h] + t;
    if Before(s, e, f) {
      var i, j :| 0 <= i < j < |s| && s[i] == e && s[j] == f;
      assert t[j - 1] == f;
      if i > 0 {
        assert t[i - 1] == e;
      }
    }
    if h == e && f in t {
      var j :| 0 <= j < |t| && t[j] == f;
      assert s[0] == e && s[j + 1] == f;
    }
    if Before(t, e, f) {
      var i, j :| 0 <= i < j < |t| && t[i] == e && t[j] == f;
      assert s[i + 1] == e && s[j + 1] == f;
    }
  }

  /** Duplicate-free lists of the same elements in the same relative order are equal. */
  lemma {:induction false} SameOrder<K>(s: seq<K>, t: seq<K>)
    requires Distinct(s) && Distinct(t)
    requires forall e :: e in s <==> e in t
    requires forall e, f :: e in s && f in s ==> (Before(s, e, f) <==> Before(t, e, f))
    ensures s == t
  {
    DistinctSize(s);
    DistinctSize(t);
    assert Elements(s) == Elements(t);
    if s != [] {
      assert s[0] == t[0] by {
        assert t[0] in s;
        var i :| 0 <= i < |s| && s[i] == t[0];
        assert i == 0 || Before(s, s[0], t[0]);
        assert !Before(t, s[0], t[0]);
      }
      var s', t' := s[1..], t[1..];
      assert s == [s[0]] + s' && t == [s[0]] + t';
      forall e ensures e in s' <==> e in t' {
        assert e in s' <==> e in s && e != s[0];
        assert e in t' <==> e in t && e != s[0];
      }
      forall e, f | e in s' && f in s' ensures Before(s', e, f) <==> Before(t', e, f) {
        BeforeCons(s[0], s', e, f);
        BeforeCons(s[0], t', e, f);
      }
      SameOrder(s', t');
    }
  }

  /** In a numbered list, standing before is having the smaller number. */
  lemma NumbersBefore<K(!new)>(numbers: map<K, nat>, keys: seq<K>, e: K, f: K)
    requires Numbers(numbers, keys) && e in keys && f in keys
    ensures Before(keys, e, f) <==> numbers[e] < numbers[f]
  {
    if numbers[e] < numbers[f] {
      assert keys[numbers[e]] == e && keys[numbers[f]] == f;
    }
  }

  /** Sorting the keys that pass a test by their numbers gives the filter of all keys. */
  lemma SortedIsFilter<K(!new)>(s: seq<K>, numbers: map<K, nat>, keys: seq<K>, p: K -> bool)
    requires Numbers(numbers, keys) && Distinct(s)
    requires forall e :: e in s <==> e in Filter(keys, p)
    ensures SortByOrdinal(s, numbers) == Filter(keys, p)
  {
    var t, u := SortByOrdinal(s, numbers), Filter(keys, p);
    SortFacts(s, ByNumber(numbers));
    SortKeepsDistinct(s, ByNumber(numbers));
    FilterMembers(keys, p);
    FilterDistinct(keys, p);
    forall e, f | e in t && f in t ensures Before(t, e, f) <==> Before(u, e, f) {
      FilterBefore(keys, p, e, f);
      NumbersBefore(numbers, keys, e, f);
      SortedBefore(t, numbers, e, f);
    }
    SameOrder(t, u);
  }

  lemma SortedBefore<K(!new)>(t: seq<K>, numbers: map<K, nat>, e: K, f: K)
    requires Distinct(t) && Sorted(t, ByNumber(numbers)) && e in t && f in t && e in numbers && f in numbers
    requires forall x, y :: x in numbers && y in numbers && numbers[x] == numbers[y] ==> x == y
    ensures Before(t, e, f) <==> numbers[e] < numbers[f]
  {
    var i :| 0 <= i < |t| && t[i] == e;
    var j :| 0 <= j < |t| && t[j] == f;
    assert i < j ==> Lower(numbers, e, f);
    assert j < i ==> Lower(numbers, f, e);
    assert i < j <==> Before(t, e, f);
  }
}
