/** The library's stable sort, and what it does to lists in a total preorder. */
module Sorting {
  import opened Prelude

  ghost predicate TotalPreorder<T(!new)>(under: (T, T) -> bool) {
    && (forall a, b :: under(a, b) || under(b, a))
    && (forall a, b, c :: under(a, b) && under(b, c) ==> under(a, c))
  }

  ghost predicate Sorted<T>(s: seq<T>, under: (T, T) -> bool) {
    forall i, j :: 0 <= i < j < |s| ==> under(s[i], s[j])
  }

  function Place<T>(x: T, s: seq<T>, under: (T, T) -> bool): seq<T> {
    if s == [] || under(x, s[0]) then [x] + s else [s[0]] + Place(x, s[1..], under)
  }

  function SortBy<T>(s: seq<T>, under: (T, T) -> bool): seq<T> {
    if s == [] then [] else Place(s[0], SortBy(s[1..], under), under)
  }

  lemma {:induction false} PlaceFacts<T(!new)>(x: T, s: seq<T>, under: (T, T) -> bool)
    requires TotalPreorder(under) && Sorted(s, under)
    ensures Sorted(Place(x, s, under), under) && |Place(x, s, under)| == |s| + 1
    ensures forall y :: y in Place(x, s, under) <==> y == x || y in s
  {
    if s == [] || under(x, s[0]) {
      assert forall j :: 0 <= j < |s| ==> under(x, s[j]);
    } else {
      PlaceFacts(x, s[1..], under);
      var rest := Place(x, s[1..], under);
      assert s == [s[0]] + s[1..];
      forall j | 0 <= j < |rest| ensures under(s[0], rest[j]) {
        assert rest[j] == x || rest[j] in s[1..];
      }
    }
  }

  /** The sort orders the list and keeps its elements; it leaves exactly the sorted lists alone. */
  lemma {:induction false} SortFacts<T(!new)>(s: seq<T>, under: (T, T) -> bool)
    requires TotalPreorder(under)
    ensures Sorted(SortBy(s, under), under) && |SortBy(s, under)| == |s|
    ensures forall y :: y in SortBy(s, under) <==> y in s
    ensures Sorted(s, under) <==> SortBy(s, under) == s
  {
    if s != [] {
      SortFacts(s[1..], under);
      PlaceFacts(s[0], SortBy(s[1..], under), under);
      assert s == [s[0]] + s[1..];
      if Sorted(s, under) {
        assert Sorted(s[1..], under);
      }
    }
  }

  lemma SortKeepsDistinct<T(!new)>(s: seq<T>, under: (T, T) -> bool)
    requires TotalPreorder(under) && Distinct(s)
    ensures Distinct(SortBy(s, under))
  {
    SortFacts(s, under);
    DistinctSize(s);
    assert Elements(SortBy(s, under)) == Elements(s);
    SizeDistinct(SortBy(s, under));
  }

  /** Sorted lists of the same elements are equal when no two elements tie. */
  lemma {:induction false} SortedIsUnique<T>(s: seq<T>, t: seq<T>, under: (T, T) -> bool)
    requires Sorted(s, under) && Sorted(t, under) && Distinct(s) && Distinct(t)
    requires forall x :: x in s <==> x in t
    requires forall x, y :: x in s && y in s && under(x, y) && under(y, x) ==> x == y
    ensures s == t
  {
    SameSize(s, t);
    if s != [] {
      assert s[0] in t && t[0] in s;
      assert s[0] == t[0] by {
        var i :| 0 <= i < |t| && t[i] == s[0];
        var j :| 0 <= j < |s| && s[j] == t[0];
      }
      assert s == [s[0]] + s[1..] && t == [s[0]] + t[1..];
      forall x ensures x in s[1..] <==> x in t[1..] {
        assert x in s[1..] <==> x in s && x != s[0];
        assert x in t[1..] <==> x in t && x != s[0];
      }
      SortedIsUnique(s[1..], t[1..], under);
    }
  }
}
