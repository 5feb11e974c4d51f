/** Lists in which an element is found by a key: the shape of all three relation vectors. */
module KeyedLists {
  import opened Prelude

  ghost predicate Unique<T, K>(s: seq<T>, key: T -> K) {
    forall i, j :: 0 <= i < j < |s| ==> key(s[i]) != key(s[j])
  }

  /** The first element with key `k`. */
  function Lookup<T, K(==)>(s: seq<T>, key: T -> K, k: K): (r: Option<T>)
    ensures r.Some? ==> r.value in s && key(r.value) == k
    ensures r.None? <==> forall x :: x in s ==> key(x) != k
  {
    if s == [] then None
    else if key(s[0]) == k then Some(s[0])
    else Lookup(s[1..], key, k)
  }

  /** Replaces the first element with the key of `x`, or appends `x`. */
  function Upsert<T, K(==)>(s: seq<T>, key: T -> K, x: T): seq<T> {
    if s == [] then [x]
    else if key(s[0]) == key(x) then [x] + s[1..]
    else [s[0]] + Upsert(s[1..], key, x)
  }

  /** Drops the first element with key `k`. */
  function RemoveKey<T, K(==)>(s: seq<T>, key: T -> K, k: K): seq<T> {
    if s == [] then []
    else if key(s[0]) == k then s[1..]
    else [s[0]] + RemoveKey(s[1..], key, k)
  }

  /** Length plus containment: the equality the program uses. */
  predicate SameList<T(==), K(==)>(s: seq<T>, t: seq<T>, key: T -> K) {
    |s| == |t| && forall x :: x in s ==> Lookup(t, key, key(x)) == Some(x)
  }

  lemma UniqueTail<T, K>(s: seq<T>, key: T -> K)
    requires Unique(s, key) && s != []
    ensures Unique(s[1..], key)
    ensures forall x :: x in s[1..] ==> key(x) != key(s[0])
  {
  }

  lemma UniqueSplit<T, K>(s: seq<T>, key: T -> K)
    requires s != []
    ensures Unique(s, key) <==> Unique(s[1..], key) && forall x :: x in s[1..] ==> key(x) != key(s[0])
  {
    if Unique(s[1..], key) && forall x :: x in s[1..] ==> key(x) != key(s[0]) {
      forall i, j | 0 <= i < j < |s| ensures key(s[i]) != key(s[j]) {
        assert s[j] == s[1..][j - 1];
        assert i > 0 ==> s[i] == s[1..][i - 1];
      }
    }
  }

  lemma LookupCons<T, K>(s: seq<T>, key: T -> K, k: K)
    requires s != [] && Unique(s, key)
    ensures Lookup(s, key, k) == if key(s[0]) == k then Some(s[0]) else Lookup(s[1..], key, k)
    ensures k == key(s[0]) ==> Lookup(s[1..], key, k).None?
  {
  }

  lemma {:induction false} LookupMember<T, K>(s: seq<T>, key: T -> K, x: T)
    requires Unique(s, key)
    ensures x in s <==> Lookup(s, key, key(x)) == Some(x)
  {
    if s != [] {
      UniqueTail(s, key);
      LookupMember(s[1..], key, x);
      assert x in s <==> x == s[0] || x in s[1..];
    }
  }

  lemma {:induction false} UpsertLookup<T, K>(s: seq<T>, key: T -> K, x: T, k: K)
    ensures Lookup(Upsert(s, key, x), key, k) == if k == key(x) then Some(x) else Lookup(s, key, k)
  {
    if s != [] && key(s[0]) != key(x) {
      UpsertLookup(s[1..], key, x, k);
      assert Upsert(s, key, x)[1..] == Upsert(s[1..], key, x);
    } else if s != [] {
      assert Upsert(s, key, x)[1..] == s[1..];
    }
  }

  lemma {:induction false} UpsertKeys<T, K(!new)>(s: seq<T>, key: T -> K, x: T)
    ensures forall y :: y in Upsert(s, key, x) ==> y == x || y in s
    ensures Unique(s, key) ==> Unique(Upsert(s, key, x), key)
  {
    if s != [] && key(s[0]) != key(x) {
      UpsertKeys(s[1..], key, x);
      var t := Upsert(s, key, x);
      assert t[1..] == Upsert(s[1..], key, x);
      if Unique(s, key) {
        UniqueTail(s, key);
        assert forall y :: y in t[1..] ==> key(y) != key(t[0]);
      }
    }
  }

  lemma {:induction false} RemoveLookup<T, K>(s: seq<T>, key: T -> K, gone: K, k: K)
    requires Unique(s, key)
    ensures Lookup(RemoveKey(s, key, gone), key, k) == if k == gone then None else Lookup(s, key, k)
  {
    if s != [] {
      UniqueTail(s, key);
      if key(s[0]) != gone {
        RemoveLookup(s[1..], key, gone, k);
        assert RemoveKey(s, key, gone)[1..] == RemoveKey(s[1..], key, gone);
      }
    }
  }

  lemma {:induction false} RemoveKeys<T, K(!new)>(s: seq<T>, key: T -> K, gone: K)
    ensures forall y :: y in RemoveKey(s, key, gone) ==> y in s
    ensures Unique(s, key) ==> Unique(RemoveKey(s, key, gone), key)
  {
    if s != [] && key(s[0]) != gone {
      RemoveKeys(s[1..], key, gone);
      var t := RemoveKey(s, key, gone);
      assert t[1..] == RemoveKey(s[1..], key, gone);
      if Unique(s, key) {
        UniqueTail(s, key);
        assert forall y :: y in t[1..] ==> key(y) != key(t[0]);
      }
    }
  }

  lemma {:induction false} FilterLookup<T, K>(s: seq<T>, key: T -> K, p: T -> bool, k: K)
    requires Unique(s, key)
    ensures Unique(Filter(s, p), key)
    ensures Lookup(Filter(s, p), key, k) ==
            if Lookup(s, key, k).Some? && p(Lookup(s, key, k).value) then Lookup(s, key, k) else None
  {
    if s != [] {
      UniqueTail(s, key);
      FilterLookup(s[1..], key, p, k);
      var t := Filter(s, p);
      if p(s[0]) {
        assert t[0] == s[0] && t[1..] == Filter(s[1..], p);
        forall y | y in t[1..] ensures key(y) != key(t[0]) {
          FilterMember(s[1..], p, y);
        }
      }
    }
  }

  /** On lists with unique keys, the program's equality is equality of the sets of elements. */
  lemma SameListIsSetEquality<T, K>(s: seq<T>, t: seq<T>, key: T -> K)
    requires Unique(s, key) && Unique(t, key)
    ensures SameList(s, t, key) <==> Elements(s) == Elements(t)
  {
    assert Distinct(s) && Distinct(t);
    DistinctSize(s);
    DistinctSize(t);
    if SameList(s, t, key) {
      assert Elements(s) <= Elements(t);
      SubsetSize(Elements(s), Elements(t));
    }
    if Elements(s) == Elements(t) {
      forall x | x in s ensures Lookup(t, key, key(x)) == Some(x) {
        assert x in Elements(t);
        LookupMember(t, key, x);
      }
    }
  }

  /** A list with unique keys equals only lists of that kind with the same elements, and these equal it in turn. */
  lemma UniqueEqualsIff<T, K>(s: seq<T>, t: seq<T>, key: T -> K)
    requires Unique(s, key)
    ensures SameList(s, t, key) <==> Unique(t, key) && Elements(s) == Elements(t)
    ensures SameList(s, t, key) ==> SameList(t, s, key)
  {
    if SameList(s, t, key) {
      assert Distinct(s);
      DistinctSize(s);
      ElementsBound(t);
      assert Elements(s) <= Elements(t);
      SubsetSize(Elements(s), Elements(t));
      SizeDistinct(t);
      forall i, j | 0 <= i < j < |t| ensures key(t[i]) != key(t[j]) {
        assert t[i] in Elements(t) && t[j] in Elements(t);
        LookupMember(s, key, t[i]);
        LookupMember(s, key, t[j]);
      }
    }
    if Unique(t, key) {
      SameListIsSetEquality(s, t, key);
      SameListIsSetEquality(t, s, key);
    }
  }

  /** Changing a place whose key is not looked up, or is found before, leaves the answer. */
  lemma {:induction false} LookupElsewhere<T, K>(s: seq<T>, key: T -> K, j: nat, y: T, k: K)
    requires j < |s| && key(y) != k
    requires key(s[j]) != k || exists i :: 0 <= i < j && key(s[i]) == k
    ensures Lookup(s[j := y], key, k) == Lookup(s, key, k)
  {
    if j == 0 {
      assert s[j := y][1..] == s[1..];
    } else if key(s[0]) != k {
      var t := s[1..];
      assert s[j := y][1..] == t[j - 1 := y];
      if i :| 0 <= i < j && key(s[i]) == k {
        assert 0 <= i - 1 < j - 1 && key(t[i - 1]) == k;
      }
      LookupElsewhere(t, key, j - 1, y, k);
    }
  }

  /** A list that equals itself although a key repeats equals another list that does not equal it. */
  lemma RepeatedKeyBreaksSymmetry<T, K>(s: seq<T>, key: T -> K, y: T) returns (t: seq<T>)
    requires !Unique(s, key) && SameList(s, s, key) && forall x :: x in s ==> key(x) != key(y)
    ensures SameList(s, t, key) && !SameList(t, s, key)
  {
    var i, j :| 0 <= i < j < |s| && key(s[i]) == key(s[j]);
    t := s[j := y];
    forall x | x in s ensures Lookup(t, key, key(x)) == Some(x) {
      assert key(s[j]) != key(x) || key(s[i]) == key(x);
      LookupElsewhere(s, key, j, y, key(x));
    }
    assert t[j] in t && Lookup(s, key, key(y)).None?;
  }

  /** Lists with unique keys that answer every lookup alike hold the same elements. */
  lemma SameLookups<T, K>(s: seq<T>, t: seq<T>, key: T -> K)
    requires Unique(s, key) && Unique(t, key)
    requires forall x :: x in s || x in t ==> Lookup(s, key, key(x)) == Lookup(t, key, key(x))
    ensures Elements(s) == Elements(t)
  {
    forall x | x in s || x in t ensures x in s && x in t {
      LookupMember(s, key, x);
      LookupMember(t, key, x);
    }
  }

  /** And lists with unique keys and the same elements answer alike. */
  lemma SameLookup<T, K>(s: seq<T>, t: seq<T>, key: T -> K, k: K)
    requires Unique(s, key) && Unique(t, key) && Elements(s) == Elements(t)
    ensures Lookup(s, key, k) == Lookup(t, key, k)
  {
    forall x ensures x in s <==> x in t {
      assert x in Elements(s) <==> x in Elements(t);
    }
    if Lookup(s, key, k).Some? {
      LookupMember(t, key, Lookup(s, key, k).value);
    }
  }

  lemma FilterUnique<T, K>(s: seq<T>, key: T -> K, p: T -> bool)
    requires Unique(s, key)
    ensures Unique(Filter(s, p), key)
  {
    if s != [] {
      FilterLookup(s, key, p, key(s[0]));
    }
  }

  // What the list functions do at the position a linear search finds.

  lemma {:induction false} AtPosition<T, K>(s: seq<T>, key: T -> K, x: T, i: nat)
    requires i <= |s|
    requires forall j :: 0 <= j < i ==> key(s[j]) != key(x)
    requires i < |s| ==> key(s[i]) == key(x)
    ensures Upsert(s, key, x) == if i < |s| then s[i := x] else s + [x]
    ensures Lookup(s, key, key(x)) == if i < |s| then Some(s[i]) else None
  {
    if i > 0 {
      AtPosition(s[1..], key, x, i - 1);
    }
  }

  lemma {:induction false} RemoveAtPosition<T, K>(s: seq<T>, key: T -> K, k: K, i: nat)
    requires i <= |s|
    requires forall j :: 0 <= j < i ==> key(s[j]) != k
    requires i < |s| ==> key(s[i]) == k
    ensures RemoveKey(s, key, k) == if i < |s| then s[..i] + s[i + 1..] else s
    ensures Lookup(s, key, k) == if i < |s| then Some(s[i]) else None
  {
    if i > 0 {
      var t := s[1..];
      RemoveAtPosition(t, key, k, i - 1);
      assert RemoveKey(s, key, k) == [s[0]] + RemoveKey(t, key, k);
      hide RemoveKey;
      if i < |s| {
        assert t[i - 1] == s[i];
        assert [s[0]] + (t[..i - 1] + t[i..]) == s[..i] + s[i + 1..];
      } else {
        assert [s[0]] + t == s;
      }
    }
  }
}
