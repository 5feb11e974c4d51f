/** Names for pasted records: the first free candidate, and the renaming of a list of names. */
module UniqueIds {
  import opened Prelude

  const DIGITS := "0123456789"

  function Decimal(n: nat): string {
    if n < 10 then [DIGITS[n]] else Decimal(n / 10) + [DIGITS[n % 10]]
  }

  function DigitValue(c: char): nat {
    if '0' <= c <= '9' then (c as int) - ('0' as int) else 0
  }

  function ValueOf(s: string): nat {
    if s == "" then 0 else 10 * ValueOf(s[..|s| - 1]) + DigitValue(s[|s| - 1])
  }

  lemma {:induction false} DecimalRoundTrip(n: nat)
    ensures ValueOf(Decimal(n)) == n
  {
    if n < 10 {
      assert DigitValue(DIGITS[n]) == n;
      assert Decimal(n)[..0] == "";
    } else {
      DecimalRoundTrip(n / 10);
      assert DigitValue(DIGITS[n % 10]) == n % 10;
      assert Decimal(n)[..|Decimal(n)| - 1] == Decimal(n / 10);
    }
  }

  /** `base-copy`, then `base-copy-2`, `base-copy-3` and so on. */
  function Candidate(base: string, k: nat): string {
    if k < 2 then base + "-copy" else base + "-copy-" + Decimal(k)
  }

  lemma CandidatesDiffer(base: string, j: nat, k: nat)
    requires 1 <= j < k
    ensures Candidate(base, j) != Candidate(base, k)
  {
    DecimalRoundTrip(j);
    DecimalRoundTrip(k);
    var n := |base| + 6;
    assert Candidate(base, k)[n..] == Decimal(k);
    if j > 1 {
      assert Candidate(base, j)[n..] == Decimal(j);
    }
  }

  /** `id` is the first candidate that is not taken; there is exactly one such id. */
  ghost predicate FirstFree(base: string, taken: set<string>, id: string) {
    id !in taken && exists k :: k >= 1 && id == Candidate(base, k) && forall j :: 1 <= j < k ==>
      Candidate(base, j) in taken
  }

  lemma FirstFreeIsUnique(base: string, taken: set<string>, a: string, b: string)
    requires FirstFree(base, taken, a) && FirstFree(base, taken, b)
    ensures a == b
  {
    var j :| j >= 1 && a == Candidate(base, j) && forall i :: 1 <= i < j ==> Candidate(base, i) in taken;
    var k :| k >= 1 && b == Candidate(base, k) && forall i :: 1 <= i < k ==> Candidate(base, i) in taken;
  }

  /** The candidates tried so far are all taken and all different, so the search ends. */
  method UniqueId(base: string, taken: set<string>) returns (id: string)
    ensures FirstFree(base, taken, id)
  {
    var copy := base + "-copy";
    assert copy == Candidate(base, 1);
    if copy !in taken {
      return copy;
    }
    var index := 2;
    ghost var tried := {copy};
    while base + "-copy-" + Decimal(index) in taken
      invariant index >= 2 && tried <= taken && |tried| == index - 1
      invariant tried == set k | 1 <= k < index :: Candidate(base, k)
      decreases |taken| - |tried|
    {
      var candidate := Candidate(base, index);
      if candidate in tried {
        var k :| 1 <= k < index && candidate == Candidate(base, k);
        CandidatesDiffer(base, k, index);
      }
      tried := tried + {candidate};
      SubsetSize(tried, taken);
      index := index + 1;
    }
    id := base + "-copy-" + Decimal(index);
    assert id == Candidate(base, index);
  }

  /** Every name gets a name of its own that is neither in use nor given to another. */
  method RemapIds(ids: seq<string>, existing: set<string>) returns (remapped: map<string, string>)
    ensures remapped.Keys == Elements(ids)
    ensures Renaming(remapped, existing)
    ensures Distinct(ids) ==> forall i :: 0 <= i < |ids| ==>
            FirstFree(ids[i], existing + Given(ids[..i], remapped), remapped[ids[i]])
  {
    remapped := map[];
    for i := 0 to |ids|
      invariant remapped.Keys == Elements(ids[..i])
      invariant Renaming(remapped, existing)
      invariant Distinct(ids) ==> forall j :: 0 <= j < i ==>
                FirstFree(ids[j], existing + Given(ids[..j], remapped), remapped[ids[j]])
    {
      var name := UniqueId(ids[i], existing + remapped.Values);
      ghost var before := remapped;
      remapped := remapped[ids[i] := name];
      assert ids[..i + 1] == ids[..i] + [ids[i]];
      RenamingGrows(before, existing, ids[i], name);
      if Distinct(ids) {
        forall j | 0 <= j <= i ensures Given(ids[..j], remapped) == Given(ids[..j], before) {
          assert forall x :: x in ids[..j] ==> x in ids[..i];
          GivenAgrees(ids[..j], remapped, before);
        }
        assert Given(ids[..i], before) == before.Values by { GivenAll(ids[..i], before); }
      }
    }
    assert ids[..|ids|] == ids;
  }

  ghost function Given(ids: seq<string>, m: map<string, string>): set<string> {
    set x | x in ids && x in m :: m[x]
  }

  lemma GivenAgrees(ids: seq<string>, m: map<string, string>, n: map<string, string>)
    requires forall x :: x in ids ==> x in m && x in n && m[x] == n[x]
    ensures Given(ids, m) == Given(ids, n)
  {
  }

  lemma GivenAll(ids: seq<string>, m: map<string, string>)
    requires m.Keys == Elements(ids)
    ensures Given(ids, m) == m.Values
  {
    forall v | v in m.Values ensures v in Given(ids, m) {
      var x :| x in m && m[x] == v;
      assert x in Elements(ids);
    }
  }

  /** Injective, and away from the names in use. */
  ghost predicate Renaming(m: map<string, string>, existing: set<string>) {
    && (forall x :: x in m ==> m[x] !in existing)
    && (forall x, y :: x in m && y in m && m[x] == m[y] ==> x == y)
  }

  lemma RenamingGrows(m: map<string, string>, existing: set<string>, id: string, name: string)
    requires Renaming(m, existing) && name !in existing && name !in m.Values
    ensures Renaming(m[id := name], existing)
  {
    var n := m[id := name];
    forall x, y | x in n && y in n && n[x] == n[y] ensures x == y {
      assert x != id ==> m[x] in m.Values;
      assert y != id ==> m[y] in m.Values;
    }
  }
}
