/** Renumbering of a reordered stack, in 32-bit integers, and the order the new numbers give. */
module LayerNumbers {
  import opened Prelude
  import opened Records
  import opened Layers
  import opened Sorting

  const MAX_I32: I32 := 0x7FFF_FFFF
  const MIN_I32: I32 := -0x8000_0000

  function SaturatingAdd(a: I32, b: I32): I32 {
    if a + b > MAX_I32 then MAX_I32 else if a + b < MIN_I32 then MIN_I32 else a + b
  }

  function SaturatingSub(a: I32, b: I32): I32 {
    if a - b > MAX_I32 then MAX_I32 else if a - b < MIN_I32 then MIN_I32 else a - b
  }

  function Clamped(n: nat): (r: I32)
    ensures 0 <= r <= n
  {
    if n <= MAX_I32 then n else MAX_I32
  }

  function BaseZ(minZ: I32, count: nat): I32 {
    var maxOffset := Clamped(if count == 0 then 0 else count - 1);
    if minZ > SaturatingSub(MAX_I32, maxOffset) then MAX_I32 - maxOffset else minZ
  }

  function LayerZ(base: I32, index: nat): I32 {
    SaturatingAdd(base, Clamped(index))
  }

  function MinZ(s: seq<LayerRecord>): I32 {
    if s == [] then 0
    else if |s| == 1 || s[0].z < MinZ(s[1..]) then s[0].z
    else MinZ(s[1..])
  }

  /**
   * No sum saturates: the place `index` gets the base plus its offset, and the base never lies above
   * the lowest record.
   */
  lemma NumbersDoNotSaturate(minZ: I32, count: nat, index: nat)
    requires index < count
    ensures var base := BaseZ(minZ, count);
            && LayerZ(base, index) == base + Clamped(index)
            && base <= minZ
            && (minZ + Clamped(count - 1) <= MAX_I32 ==> base == minZ)
            && (minZ + Clamped(count - 1) > MAX_I32 ==> base + Clamped(count - 1) == MAX_I32)
  {
  }

  type Update = (RecordId, I32)

  /** The updates for the records from place `from` on. */
  function UpdatesFrom(s: seq<LayerRecord>, base: I32, from: nat): seq<Update>
    requires from <= |s|
    decreases |s| - from
  {
    if from == |s| then []
    else
      (if LayerZ(base, from) != s[from].z then [(s[from].id, LayerZ(base, from))] else []) +
      UpdatesFrom(s, base, from + 1)
  }

  method MinimumZ(s: seq<LayerRecord>) returns (minZ: I32)
    ensures s == [] ==> minZ == 0
    ensures s != [] ==> (exists x :: x in s && x.z == minZ) && forall x :: x in s ==> minZ <= x.z
    ensures minZ == MinZ(s)
  {
    minZ := 0;
    if |s| > 0 {
      minZ := s[|s| - 1].z;
      var i := |s| - 1;
      while i > 0
        invariant 0 <= i < |s|
        invariant minZ == MinZ(s[i..])
        invariant exists k :: i <= k < |s| && s[k].z == minZ
        invariant forall k :: i <= k < |s| ==> minZ <= s[k].z
      {
        i := i - 1;
        assert s[i..][1..] == s[i + 1..];
        if s[i].z < minZ {
          minZ := s[i].z;
        }
      }
      assert s[0..] == s;
    }
  }

  method ZIndexUpdates(s: seq<LayerRecord>) returns (updates: seq<Update>)
    ensures updates == UpdatesFrom(s, BaseZ(MinZ(s), |s|), 0)
  {
    var minZ := MinimumZ(s);
    updates := NumberFrom(s, BaseZ(minZ, |s|));
  }

  method NumberFrom(s: seq<LayerRecord>, base: I32) returns (updates: seq<Update>)
    ensures updates == UpdatesFrom(s, base, 0)
  {
    hide LayerZ;
    updates := [];
    for i := 0 to |s|
      invariant updates + UpdatesFrom(s, base, i) == UpdatesFrom(s, base, 0)
    {
      ghost var rest := UpdatesFrom(s, base, i + 1);
      var z := LayerZ(base, i);
      if z != s[i].z {
        assert updates + ([(s[i].id, z)] + rest) == updates + [(s[i].id, z)] + rest;
        updates := updates + [(s[i].id, z)];
      }
    }
  }

  function IdOf(r: LayerRecord): RecordId { r.id }

  function Updates(s: seq<LayerRecord>, command: ZOrderCommand): seq<Update> {
    var t := Reorder(s, command);
    if Filter(s, Selected) == [] || Map(IdOf, t) == Map(IdOf, s) then [] else UpdatesFrom(t, BaseZ(MinZ(t), |t|), 0)
  }

  method ReorderZIndices(records: array<LayerRecord>, command: ZOrderCommand) returns (updates: seq<Update>)
    modifies records
    ensures records[..] == Reorder(old(records[..]), command)
    ensures updates == Updates(old(records[..]), command)
  {
    ghost var was := records[..];
    var any := false;
    for i := 0 to records.Length
      invariant any <==> exists k :: 0 <= k < i && was[k].selected
    {
      any := any || records[i].selected;
    }
    AnySelected(was);
    if !any {
      NothingSelected(was, command);
      return [];
    }
    var original := Map(IdOf, records[..]);
    ReorderInPlace(records, command);
    if Map(IdOf, records[..]) == original {
      return [];
    }
    updates := ZIndexUpdates(records[..]);
  }

  lemma AnySelected(s: seq<LayerRecord>)
    ensures (exists k :: 0 <= k < |s| && s[k].selected) <==> Filter(s, Selected) != []
  {
    if k :| 0 <= k < |s| && s[k].selected {
      FilterMember(s, Selected, s[k]);
    }
    if Filter(s, Selected) != [] {
      FilterMember(s, Selected, Filter(s, Selected)[0]);
    }
  }

  lemma NothingSelected(s: seq<LayerRecord>, command: ZOrderCommand)
    requires Filter(s, Selected) == []
    ensures Reorder(s, command) == s
  {
    KeepsBothOrders(s, command);
    var t := Reorder(s, command);
    SplitSize(s);
    SplitSize(t);
    FilterLength(s, Unselected);
    FilterLength(t, Unselected);
  }

  // Applying the updates and sorting again.

  /** Ids and ordinals tell the records apart. */
  ghost predicate Identified(s: seq<LayerRecord>) {
    && Distinct(s)
    && (forall x, y :: x in s && y in s && x.id == y.id ==> x == y)
    && (forall x, y :: x in s && y in s && x.ordinal == y.ordinal ==> x == y)
  }

  function NewZ(updates: seq<Update>, r: LayerRecord): I32 {
    if updates == [] then r.z else if updates[0].0 == r.id then updates[0].1 else NewZ(updates[1..], r)
  }

  function Renumber(updates: seq<Update>): LayerRecord -> LayerRecord {
    (r: LayerRecord) => r.(z := NewZ(updates, r))
  }

  predicate Under(a: LayerRecord, b: LayerRecord) {
    a.z < b.z || (a.z == b.z && a.ordinal <= b.ordinal)
  }

  ghost predicate Stacked(s: seq<LayerRecord>) {
    Sorted(s, Under)
  }

  /** The stable sort by z-index and ordinal. */
  function SortLayers(s: seq<LayerRecord>): seq<LayerRecord> {
    SortBy(s, Under)
  }

  lemma ReorderedStaysIdentified(s: seq<LayerRecord>, command: ZOrderCommand)
    requires Identified(s)
    ensures Identified(Reorder(s, command))
  {
    var t := Reorder(s, command);
    KeepsBothOrders(s, command);
    DistinctSize(s);
    assert Elements(s) == Elements(t);
    SizeDistinct(t);
  }

  lemma IdsTellPlaces(s: seq<LayerRecord>, i: nat, k: nat)
    requires Identified(s) && i < |s| && k < |s|
    ensures s[i].id == s[k].id <==> i == k
  {
    assert s[i] in s && s[k] in s;
  }

  lemma FirstNewZ(first: Update, rest: seq<Update>, r: LayerRecord)
    ensures NewZ([first] + rest, r) == if first.0 == r.id then first.1 else NewZ(rest, r)
  {
    assert ([first] + rest)[1..] == rest;
  }

  lemma {:induction false} UpdateReachesItsRecord(s: seq<LayerRecord>, base: I32, from: nat, k: nat)
    requires Identified(s) && from <= |s| && k < |s|
    ensures NewZ(UpdatesFrom(s, base, from), s[k]) == if k >= from then LayerZ(base, k) else s[k].z
    decreases |s| - from
  {
    hide Identified, LayerZ;
    if from < |s| {
      hide NewZ;
      var rest := UpdatesFrom(s, base, from + 1);
      UpdateReachesItsRecord(s, base, from + 1, k);
      IdsTellPlaces(s, from, k);
      FirstNewZ((s[from].id, LayerZ(base, from)), rest, s[k]);
      assert [] + rest == rest;
    }
  }

  /**
   * A record is reported exactly when its place gives it another number than it has: the base plus its
   * place, which stops growing at the largest 32-bit offset.
   */
  lemma {:induction false} UpdatesAre(s: seq<LayerRecord>, base: I32, from: nat, id: RecordId, z: I32)
    requires from <= |s| && (s != [] ==> base + Clamped(|s| - 1) <= MAX_I32)
    ensures (id, z) in UpdatesFrom(s, base, from) <==>
            exists k :: from <= k < |s| && s[k].id == id && s[k].z != z &&
                        z == base + (if k <= 0x7FFF_FFFF then k else 0x7FFF_FFFF)
    decreases |s| - from
  {
    if from < |s| {
      UpdatesAre(s, base, from + 1, id, z);
      assert Clamped(from) <= Clamped(|s| - 1);
      assert LayerZ(base, from) == base + (if from <= 0x7FFF_FFFF then from else 0x7FFF_FFFF);
      hide LayerZ;
    }
  }

  /** The places past the last 32-bit offset share one number, so there the ordinals must decide. */
  ghost predicate OrdinalsAscendFrom(t: seq<LayerRecord>, from: nat) {
    forall i, j :: from <= i < j < |t| ==> t[i].ordinal < t[j].ordinal
  }

  lemma RenumberedIsStackedIff(t: seq<LayerRecord>)
    requires Identified(t)
    ensures var v := Map(Renumber(UpdatesFrom(t, BaseZ(MinZ(t), |t|), 0)), t);
            Stacked(v) <==> OrdinalsAscendFrom(t, MAX_I32)
  {
    var base := BaseZ(MinZ(t), |t|);
    var updates := UpdatesFrom(t, base, 0);
    var v := Map(Renumber(updates), t);
    forall k | 0 <= k < |t| ensures v[k] == t[k].(z := base + Clamped(k)) {
      UpdateReachesItsRecord(t, base, 0, k);
      NumbersDoNotSaturate(MinZ(t), |t|, k);
    }
    StackedByOffset(t, base, v);
  }

  lemma StackedByOffset(t: seq<LayerRecord>, base: I32, v: seq<LayerRecord>)
    requires Identified(t) && |v| == |t|
    requires forall k :: 0 <= k < |t| ==> base + Clamped(k) <= MAX_I32 && v[k] == t[k].(z := base + Clamped(k))
    ensures Stacked(v) <==> OrdinalsAscendFrom(t, MAX_I32)
  {
    forall i, j | 0 <= i < j < |t| ensures Under(v[i], v[j]) <==> i < MAX_I32 || t[i].ordinal < t[j].ordinal {
      assert t[i] in t && t[j] in t && t[i] != t[j];
      assert Clamped(i) <= Clamped(j);
    }
    if Stacked(v) {
      forall i, j | MAX_I32 <= i < j < |t| ensures t[i].ordinal < t[j].ordinal {
        assert Under(v[i], v[j]);
      }
    }
  }

  lemma RenumberKeepsIdentity(s: seq<LayerRecord>, updates: seq<Update>)
    requires Identified(s)
    ensures Identified(Map(Renumber(updates), s))
  {
    var v := Map(Renumber(updates), s);
    forall i, j | 0 <= i < |s| && 0 <= j < |s| && (v[i].id == v[j].id || v[i].ordinal == v[j].ordinal) ensures i == j {
      assert v[i].id == s[i].id && v[j].id == s[j].id && s[i] in s && s[j] in s;
    }
  }

  lemma MapMembers<T, U>(f: T -> U, s: seq<T>, t: seq<T>)
    requires forall x :: x in s <==> x in t
    ensures forall y :: y in Map(f, s) <==> y in Map(f, t)
  {
    forall y | y in Map(f, s) ensures y in Map(f, t) {
      var i :| 0 <= i < |s| && Map(f, s)[i] == y;
      assert s[i] in t;
      var j :| 0 <= j < |t| && t[j] == s[i];
      assert Map(f, t)[j] == y;
    }
    forall y | y in Map(f, t) ensures y in Map(f, s) {
      var i :| 0 <= i < |t| && Map(f, t)[i] == y;
      assert t[i] in s;
      var j :| 0 <= j < |s| && s[j] == t[i];
      assert Map(f, s)[j] == y;
    }
  }

  lemma SameIdsSameList(s: seq<LayerRecord>, t: seq<LayerRecord>)
    requires Identified(s) && |s| == |t| && (forall x :: x in s <==> x in t)
    ensures Map(IdOf, t) == Map(IdOf, s) <==> t == s
  {
    if Map(IdOf, t) == Map(IdOf, s) {
      forall i | 0 <= i < |s| ensures t[i] == s[i] {
        assert Map(IdOf, t)[i] == t[i].id && Map(IdOf, s)[i] == s[i].id;
        assert t[i] in s && s[i] in s;
      }
    }
  }

  /** Sorting records equal up to order to `v` gives `v` exactly when `v` is a stack. */
  lemma SortGivesIff(u: seq<LayerRecord>, v: seq<LayerRecord>)
    requires Identified(u) && Identified(v) && forall x :: x in u <==> x in v
    ensures Map(IdOf, SortLayers(u)) == Map(IdOf, v) <==> Stacked(v)
  {
    var w := SortLayers(u);
    UnderIsPreorder();
    SortFacts(u, Under);
    SortKeepsDistinct(u, Under);
    SameSize(u, v);
    hide SortBy, TotalPreorder;
    SameIdsSameList(v, w);
    if Stacked(v) {
      OnlyEqualsTie(w, v);
      SortedIsUnique(w, v, Under);
    }
  }

  lemma UnderIsPreorder()
    ensures TotalPreorder(Under)
  {
  }

  lemma OnlyEqualsTie(s: seq<LayerRecord>, v: seq<LayerRecord>)
    requires Identified(v) && forall x :: x in s ==> x in v
    ensures forall x, y :: x in s && y in s && Under(x, y) && Under(y, x) ==> x == y
  {
  }

  /**
   * From a sorted stack: giving the records their new z-indices and sorting again yields the
   * reordered stack exactly when nothing moved or the ordinals ascend from place 2^31 - 1 on.
   */
  lemma NewNumbersGiveNewOrderIff(s: seq<LayerRecord>, command: ZOrderCommand)
    requires Identified(s) && Stacked(s)
    ensures var t := Reorder(s, command);
            var again := SortLayers(Map(Renumber(Updates(s, command)), s));
            Map(IdOf, again) == Map(IdOf, t) <==> t == s || OrdinalsAscendFrom(t, MAX_I32)
  {
    hide Reorder, Filter, Map, UpdatesFrom, BaseZ, MinZ, Identified, Stacked, OrdinalsAscendFrom, SortLayers;
    var t := Reorder(s, command);
    var updates := Updates(s, command);
    KeepsBothOrders(s, command);
    SameIdsSameList(s, t);
    ReorderedStaysIdentified(s, command);
    RenumberKeepsIdentity(s, updates);
    RenumberKeepsIdentity(t, updates);
    MapMembers(Renumber(updates), s, t);
    var v := Map(Renumber(updates), t);
    assert Map(IdOf, v) == Map(IdOf, t);
    SortGivesIff(Map(Renumber(updates), s), v);
    if t == s {
      assert v == s;
    } else {
      if Filter(s, Selected) == [] {
        NothingSelected(s, command);
      }
      RenumberedIsStackedIff(t);
    }
  }

  lemma LowestToFront(s: seq<LayerRecord>)
    requires s != [] && s[0].selected && forall i :: 0 < i < |s| ==> !s[i].selected
    ensures Reorder(s, BringToFront) == s[1..] + [s[0]]
  {
    var rest := s[1..];
    assert s == [s[0]] + rest;
    forall x | x in rest ensures !x.selected {
      var i :| 0 <= i < |rest| && rest[i] == x;
      assert s[i + 1] == x;
    }
    FilterConcat([s[0]], rest, Selected);
    FilterConcat([s[0]], rest, Unselected);
    FilterAll(rest, Unselected);
    FilterNone(rest, Selected);
    assert Filter([s[0]], Selected) == [s[0]] && Filter([s[0]], Unselected) == [];
  }

  /**
   * In a flat stack of more than 2^31 records, bringing the lowest to the front is lost: it ties with
   * the one below.
   */
  lemma LargeStackLosesOrder(s: seq<LayerRecord>)
    requires Identified(s) && Stacked(s) && |s| > 0x8000_0000 && s[0].z == s[|s| - 1].z
    requires s[0].selected && forall i :: 0 < i < |s| ==> !s[i].selected
    ensures Map(IdOf, SortLayers(Map(Renumber(Updates(s, BringToFront)), s))) != Map(IdOf, Reorder(s, BringToFront))
  {
    var t, last := Reorder(s, BringToFront), |s| - 1;
    LowestToFront(s);
    hide Reorder, Map, SortLayers, Updates;
    assert s[0] in s && s[last] in s && s[0] != s[last];
    assert Under(s[0], s[last]) && t[last] == s[0] && t[last - 1] == s[last];
    NewNumbersGiveNewOrderIff(s, BringToFront);
  }

  /** Such a stack: one number for all, ordinals from the bottom up, the lowest record selected. */
  function FlatStack(n: nat): seq<LayerRecord> {
    seq(n, i requires 0 <= i < n => LayerRecord(NodeRecord(NodeId(Name(i))), 0, i, i == 0))
  }

  function Name(length: nat): (name: string)
    ensures |name| == length
  {
    seq(length, _ => 'n')
  }

  lemma FlatStackLosesOrder(n: nat)
    requires n > 0x8000_0000
    ensures Identified(FlatStack(n)) && Stacked(FlatStack(n))
    ensures Map(IdOf, SortLayers(Map(Renumber(Updates(FlatStack(n), BringToFront)), FlatStack(n)))) != Map(IdOf,
            Reorder(FlatStack(n), BringToFront))
  {
    hide Reorder, Map, SortLayers, Updates, Renumber;
    var s := FlatStack(n);
    forall i, j | 0 <= i < n && 0 <= j < n && (s[i].id == s[j].id || s[i].ordinal == s[j].ordinal) ensures i == j {
      assert |s[i].id.node.name| == i && |s[j].id.node.name| == j;
    }
    LargeStackLosesOrder(s);
  }

  /** In particular for every stack of at most 2^31 records. */
  lemma NewNumbersGiveNewOrder(s: seq<LayerRecord>, command: ZOrderCommand)
    requires Identified(s) && Stacked(s) && |s| <= 0x8000_0000
    ensures Map(IdOf, SortLayers(Map(Renumber(Updates(s, command)), s))) == Map(IdOf, Reorder(s, command))
  {
    hide Reorder, Updates, Identified, Stacked, SortLayers, Map;
    KeepsBothOrders(s, command);
    NewNumbersGiveNewOrderIff(s, command);
  }
}
