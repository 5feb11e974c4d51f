/** The four z-order commands on the stack of records, bottom first. */
module Layers {
  import opened Prelude
  import opened Records

  type I32 = x: int | -0x8000_0000 <= x <= 0x7FFF_FFFF

  datatype LayerRecord = LayerRecord(id: RecordId, z: I32, ordinal: nat, selected: bool)

  datatype ZOrderCommand = BringToFront | BringForward | SendBackward | SendToBack

  function Selected(r: LayerRecord): bool { r.selected }
  function Unselected(r: LayerRecord): bool { !r.selected }

  // The orders.

  function Front(s: seq<LayerRecord>): seq<LayerRecord> {
    Filter(s, Unselected) + Filter(s, Selected)
  }

  function Back(s: seq<LayerRecord>): seq<LayerRecord> {
    Filter(s, Selected) + Filter(s, Unselected)
  }

  /** From the top down, a selected record changes places with an unselected one right above it. */
  function Forward(s: seq<LayerRecord>): (r: seq<LayerRecord>)
    ensures |r| == |s|
  {
    if s == [] then [] else Raise(s[0], Forward(s[1..]))
  }

  function Raise(x: LayerRecord, r: seq<LayerRecord>): seq<LayerRecord> {
    if x.selected && r != [] && !r[0].selected then [r[0], x] + r[1..] else [x] + r
  }

  /** From the bottom up, a selected record changes places with an unselected one right below it. */
  function Backward(s: seq<LayerRecord>): (r: seq<LayerRecord>)
    ensures |r| == |s|
  {
    if s == [] then [] else Lower(Backward(s[..|s| - 1]), s[|s| - 1])
  }

  function Lower(r: seq<LayerRecord>, x: LayerRecord): seq<LayerRecord> {
    if x.selected && r != [] && !r[|r| - 1].selected then r[..|r| - 1] + [x, r[|r| - 1]] else r + [x]
  }

  function Reorder(s: seq<LayerRecord>, command: ZOrderCommand): seq<LayerRecord> {
    match command
    case BringToFront => Front(s)
    case BringForward => Forward(s)
    case SendBackward => Backward(s)
    case SendToBack => Back(s)
  }

  // The loops.

  method ForwardInPlace(records: array<LayerRecord>)
    modifies records
    ensures records[..] == Forward(old(records[..]))
  {
    ghost var was := records[..];
    var index := records.Length;
    assert Forward(was[index..]) == [];
    hide Forward, Raise;
    while index > 0
      invariant 0 <= index <= records.Length
      invariant forall k :: 0 <= k < index ==> records[k] == was[k]
      invariant forall k :: index <= k < records.Length ==> records[k] == Forward(was[index..])[k - index]
    {
      index := index - 1;
      ghost var r := Forward(was[index + 1..]);
      ForwardStep(was, index);
      RaiseAt(was[index], r);
      assert forall k :: index < k < records.Length ==> records[k] == r[k - index - 1];
      var next := index + 1;
      if records[index].selected && next < records.Length && !records[next].selected {
        records[index], records[next] := records[next], records[index];
      }
    }
    assert was[0..] == was;
  }

  lemma RaiseAt(x: LayerRecord, r: seq<LayerRecord>)
    ensures var t, swap := Raise(x, r), x.selected && r != [] && !r[0].selected;
            && |t| == |r| + 1
            && t[0] == (if swap then r[0] else x)
            && (r != [] ==> t[1] == if swap then x else r[0])
            && forall k :: 2 <= k < |t| ==> t[k] == r[k - 1]
  {
  }

  lemma ForwardStep(s: seq<LayerRecord>, index: nat)
    requires index < |s|
    ensures Forward(s[index..]) == Raise(s[index], Forward(s[index + 1..]))
  {
    assert s[index..][1..] == s[index + 1..];
  }

  method BackwardInPlace(records: array<LayerRecord>)
    modifies records
    ensures records[..] == Backward(old(records[..]))
  {
    ghost var was := records[..];
    for index := 0 to records.Length
      invariant records[index..] == was[index..]
      invariant records[..index] == Backward(was[..index])
    {
      assert was[..index + 1][..index] == was[..index];
      assert records[index] == was[index..][0];
      assert records[..index + 1] == Backward(was[..index]) + [was[index]];
      if records[index].selected && index > 0 && !records[index - 1].selected {
        ghost var r := Backward(was[..index]);
        assert records[index - 1] == records[..index][index - 1];
        records[index - 1], records[index] := records[index], records[index - 1];
        assert records[..index - 1] == r[..index - 1];
        assert records[..index + 1] == r[..index - 1] + [was[index], r[index - 1]];
      }
      assert records[index + 1..] == was[index + 1..];
    }
    assert records[..records.Length] == records[..] && was[..records.Length] == was;
  }

  /** Splits off the selected records, keeping the order on both sides. */
  method Split(records: seq<LayerRecord>) returns (kept: seq<LayerRecord>, selected: seq<LayerRecord>)
    ensures kept == Filter(records, Unselected) && selected == Filter(records, Selected)
  {
    kept, selected := [], [];
    for i := 0 to |records|
      invariant kept == Filter(records[..i], Unselected) && selected == Filter(records[..i], Selected)
    {
      assert records[..i + 1] == records[..i] + [records[i]];
      FilterConcat(records[..i], [records[i]], Unselected);
      FilterConcat(records[..i], [records[i]], Selected);
      if records[i].selected {
        selected := selected + [records[i]];
      } else {
        kept := kept + [records[i]];
      }
    }
    assert records[..|records|] == records;
  }

  method ReorderInPlace(records: array<LayerRecord>, command: ZOrderCommand)
    modifies records
    ensures records[..] == Reorder(old(records[..]), command)
  {
    match command {
      case BringForward => ForwardInPlace(records);
      case SendBackward => BackwardInPlace(records);
      case BringToFront =>
        var kept, selected := Split(records[..]);
        KeepsBothOrders(records[..], command);
        SplitSize(records[..]);
        Refill(records, kept + selected);
      case SendToBack =>
        var kept, selected := Split(records[..]);
        SplitSize(records[..]);
        Refill(records, selected + kept);
    }
  }

  method Refill(records: array<LayerRecord>, s: seq<LayerRecord>)
    requires |s| == records.Length
    modifies records
    ensures records[..] == s
  {
    for i := 0 to |s|
      invariant records[..i] == s[..i]
    {
      records[i] := s[i];
      assert records[..i + 1] == records[..i] + [s[i]];
    }
  }

  // What every command keeps.

  lemma {:induction false} SplitSize(s: seq<LayerRecord>)
    ensures |Filter(s, Selected)| + |Filter(s, Unselected)| == |s|
  {
    if s != [] {
      SplitSize(s[1..]);
    }
  }

  lemma FilterCons(x: LayerRecord, s: seq<LayerRecord>, p: LayerRecord -> bool)
    ensures Filter([x] + s, p) == (if p(x) then [x] else []) + Filter(s, p)
  {
  }

  lemma {:induction false} ForwardKeeps(s: seq<LayerRecord>, p: LayerRecord -> bool)
    requires p == Selected || p == Unselected
    ensures Filter(Forward(s), p) == Filter(s, p)
  {
    if s != [] {
      var x, r := s[0], Forward(s[1..]);
      ForwardKeeps(s[1..], p);
      FilterCons(x, r, p);
      if r != [] {
        assert r == [r[0]] + r[1..];
        FilterCons(r[0], r[1..], p);
        FilterCons(x, r[1..], p);
        FilterCons(r[0], [x] + r[1..], p);
        assert [r[0]] + ([x] + r[1..]) == [r[0], x] + r[1..];
      }
    }
  }

  lemma {:induction false} ReversedConcat(s: seq<LayerRecord>, t: seq<LayerRecord>)
    ensures Reversed(s + t) == Reversed(t) + Reversed(s)
  {
    if s == [] {
      assert s + t == t;
    } else {
      assert (s + t)[1..] == s[1..] + t;
      ReversedConcat(s[1..], t);
    }
  }

  function Reversed(s: seq<LayerRecord>): (r: seq<LayerRecord>)
    ensures |r| == |s|
  {
    if s == [] then [] else Reversed(s[1..]) + [s[0]]
  }

  lemma {:induction false} ReversedTwice(s: seq<LayerRecord>)
    ensures Reversed(Reversed(s)) == s
  {
    if s != [] {
      ReversedTwice(s[1..]);
      ReversedConcat(Reversed(s[1..]), [s[0]]);
    }
  }

  lemma {:induction false} FilterReversed(s: seq<LayerRecord>, p: LayerRecord -> bool)
    ensures Filter(Reversed(s), p) == Reversed(Filter(s, p))
  {
    if s != [] {
      FilterReversed(s[1..], p);
      FilterConcat(Reversed(s[1..]), [s[0]], p);
      ReversedConcat(if p(s[0]) then [s[0]] else [], Filter(s[1..], p));
    }
  }

  lemma ReversedRaise(x: LayerRecord, r: seq<LayerRecord>)
    ensures Reversed(Raise(x, r)) == Lower(Reversed(r), x)
  {
    if r != [] {
      assert r == [r[0]] + r[1..];
      var rest := Reversed(r[1..]);
      assert Reversed(r) == rest + [r[0]];
      assert ([r[0], x] + r[1..])[1..] == [x] + r[1..];
      assert Reversed([r[0], x] + r[1..]) == rest + [x] + [r[0]];
    }
    assert Reversed([x] + r) == Reversed(r) + [x];
  }

  /** Sending backward is bringing forward in the mirror. */
  lemma {:induction false} BackwardIsMirror(s: seq<LayerRecord>)
    ensures Backward(s) == Reversed(Forward(Reversed(s)))
  {
    if s != [] {
      var n := |s| - 1;
      var init, x := s[..n], s[n];
      assert s == init + [x];
      BackwardIsMirror(init);
      ReversedConcat(init, [x]);
      assert Reversed(s) == [x] + Reversed(init);
      assert ([x] + Reversed(init))[1..] == Reversed(init);
      ReversedRaise(x, Forward(Reversed(init)));
    }
  }

  lemma BackIsMirror(s: seq<LayerRecord>)
    ensures Back(s) == Reversed(Front(Reversed(s)))
  {
    var sel, un := Filter(s, Selected), Filter(s, Unselected);
    FilterReversed(s, Selected);
    FilterReversed(s, Unselected);
    ReversedConcat(Reversed(un), Reversed(sel));
    ReversedTwice(un);
    ReversedTwice(sel);
  }

  lemma FilterTwice(s: seq<LayerRecord>)
    ensures Filter(Filter(s, Selected), Selected) == Filter(s, Selected)
    ensures Filter(Filter(s, Unselected), Unselected) == Filter(s, Unselected)
    ensures Filter(Filter(s, Selected), Unselected) == [] && Filter(Filter(s, Unselected), Selected) == []
  {
    FilterMembers(s, Selected);
    FilterMembers(s, Unselected);
    FilterAll(Filter(s, Selected), Selected);
    FilterAll(Filter(s, Unselected), Unselected);
    FilterNone(Filter(s, Selected), Unselected);
    FilterNone(Filter(s, Unselected), Selected);
  }

  /** No command loses, adds or changes a record, and none reorders within the selected or within the others. */
  lemma KeepsBothOrders(s: seq<LayerRecord>, command: ZOrderCommand)
    ensures Filter(Reorder(s, command), Selected) == Filter(s, Selected)
    ensures Filter(Reorder(s, command), Unselected) == Filter(s, Unselected)
    ensures |Reorder(s, command)| == |s|
    ensures forall x :: x in Reorder(s, command) <==> x in s
  {
    var sel, un := Filter(s, Selected), Filter(s, Unselected);
    FilterTwice(s);
    match command {
      case BringToFront =>
        FilterConcat(un, sel, Selected);
        FilterConcat(un, sel, Unselected);
      case SendToBack =>
        FilterConcat(sel, un, Selected);
        FilterConcat(sel, un, Unselected);
      case BringForward =>
        ForwardKeeps(s, Selected);
        ForwardKeeps(s, Unselected);
      case SendBackward =>
        BackwardKeeps(s, Selected);
        BackwardKeeps(s, Unselected);
    }
    SplitSize(s);
    SplitSize(Reorder(s, command));
    forall x ensures x in Reorder(s, command) <==> x in s {
      FilterMember(s, Selected, x);
      FilterMember(s, Unselected, x);
      FilterMember(Reorder(s, command), Selected, x);
      FilterMember(Reorder(s, command), Unselected, x);
    }
  }

  lemma BackwardKeeps(s: seq<LayerRecord>, p: LayerRecord -> bool)
    requires p == Selected || p == Unselected
    ensures Filter(Backward(s), p) == Filter(s, p)
  {
    BackwardIsMirror(s);
    FilterReversed(Forward(Reversed(s)), p);
    ForwardKeeps(Reversed(s), p);
    FilterReversed(s, p);
    ReversedTwice(Filter(s, p));
  }

  // Repetition.

  /** The pairs of a selected record somewhere below an unselected one. */
  function Inversions(s: seq<LayerRecord>): nat {
    if s == [] then 0
    else (if s[0].selected then |Filter(s[1..], Unselected)| else 0) + Inversions(s[1..])
  }

  /** A block of selected records steps over the record above it, whatever stands higher. */
  lemma {:induction false} ForwardMovesBlocks(run: seq<LayerRecord>, over: LayerRecord, rest: seq<LayerRecord>)
    requires !over.selected && forall x :: x in run ==> x.selected
    ensures Forward(run + [over] + rest) == [over] + run + Forward(rest)
  {
    var s := run + [over] + rest;
    ForwardStep(s, 0);
    assert s[0..] == s;
    hide Forward;
    if run == [] {
      assert s[1..] == rest;
    } else {
      ForwardMovesBlocks(run[1..], over, rest);
      assert s[1..] == run[1..] + [over] + rest;
      assert run[0] in run;
      var r := [over] + run[1..] + Forward(rest);
      assert r[1..] == run[1..] + Forward(rest);
      assert Raise(run[0], r) == [over, run[0]] + (run[1..] + Forward(rest));
    }
  }

  /** Each pass strictly lowers the number of such pairs, or changes nothing. */
  lemma {:induction false} ForwardLowersInversions(s: seq<LayerRecord>)
    ensures Inversions(Forward(s)) <= Inversions(s)
    ensures Forward(s) != s ==> Inversions(Forward(s)) < Inversions(s)
  {
    if s != [] {
      var x, r := s[0], Forward(s[1..]);
      ForwardLowersInversions(s[1..]);
      ForwardKeeps(s[1..], Unselected);
      if x.selected && r != [] && !r[0].selected {
        assert r == [r[0]] + r[1..];
        assert Forward(s)[1..] == [x] + r[1..];
        assert ([x] + r[1..])[1..] == r[1..];
      } else {
        assert Forward(s) == [x] + r;
        assert Forward(s)[1..] == r;
      }
    }
  }

  lemma FrontOfSelected(x: LayerRecord, t: seq<LayerRecord>)
    requires x.selected
    ensures Front([x] + t) == [x] + t <==> Filter(t, Unselected) == []
    ensures Filter(t, Unselected) == [] ==> Front(t) == t
  {
    FilterCons(x, t, Selected);
    FilterCons(x, t, Unselected);
    var un := Filter(t, Unselected);
    if un == [] {
      SplitSize(t);
      FilterLength(t, Selected);
    } else {
      FilterMember(t, Unselected, un[0]);
      assert Front([x] + t)[0] == un[0];
    }
  }

  lemma FrontOfUnselected(x: LayerRecord, t: seq<LayerRecord>)
    requires !x.selected
    ensures Front([x] + t) == [x] + t <==> Front(t) == t
  {
    FilterCons(x, t, Selected);
    FilterCons(x, t, Unselected);
    hide Filter;
    assert Front([x] + t) == [x] + Front(t);
    assert Front([x] + t)[1..] == Front(t);
    assert ([x] + t)[1..] == t;
  }

  /** Nothing moves exactly when the selected records are already in front. */
  lemma {:induction false} StillIsFront(s: seq<LayerRecord>)
    ensures Forward(s) == s <==> s == Front(s)
    ensures s == Front(s) <==> Inversions(s) == 0
  {
    if s != [] {
      var x, t := s[0], s[1..];
      assert s == [x] + t;
      StillIsFront(t);
      if x.selected {
        FrontOfSelected(x, t);
      } else {
        FrontOfUnselected(x, t);
      }
      ForwardKeeps(t, Unselected);
      RaiseStill(x, t, Forward(t));
      hide Front, Filter;
    }
  }

  lemma RaiseStill(x: LayerRecord, t: seq<LayerRecord>, r: seq<LayerRecord>)
    requires Filter(r, Unselected) == Filter(t, Unselected) && (r == t ==> t == Front(t))
    ensures Raise(x, r) == [x] + t <==> r == t && (x.selected ==> Filter(t, Unselected) == [])
  {
    assert Raise(x, r) == [x] + r ==> Raise(x, r)[1..] == r;
    assert ([x] + t)[1..] == t && ([x] + t)[0] == x;
    if r == t && x.selected && Filter(t, Unselected) != [] {
      var un := Filter(t, Unselected);
      assert t[0] == Front(t)[0] == un[0];
      FilterMember(t, Unselected, un[0]);
    } else if r == t && t != [] {
      FilterMember(t, Unselected, t[0]);
    }
  }

  /** Bringing forward until nothing moves. */
  function ForwardUntilStill(s: seq<LayerRecord>): seq<LayerRecord>
    decreases Inversions(s)
  {
    ForwardLowersInversions(s);
    if Forward(s) == s then s else ForwardUntilStill(Forward(s))
  }

  lemma {:induction false} RepeatedForwardIsFront(s: seq<LayerRecord>)
    ensures ForwardUntilStill(s) == Front(s)
    decreases Inversions(s)
  {
    ForwardLowersInversions(s);
    if Forward(s) == s {
      StillIsFront(s);
    } else {
      RepeatedForwardIsFront(Forward(s));
      ForwardKeeps(s, Selected);
      ForwardKeeps(s, Unselected);
    }
  }

  function BackwardUntilStill(s: seq<LayerRecord>): seq<LayerRecord>
    decreases Inversions(Reversed(s))
  {
    BackwardLowersInversions(s);
    if Backward(s) == s then s else BackwardUntilStill(Backward(s))
  }

  lemma BackwardLowersInversions(s: seq<LayerRecord>)
    ensures Reversed(Backward(s)) == Forward(Reversed(s))
    ensures Backward(s) != s ==> Inversions(Reversed(Backward(s))) < Inversions(Reversed(s))
    ensures Backward(s) == s <==> Forward(Reversed(s)) == Reversed(s)
  {
    BackwardIsMirror(s);
    ReversedTwice(Forward(Reversed(s)));
    ReversedTwice(s);
    ForwardLowersInversions(Reversed(s));
  }

  lemma {:induction false} RepeatedBackwardIsBack(s: seq<LayerRecord>)
    ensures BackwardUntilStill(s) == Back(s)
    decreases Inversions(Reversed(s))
  {
    BackwardLowersInversions(s);
    if Backward(s) == s {
      StillIsFront(Reversed(s));
      BackIsMirror(s);
      ReversedTwice(s);
    } else {
      RepeatedBackwardIsBack(Backward(s));
      BackwardKeeps(s, Selected);
      BackwardKeeps(s, Unselected);
    }
  }
}
