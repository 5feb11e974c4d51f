/** Fields that JSON Canvas keeps beside a record's data, and coordinates that pass through single precision. */
module JsonFields {
  import opened Prelude
  import opened Records

  // Named fields are stored in the data map and taken out again.

  function PutString(data: Data, key: string, value: Option<string>): Data {
    if value.Some? then data[key := String(value.value)] else data
  }

  /** An end field holds one of two words; any other field holds any string. */
  predicate Accepts(shaped: set<string>, key: string, s: string) {
    key in shaped ==> s == "none" || s == "arrow"
  }

  predicate Takeable(shaped: set<string>, data: Data, key: string) {
    key in data && data[key].String? && Accepts(shaped, key, data[key].s)
  }

  function TakeString(shaped: set<string>, data: Data, key: string): (Option<string>, Data) {
    if Takeable(shaped, data, key) then (Some(data[key].s), data - {key}) else (None, data)
  }

  function PutAll(data: Data, keys: seq<string>, values: seq<Option<string>>): Data
    requires |keys| == |values|
    decreases keys
  {
    if keys == [] then data else PutAll(PutString(data, keys[0], values[0]), keys[1..], values[1..])
  }

  function TakeAll(shaped: set<string>, data: Data, keys: seq<string>): (r: (seq<Option<string>>, Data))
    ensures |r.0| == |keys|
    decreases keys
  {
    if keys == [] then ([], data)
    else
      var (first, rest) := TakeString(shaped, data, keys[0]);
      var (others, extra) := TakeAll(shaped, rest, keys[1..]);
      ([first] + others, extra)
  }

  /** A key of its own name in the extra data does no harm only if it would not be taken for the field. */
  predicate KeyIsFree(shaped: set<string>, extra: Data, key: string, value: Option<string>) {
    key !in extra || (value.None? && !Takeable(shaped, extra, key))
  }

  ghost predicate Fitting(shaped: set<string>, keys: seq<string>, values: seq<Option<string>>) {
    && |keys| == |values| && Distinct(keys)
    && forall i :: 0 <= i < |keys| ==> values[i].Some? ==> Accepts(shaped, keys[i], values[i].value)
  }

  lemma {:induction false} PutElsewhere(data: Data, keys: seq<string>, values: seq<Option<string>>, k: string)
    requires |keys| == |values| && k !in keys
    ensures k in PutAll(data, keys, values) <==> k in data
    ensures k in data ==> PutAll(data, keys, values)[k] == data[k]
    ensures PutAll(data, keys, values) - {k} == PutAll(data - {k}, keys, values)
    decreases keys
  {
    if keys != [] {
      var next := PutString(data, keys[0], values[0]);
      assert keys[0] in keys && forall x :: x in keys[1..] ==> x in keys;
      PutElsewhere(next, keys[1..], values[1..], k);
      assert next - {k} == PutString(data - {k}, keys[0], values[0]);
    }
  }

  lemma {:induction false} TakeElsewhere(shaped: set<string>, data: Data, keys: seq<string>, k: string)
    requires k !in data
    ensures k !in TakeAll(shaped, data, keys).1
    decreases keys
  {
    if keys != [] {
      TakeElsewhere(shaped, TakeString(shaped, data, keys[0]).1, keys[1..], k);
    }
  }

  lemma PutThenTakeFirst(shaped: set<string>, data: Data, keys: seq<string>, values: seq<Option<string>>)
    requires Fitting(shaped, keys, values) && keys != []
    ensures var one := TakeString(shaped, PutString(data, keys[0], values[0]), keys[0]);
            TakeString(shaped, PutAll(data, keys, values), keys[0]) == (one.0, PutAll(one.1, keys[1..], values[1..]))
  {
    var next := PutString(data, keys[0], values[0]);
    PutElsewhere(next, keys[1..], values[1..], keys[0]);
  }

  lemma FirstFieldIff(shaped: set<string>, data: Data, key: string, value: Option<string>)
    requires value.Some? ==> Accepts(shaped, key, value.value)
    ensures TakeString(shaped, PutString(data, key, value), key) == (value, data) <==>
            KeyIsFree(shaped, data, key, value)
    ensures var one := TakeString(shaped, PutString(data, key, value), key);
            one == (value, data) || one.0 != value || (key in data && key !in one.1)
  {
    if value.Some? {
      assert data[key := String(value.value)] - {key} == data - {key};
      if key !in data {
        assert data - {key} == data;
      }
    }
  }

  /** Storing the fields and taking them out gives everything back exactly when every key is free. */
  lemma {:induction false} FieldsRoundTripIff(shaped: set<string>, data: Data, keys: seq<string>,
                                              values: seq<Option<string>>)
    requires Fitting(shaped, keys, values)
    ensures TakeAll(shaped, PutAll(data, keys, values), keys) == (values, data) <==>
            forall i :: 0 <= i < |keys| ==> KeyIsFree(shaped, data, keys[i], values[i])
    decreases keys
  {
    if keys == [] {
      assert values == [];
    } else {
      var one := TakeString(shaped, PutString(data, keys[0], values[0]), keys[0]);
      var tail := TakeAll(shaped, PutAll(one.1, keys[1..], values[1..]), keys[1..]);
      PutThenTakeFirst(shaped, data, keys, values);
      FirstFieldIff(shaped, data, keys[0], values[0]);
      assert values == [values[0]] + values[1..];
      assert TakeAll(shaped, PutAll(data, keys, values), keys) == ([one.0] + tail.0, tail.1);
      FieldsSplit(shaped, data, keys, values);
      if one == (values[0], data) {
        FieldsRoundTripIff(shaped, data, keys[1..], values[1..]);
        assert ([one.0] + tail.0)[1..] == tail.0;
      } else if one.0 == values[0] {
        PutElsewhere(one.1, keys[1..], values[1..], keys[0]);
        TakeElsewhere(shaped, PutAll(one.1, keys[1..], values[1..]), keys[1..], keys[0]);
      } else {
        assert ([one.0] + tail.0)[0] != values[0];
      }
    }
  }

  lemma FieldsSplit(shaped: set<string>, data: Data, keys: seq<string>, values: seq<Option<string>>)
    requires |keys| == |values| && keys != []
    ensures (forall i :: 0 <= i < |keys| ==> KeyIsFree(shaped, data, keys[i], values[i])) <==>
            KeyIsFree(shaped, data, keys[0], values[0]) &&
            (forall i :: 0 <= i < |keys[1..]| ==> KeyIsFree(shaped, data, keys[1..][i], values[1..][i]))
  {
    if forall i :: 0 <= i < |keys| ==> KeyIsFree(shaped, data, keys[i], values[i]) {
      forall i | 0 <= i < |keys[1..]| ensures KeyIsFree(shaped, data, keys[1..][i], values[1..][i]) {
        assert keys[1..][i] == keys[i + 1] && values[1..][i] == values[i + 1];
      }
    }
    if KeyIsFree(shaped, data, keys[0], values[0]) &&
       (forall i :: 0 <= i < |keys[1..]| ==> KeyIsFree(shaped, data, keys[1..][i], values[1..][i])) {
      forall i | 0 <= i < |keys| ensures KeyIsFree(shaped, data, keys[i], values[i]) {
        assert i > 0 ==> keys[1..][i - 1] == keys[i] && values[1..][i - 1] == values[i];
      }
    }
  }

  // Coordinates.

  type I64 = x: int | -0x8000_0000_0000_0000 <= x <= 0x7FFF_FFFF_FFFF_FFFF
  const MAX_I64: I64 := 0x7FFF_FFFF_FFFF_FFFF
  const MIN_I64: I64 := -0x8000_0000_0000_0000

  /** The distance between neighbouring single-precision numbers around the integer `n`, at least one. */
  function Spacing(n: nat): (u: nat)
    ensures u >= 1
  {
    if n < 0x100_0000 then 1 else 2 * Spacing(n / 2)
  }

  /** Rounding to the nearest multiple of the spacing, ties to the even one. */
  function ToSingle(n: nat): nat {
    var u := Spacing(n);
    var below := n - n % u;
    if 2 * (n % u) < u || (2 * (n % u) == u && (n / u) % 2 == 0) then below else below + u
  }

  function ToPixel(x: I64): real {
    var m := ToSingle(Magnitude(x)) as real;
    if x >= 0 then m else -m
  }

  function RoundHalfAway(v: real): int {
    if v >= 0.0 then (v + 0.5).Floor else -((0.5 - v).Floor)
  }

  function FromPixel(v: real): I64 {
    var n := RoundHalfAway(v);
    if n > MAX_I64 then MAX_I64 else if n < MIN_I64 then MIN_I64 else n
  }

  function Magnitude(x: int): nat {
    if x >= 0 then x else -x
  }

  /** The integers that are single-precision numbers, and the one the saturating cast brings back. */
  predicate Representable(x: I64) {
    Magnitude(x) % Spacing(Magnitude(x)) == 0 || x == MAX_I64
  }

  lemma RoundsInteger(n: int)
    ensures RoundHalfAway(n as real) == n
  {
  }

  lemma ToSingleIff(n: nat)
    ensures ToSingle(n) == n <==> n % Spacing(n) == 0
  {
    var u := Spacing(n);
    assert 0 <= n % u < u;
  }

  lemma {:induction false} PowerIsSingle(m: nat, k: nat)
    requires m == 0x80_0000 * Doubled(k)
    ensures m % Spacing(m) == 0
    decreases k
  {
    if k > 0 {
      var h := 0x80_0000 * Doubled(k - 1);
      PowerIsSingle(h, k - 1);
      assert m == 2 * h && m / 2 == h && m >= 0x100_0000;
      var u := Spacing(h);
      var q := h / u;
      assert h == q * u;
      assert m == q * (2 * u);
      MultipleLeavesNothing(q, 2 * u);
    }
  }

  lemma MultipleLeavesNothing(q: nat, u: nat)
    requires u > 0
    ensures (q * u) % u == 0
  {
    Remainder(q, u, 0);
  }

  lemma Remainder(q: nat, u: nat, r: nat)
    requires r < u
    ensures (q * u + r) % u == r
  {
    var a := q * u + r;
    var k, m := a / u, a % u;
    assert a == k * u + m;
    if k < q {
      Products(k + 1, q, u);
    } else if k > q {
      Products(q + 1, k, u);
    }
  }

  lemma Products(a: nat, b: nat, u: nat)
    requires a <= b
    ensures a * u <= b * u
  {
  }

  function Doubled(k: nat): (r: nat)
    ensures r >= 1
  {
    if k == 0 then 1 else 2 * Doubled(k - 1)
  }

  lemma FortyDoublings(k: nat)
    requires k == 40
    ensures Doubled(k) == 0x100_0000_0000
  {
    TenDoublings(k - 10);
    TenDoublings(k - 20);
    TenDoublings(k - 30);
    TenDoublings(k - 40);
    assert Doubled(0) == 1;
  }

  lemma LowestIsSingle()
    ensures 0x8000_0000_0000_0000 % Spacing(0x8000_0000_0000_0000) == 0
  {
    FortyDoublings(40);
    PowerIsSingle(0x8000_0000_0000_0000, 40);
  }

  lemma {:induction false} SpacingBelowPower(n: nat, k: nat)
    requires n == 0x100_0000 * Doubled(k) - 1
    ensures Spacing(n) == Doubled(k)
    decreases k
  {
    if k > 0 {
      var h := 0x100_0000 * Doubled(k - 1) - 1;
      SpacingBelowPower(h, k - 1);
      assert n / 2 == h && n >= 0x100_0000;
    }
  }

  /** The largest 64-bit integer becomes 2^63. */
  lemma LargestRoundsUp()
    ensures ToSingle(MAX_I64) > MAX_I64
  {
    FortyDoublings(40);
    assert Doubled(40) == 2 * Doubled(39);
    SpacingBelowPower(MAX_I64, 39);
    Remainder(0xFF_FFFF, 0x80_0000_0000, 0x7F_FFFF_FFFF);
  }

  lemma TenDoublings(k: nat)
    ensures Doubled(k + 10) == 0x400 * Doubled(k)
  {
    assert Doubled(k + 2) == 2 * Doubled(k + 1) == 4 * Doubled(k);
    assert Doubled(k + 4) == 2 * Doubled(k + 3) == 4 * Doubled(k + 2);
    assert Doubled(k + 6) == 2 * Doubled(k + 5) == 4 * Doubled(k + 4);
    assert Doubled(k + 8) == 2 * Doubled(k + 7) == 4 * Doubled(k + 6);
    assert Doubled(k + 10) == 2 * Doubled(k + 9) == 4 * Doubled(k + 8);
  }

  /** A coordinate survives import and export exactly when it is representable. */
  lemma CoordinateRoundTripIff(x: I64)
    ensures FromPixel(ToPixel(x)) == x <==> Representable(x)
  {
    hide ToSingle, Spacing, RoundHalfAway;
    var n := Magnitude(x);
    ToSingleIff(n);
    RoundsInteger(ToSingle(n));
    RoundsInteger(0 - ToSingle(n));
    LowestIsSingle();
    LargestRoundsUp();
    if x < 0 {
      assert ToPixel(x) == (0 - ToSingle(n)) as real;
    }
  }

  /** All integers up to 2^24 in magnitude are. */
  lemma SmallIsRepresentable(x: I64)
    requires -0x100_0000 <= x <= 0x100_0000
    ensures Representable(x)
  {
    assert Spacing(0x100_0000) == 2 * Spacing(0x80_0000);
  }
}
