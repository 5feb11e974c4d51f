/** Reachability in a finite directed graph, given as a set of pairs. */
module Reachability {

  /** `b` can be reached from `a` in exactly `n` steps. */
  ghost predicate ReachesIn<T(!new)>(g: set<(T, T)>, a: T, b: T, n: nat) {
    if n == 0 then a == b
    else exists c :: (a, c) in g && ReachesIn(g, c, b, n - 1)
  }

  /** Zero or more steps. */
  ghost predicate Star<T(!new)>(g: set<(T, T)>, a: T, b: T) {
    exists n: nat :: ReachesIn(g, a, b, n)
  }

  /** One or more steps. */
  ghost predicate Plus<T(!new)>(g: set<(T, T)>, a: T, b: T) {
    exists n: nat :: n > 0 && ReachesIn(g, a, b, n)
  }

  ghost predicate Acyclic<T(!new)>(g: set<(T, T)>) {
    forall x :: !Plus(g, x, x)
  }

  ghost predicate Closed<T(!new)>(g: set<(T, T)>, s: set<T>) {
    forall a, b :: (a, b) in g && a in s ==> b in s
  }

  function Flip<T(==)>(g: set<(T, T)>): set<(T, T)> {
    set e | e in g :: (e.1, e.0)
  }

  lemma StarRefl<T(!new)>(g: set<(T, T)>, a: T)
    ensures Star(g, a, a)
  {
    assert ReachesIn(g, a, a, 0);
  }

  lemma EdgeReaches<T(!new)>(g: set<(T, T)>, a: T, b: T)
    requires (a, b) in g
    ensures Plus(g, a, b)
  {
    assert ReachesIn(g, b, b, 0);
    assert ReachesIn(g, a, b, 1);
  }

  lemma {:induction false} ReachesInTrans<T(!new)>(g: set<(T, T)>, a: T, b: T, c: T, m: nat, n: nat)
    requires ReachesIn(g, a, b, m) && ReachesIn(g, b, c, n)
    ensures ReachesIn(g, a, c, m + n)
    decreases m
  {
    if m > 0 {
      var d :| (a, d) in g && ReachesIn(g, d, b, m - 1);
      ReachesInTrans(g, d, b, c, m - 1, n);
      assert ReachesIn(g, d, c, m + n - 1);
    }
  }

  lemma StarTrans<T(!new)>(g: set<(T, T)>, a: T, b: T, c: T)
    requires Star(g, a, b) && Star(g, b, c)
    ensures Star(g, a, c)
  {
    var m: nat :| ReachesIn(g, a, b, m);
    var n: nat :| ReachesIn(g, b, c, n);
    ReachesInTrans(g, a, b, c, m, n);
  }

  lemma PlusStarTrans<T(!new)>(g: set<(T, T)>, a: T, b: T, c: T)
    requires Plus(g, a, b) && Star(g, b, c)
    ensures Plus(g, a, c)
  {
    var m: nat :| m > 0 && ReachesIn(g, a, b, m);
    var n: nat :| ReachesIn(g, b, c, n);
    ReachesInTrans(g, a, b, c, m, n);
  }

  lemma StarIsEqualOrPlus<T(!new)>(g: set<(T, T)>, a: T, b: T)
    ensures Star(g, a, b) <==> a == b || Plus(g, a, b)
  {
    StarRefl(g, a);
    if Star(g, a, b) {
      var n: nat :| ReachesIn(g, a, b, n);
      assert n == 0 || Plus(g, a, b);
    }
    if Plus(g, a, b) {
      var n: nat :| n > 0 && ReachesIn(g, a, b, n);
    }
  }

  lemma PlusSplitsFirst<T(!new)>(g: set<(T, T)>, a: T, b: T) returns (c: T)
    requires Plus(g, a, b)
    ensures (a, c) in g && Star(g, c, b)
  {
    var n: nat :| n > 0 && ReachesIn(g, a, b, n);
    c :| (a, c) in g && ReachesIn(g, c, b, n - 1);
  }

  /** A closed set keeps everything that can be reached from it. */
  lemma {:induction false} ClosedKeeps<T(!new)>(g: set<(T, T)>, s: set<T>, a: T, b: T, n: nat)
    requires Closed(g, s) && a in s && ReachesIn(g, a, b, n)
    ensures b in s
    decreases n
  {
    if n > 0 {
      var c :| (a, c) in g && ReachesIn(g, c, b, n - 1);
      ClosedKeeps(g, s, c, b, n - 1);
    }
  }

  lemma ClosedKeepsStar<T(!new)>(g: set<(T, T)>, s: set<T>, a: T, b: T)
    requires Closed(g, s) && a in s && Star(g, a, b)
    ensures b in s
  {
    var n: nat :| ReachesIn(g, a, b, n);
    ClosedKeeps(g, s, a, b, n);
  }

  lemma {:induction false} FlipReachesIn<T(!new)>(g: set<(T, T)>, a: T, b: T, n: nat)
    requires ReachesIn(g, a, b, n)
    ensures ReachesIn(Flip(g), b, a, n)
    decreases n
  {
    if n > 0 {
      var c :| (a, c) in g && ReachesIn(g, c, b, n - 1);
      FlipReachesIn(g, c, b, n - 1);
      assert (c, a) in Flip(g);
      assert ReachesIn(Flip(g), a, a, 0);
      assert ReachesIn(Flip(g), c, a, 1);
      ReachesInTrans(Flip(g), b, c, a, n - 1, 1);
    }
  }

  lemma FlipFlip<T(!new)>(g: set<(T, T)>)
    ensures Flip(Flip(g)) == g
  {
    forall e | e in g ensures e in Flip(Flip(g)) {
      assert (e.1, e.0) in Flip(g);
    }
  }

  lemma FlipPlus<T(!new)>(g: set<(T, T)>, a: T, b: T)
    ensures Plus(Flip(g), b, a) <==> Plus(g, a, b)
  {
    if Plus(g, a, b) {
      var n: nat :| n > 0 && ReachesIn(g, a, b, n);
      FlipReachesIn(g, a, b, n);
    }
    if Plus(Flip(g), b, a) {
      var n: nat :| n > 0 && ReachesIn(Flip(g), b, a, n);
      FlipReachesIn(Flip(g), b, a, n);
      FlipFlip(g);
    }
  }

  /** The vertices of `g` strictly above `x`. */
  ghost function Above<T(!new)>(g: set<(T, T)>, x: T): set<T> {
    set e | e in g && Plus(g, e.0, x) :: e.0
  }

  lemma PlusIsAbove<T(!new)>(g: set<(T, T)>, y: T, x: T)
    requires Plus(g, y, x)
    ensures y in Above(g, x)
  {
    var c := PlusSplitsFirst(g, y, x);
    assert (y, c) in g && Plus(g, (y, c).0, x);
  }

  /** In an acyclic graph, a member of `s` has a member of `s` at or above it with none above that. */
  lemma {:induction false} Topmost<T(!new)>(g: set<(T, T)>, s: set<T>, x: T) returns (top: T)
    requires Acyclic(g) && x in s
    ensures top in s && Star(g, top, x)
    ensures forall z :: z in s ==> !Plus(g, z, top)
    decreases |Above(g, x)|
  {
    if z :| z in s && Plus(g, z, x) {
      assert Above(g, z) < Above(g, x) by {
        forall y | y in Above(g, z) ensures y in Above(g, x) {
          StarIsEqualOrPlus(g, z, x);
          PlusStarTrans(g, y, z, x);
          PlusIsAbove(g, y, x);
        }
        PlusIsAbove(g, z, x);
        assert z !in Above(g, z);
      }
      SmallerSet(Above(g, z), Above(g, x));
      top := Topmost(g, s, z);
      StarIsEqualOrPlus(g, z, x);
      StarTrans(g, top, z, x);
    } else {
      top := x;
      StarRefl(g, x);
    }
  }

  lemma SmallerSet<T>(a: set<T>, b: set<T>)
    requires a < b
    ensures |a| < |b|
  {
    var x :| x in b && x !in a;
    var rest := b - a;
    assert x in rest;
    assert b == a + rest;
  }

  // Graphs put side by side, and copies of graphs.

  lemma CycleFound<T(!new)>(g: set<(T, T)>, x: T, n: nat)
    requires n > 0 && ReachesIn(g, x, x, n)
    ensures !Acyclic(g)
  {
    assert Plus(g, x, x);
  }

  lemma {:induction false} StaysOnItsSide<T(!new)>(g: set<(T, T)>, part: set<(T, T)>, side: T -> bool, x: T, y: T,
                                            n: nat)
    requires side(x) && ReachesIn(g, x, y, n)
    requires forall a, b :: (a, b) in g && side(a) ==> (a, b) in part && side(b)
    ensures ReachesIn(part, x, y, n)
    decreases n
  {
    if n > 0 {
      var c :| (x, c) in g && ReachesIn(g, c, y, n - 1);
      StaysOnItsSide(g, part, side, c, y, n - 1);
    }
  }

  lemma SideBySideAcyclic<T(!new)>(g: set<(T, T)>, left: set<(T, T)>, right: set<(T, T)>, side: T -> bool,
                            other: T -> bool)
    requires Acyclic(left) && Acyclic(right) && forall x :: side(x) != other(x)
    requires forall a, b :: (a, b) in g && side(a) ==> (a, b) in left && side(b)
    requires forall a, b :: (a, b) in g && other(a) ==> (a, b) in right && other(b)
    ensures Acyclic(g)
  {
    forall x ensures !Plus(g, x, x) {
      if Plus(g, x, x) {
        var n: nat :| n > 0 && ReachesIn(g, x, x, n);
        if side(x) {
          StaysOnItsSide(g, left, side, x, x, n);
          CycleFound(left, x, n);
        } else {
          StaysOnItsSide(g, right, other, x, x, n);
          CycleFound(right, x, n);
        }
      }
    }
  }

  /** `h` has only images of steps of `g`, and `f` does not merge vertices of `g`. */
  ghost predicate ImageOf<T(!new)>(h: set<(T, T)>, g: set<(T, T)>, f: T -> T, dom: T -> bool) {
    && (forall a, b :: (a, b) in h ==> exists u, v :: (u, v) in g && f(u) == a && f(v) == b)
    && (forall u, v :: (u, v) in g ==> dom(u) && dom(v))
    && (forall u, v :: dom(u) && dom(v) && f(u) == f(v) ==> u == v)
  }

  lemma {:induction false} ImagePath<T(!new)>(h: set<(T, T)>, g: set<(T, T)>, f: T -> T, dom: T -> bool, u: T, y: T,
                                       n: nat) returns (v: T)
    requires ImageOf(h, g, f, dom) && dom(u) && ReachesIn(h, f(u), y, n)
    ensures dom(v) && f(v) == y && ReachesIn(g, u, v, n)
    decreases n
  {
    if n == 0 {
      v := u;
    } else {
      var c :| (f(u), c) in h && ReachesIn(h, c, y, n - 1);
      var u', w :| (u', w) in g && f(u') == f(u) && f(w) == c;
      v := ImagePath(h, g, f, dom, w, y, n - 1);
    }
  }

  lemma ImageAcyclic<T(!new)>(h: set<(T, T)>, g: set<(T, T)>, f: T -> T, dom: T -> bool)
    requires ImageOf(h, g, f, dom) && Acyclic(g)
    ensures Acyclic(h)
  {
    forall x ensures !Plus(h, x, x) {
      if Plus(h, x, x) {
        var n: nat :| n > 0 && ReachesIn(h, x, x, n);
        var c := PlusSplitsFirst(h, x, x);
        var u, w :| (u, w) in g && f(u) == x && f(w) == c;
        var v := ImagePath(h, g, f, dom, u, x, n);
        CycleFound(g, u, n);
      }
    }
  }

  lemma {:induction false} SubgraphReachesIn<T(!new)>(h: set<(T, T)>, g: set<(T, T)>, a: T, b: T, n: nat)
    requires h <= g && ReachesIn(h, a, b, n)
    ensures ReachesIn(g, a, b, n)
    decreases n
  {
    if n > 0 {
      var c :| (a, c) in h && ReachesIn(h, c, b, n - 1);
      SubgraphReachesIn(h, g, c, b, n - 1);
    }
  }

  lemma SubgraphAcyclic<T(!new)>(h: set<(T, T)>, g: set<(T, T)>)
    requires h <= g && Acyclic(g)
    ensures Acyclic(h)
  {
    forall x ensures !Plus(h, x, x) {
      if Plus(h, x, x) {
        var n: nat :| n > 0 && ReachesIn(h, x, x, n);
        SubgraphReachesIn(h, g, x, x, n);
        CycleFound(g, x, n);
      }
    }
  }
}
