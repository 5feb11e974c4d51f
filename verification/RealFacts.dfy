/** Inequalities over products of reals. */
module RealFacts {

  function Times(a: real, b: real): (r: real)
    ensures a >= 0.0 && b >= 0.0 ==> r >= 0.0
    ensures a > 0.0 && b > 0.0 ==> r > 0.0
  {
    a * b
  }

  function Square(a: real): (r: real)
    ensures r >= 0.0
  {
    a * a
  }

  function Clamp(t: real): (r: real)
    ensures 0.0 <= r <= 1.0
  {
    if t < 0.0 then 0.0 else if t > 1.0 then 1.0 else t
  }

  function Mix(a: real, b: real, t: real): real {
    a + t * (b - a)
  }

  lemma Between(a: real, b: real, t: real, lo: real, hi: real)
    requires 0.0 <= t <= 1.0 && lo <= a <= hi && lo <= b <= hi
    ensures lo <= Mix(a, b, t) <= hi
  {
    assert a + t * (b - a) - lo == Times(t, b - lo) + Times(1.0 - t, a - lo);
    assert hi - (a + t * (b - a)) == Times(t, hi - b) + Times(1.0 - t, hi - a);
  }

  /** One leg of a right triangle is no longer than the hypotenuse. */
  lemma WithinSquare(a: real, b: real, radius: real)
    requires radius >= 0.0 && a * a + b * b <= radius * radius
    ensures -radius <= a <= radius
  {
    assert Square(b) >= 0.0;
    assert Times(a - radius, a + radius) == a * a - radius * radius;
    assert Times(-radius - a, radius - a) == a * a - radius * radius;
  }

  /** Clamping to the unit interval gives the point of it nearest to `u`. */
  lemma ClampIsCloser(u: real, s: real)
    requires 0.0 <= s <= 1.0
    ensures (Clamp(u) - u) * (Clamp(u) - u) <= (s - u) * (s - u)
  {
    if u < 0.0 {
      assert (s - u) * (s - u) == u * u + Times(s, s - 2.0 * u);
    } else if u > 1.0 {
      assert (s - u) * (s - u) == (1.0 - u) * (1.0 - u) + Times(1.0 - s, (1.0 - s) + 2.0 * (u - 1.0));
    } else {
      assert (s - u) * (s - u) == Square(s - u);
    }
  }

  lemma CompleteSquare(t: real, u: real, l: real, dot: real)
    requires u * l == dot
    ensures l * ((t - u) * (t - u)) == t * t * l - 2.0 * t * dot + u * dot
  {
    assert l * ((t - u) * (t - u)) == t * t * l - 2.0 * t * (u * l) + u * (u * l);
  }

  /** Of two parameters, the one nearer to the minimum of a parabola has the smaller value. */
  lemma NearerToVertex(t: real, s: real, u: real, l: real, dot: real, c: real)
    requires l >= 0.0 && u * l == dot && (t - u) * (t - u) <= (s - u) * (s - u)
    ensures c - 2.0 * t * dot + t * t * l <= c - 2.0 * s * dot + s * s * l
  {
    CompleteSquare(t, u, l, dot);
    CompleteSquare(s, u, l, dot);
    assert Times(l, (s - u) * (s - u) - (t - u) * (t - u)) == l * ((s - u) * (s - u)) - l * ((t - u) * (t - u));
  }

  /** The squared distance to a point on a line, one axis at a time. */
  lemma AxisAlong(p: real, a: real, b: real, q: real, t: real, dot: real, length: real)
    requires q == Mix(a, b, t)
    requires dot == Times(p - a, b - a) && length == Square(b - a)
    ensures Square(p - q) == Square(p - a) - 2.0 * t * dot + t * t * length
  {
    assert Square(p - q) == Square(p - (a + t * (b - a)));
    assert Times(t, dot) == Times(t, (p - a) * (b - a));
    assert Times(t * t, length) == Times(t * t, (b - a) * (b - a));
  }

  lemma AddAxes(t: real, gap1: real, gap2: real, base1: real, base2: real, dot1: real, dot2: real, length1: real,
                length2: real,
                dot: real, length: real)
    requires gap1 == base1 - 2.0 * t * dot1 + t * t * length1
    requires gap2 == base2 - 2.0 * t * dot2 + t * t * length2
    requires dot == dot1 + dot2 && length == length1 + length2
    ensures gap1 + gap2 == base1 + base2 - 2.0 * t * dot + t * t * length
  {
    assert Times(t, dot) == Times(t, dot1 + dot2);
    assert Times(t * t, length) == Times(t * t, length1 + length2);
  }
}
