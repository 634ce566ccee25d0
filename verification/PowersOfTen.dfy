/** Powers of ten, as the integer table the code indexes and as the real scale its values live on. */
module PowersOfTen {

  function Pow10(n: nat): (r: nat)
    ensures r >= 1
  {
    if n == 0 then 1 else 10 * Pow10(n - 1)
  }

  ghost function Scaled(c: int, e: int): real
    decreases if e >= 0 then e else -e
  {
    if e == 0 then c as real else if e > 0 then 10.0 * Scaled(c, e - 1) else Scaled(c, e + 1) / 10.0
  }

  /** Mentioned where a proof wants the scale's law at `c` and `e`. */
  ghost predicate At(c: int, e: int)
  {
    true
  }

  /** The law of a decimal scale: exponent 0 is the coefficient, each place up is a factor of ten. */
  ghost predicate IsScale(f: (int, int) -> real)
  {
    forall c: int, e: int {:trigger At(c, e)} :: f(c, 0) == c as real && f(c, e + 1) == 10.0 * f(c, e)
  }

  /** A decimal scale, known only by its law. */
  ghost function Scale(): (f: (int, int) -> real)
  {
    var g := (c: int, e: int) => Scaled(c, e);
    assert IsScale(g);
    var f: (int, int) -> real :| IsScale(f);
    f
  }

  /** The value of coefficient `c` at exponent `e`, that is `c * 10^e`. */
  ghost function V(c: int, e: int): real
  {
    Scale()(c, e)
  }

  lemma VLaw(c: int, e: int)
    ensures V(c, 0) == c as real
    ensures V(c, e + 1) == 10.0 * V(c, e)
  {
    assert IsScale(Scale());
    assert At(c, e);
  }

  /** A product kept behind a name, so that proofs see it only where they ask. */
  ghost function Times(x: real, y: real): real
  {
    x * y
  }

  lemma {:induction false} Pow10Add(a: nat, b: nat)
    ensures Pow10(a + b) == Pow10(a) * Pow10(b)
  {
    if a != 0 {
      Pow10Add(a - 1, b);
    }
  }

  lemma {:induction false} Pow10Mono(a: nat, b: nat)
    requires a <= b
    ensures Pow10(a) <= Pow10(b)
    ensures a < b ==> 10 * Pow10(a) <= Pow10(b)
    decreases b - a
  {
    if a < b {
      Pow10Mono(a, b - 1);
    }
  }

  /** The powers the code's limits are compared with. */
  lemma Pow10Values()
    ensures Pow10(1) == 10 && Pow10(2) == 100 && Pow10(3) == 1000 && Pow10(8) == 100_000_000
    ensures Pow10(27) == 1_000_000_000_000_000_000_000_000_000
    ensures Pow10(28) == 10_000_000_000_000_000_000_000_000_000
    ensures Pow10(29) == 100_000_000_000_000_000_000_000_000_000
    ensures Pow10(38) == 100_000_000_000_000_000_000_000_000_000_000_000_000
    ensures Pow10(39) == 1_000_000_000_000_000_000_000_000_000_000_000_000_000
  {
    assert Pow10(3) == 1000;
    assert Pow10(6) == 1_000_000 by { Pow10Add(3, 3); }
    assert Pow10(9) == 1_000_000_000 by { Pow10Add(6, 3); }
    assert Pow10(18) == 1_000_000_000_000_000_000 by { Pow10Add(9, 9); }
    Pow10Add(18, 9);
    assert Pow10(36) == 1_000_000_000_000_000_000_000_000_000_000_000_000 by { Pow10Add(18, 18); }
    assert Pow10(37) == 10 * Pow10(36);
  }

  /** At one exponent, values are ordered as their coefficients are. */
  lemma {:induction false} VOrder(a: int, b: int, e: int)
    ensures a <= b <==> V(a, e) <= V(b, e)
    ensures a < b <==> V(a, e) < V(b, e)
    ensures a == b <==> V(a, e) == V(b, e)
    decreases if e >= 0 then e else -e
  {
    if e > 0 {
      VOrder(a, b, e - 1);
      VLaw(a, e - 1);
      VLaw(b, e - 1);
    } else if e < 0 {
      VOrder(a, b, e + 1);
      VLaw(a, e);
      VLaw(b, e);
    } else {
      VLaw(a, 0);
      VLaw(b, 0);
    }
  }

  lemma {:induction false} VAdd(a: int, b: int, e: int)
    ensures V(a + b, e) == V(a, e) + V(b, e)
    decreases if e >= 0 then e else -e
  {
    var f := if e > 0 then e - 1 else e;
    VLaw(a, f);
    VLaw(b, f);
    VLaw(a + b, f);
    if e > 0 {
      VAdd(a, b, e - 1);
    } else if e < 0 {
      VAdd(a, b, e + 1);
    }
  }

  lemma VZero(e: int)
    ensures V(0, e) == 0.0
  {
    VAdd(0, 0, e);
  }

  lemma VSign(c: int, e: int)
    ensures c == 0 <==> V(c, e) == 0.0
    ensures c > 0 <==> V(c, e) > 0.0
  {
    VOrder(0, c, e);
    VZero(e);
  }

  lemma VNeg(a: int, e: int)
    ensures V(-a, e) == -V(a, e)
  {
    VAdd(a, -a, e);
    VZero(e);
  }

  lemma VDouble(a: int, e: int)
    ensures V(2 * a, e) == 2.0 * V(a, e)
  {
    VAdd(a, a, e);
    assert a + a == 2 * a;
  }

  /** One place up is a factor of ten on the coefficient. */
  lemma {:induction false} VTen(c: int, e: int)
    ensures V(c, e + 1) == V(10 * c, e)
    ensures V(c, e + 1) == 10.0 * V(c, e)
    decreases if e >= 0 then e else -e
  {
    VLaw(c, e);
    if e > 0 {
      VTen(c, e - 1);
      VLaw(10 * c, e - 1);
    } else if e < 0 {
      VTen(c, e + 1);
      VLaw(10 * c, e);
      VLaw(c, e + 1);
    } else {
      VLaw(10 * c, 0);
    }
  }

  /** `c` units at exponent `i`, read in the finer units of exponent `j`. */
  lemma {:induction false} VRescale(c: int, i: int, j: int)
    requires j <= i
    ensures V(c, i) == V(c * Pow10(i - j), j)
    decreases i - j
  {
    if j < i {
      VTen(c, i - 1);
      VRescale(10 * c, i - 1, j);
      TenFirst(c, Pow10(i - j - 1));
    }
  }

  lemma TenFirst(c: int, p: nat)
    ensures (10 * c) * p == c * (10 * p)
  {
  }

  /** Comparing values at two exponents is comparing integers at the finer one. */
  lemma VCompare(a: int, i: int, b: int, j: int)
    requires j <= i
    ensures a * Pow10(i - j) <= b <==> V(a, i) <= V(b, j)
    ensures a * Pow10(i - j) < b <==> V(a, i) < V(b, j)
    ensures a * Pow10(i - j) == b <==> V(a, i) == V(b, j)
  {
    VRescale(a, i, j);
    VOrder(a * Pow10(i - j), b, j);
  }

  /** Conversion to real is multiplicative. */
  lemma {:induction false} RealMul(a: int, b: nat)
    ensures (a * b) as real == Times(a as real, b as real)
  {
    if b != 0 {
      RealMul(a, b - 1);
      assert a * b == a * (b - 1) + a;
    }
  }

  lemma TimesTen(x: real, y: real)
    ensures Times(10.0 * x, y) == 10.0 * Times(x, y)
    ensures Times(x, 10.0 * y) == 10.0 * Times(x, y)
  {
  }

  /** The product of two values multiplies coefficients and adds exponents. */
  lemma {:induction false} VMul(a: int, i: int, b: nat, j: int)
    ensures V(a * b, i + j) == Times(V(a, i), V(b, j))
    decreases if i >= 0 then i else -i, if j >= 0 then j else -j
  {
    if i > 0 {
      VMul(a, i - 1, b, j);
      VLaw(a * b, i + j - 1);
      VLaw(a, i - 1);
      TimesTen(V(a, i - 1), V(b, j));
    } else if i < 0 {
      VMul(a, i + 1, b, j);
      VLaw(a * b, i + j);
      VLaw(a, i);
      TimesTen(V(a, i), V(b, j));
    } else if j > 0 {
      VMul(a, 0, b, j - 1);
      VLaw(a * b, j - 1);
      VLaw(b, j - 1);
      TimesTen(V(a, 0), V(b, j - 1));
    } else if j < 0 {
      VMul(a, 0, b, j + 1);
      VLaw(a * b, j);
      VLaw(b, j);
      TimesTen(V(a, 0), V(b, j));
    } else {
      VLaw(a, 0);
      VLaw(b, 0);
      VLaw(a * b, 0);
      RealMul(a, b);
    }
  }

  lemma TimesLe(a: real, b: real, c: real)
    requires c > 0.0
    ensures a <= b <==> Times(a, c) <= Times(b, c)
    ensures a < b <==> Times(a, c) < Times(b, c)
  {
    assert (b - a) * c == Times(b, c) - Times(a, c);
    if a < b {
      assert (b - a) * c > 0.0;
    } else if b < a {
      assert (b - a) * c < 0.0;
    }
  }
}
