/** Optional values: the result of a ray cast that may miss, or a position
    write-back that may not happen. */
module Options {
  datatype Option<+T> = None | Some(value: T)
}

/** The small slice of three.js vector arithmetic the sticker core uses,
    over exact reals. */
module Vectors {

  datatype Vec2 = Vec2(x: real, y: real)

  datatype Vec3 = Vec3(x: real, y: real, z: real)

  const Zero2: Vec2 := Vec2(0.0, 0.0)
  const Zero3: Vec3 := Vec3(0.0, 0.0, 0.0)

  function Sub2(a: Vec2, b: Vec2): Vec2 {
    Vec2(a.x - b.x, a.y - b.y)
  }

  function Add2(a: Vec2, b: Vec2): Vec2 {
    Vec2(a.x + b.x, a.y + b.y)
  }

  function Add(a: Vec3, b: Vec3): Vec3 {
    Vec3(a.x + b.x, a.y + b.y, a.z + b.z)
  }

  function Sub(a: Vec3, b: Vec3): Vec3 {
    Vec3(a.x - b.x, a.y - b.y, a.z - b.z)
  }

  function Scale(a: Vec3, k: real): Vec3 {
    Vec3(a.x * k, a.y * k, a.z * k)
  }

  /** Squared Euclidean length. */
  function SqLen(a: Vec3): real {
    a.x * a.x + a.y * a.y + a.z * a.z
  }

  /** `Vector3.lerp(v, alpha)`: every component moves by `(v - this) * alpha`. */
  function Lerp(a: Vec3, b: Vec3, alpha: real): Vec3 {
    Vec3(a.x + (b.x - a.x) * alpha, a.y + (b.y - a.y) * alpha, a.z + (b.z - a.z) * alpha)
  }

  /** `MathUtils.lerp(x, y, t)`, written the way three.js writes it. */
  function LerpScalar(x: real, y: real, t: real): real {
    (1.0 - t) * x + t * y
  }

  /** Both lerps leave the offset from their goal scaled by `1 - t`. */
  lemma LerpOffset(a: Vec3, b: Vec3, t: real)
    ensures Sub(Lerp(a, b, t), b) == Scale(Sub(a, b), 1.0 - t)
  {
  }

  lemma LerpScalarOffset(x: real, y: real, t: real)
    ensures LerpScalar(x, y, t) - y == (x - y) * (1.0 - t)
  {
  }

  /** `b` raised to the natural power `n`. */
  function Pow(b: real, n: nat): real {
    if n == 0 then 1.0 else b * Pow(b, n - 1)
  }

  lemma {:induction false} PowNonNegative(b: real, n: nat)
    requires 0.0 <= b
    ensures 0.0 <= Pow(b, n)
  {
    if n > 0 {
      PowNonNegative(b, n - 1);
    }
  }

  /** Multiplying by a non-negative factor keeps an inequality. */
  lemma MulMonotone(a: real, x: real, y: real)
    requires 0.0 <= a
    requires x <= y
    ensures a * x <= a * y
  {
  }

  lemma {:induction false} PowProduct(a: real, b: real, n: nat)
    ensures Pow(a, n) * Pow(b, n) == Pow(a * b, n)
  {
    if n > 0 {
      PowProduct(a, b, n - 1);
      var pa, pb := Pow(a, n - 1), Pow(b, n - 1);
      calc {
        Pow(a, n) * Pow(b, n);
        (a * pa) * (b * pb);
        { assert (a * pa) * (b * pb) == (a * b) * (pa * pb); }
        (a * b) * (pa * pb);
        (a * b) * Pow(a * b, n - 1);
      }
    }
  }

  /** Bernoulli's inequality: `(1 + h)^n >= 1 + n h` for `h >= 0`. */
  lemma {:induction false} Bernoulli(h: real, n: nat)
    requires 0.0 <= h
    ensures Pow(1.0 + h, n) >= 1.0 + (n as real) * h
  {
    if n > 0 {
      Bernoulli(h, n - 1);
      var p := Pow(1.0 + h, n - 1);
      var m := (n - 1) as real;
      assert Pow(1.0 + h, n) == (1.0 + h) * p;
      MulMonotone(1.0 + h, 1.0 + m * h, p);
      assert (1.0 + h) * (1.0 + m * h) == 1.0 + (m + 1.0) * h + m * (h * h);
      assert 0.0 <= m * (h * h);
    }
  }

  lemma {:induction false} PowOneIsOne(n: nat)
    ensures Pow(1.0, n) == 1.0
  {
    if n > 0 {
      PowOneIsOne(n - 1);
    }
  }

  lemma PowReciprocal(b: real, q: real, n: nat)
    requires b * q == 1.0
    ensures Pow(b, n) * Pow(q, n) == 1.0
  {
    PowProduct(b, q, n);
    PowOneIsOne(n);
  }

  /** If `x * y == 1` with `y >= 1 + d`, then `x * (1 + d) <= 1`. */
  lemma ProductBound(x: real, y: real, d: real)
    requires 0.0 <= x
    requires x * y == 1.0
    requires y >= 1.0 + d
    ensures x * (1.0 + d) <= 1.0
  {
    MulMonotone(x, 1.0 + d, y);
  }

  /** The reciprocal `q` of `b` in (0, 1) exceeds one by `(1 - b) * q`. */
  lemma ReciprocalGap(b: real, q: real)
    requires 0.0 < b < 1.0
    requires b * q == 1.0
    ensures q >= 1.0
    ensures (1.0 - b) * q == q - 1.0
  {
    if q < 1.0 {
      MulMonotone(b, q, 1.0);
    }
  }

  /** With `q` the reciprocal of `b`, `m * eps * (1 - b) >= b` gives
      `eps * (m * (q - 1)) >= 1`. */
  lemma ScaledGap(m: real, eps: real, b: real, q: real)
    requires 0.0 < b < 1.0
    requires b * q == 1.0
    requires m * eps * (1.0 - b) >= b
    ensures eps * (m * (q - 1.0)) >= 1.0
  {
    ReciprocalGap(b, q);
    var k := m * eps * (1.0 - b);
    MulMonotone(q, b, k);
    calc {
      q * k;
      m * eps * ((1.0 - b) * q);
      eps * (m * (q - 1.0));
    }
  }

  /** `p * (1 + d) <= 1` and `eps * d >= 1` force `p < eps`. */
  lemma BelowFromProduct(p: real, eps: real, d: real)
    requires p * (1.0 + d) <= 1.0
    requires eps * d >= 1.0
    requires 0.0 < eps
    ensures p < eps
  {
    if p >= eps {
      MulMonotone(1.0 + d, eps, p);
      assert false;
    }
  }

  /** A power of a ratio below one falls under any positive bound: for
      `0 < b < 1`, `b^n < eps` as soon as `n * eps * (1 - b) >= b`. */
  lemma PowBelow(b: real, eps: real, n: nat)
    requires 0.0 < b < 1.0
    requires 0.0 < eps
    requires (n as real) * eps * (1.0 - b) >= b
    ensures Pow(b, n) < eps
  {
    var q := 1.0 / b;
    assert b * q == 1.0;
    PowTimesGap(b, q, n);
    ScaledGap(n as real, eps, b, q);
    BelowFromProduct(Pow(b, n), eps, (n as real) * (q - 1.0));
  }

  /** With `q` the reciprocal of `b` in (0, 1), Bernoulli's inequality for
      `q^n` gives `b^n * (1 + n (q - 1)) <= 1`. */
  lemma PowTimesGap(b: real, q: real, n: nat)
    requires 0.0 < b < 1.0
    requires b * q == 1.0
    ensures Pow(b, n) * (1.0 + (n as real) * (q - 1.0)) <= 1.0
  {
    ReciprocalGap(b, q);
    Bernoulli(q - 1.0, n);
    PowReciprocal(b, q, n);
    PowNonNegative(b, n);
    ProductBound(Pow(b, n), Pow(q, n), (n as real) * (q - 1.0));
  }
}
