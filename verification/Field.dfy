/** Arithmetic modulo a prime by additions alone, and the curve equation over it. */
module Field {

  function AddMod(a: nat, b: nat, p: nat): (r: nat)
    requires a < p && b < p
    ensures r < p
  {
    if a + b < p then a + b else a + b - p
  }

  /** Double and add. */
  function MulMod(a: nat, b: nat, p: nat): (r: nat)
    requires a < p
    ensures r < p
    decreases b
  {
    if b == 0 then 0
    else
      var half := MulMod(a, b / 2, p);
      var twice := AddMod(half, half, p);
      if b % 2 == 0 then twice else AddMod(twice, a, p)
  }

  /** `x^3 - 3x + b`. */
  function RightSide(x: nat, b: nat, p: nat): (r: nat)
    requires 3 < p && b < p && x < p
    ensures r < p
  {
    AddMod(AddMod(MulMod(MulMod(x, x, p), x, p), MulMod(p - 3, x, p), p), b, p)
  }

  /** `y^2 = x^3 - 3x + b` over the field of `p` elements. */
  predicate OnCurve(x: nat, y: nat, b: nat, p: nat)
    requires 3 < p && b < p
  {
    x < p && y < p && MulMod(y, y, p) == RightSide(x, b, p)
  }

  lemma Multiple(d: int, p: nat)
    ensures d > 0 ==> d * p >= p
    ensures d < 0 ==> d * p + p <= 0
  {}

  lemma SameQuotient(q: int, k: int, t: nat, r: nat, p: nat)
    requires t < p && r < p && q * p + t == k * p + r
    ensures t == r
  {
    assert (q - k) * p == r - t;
    Multiple(q - k, p);
  }

  lemma RemainderIsUnique(n: int, k: int, r: nat, p: nat)
    requires r < p && n == k * p + r
    ensures n % p == r
  {
    SameQuotient(n / p, k, n % p, r, p);
  }

  lemma DoubledProduct(a: nat, half: nat, odd: nat, k: int, h: nat, p: nat)
    requires a * half == k * p + h
    ensures a * (2 * half + odd) == (2 * k) * p + 2 * h + a * odd
  {}

  lemma OneLess(k: int, p: nat)
    ensures (k + 1) * p == k * p + p
  {}

  lemma {:induction false} MulModQuotient(a: nat, b: nat, p: nat) returns (k: int)
    requires a < p
    ensures a * b == k * p + MulMod(a, b, p)
    decreases b
  {
    if b == 0 {
      k := 0;
    } else {
      var half := MulModQuotient(a, b / 2, p);
      var h := MulMod(a, b / 2, p);
      DoubledProduct(a, b / 2, b % 2, half, h, p);
      k := 2 * half;
      if h + h >= p {
        OneLess(k, p);
        k := k + 1;
      }
      if b % 2 == 1 && AddMod(h, h, p) + a >= p {
        OneLess(k, p);
        k := k + 1;
      }
    }
  }

  lemma Expand(x: nat, k2: int, m2: nat, k3: int, m3: nat, k4: int, m4: nat, p: nat)
    requires x * x == k2 * p + m2 && m2 * x == k3 * p + m3 && (p - 3) * x == k4 * p + m4
    ensures x * x * x - 3 * x == (k2 * x + k3 + k4 - x) * p + m3 + m4
  {
    assert x * x * x == (k2 * p + m2) * x == k2 * x * p + m2 * x;
    assert (p - 3) * x == p * x - 3 * x;
    assert (k2 * x + k3 + k4 - x) * p == k2 * x * p + k3 * p + k4 * p - x * p;
  }

  lemma Carry(n: int, k: int, a: nat, b: nat, p: nat) returns (c: int)
    requires a < p && b < p && n == k * p + a + b
    ensures n == c * p + AddMod(a, b, p)
  {
    OneLess(k, p);
    c := if a + b < p then k else k + 1;
  }

  lemma RightSideQuotient(x: nat, b: nat, p: nat) returns (k: int)
    requires 3 < p && b < p && x < p
    ensures x * x * x - 3 * x + b == k * p + RightSide(x, b, p)
  {
    var m2 := MulMod(x, x, p);
    var m3, m4 := MulMod(m2, x, p), MulMod(p - 3, x, p);
    var k2 := MulModQuotient(x, x, p);
    var k3 := MulModQuotient(m2, x, p);
    var k4 := MulModQuotient(p - 3, x, p);
    Expand(x, k2, m2, k3, m3, k4, m4, p);
    k := Carry(x * x * x - 3 * x, k2 * x + k3 + k4 - x, m3, m4, p);
    k := Carry(x * x * x - 3 * x + b, k, AddMod(m3, m4, p), b, p);
  }

  /** The additions compute the equation between integers, modulo `p`. */
  lemma OnCurveIsTheEquation(x: nat, y: nat, b: nat, p: nat)
    requires 3 < p && b < p && x < p && y < p
    ensures OnCurve(x, y, b, p) <==> (y * y) % p == (x * x * x - 3 * x + b) % p
  {
    var k1 := MulModQuotient(y, y, p);
    var k2 := RightSideQuotient(x, b, p);
    RemainderIsUnique(y * y, k1, MulMod(y, y, p), p);
    RemainderIsUnique(x * x * x - 3 * x + b, k2, RightSide(x, b, p), p);
  }

  /** Both sides of the equation differ by a multiple of `p`. */
  lemma OnCurveBy(x: nat, y: nat, b: nat, p: nat, k: int)
    requires 3 < p && b < p && x < p && y < p && x * x * x - 3 * x + b == y * y + k * p
    ensures OnCurve(x, y, b, p)
  {
    var k1 := MulModQuotient(y, y, p);
    var k2 := RightSideQuotient(x, b, p);
    assert (k1 + k) * p == k1 * p + k * p;
    SameQuotient(k1 + k, k2, MulMod(y, y, p), RightSide(x, b, p), p);
  }
}
