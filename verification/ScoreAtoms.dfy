/** Seed scores given as a rational, scaled to atoms and rounded up. */
module ScoreAtoms {
  import opened Basics

  const SCORE_SCALE: int := 1_000_000_000_000_000_000

  function Abs(a: int): nat { if a < 0 then -a else a }

  /** BigInt division truncates toward zero; the remainder takes the dividend's sign. */
  function TruncatedQuotient(a: int, b: int): int
    requires b != 0
  {
    if (a < 0) == (b < 0) then Abs(a) / Abs(b) else -(Abs(a) / Abs(b))
  }

  function TruncatedRemainder(a: int, b: int): int
    requires b != 0
  {
    a - TruncatedQuotient(a, b) * b
  }

  /** `q` is the least integer that is not below `num` / `den`. */
  ghost predicate IsCeiling(q: int, num: int, den: int) {
    if den > 0 then (q - 1) * den < num <= q * den else (q - 1) * -den < -num <= q * -den
  }

  method AtomsFromScoreRational(numerator: int, denominator: int) returns (r: Result<int>)
    ensures r.Err? <==> denominator == 0
    ensures r.Ok? ==> IsCeiling(r.value, numerator * 1_000_000_000_000_000_000, denominator)
  {
    var num, den := numerator, denominator;
    if den == 0 { return Err("seed score has a zero denominator"); }
    if den < 0 { num, den := -num, -den; }
    var scaled := num * SCORE_SCALE;
    var q := TruncatedQuotient(scaled, den);
    Division(Abs(scaled), den);
    if TruncatedRemainder(scaled, den) != 0 && scaled > 0 { q := q + 1; }
    assert denominator < 0 ==> scaled == -(numerator * SCORE_SCALE);
    assert (q - 1) * den < scaled <= q * den by { Rounded(scaled, den, q); }
    return Ok(q);
  }

  lemma Division(a: nat, b: int)
    requires b > 0
    ensures a / b * b <= a < a / b * b + b
  {
  }

  lemma Rounded(scaled: int, den: int, q: int)
    requires den > 0
    requires q == TruncatedQuotient(scaled, den) + if TruncatedRemainder(scaled, den) != 0 && scaled > 0 then 1 else 0
    ensures (q - 1) * den < scaled <= q * den
  {
    var t := Abs(scaled) / den;
    if scaled < 0 {
      Between(-scaled, den, t);
      assert TruncatedQuotient(scaled, den) == -t && q == -t;
    } else {
      Between(scaled, den, t);
      assert TruncatedQuotient(scaled, den) == t;
      assert TruncatedRemainder(scaled, den) == scaled - t * den;
      if scaled == t * den { assert q == t; } else { assert q == t + 1; }
    }
  }

  lemma Between(a: nat, den: int, t: int)
    requires den > 0 && t == a / den
    ensures t * den <= a < t * den + den
    ensures (t - 1) * den == t * den - den && (t + 1 - 1) * den == t * den && (t + 1) * den == t * den + den
    ensures (-t) * den == -(t * den) && (-t - 1) * den == -(t * den) - den
    ensures t * den != a ==> a > 0
  {
    Division(a, den);
    Neighbours(t, den);
  }

  lemma Neighbours(t: int, den: int)
    ensures (t - 1) * den == t * den - den && (t + 1) * den == t * den + den
    ensures (-t) * den == -(t * den) && (-t - 1) * den == -(t * den) - den
  {
  }

  // ---- What a ceiling is -----------------------------------------------------------------------

  /** Over the reals: the error is at least zero and less than one atom. */
  lemma ErrorBelowOne(q: int, num: int, den: int)
    requires den != 0 && IsCeiling(q, num, den)
    ensures 0.0 <= q as real - num as real / den as real < 1.0
  {
    var x := num as real / den as real;
    assert x * den as real == num as real;
    if den > 0 {
      RealOrder(q, num, den, x);
    } else {
      assert x * (-den) as real == (-num) as real;
      RealOrder(q, -num, -den, x);
    }
  }

  lemma RealOrder(q: int, num: int, den: int, x: real)
    requires den > 0 && (q - 1) * den < num <= q * den && x * den as real == num as real
    ensures 0.0 <= q as real - x < 1.0
  {
    var d := den as real;
    assert (q * den) as real == q as real * d;
    assert ((q - 1) * den) as real == (q as real - 1.0) * d;
    if x > q as real { Scale(q as real, x, d); }
    if x <= q as real - 1.0 { if x < q as real - 1.0 { Scale(x, q as real - 1.0, d); } }
  }

  lemma Scale(a: real, b: real, d: real)
    requires a < b && d > 0.0
    ensures a * d < b * d
  {
  }

  /** A larger rational never gets fewer atoms. */
  lemma Monotone(p: int, a: int, b: int, q: int, c: int, d: int)
    requires b != 0 && d != 0 && IsCeiling(p, a * SCORE_SCALE, b) && IsCeiling(q, c * SCORE_SCALE, d)
    requires a as real / b as real <= c as real / d as real
    ensures p <= q
  {
    ErrorBelowOne(p, a * SCORE_SCALE, b);
    ErrorBelowOne(q, c * SCORE_SCALE, d);
    Scaled(a, b);
    Scaled(c, d);
    var x, y := a as real / b as real, c as real / d as real;
    assert x * SCORE_SCALE as real <= y * SCORE_SCALE as real;
  }

  lemma Scaled(a: int, b: int)
    requires b != 0
    ensures (a * SCORE_SCALE) as real / b as real == a as real / b as real * SCORE_SCALE as real
  {
    assert (a * SCORE_SCALE) as real == a as real * SCORE_SCALE as real;
  }

  /** Every way of writing one rational gives the same atoms. */
  lemma SameForAllRepresentations(p: int, a: int, b: int, q: int, c: int, d: int)
    requires b != 0 && d != 0 && IsCeiling(p, a * SCORE_SCALE, b) && IsCeiling(q, c * SCORE_SCALE, d)
    requires a * d == c * b
    ensures p == q
  {
    SameQuotient(a, b, c, d);
    Monotone(p, a, b, q, c, d);
    Monotone(q, c, d, p, a, b);
  }

  lemma SameQuotient(a: int, b: int, c: int, d: int)
    requires b != 0 && d != 0 && a * d == c * b
    ensures a as real / b as real == c as real / d as real
  {
    var x, y := a as real / b as real, c as real / d as real;
    var rb, rd := b as real, d as real;
    assert x * rb == a as real && y * rd == c as real;
    assert (a * d) as real == a as real * rd && (c * b) as real == c as real * rb;
    assert x * (rb * rd) == (x * rb) * rd;
    assert y * (rb * rd) == (y * rd) * rb;
    assert (x - y) * (rb * rd) == 0.0;
    assert rb * rd != 0.0;
    if x != y { NonZero(x - y, rb * rd); }
  }

  lemma NonZero(a: real, b: real)
    requires a != 0.0 && b != 0.0
    ensures a * b != 0.0
  {
  }
}
