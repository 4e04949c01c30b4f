/**
 * Selection of the power-of-two downscale factor (TextureResize::update).
 *
 * The source dimensions are halved up to MAX_FACTOR_POWER times while both
 * halves still cover the target viewport; the factor doubles with each
 * halving. The target is the viewport size, with width and height swapped
 * when the viewport's orientation differs from the source's.
 */
module Factor {

  /** MAX_FACTOR_POWER: at most four halvings. */
  const MaxFactorPower: nat := 4

  /** 2^MAX_FACTOR_POWER, the largest factor. */
  const MaxFactor: nat := 16

  function Pow2(n: nat): (r: nat)
    ensures r >= 1
  {
    if n == 0 then 1 else 2 * Pow2(n - 1)
  }

  /** The factors the selection can produce. */
  predicate IsFactor(f: nat) {
    f == 1 || f == 2 || f == 4 || f == 8 || f == 16
  }

  /** Up to MAX_FACTOR_POWER doublings give exactly the factors, the largest one last. */
  lemma Pow2IsFactor(i: nat)
    requires i <= MaxFactorPower
    ensures IsFactor(Pow2(i))
    ensures Pow2(i) == MaxFactor <==> i == MaxFactorPower
  {
    assert Pow2(0) == 1;
    assert Pow2(1) == 2 * Pow2(0);
    assert Pow2(2) == 2 * Pow2(1);
    assert Pow2(3) == 2 * Pow2(2);
    assert Pow2(4) == 2 * Pow2(3);
  }

  /**
   * The target the factor is measured against: the viewport's width and
   * height, swapped when the source is portrait and the viewport landscape
   * or the other way round.
   */
  function Target(width: nat, height: nat, viewWidth: int, viewHeight: int): (t: (int, int))
    // the target is the viewport's two dimensions in some order
    ensures multiset{t.0, t.1} == multiset{viewWidth, viewHeight}
    // it is left as the viewport's exactly when orientations already agree (or cannot differ)
    ensures t.0 == viewWidth <==> ((width < height) == (viewWidth < viewHeight) || viewWidth == viewHeight)
    // a non-square target has the orientation of the source
    ensures viewWidth != viewHeight ==> ((width < height) <==> (t.0 < t.1))
  {
    if (width < height) != (viewWidth < viewHeight) then (viewHeight, viewWidth)
    else (viewWidth, viewHeight)
  }

  /** Shrinking by `f` still leaves an image at least as large as the target. */
  predicate Covers(width: nat, height: nat, targetWidth: int, targetHeight: int, f: nat)
    requires f > 0
  {
    width / f >= targetWidth && height / f >= targetHeight
  }

  /**
   * Reference definition: the largest factor in {2, 4, 8, 16} that still
   * covers the target, or 1 when none does.
   */
  function BestFactor(width: nat, height: nat, targetWidth: int, targetHeight: int): nat
  {
    if Covers(width, height, targetWidth, targetHeight, 16) then 16
    else if Covers(width, height, targetWidth, targetHeight, 8) then 8
    else if Covers(width, height, targetWidth, targetHeight, 4) then 4
    else if Covers(width, height, targetWidth, targetHeight, 2) then 2
    else 1
  }

  /** A multiple of `m` by a positive factor is at least `m`. */
  lemma MulAtLeast(k: nat, m: nat)
    requires k >= 1
    ensures k * m >= m
  {
    assert k * m == (k - 1) * m + m;
  }

  /** Division with remainder has a single answer. */
  lemma DivUnique(a: nat, m: nat, q: nat, r: nat)
    requires m > 0 && r < m && a == q * m + r
    ensures a / m == q
  {
    var q', r' := a / m, a % m;
    assert a == q' * m + r' && r' < m;
    if q' < q {
      var k := q - q';
      assert q * m == q' * m + k * m;
      MulAtLeast(k, m);
    } else if q < q' {
      var k := q' - q;
      assert q' * m == q * m + k * m;
      MulAtLeast(k, m);
    }
  }

  /** Dividing by a larger divisor never gives a larger quotient. */
  lemma DivAntitone(a: nat, d: nat, e: nat)
    requires 0 < d <= e
    ensures a / e <= a / d
  {
    QuotientAtMost(a, d, e, a / e);
  }

  /** A `q` whose multiple by `e` fits in `a` is at most the quotient of `a` by any `d <= e`. */
  lemma QuotientAtMost(a: nat, d: nat, e: nat, q: nat)
    requires 0 < d <= e && q * e <= a
    ensures q <= a / d
  {
    var x: nat := e - d;
    assert q * e == q * d + q * x;
    var r: nat := a - q * d;
    RemainderSplit(a, d, q, r, r / d, r % d);
  }

  /** When `a` is `q * d` plus `r`, and `r` is `s * d` plus `t`, the quotient of `a` by `d` is at least `q`. */
  lemma RemainderSplit(a: nat, d: nat, q: nat, r: nat, s: nat, t: nat)
    requires d > 0 && a == q * d + r && r == s * d + t && t < d
    ensures q <= a / d
  {
    assert (q + s) * d == q * d + s * d;
    DivUnique(a, d, q + s, t);
  }

  /** Halving the quotient `q` of `a` by `d` gives the quotient of `a` by `2 * d`. */
  lemma QuotientHalved(a: nat, d: nat, q: nat, r: nat)
    requires d > 0 && r < d && a == q * d + r
    ensures q / 2 == a / (2 * d)
  {
    var q2, b := q / 2, q % 2;
    assert q == 2 * q2 + b;
    assert q * d == q2 * (2 * d) + b * d;
    assert b * d + r < 2 * d;
    DivUnique(a, 2 * d, q2, b * d + r);
  }

  /** Halving twice is dividing by the product: (a / d) / 2 == a / (2 * d). */
  lemma HalveQuotient(a: nat, d: nat)
    requires d > 0
    ensures (a / d) / 2 == a / (2 * d)
  {
    QuotientHalved(a, d, a / d, a % d);
  }

  /** A factor that covers the target makes every smaller factor cover it too. */
  lemma CoversDownward(width: nat, height: nat, targetWidth: int, targetHeight: int, f: nat, g: nat)
    requires 0 < f <= g
    requires Covers(width, height, targetWidth, targetHeight, g)
    ensures Covers(width, height, targetWidth, targetHeight, f)
  {
    DivAntitone(width, f, g);
    DivAntitone(height, f, g);
  }

  /**
   * The reference factor is the largest covering factor: every factor up to
   * it covers the target, and no larger one (up to 16) does.
   */
  lemma {:induction false} BestFactorIsLargest(width: nat, height: nat, targetWidth: int, targetHeight: int, g: nat)
    requires IsFactor(g) && g >= 2
    ensures g <= BestFactor(width, height, targetWidth, targetHeight)
            <==> Covers(width, height, targetWidth, targetHeight, g)
  {
    var b := BestFactor(width, height, targetWidth, targetHeight);
    if g <= b {
      CoversDownward(width, height, targetWidth, targetHeight, g, b);
    } else {
      // the next power of two above b does not cover, so neither does g
      var next := 2 * b;
      assert !Covers(width, height, targetWidth, targetHeight, next);
      if Covers(width, height, targetWidth, targetHeight, g) {
        CoversDownward(width, height, targetWidth, targetHeight, next, g);
      }
    }
  }

  /**
   * A factor that covers the target (or is 1) while its double does not (or
   * it is the largest) is the reference factor.
   */
  lemma BestFactorUnique(width: nat, height: nat, targetWidth: int, targetHeight: int, f: nat)
    requires IsFactor(f)
    requires f > 1 ==> Covers(width, height, targetWidth, targetHeight, f)
    requires f < MaxFactor ==> !Covers(width, height, targetWidth, targetHeight, 2 * f)
    ensures f == BestFactor(width, height, targetWidth, targetHeight)
  {
    if f > 1 {
      BestFactorIsLargest(width, height, targetWidth, targetHeight, f);
    }
    if f < MaxFactor {
      BestFactorIsLargest(width, height, targetWidth, targetHeight, 2 * f);
    }
  }

  /**
   * The factor loop of TextureResize::update, together with the rotation
   * correction that precedes it.
   */
  method SelectFactor(width: nat, height: nat, viewWidth: int, viewHeight: int) returns (factor: nat)
    ensures IsFactor(factor)
    ensures factor == BestFactor(width, height, Target(width, height, viewWidth, viewHeight).0,
                                 Target(width, height, viewWidth, viewHeight).1)
    // adequacy: a real shrink never goes below the (rotation-corrected) target
    ensures factor > 1 ==> Covers(width, height, Target(width, height, viewWidth, viewHeight).0,
                                  Target(width, height, viewWidth, viewHeight).1, factor)
    // maximality: one more halving would go below the target
    ensures factor < MaxFactor ==> !Covers(width, height, Target(width, height, viewWidth, viewHeight).0,
                                           Target(width, height, viewWidth, viewHeight).1, 2 * factor)
  {
    var tWidth, tHeight := viewWidth, viewHeight;
    if (width < height) != (tWidth < tHeight) {
      tWidth, tHeight := tHeight, tWidth;
    }
    factor := 1;
    var i, w, h := 0, width / 2, height / 2;
    while i < MaxFactorPower && w >= tWidth && h >= tHeight
      invariant 0 <= i <= MaxFactorPower
      invariant factor == Pow2(i)
      invariant w == width / (2 * factor) && h == height / (2 * factor)
      invariant i > 0 ==> Covers(width, height, tWidth, tHeight, factor)
    {
      HalveQuotient(width, 2 * factor);
      HalveQuotient(height, 2 * factor);
      i, w, h, factor := i + 1, w / 2, h / 2, factor * 2;
    }
    Pow2IsFactor(i);
    BestFactorUnique(width, height, tWidth, tHeight, factor);
  }

  /** A landscape source shown in a half-size viewport is shrunk by 2. */
  lemma HalfSizeViewport()
    ensures BestFactor(1920, 1080, Target(1920, 1080, 960, 540).0, Target(1920, 1080, 960, 540).1) == 2
  {
  }

  /** A viewport as large as the source needs no resizing. */
  lemma FullSizeViewport()
    ensures BestFactor(1920, 1080, Target(1920, 1080, 1920, 1080).0, Target(1920, 1080, 1920, 1080).1) == 1
  {
  }

  /** A portrait viewport is rotated before it is compared with a landscape source. */
  lemma RotatedViewport()
    ensures Target(1920, 1080, 540, 960) == (960, 540)
    ensures BestFactor(1920, 1080, 960, 540) == 2
  {
  }
}
