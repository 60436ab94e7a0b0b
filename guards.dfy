/** The calculation contract shared by the whole formula catalogue.

    Every formula either succeeds with a number or fails with the single
    invalid-input error that the library raises for a zero denominator, an
    empty or too-short list, lists of different lengths, or a discount rate
    that does not exceed the growth rate. Arithmetic is exact (`real`). */
module Guards {

  /** The outcome of a formula: a value, or the invalid-input failure. */
  datatype Result<T> = Ok(value: T) | Invalid

  /** `r` is what a guarded division of `numerator` by `denominator` must
      return: the failure exactly when the denominator is zero, and otherwise
      the one number that, multiplied by the denominator, gives the numerator. */
  predicate IsQuotient(r: Result<real>, numerator: real, denominator: real) {
    && (r.Invalid? <==> denominator == 0.0)
    && (r.Ok? ==> r.value * denominator == numerator)
  }

  /** As IsQuotient, for a quotient reported in units of `1 / scale`: a
      percentage (`scale` 100) or a number of days (`scale` 365). */
  predicate IsScaledQuotient(r: Result<real>, scale: real, numerator: real, denominator: real) {
    && (r.Invalid? <==> denominator == 0.0)
    && (r.Ok? ==> r.value * denominator == scale * numerator)
  }

  /** `r` is what a perpetuity formula must return: the failure exactly when
      the rate does not exceed the growth rate, and otherwise the value that,
      multiplied by the strictly positive spread `rate - growth`, gives the
      numerator. */
  predicate IsPerpetuity(r: Result<real>, numerator: real, rate: real, growth: real) {
    && (r.Invalid? <==> rate <= growth)
    && (r.Ok? ==> rate - growth > 0.0 && r.value * (rate - growth) == numerator)
  }

  /** A guarded quotient is determined: its contract admits exactly one result. */
  lemma QuotientIsUnique(r: Result<real>, s: Result<real>, numerator: real, denominator: real)
    requires IsQuotient(r, numerator, denominator) && IsQuotient(s, numerator, denominator)
    ensures r == s
  {
    if denominator != 0.0 {
      assert r.value * denominator == s.value * denominator;
      CancelFactor(r.value, s.value, denominator);
    }
  }

  /** A scaled quotient is the plain quotient multiplied by the scale. */
  lemma ScaledQuotientIsScaledRatio(r: Result<real>, scale: real, numerator: real, denominator: real)
    requires IsScaledQuotient(r, scale, numerator, denominator)
    ensures r.Ok? ==> r.value == scale * (numerator / denominator)
  {
    if r.Ok? {
      calc {
        r.value;
        r.value * denominator / denominator;
        scale * numerator / denominator;
      }
    }
  }

  // Facts of real arithmetic that the solver does not find on its own.

  /** A proof device, not a formula of the source: the identity on numbers, used only by
      Square to hide from the solver that its two factors are the same term. */
  function Identity(a: real): real
  {
    a
  }

  /** The square of a number, Python's `a ** 2` (or `x * x`). Its value is `a * a`; the second
      factor is written through Identity only so that the solver keeps the square a product
      of two terms instead of rewriting it into a power, which makes proofs about sums of
      squares run out of resource. */
  function Square(a: real): real
  {
    a * Identity(a)
  }

  /** The sign of a product: positive when both factors share a strict sign, zero when either is zero. */
  lemma ProductSign(a: real, b: real)
    ensures (a > 0.0 && b > 0.0) || (a < 0.0 && b < 0.0) ==> a * b > 0.0
    ensures a == 0.0 || b == 0.0 ==> a * b == 0.0
  {
  }

  /** A square is never negative, and it is zero only at zero. */
  lemma SquareFacts(a: real)
    ensures Square(a) >= 0.0
    ensures Square(a) == 0.0 <==> a == 0.0
  {
    ProductSign(a, Identity(a));
  }

  /** Dividing by a positive number and multiplying back; the quotient keeps the sign of the dividend. */
  lemma PositiveDivisorFacts(a: real, k: real)
    requires k > 0.0
    ensures (a / k) * k == a
    ensures a >= 0.0 ==> a / k >= 0.0
    ensures a == 0.0 <==> a / k == 0.0
  {
    var q := a / k;
    assert q * k == a;
    if q < 0.0 {
      assert q * k < 0.0;
    }
  }

  /** Multiplication distributes over addition. */
  lemma Distribute(w: real, a: real, b: real)
    ensures w * (a + b) == w * a + w * b
  {
  }

  /** Quotients telescope: `(a / b) (b / c) = a / c`. */
  lemma QuotientsTelescope(a: real, b: real, c: real)
    requires b != 0.0 && c != 0.0
    ensures (a / b) * (b / c) == a / c
  {
    var p, q := a / b, b / c;
    assert p * b == a && q * c == b;
    assert (p * q) * c == p * (q * c);
    CancelFactor(p * q, a / c, c);
  }

  /** A product of non-zero factors is non-zero. */
  lemma NonZeroProduct(a: real, b: real)
    requires a != 0.0 && b != 0.0
    ensures a * b != 0.0
  {
    if a * b == 0.0 {
      CancelFactor(a, 0.0, b);
    }
  }

  /** The defining recurrence of a growing perpetuity: its value today, carried one
      period at `rate`, is the next payment plus its own value grown one period. */
  lemma PerpetuityRecurrence(r: Result<real>, numerator: real, rate: real, growth: real)
    requires IsPerpetuity(r, numerator, rate, growth) && r.Ok?
    ensures r.value * (1.0 + rate) == numerator + r.value * (1.0 + growth)
  {
    Distribute(r.value, 1.0, rate);
    Distribute(r.value, 1.0, growth);
    Distribute(r.value, rate, -growth);
  }

  /** Perpetuities at one rate and growth scale with their numerators: a numerator
      `k` times larger gives a value `k` times larger. */
  lemma PerpetuityScales(r: Result<real>, s: Result<real>, numerator: real, k: real, rate: real, growth: real)
    requires IsPerpetuity(r, numerator, rate, growth) && IsPerpetuity(s, k * numerator, rate, growth)
    ensures r.Ok? <==> s.Ok?
    ensures s.Ok? ==> s.value == k * r.value
  {
    if s.Ok? {
      var spread := rate - growth;
      assert (k * r.value) * spread == k * (r.value * spread);
      CancelFactor(s.value, k * r.value, spread);
    }
  }

  /** Multiplication by a non-zero factor is injective. */
  lemma CancelFactor(a: real, b: real, k: real)
    requires k != 0.0 && a * k == b * k
    ensures a == b
  {
    assert (a - b) * k == 0.0;
  }
}
