/** Checked rationals over 128-bit integers, kept in lowest terms. */
module ExactDecimal {
  import opened Arithmetic
  import opened Common

  const I128_MAX: int := 0x7FFF_FFFF_FFFF_FFFF_FFFF_FFFF_FFFF_FFFF
  const I64_MAX: int := 0x7FFF_FFFF_FFFF_FFFF
  const U64_MAX: int := 0xFFFF_FFFF_FFFF_FFFF

  predicate InI128(n: int) {
    -I128_MAX - 1 <= n <= I128_MAX
  }

  predicate InI64(n: int) {
    -I64_MAX - 1 <= n <= I64_MAX
  }

  function Checked(n: int): Option<int> {
    if InI128(n) then Some(n) else None
  }

  function Abs(n: int): nat {
    if n < 0 then -n else n
  }

  function Signed(negative: bool, size: int): int {
    if negative then -size else size
  }

  /** Division and remainder truncate toward zero. */
  function Quotient(a: int, b: int): int
    requires b > 0
  {
    if a >= 0 then a / b else -(-a / b)
  }

  function Remainder(a: int, b: int): int
    requires b > 0
  {
    a - Quotient(a, b) * b
  }

  // ---- greatest common divisor

  function Gcd(a: nat, b: nat): nat
    decreases b
  {
    if b == 0 then (if a > 1 then a else 1) else Gcd(b, a % b)
  }

  method GcdLoop(a: nat, b: nat) returns (g: nat)
    ensures g == Gcd(a, b)
  {
    var left, right := a, b;
    while right != 0
      invariant Gcd(left, right) == Gcd(a, b)
      decreases right
    {
      left, right := right, left % right;
    }
    g := if left > 1 then left else 1;
  }

  /** The divisor as a combination of the two numbers. */
  lemma {:induction false} Bezout(a: nat, b: nat) returns (s: int, t: int)
    requires a > 0 || b > 0
    ensures s * a + t * b == Gcd(a, b)
    decreases b
  {
    if b == 0 {
      s, t := 1, 0;
    } else {
      var q, r := a / b, a % b;
      var s', t' := Bezout(b, r);
      s, t := t', s' - t' * q;
      BezoutStep(a, b, q, r, s', t');
    }
  }

  lemma BezoutStep(a: int, b: int, q: int, r: int, s: int, t: int)
    requires a == b * q + r
    ensures t * a + (s - t * q) * b == s * b + t * r
  {
    assert t * a == t * (b * q) + t * r;
    assert (s - t * q) * b == s * b - t * q * b;
    assert t * (b * q) == t * q * b;
  }

  /** It divides both. */
  lemma {:induction false} GcdDivides(a: nat, b: nat) returns (p: nat, q: nat)
    requires a > 0 || b > 0
    ensures Gcd(a, b) > 0 && a == p * Gcd(a, b) && b == q * Gcd(a, b)
    decreases b
  {
    if b == 0 {
      p, q := 1, 0;
    } else {
      var p', q' := GcdDivides(b, a % b);
      var g := Gcd(a, b);
      p, q := a / b * p' + q', p';
      MultipleStep(a, b, a / b, a % b, p', q', g);
    }
  }

  lemma MultipleStep(a: int, b: int, k: int, r: int, p: int, q: int, g: int)
    requires a == b * k + r && b == p * g && r == q * g
    ensures a == (k * p + q) * g
  {
    assert b * k == p * g * k;
    assert (k * p + q) * g == k * p * g + q * g;
    assert p * g * k == k * p * g;
  }

  // ---- the type

  datatype Decimal = Decimal(numerator: int, denominator: int)

  /** No integer above one divides both. */
  predicate LowestTerms(n: int, d: int) {
    Gcd(Abs(n), Abs(d)) == 1
  }

  ghost predicate Canonical(v: Decimal) {
    InI128(v.numerator) && 0 < v.denominator <= I128_MAX && LowestTerms(v.numerator, v.denominator)
  }

  /** The rational a value stands for. */
  ghost function Value(v: Decimal): real
    requires v.denominator > 0
  {
    v.numerator as real / v.denominator as real
  }

  /** Lowest terms in the sense of divisors. */
  lemma LowestTermsMeaning(n: int, d: int, c: nat, x: int, y: int)
    requires d > 0 && LowestTerms(n, d) && n == x * c && d == y * c
    ensures c == 1
  {
    var s, t := Bezout(Abs(n), d);
    var sign := if n < 0 then -1 else 1;
    assert Abs(n) == sign * n;
    FactorOut(s * sign, t, x, y, c, n, d);
    assert s * Abs(n) == s * sign * n;
    DividesOne(c, s * sign * x + t * y);
  }

  lemma FactorOut(s: int, t: int, x: int, y: int, c: int, n: int, d: int)
    requires n == x * c && d == y * c
    ensures s * n + t * d == c * (s * x + t * y)
  {
    assert s * n == s * x * c && t * d == t * y * c;
  }

  // ---- construction

  /** The checked constructor: any 128-bit fraction with a positive denominator, reduced. */
  function New(n: int, d: int): Option<Decimal> {
    if d <= 0 then None else
      var g := Gcd(Abs(n), d);
      GcdPositive(Abs(n), d);
      Some(Decimal(Quotient(n, g), Quotient(d, g)))
  }

  lemma GcdPositive(a: nat, b: nat)
    requires b > 0
    ensures Gcd(a, b) > 0
  {
    var p, q := GcdDivides(a, b);
  }

  lemma ExactQuotient(a: int, b: int, q: int)
    requires b > 0 && a == q * b
    ensures Quotient(a, b) == q && Remainder(a, b) == 0
  {
    if a >= 0 {
      AtMostOnce(b, q);
      assert q >= 0 by { assert b * q == a; AtMostOnce(b, q); }
      QuotientIs(a, b, q, 0);
    } else {
      assert -a == -q * b;
      assert -q >= 0 by { assert b * -q == -a; AtMostOnce(b, -q); }
      QuotientIs(-a, b, -q, 0);
    }
  }

  /** Reduction keeps the ratio and reaches lowest terms. */
  lemma NewReduces(n: int, d: int)
    requires d > 0
    ensures New(n, d).Some?
    ensures var v := New(n, d).value;
      && 0 < v.denominator <= d && Abs(v.numerator) <= Abs(n) && LowestTerms(v.numerator, v.denominator)
      && v.numerator * d == n * v.denominator
  {
    var p, q := GcdDivides(Abs(n), d);
    var g := Gcd(Abs(n), d);
    var sp := Signed(n < 0, p);
    assert n == sp * g;
    ExactQuotient(n, g, sp);
    ExactQuotient(d, g, q);
    AtMostOnce(g, q);
    CoprimeParts(Abs(n), d, p, q);
    PartsAreSmaller(p, q, g);
    CrossRatio(n, d, sp, q, g);
  }

  lemma PartsAreSmaller(p: nat, q: nat, g: nat)
    requires g > 0 && q * g > 0
    ensures 0 < q <= q * g && p <= p * g
  {
    AtMostOnce(g, q);
    AtLeastOnce(g, q);
    AtLeastOnce(g, p);
    assert g * q == q * g && g * p == p * g;
  }

  lemma CrossRatio(n: int, d: int, p: int, q: int, g: int)
    requires n == p * g && d == q * g
    ensures p * d == n * q
  {
    assert p * (q * g) == p * g * q;
  }

  /** Dividing out the greatest common divisor leaves coprime parts. */
  lemma CoprimeParts(a: nat, b: nat, p: nat, q: nat)
    requires b > 0 && Gcd(a, b) > 0 && a == p * Gcd(a, b) && b == q * Gcd(a, b) && q > 0
    ensures Gcd(p, q) == 1
  {
    var g := Gcd(a, b);
    var s, t := Bezout(a, b);
    var x, y := GcdDivides(p, q);
    var c := Gcd(p, q);
    FactorOut(s, t, p, q, g, a, b);
    FactorOut(s, t, x, y, c, p, q);
    CancelFactor(g, s * p + t * q);
    DividesOne(c, s * x + t * y);
  }

  lemma CancelFactor(g: nat, k: int)
    requires g > 0 && g == g * k
    ensures k == 1
  {
    assert g * (k - 1) == 0;
    AtMostOnce(g, k - 1);
    AtMostOnce(g, 1 - k);
    assert g * (1 - k) == 0;
  }

  /** Canonical values are equal exactly when they stand for the same ratio. */
  lemma CanonicalIsUnique(a: Decimal, b: Decimal)
    requires Canonical(a) && Canonical(b)
    ensures a == b <==> a.numerator * b.denominator == b.numerator * a.denominator
  {
    if a.numerator * b.denominator == b.numerator * a.denominator {
      DenominatorDivides(a, b);
      DenominatorDivides(b, a);
      CancelDenominator(a.numerator, b.numerator, a.denominator);
    }
  }

  lemma CancelDenominator(x: int, y: int, d: int)
    requires d > 0 && x * d == y * d
    ensures x == y
  {
    assert d * (x - y) == 0;
    AtMostOnce(d, x - y);
    AtMostOnce(d, y - x);
    assert d * (y - x) == 0;
  }

  lemma DenominatorDivides(a: Decimal, b: Decimal)
    requires Canonical(a) && Canonical(b) && a.numerator * b.denominator == b.numerator * a.denominator
    ensures a.denominator <= b.denominator
  {
    var s, t := Bezout(Abs(a.numerator), a.denominator);
    var u := if a.numerator < 0 then -s else s;
    assert s * Abs(a.numerator) == u * a.numerator;
    var k := u * b.numerator + t * b.denominator;
    assert b.denominator == a.denominator * k by {
      Distribute(u, t, a.numerator, a.denominator, b.numerator, b.denominator);
    }
    AtMostOnce(a.denominator, k);
  }

  lemma Distribute(u: int, t: int, n: int, d: int, x: int, y: int)
    requires u * n + t * d == 1 && n * y == x * d
    ensures y == d * (u * x + t * y)
  {
    assert y == (u * n + t * d) * y == u * (n * y) + t * d * y;
    assert u * (x * d) == d * (u * x);
    assert t * d * y == d * (t * y);
  }

  // ---- values as real numbers

  lemma SameRatio(x: int, y: int, n: int, d: int)
    requires y > 0 && d > 0
    ensures x * d == n * y <==> x as real / y as real == n as real / d as real
  {
    var v, w := x as real / y as real, n as real / d as real;
    assert x as real == v * (y as real) && n as real == w * (d as real);
    assert (x * d) as real == v * (y as real) * (d as real);
    assert (n * y) as real == w * (d as real) * (y as real);
    CancelReal(v, w, (y as real) * (d as real));
  }

  lemma CancelReal(v: real, w: real, p: real)
    requires p > 0.0
    ensures v * p == w * p <==> v == w
  {
    if v * p == w * p {
      assert (v - w) * p == 0.0;
    }
  }

  lemma RealSum(x: int, y: int, n: int, d: int)
    requires y > 0 && d > 0
    ensures y * d > 0
    ensures (x * d + n * y) as real / (y * d) as real == x as real / y as real + n as real / d as real
  {
    AtMostOnce(y, d);
    var v, w := x as real / y as real, n as real / d as real;
    assert x as real == v * (y as real) && n as real == w * (d as real);
    RealQuotient((x * d + n * y) as real, (y * d) as real, v + w);
  }

  lemma RealProduct(x: int, y: int, n: int, d: int)
    requires y > 0 && d > 0
    ensures y * d > 0
    ensures (x * n) as real / (y * d) as real == (x as real / y as real) * (n as real / d as real)
  {
    AtMostOnce(y, d);
    var v, w := x as real / y as real, n as real / d as real;
    assert x as real == v * (y as real) && n as real == w * (d as real);
    RealQuotient((x * n) as real, (y * d) as real, v * w);
  }

  lemma RealQuotient(a: real, b: real, q: real)
    requires b > 0.0 && a == q * b
    ensures a / b == q
  {
    CancelReal(a / b, q, b);
  }

  // ---- arithmetic

  function Add(a: Decimal, b: Decimal): Option<Decimal> {
    var x, y := Checked(a.numerator * b.denominator), Checked(b.numerator * a.denominator);
    if x.None? || y.None? then None else
      var sum, d := Checked(x.value + y.value), Checked(a.denominator * b.denominator);
      if sum.None? || d.None? then None else New(sum.value, d.value)
  }

  function Neg(a: Decimal): Option<Decimal> {
    var n := Checked(-a.numerator);
    if n.None? then None else New(n.value, a.denominator)
  }

  function Sub(a: Decimal, b: Decimal): Option<Decimal> {
    var n := Neg(b);
    if n.None? then None else Add(a, n.value)
  }

  function Mul(a: Decimal, b: Decimal): Option<Decimal> {
    var n, d := Checked(a.numerator * b.numerator), Checked(a.denominator * b.denominator);
    if n.None? || d.None? then None else New(n.value, d.value)
  }

  function Div(a: Decimal, b: Decimal): Option<Decimal> {
    if b.numerator == 0 then None else
      var sign := if b.numerator < 0 then -1 else 1;
      var x := Checked(a.numerator * b.denominator);
      if x.None? then None else
        var n, size := Checked(x.value * sign), Checked(Abs(b.numerator));
        if n.None? || size.None? then None else
          var d := Checked(a.denominator * size.value);
          if d.None? then None else New(n.value, d.value)
  }

  /** The result is canonical and stands for n / d. */
  ghost predicate Exactly(r: Option<Decimal>, n: int, d: int) {
    r.Some? && Canonical(r.value) && d > 0 && r.value.numerator * d == n * r.value.denominator
  }

  lemma NewIsExact(n: int, d: int)
    requires InI128(n) && 0 < d <= I128_MAX
    ensures Exactly(New(n, d), n, d)
  {
    NewReduces(n, d);
  }

  /** Sums are exact, and refused only when a product or the sum of the cross products leaves 128 bits. */
  lemma AddIsExact(a: Decimal, b: Decimal)
    requires Canonical(a) && Canonical(b)
    ensures Add(a, b).Some? <==>
      && InI128(a.numerator * b.denominator) && InI128(b.numerator * a.denominator)
      && InI128(a.numerator * b.denominator + b.numerator * a.denominator) && InI128(a.denominator * b.denominator)
    ensures Add(a, b).Some? ==> Canonical(Add(a, b).value) && Value(Add(a, b).value) == Value(a) + Value(b)
  {
    AtMostOnce(a.denominator, b.denominator);
    var n, d := a.numerator * b.denominator + b.numerator * a.denominator, a.denominator * b.denominator;
    if InI128(n) && InI128(d) {
      NewIsExact(n, d);
      if Add(a, b).Some? {
        SameRatio(Add(a, b).value.numerator, Add(a, b).value.denominator, n, d);
        RealSum(a.numerator, a.denominator, b.numerator, b.denominator);
      }
    }
  }

  /** Negation reverses the sign in place; only the least numerator has no negative. */
  lemma NegIsExact(a: Decimal)
    requires Canonical(a)
    ensures Neg(a) == if a.numerator == -I128_MAX - 1 then None else Some(Decimal(-a.numerator, a.denominator))
    ensures Neg(a).Some? ==> Canonical(Neg(a).value) && Value(Neg(a).value) == -Value(a)
  {
    if a.numerator != -I128_MAX - 1 {
      NewIsExact(-a.numerator, a.denominator);
      CanonicalIsUnique(Neg(a).value, Decimal(-a.numerator, a.denominator));
      RealQuotient((-a.numerator) as real, a.denominator as real, -Value(a));
    }
  }

  lemma SubIsExact(a: Decimal, b: Decimal)
    requires Canonical(a) && Canonical(b)
    ensures Sub(a, b).Some? ==> Canonical(Sub(a, b).value) && Value(Sub(a, b).value) == Value(a) - Value(b)
    ensures Sub(a, b).Some? <==> b.numerator != -I128_MAX - 1 && Add(a, Decimal(-b.numerator, b.denominator)).Some?
  {
    NegIsExact(b);
    if Neg(b).Some? {
      AddIsExact(a, Neg(b).value);
    }
  }

  /** Products are exact, and refused only when a product leaves 128 bits. */
  lemma MulIsExact(a: Decimal, b: Decimal)
    requires Canonical(a) && Canonical(b)
    ensures Mul(a, b).Some? <==> InI128(a.numerator * b.numerator) && InI128(a.denominator * b.denominator)
    ensures Mul(a, b).Some? ==> Canonical(Mul(a, b).value) && Value(Mul(a, b).value) == Value(a) * Value(b)
  {
    AtMostOnce(a.denominator, b.denominator);
    var n, d := a.numerator * b.numerator, a.denominator * b.denominator;
    if InI128(n) && InI128(d) {
      NewIsExact(n, d);
      ProductValue(Mul(a, b).value, a, b, n, d);
    }
  }

  lemma ProductValue(v: Decimal, a: Decimal, b: Decimal, n: int, d: int)
    requires a.denominator > 0 && b.denominator > 0 && v.denominator > 0 && d > 0
    requires v.numerator * d == n * v.denominator
    requires n == a.numerator * b.numerator && d == a.denominator * b.denominator
    ensures Value(v) == Value(a) * Value(b)
  {
    SameRatio(v.numerator, v.denominator, n, d);
    RealProduct(a.numerator, a.denominator, b.numerator, b.denominator);
  }

  /** Quotients are exact; a zero divisor, the least numerator as divisor, or a product out of range is refused. */
  lemma DivIsExact(a: Decimal, b: Decimal)
    requires Canonical(a) && Canonical(b)
    ensures Div(a, b).Some? <==>
      && b.numerator != 0 && b.numerator != -I128_MAX - 1
      && InI128(a.numerator * b.denominator) && (b.numerator < 0 ==> a.numerator * b.denominator != -I128_MAX - 1)
      && InI128(a.denominator * Abs(b.numerator))
    ensures Div(a, b).Some? ==>
      Canonical(Div(a, b).value) && Value(b) != 0.0 && Value(Div(a, b).value) == Value(a) / Value(b)
  {
    var sign := if b.numerator < 0 then -1 else 1;
    var n, d := a.numerator * b.denominator * sign, a.denominator * Abs(b.numerator);
    if b.numerator != 0 && InI128(n) && InI128(d) {
      AtMostOnce(a.denominator, Abs(b.numerator));
      NewIsExact(n, d);
      if Div(a, b).Some? {
        SameRatio(Div(a, b).value.numerator, Div(a, b).value.denominator, n, d);
        RealDivision(a.numerator, a.denominator, b.numerator, b.denominator, sign);
      }
    }
  }

  lemma RealDivision(x: int, y: int, n: int, d: int, sign: int)
    requires y > 0 && d > 0 && n != 0 && sign == (if n < 0 then -1 else 1)
    ensures y * Abs(n) > 0 && n as real / d as real != 0.0
    ensures (x * d * sign) as real / (y * Abs(n)) as real == (x as real / y as real) / (n as real / d as real)
  {
    AtMostOnce(y, Abs(n));
    var v, w := x as real / y as real, n as real / d as real;
    assert x as real == v * (y as real) && n as real == w * (d as real);
    assert w != 0.0;
    assert Abs(n) == n * sign;
    ProductRearranged(v, w, y as real, d as real, sign as real);
    RealQuotient((x * d * sign) as real, (y * Abs(n)) as real, v / w);
  }

  lemma ProductRearranged(v: real, w: real, y: real, d: real, s: real)
    requires w != 0.0
    ensures v * y * d * s == v / w * (y * (w * d * s))
  {
    var q := v / w;
    assert q * w == v;
    assert q * (y * (w * d * s)) == q * w * y * d * s;
  }

  /** Subtracting undoes adding, and dividing undoes multiplying, to the identical value. */
  lemma SubUndoesAdd(a: Decimal, b: Decimal)
    requires Canonical(a) && Canonical(b) && Add(a, b).Some? && Sub(Add(a, b).value, b).Some?
    ensures Sub(Add(a, b).value, b).value == a
  {
    AddIsExact(a, b);
    SubIsExact(Add(a, b).value, b);
    SameValueSame(Sub(Add(a, b).value, b).value, a);
  }

  lemma DivUndoesMul(a: Decimal, b: Decimal)
    requires Canonical(a) && Canonical(b) && Mul(a, b).Some? && Div(Mul(a, b).value, b).Some?
    ensures Div(Mul(a, b).value, b).value == a
  {
    var product := Mul(a, b).value;
    MulIsExact(a, b);
    DivIsExact(product, b);
    QuotientIsFactor(product, Div(product, b).value, a, b);
  }

  lemma QuotientIsFactor(product: Decimal, quotient: Decimal, a: Decimal, b: Decimal)
    requires Canonical(product) && Canonical(quotient) && Canonical(a) && Canonical(b) && Value(b) != 0.0
    requires Value(product) == Value(a) * Value(b) && Value(quotient) == Value(product) / Value(b)
    ensures quotient == a
  {
    RealCancel(Value(a), Value(b));
    SameValueSame(quotient, a);
  }

  lemma RealCancel(v: real, w: real)
    requires w != 0.0
    ensures v * w / w == v
  {
  }

  /** Structural equality is numeric equality. */
  lemma SameValueSame(a: Decimal, b: Decimal)
    requires Canonical(a) && Canonical(b)
    ensures a == b <==> Value(a) == Value(b)
  {
    CanonicalIsUnique(a, b);
    SameRatio(a.numerator, a.denominator, b.numerator, b.denominator);
  }

  // ---- comparison

  function Compare(a: Decimal, b: Decimal): Option<int> {
    var left, right := Checked(a.numerator * b.denominator), Checked(b.numerator * a.denominator);
    if left.None? || right.None? then None
    else if left.value < right.value then Some(-1) else if left.value == right.value then Some(0) else Some(1)
  }

  function Maximum(a: Decimal, b: Decimal): Option<Decimal> {
    var left, right := Checked(a.numerator * b.denominator), Checked(b.numerator * a.denominator);
    if left.None? || right.None? then None else Some(if left.value < right.value then b else a)
  }

  lemma CompareIsOrder(a: Decimal, b: Decimal)
    requires Canonical(a) && Canonical(b) && Compare(a, b).Some?
    ensures Compare(a, b).value < 0 <==> Value(a) < Value(b)
    ensures Compare(a, b).value == 0 <==> a == b
    ensures Maximum(a, b) == Some(if Value(a) < Value(b) then b else a)
  {
    CanonicalIsUnique(a, b);
    CrossOrder(a.numerator, a.denominator, b.numerator, b.denominator);
  }

  lemma CrossOrder(x: int, y: int, n: int, d: int)
    requires y > 0 && d > 0
    ensures x * d < n * y <==> x as real / y as real < n as real / d as real
  {
    var v, w := x as real / y as real, n as real / d as real;
    assert x as real == v * (y as real) && n as real == w * (d as real);
    assert (x * d) as real == v * (y as real) * (d as real);
    assert (n * y) as real == w * (d as real) * (y as real);
    OrderByProduct(v, w, (y as real) * (d as real));
  }

  lemma OrderByProduct(v: real, w: real, p: real)
    requires p > 0.0
    ensures v * p < w * p <==> v < w
  {
    if v < w {
      assert (w - v) * p > 0.0;
    } else {
      assert (v - w) * p >= 0.0;
    }
  }

  // ---- conversion to cycles

  function ToCycleCount(a: Decimal): Option<int>
    requires a.denominator > 0
  {
    if a.numerator < 0 || Remainder(a.numerator, a.denominator) != 0 then None
    else if Quotient(a.numerator, a.denominator) <= U64_MAX then Some(Quotient(a.numerator, a.denominator)) else None
  }

  function ToSignedCycleDelta(a: Decimal): Option<int>
    requires a.denominator > 0
  {
    if Remainder(a.numerator, a.denominator) != 0 then None
    else if InI64(Quotient(a.numerator, a.denominator)) then Some(Quotient(a.numerator, a.denominator)) else None
  }

  /** Half a remainder goes to the even side; a doubled remainder beyond 128 bits is refused. */
  function RoundHalfEven(n: nat, d: int): Option<nat>
    requires d > 0
  {
    RoundDigits(n / d, n % d, d)
  }

  function RoundDigits(quotient: nat, remainder: nat, d: int): Option<nat> {
    var twice := Checked(remainder * 2);
    if twice.None? then None
    else if twice.value > d || (twice.value == d && quotient % 2 != 0) then
      (if InI128(quotient + 1) then Some(quotient + 1) else None)
    else Some(quotient)
  }

  function ToCycleCountRounded(a: Decimal): Option<int>
    requires a.denominator > 0
  {
    if a.numerator < 0 then None else
      var rounded := RoundHalfEven(a.numerator, a.denominator);
      if rounded.Some? && rounded.value <= U64_MAX then Some(rounded.value) else None
  }

  /** The signed rounding of a magnitude. */
  function SignedRounding(negative: bool, magnitude: Option<nat>): Option<int> {
    if magnitude.None? then None else
      var signed := Signed(negative, magnitude.value);
      if InI64(signed) then Some(signed) else None
  }

  function ToSignedCycleDeltaRounded(a: Decimal): Option<int>
    requires a.denominator > 0
  {
    if !InI128(Abs(a.numerator)) then None else SignedRounding(a.numerator < 0,
      RoundHalfEven(Abs(a.numerator), a.denominator))
  }

  /** An exact conversion exists exactly for integers in range, and gives that integer. */
  lemma ExactConversion(a: Decimal)
    requires Canonical(a)
    ensures ToCycleCount(a) ==
      if a.denominator == 1 && 0 <= a.numerator < 0x1_0000_0000_0000_0000 then Some(a.numerator) else None
    ensures ToSignedCycleDelta(a) ==
      if a.denominator == 1 && -0x8000_0000_0000_0000 <= a.numerator < 0x8000_0000_0000_0000 then Some(a.numerator)
      else None
  {
    if Remainder(a.numerator, a.denominator) == 0 {
      var q := Quotient(a.numerator, a.denominator);
      LowestTermsMeaning(a.numerator, a.denominator, a.denominator, q, 1);
    }
    if a.denominator == 1 {
      ExactQuotient(a.numerator, 1, a.numerator);
    }
  }

  /** The integer nearest to n / d, and the even one of two that are equally near. */
  predicate NearestEven(r: int, n: int, d: int) {
    && -d <= 2 * (n - r * d) <= d
    && (2 * (n - r * d) == d || 2 * (n - r * d) == -d ==> r % 2 == 0)
  }

  /** There is only one such integer. */
  lemma NearestEvenIsUnique(r: int, q: int, n: int, d: int)
    requires d > 0 && NearestEven(r, n, d) && NearestEven(q, n, d)
    ensures r == q
  {
    assert -d <= (r - q) * d <= d by {
      assert (r - q) * d == (n - q * d) - (n - r * d);
    }
    AtMostOnce(d, r - q - 1);
    AtMostOnce(d, q - r - 1);
    assert (r - q - 1) * d == (r - q) * d - d && (q - r - 1) * d == (q - r) * d - d;
    assert d * (r - q - 1) == (r - q - 1) * d && d * (q - r - 1) == (q - r - 1) * d;
  }

  lemma NearestOfDigits(n: int, d: int, q: int, r: int)
    requires d > 0 && n == q * d + r && 0 <= r < d
    ensures 2 * r < d || (2 * r == d && q % 2 == 0) ==> NearestEven(q, n, d)
    ensures 2 * r > d || (2 * r == d && q % 2 != 0) ==> NearestEven(q + 1, n, d)
  {
    assert n - q * d == r;
    assert n - (q + 1) * d == r - d;
  }

  lemma HalfFits(q: nat, d: int, n: int)
    requires d >= 2 && q * d <= n <= I128_MAX
    ensures InI128(q + 1)
  {
    AtLeastTwice(q, d);
  }

  lemma AtLeastTwice(q: nat, d: int)
    requires d >= 2
    ensures q * d >= 2 * q
  {
    assert q * (d - 2) >= 0;
  }

  /** Rounding is to the nearest integer, halves to even; it is refused exactly when doubling the remainder
      leaves 128 bits, which needs a denominator above half of them. */
  lemma RoundingIsNearest(n: nat, d: int)
    requires 0 < d <= I128_MAX && n <= I128_MAX
    ensures RoundHalfEven(n, d).Some? <==> n % d * 2 <= I128_MAX
    ensures RoundHalfEven(n, d).Some? ==> NearestEven(RoundHalfEven(n, d).value, n, d)
  {
    assert n == n / d * d + n % d;
    DigitsAreNearest(n, d, n / d, n % d);
  }

  lemma DigitsAreNearest(n: nat, d: int, q: nat, r: nat)
    requires 0 < d <= I128_MAX && n <= I128_MAX && n == q * d + r && r < d
    ensures RoundDigits(q, r, d).Some? <==> r * 2 <= I128_MAX
    ensures RoundDigits(q, r, d).Some? ==> NearestEven(RoundDigits(q, r, d).value, n, d)
  {
    NearestOfDigits(n, d, q, r);
    if d >= 2 {
      HalfFits(q, d, n);
    }
  }

  /** The rounded conversions: nearest with ties to even whenever they answer; they refuse only negative counts,
      results out of range, and remainders that cannot be doubled. */
  lemma RoundedConversion(a: Decimal)
    requires Canonical(a)
    ensures ToCycleCountRounded(a).Some? ==> NearestEven(ToCycleCountRounded(a).value, a.numerator, a.denominator)
    ensures ToSignedCycleDeltaRounded(a).Some? ==>
      NearestEven(ToSignedCycleDeltaRounded(a).value, a.numerator, a.denominator)
    ensures ToCycleCountRounded(a).None? <==>
      a.numerator < 0 || a.numerator % a.denominator * 2 > I128_MAX
      || (forall r :: NearestEven(r, a.numerator, a.denominator) ==> r > U64_MAX)
    ensures ToSignedCycleDeltaRounded(a).None? <==>
      a.numerator == -I128_MAX - 1 || Abs(a.numerator) % a.denominator * 2 > I128_MAX
      || (forall r :: NearestEven(r, a.numerator, a.denominator) ==> !InI64(r))
  {
    var n, d := a.numerator, a.denominator;
    if n > -I128_MAX - 1 {
      RoundingIsNearest(Abs(n), d);
      if RoundHalfEven(Abs(n), d).Some? {
        var r := RoundHalfEven(Abs(n), d).value;
        MirrorNearest(r, Abs(n), d);
        var signed := Signed(n < 0, r);
        assert NearestEven(signed, n, d);
        forall x | NearestEven(x, n, d)
          ensures x == signed
        {
          NearestEvenIsUnique(x, signed, n, d);
        }
      }
    }
  }

  lemma MirrorNearest(r: int, n: int, d: int)
    requires NearestEven(r, n, d)
    ensures NearestEven(-r, -n, d)
  {
    assert -n - -r * d == -(n - r * d);
  }

  /** The signed rounding is odd, save where the mirrored result does not fit. */
  lemma SignedRoundingIsOdd(a: Decimal)
    requires Canonical(a) && a.numerator != -I128_MAX - 1
    ensures Neg(a).Some?
    ensures ToSignedCycleDeltaRounded(Neg(a).value) ==
      match ToSignedCycleDeltaRounded(a)
      case None => if ToSignedMagnitude(a) == Some(I64_MAX + 1) then Some(-I64_MAX - 1) else None
      case Some(r) => if r == -I64_MAX - 1 then None else Some(-r)
  {
    NegIsExact(a);
    var negative := a.numerator < 0;
    if a.numerator == 0 {
      MirroredRounding(RoundHalfEven(0, a.denominator), false);
      assert RoundHalfEven(0, a.denominator) == Some(0);
    } else {
      MirroredRounding(RoundHalfEven(Abs(a.numerator), a.denominator), negative);
    }
  }

  lemma MirroredRounding(magnitude: Option<nat>, negative: bool)
    ensures SignedRounding(!negative, magnitude) ==
      match SignedRounding(negative, magnitude)
      case None => if !negative && magnitude == Some(I64_MAX + 1) then Some(-I64_MAX - 1) else None
      case Some(r) => if r == -I64_MAX - 1 then None else Some(-r)
  {
  }

  /** The rounded magnitude of a value that is not negative. */
  function ToSignedMagnitude(a: Decimal): Option<int>
    requires a.denominator > 0
  {
    if a.numerator < 0 then None else
      var r := RoundHalfEven(a.numerator, a.denominator);
      if r.None? then None else Some(r.value)
  }

  /** The least numerator has no absolute value and is refused, although a result in range is nearest. */
  lemma LeastNumeratorIsRefused()
    ensures var a := Decimal(-0x8000_0000_0000_0000_0000_0000_0000_0000, 0x7FFF_FFFF_FFFF_FFFF_FFFF_FFFF_FFFF_FFFF);
      ToSignedCycleDeltaRounded(a).None? && NearestEven(-1, a.numerator, a.denominator)
    ensures var a := Decimal(1 - 0x8000_0000_0000_0000_0000_0000_0000_0000, 0x7FFF_FFFF_FFFF_FFFF_FFFF_FFFF_FFFF_FFFF);
      Neg(a).Some? && Neg(Decimal(a.numerator - 1, a.denominator)).None?
  {
  }

  /** A remainder beyond half of the 128-bit range cannot be doubled: this value in lowest terms is
      refused both ways, although 1 is nearest. */
  lemma UndoublableRemainderIsRefused()
    ensures var a := Decimal(0x4000_0000_0000_0000_0000_0000_0000_0000, I128_MAX);
      Canonical(a) && NearestEven(1, a.numerator, a.denominator) &&
      ToCycleCountRounded(a).None? && ToSignedCycleDeltaRounded(a).None?
  {
    var n: nat, d: nat := 0x4000_0000_0000_0000_0000_0000_0000_0000, I128_MAX;
    assert 2 * n - d == 1;
    var p, q := GcdDivides(n, d);
    DoubledDifference(n, d, p, q, Gcd(n, d));
    DividesOne(Gcd(n, d), 2 * p - q);
    RoundingIsNearest(n, d);
  }

  lemma DoubledDifference(n: int, d: int, p: int, q: int, g: int)
    requires n == p * g && d == q * g
    ensures 2 * n - d == g * (2 * p - q)
  {
  }

  // ---- decimal notation

  function Pow10(k: nat): (p: int)
    ensures p > 0
  {
    if k == 0 then 1 else 10 * Pow10(k - 1)
  }

  /** The end of parsing: the digits of a mantissa and how many of them, less the exponent, follow the point. */
  function FromScaled(digits: int, scale: int): Option<Decimal> {
    if scale >= 0 then
      var d := Checked(Pow10(scale));
      if d.None? then None else New(digits, d.value)
    else
      var m := Checked(Pow10(-scale));
      var n := if m.None? then None else Checked(digits * m.value);
      if n.None? then None else New(n.value, 1)
  }

  /** What parsing makes of the sign, the digits and the scale. The digits are read before the sign,
      so the least integer is not read. */
  function Parsed(digits: int, scale: int): Option<Decimal> {
    if Abs(digits) > I128_MAX then None else FromScaled(digits, scale)
  }

  /** A parsed value is the written one, digit for digit. */
  lemma ParsedIsWritten(digits: int, scale: int)
    requires Parsed(digits, scale).Some?
    ensures Canonical(Parsed(digits, scale).value)
    ensures Value(Parsed(digits, scale).value) ==
      if scale >= 0 then digits as real / Pow10(scale) as real else (digits * Pow10(-scale)) as real
  {
    var v := FromScaled(digits, scale).value;
    if scale >= 0 {
      NewIsExact(digits, Pow10(scale));
      SameRatio(v.numerator, v.denominator, digits, Pow10(scale));
    } else {
      NewIsExact(digits * Pow10(-scale), 1);
      SameRatio(v.numerator, v.denominator, digits * Pow10(-scale), 1);
    }
  }
}
