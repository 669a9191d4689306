/** Durations in compile-time values: a dimension checker, two routes from source to cycles, and type inference. */
module Durations {
  import opened Arithmetic
  import opened Common
  import opened ExactDecimal

  datatype Operator = AddOp | SubtractOp | MultiplyOp | DivideOp

  datatype TimeUnit = Seconds | Milliseconds | Microseconds | Nanoseconds {
    /** The power of ten by which a second is divided. */
    function Power(): nat {
      match this
      case Seconds => 0
      case Milliseconds => 3
      case Microseconds => 6
      case Nanoseconds => 9
    }
  }

  /** A normalised value as a tree; other text has no numeric reading. */
  datatype NormExpr =
    | IntLiteral(value: int)
    | FloatLiteral(digits: int, scale: nat)
    | UnitName(timeUnit: TimeUnit)
    | Cycles(count: int)
    | Negated(operand: NormExpr)
    | Posited(operand: NormExpr)
    | Binary(op: Operator, left: NormExpr, right: NormExpr)
    | OtherText

  datatype Dimension = Scalar | Duration

  datatype Folded = IntValue(count: int) | FloatValue(number: Decimal) | CyclesValue(cycles: Decimal)

  datatype SourceType = Int64 | Float64 | DurationType

  function Combined(op: Operator, left: Dimension, right: Dimension): Option<Dimension> {
    match op
    case AddOp => if left == right then Some(left) else None
    case SubtractOp => if left == right then Some(left) else None
    case MultiplyOp =>
      if left == Duration && right == Duration then None else Some(if left == Scalar && right == Scalar
        then Scalar else Duration)
    case DivideOp => if left == Scalar && right == Duration then None else Some(if left == right then Scalar
      else Duration)
  }

  function DimensionOf(e: NormExpr): Option<Dimension> {
    match e
    case IntLiteral(_) => Some(Scalar)
    case FloatLiteral(_, _) => Some(Scalar)
    case UnitName(_) => Some(Duration)
    case Cycles(count) => if InI64(count) then Some(Duration) else None
    case Negated(operand) => DimensionOf(operand)
    case Posited(operand) => DimensionOf(operand)
    case Binary(op, left, right) =>
      var l, r := DimensionOf(left), DimensionOf(right);
      if l.None? || r.None? then None else Combined(op, l.value, r.value)
    case OtherText => None
  }

  function Apply(op: Operator, a: Decimal, b: Decimal): Option<Decimal> {
    match op
    case AddOp => Add(a, b)
    case SubtractOp => Sub(a, b)
    case MultiplyOp => Mul(a, b)
    case DivideOp => Div(a, b)
  }

  function FromInt(n: int): Decimal {
    Decimal(n, 1)
  }

  /** The first route: the value in seconds, where a count of cycles has no reading. */
  function ParseNumeric(e: NormExpr): Option<Decimal> {
    match e
    case IntLiteral(value) => if Abs(value) <= I128_MAX then Some(FromInt(value)) else None
    case FloatLiteral(digits, scale) => Parsed(digits, scale)
    case UnitName(timeUnit) => Parsed(1, timeUnit.Power())
    case Cycles(_) => None
    case Negated(operand) =>
      var v := ParseNumeric(operand);
      if v.None? then None else Neg(v.value)
    case Posited(operand) => ParseNumeric(operand)
    case Binary(op, left, right) =>
      var l, r := ParseNumeric(left), ParseNumeric(right);
      if l.None? || r.None? then None else Apply(op, l.value, r.value)
    case OtherText => None
  }

  predicate HasDurationUnit(e: NormExpr) {
    DimensionOf(e) == Some(Duration)
  }

  /** Seconds to cycles. */
  function InCycles(seconds: Option<Decimal>, clock: nat): Option<Folded> {
    if seconds.None? then None else
      var v := Mul(seconds.value, FromInt(clock));
      if v.None? then None else Some(CyclesValue(v.value))
  }

  /** A parameter's default: a bare integer stays one, every other scalar becomes a float. */
  function LowerDefault(e: NormExpr, clock: nat): Option<Folded> {
    if e.IntLiteral? then (if InI64(e.value) then Some(IntValue(e.value)) else None)
    else if e.Cycles? then (if InI64(e.count) then Some(CyclesValue(FromInt(e.count))) else None)
    else if HasDurationUnit(e) then InCycles(ParseNumeric(e), clock)
    else
      var v := ParseNumeric(e);
      if v.None? then None else Some(FloatValue(v.value))
  }

  datatype CompileError = Unsupported | NotIntegral | UnitMissing | Overflow

  /** A compile value of a declared type. */
  function LowerCompile(e: NormExpr, declared: Option<SourceType>, clock: nat): Result<Folded, CompileError> {
    if e.Cycles? then (if InI64(e.count) then Ok(CyclesValue(FromInt(e.count))) else Err(Unsupported))
    else
      var v := ParseNumeric(e);
      if v.None? then Err(Unsupported)
      else if declared == Some(Int64) then
        (if v.value.denominator > 0 && ToSignedCycleDelta(v.value).Some?
          then Ok(IntValue(ToSignedCycleDelta(v.value).value)) else Err(NotIntegral))
      else if declared == Some(DurationType) && !HasDurationUnit(e) then Err(UnitMissing)
      else if HasDurationUnit(e) then
        var c := InCycles(v, clock);
        if c.None? then Err(Overflow) else Ok(c.value)
      else Ok(FloatValue(v.value))
  }

  // ---- the second route: folding source operations, with units already in cycles

  function FoldUnit(timeUnit: TimeUnit, clock: nat): Option<Folded> {
    var v := Div(FromInt(clock), FromInt(Pow10(timeUnit.Power())));
    if v.None? then None else Some(CyclesValue(v.value))
  }

  function IntOperation(op: Operator, left: int, right: int): Option<Folded> {
    match op
    case AddOp => if InI64(left + right) then Some(IntValue(left + right)) else None
    case SubtractOp => if InI64(left - right) then Some(IntValue(left - right)) else None
    case MultiplyOp => if InI64(left * right) then Some(IntValue(left * right)) else None
    case DivideOp => AsFloat(Div(FromInt(left), FromInt(right)))
  }

  function AsFloat(v: Option<Decimal>): Option<Folded> {
    if v.None? then None else Some(FloatValue(v.value))
  }

  function AsCycles(v: Option<Decimal>): Option<Folded> {
    if v.None? then None else Some(CyclesValue(v.value))
  }

  function DecimalOf(s: Folded): Decimal {
    match s
    case IntValue(n) => FromInt(n)
    case FloatValue(v) => v
    case CyclesValue(v) => v
  }

  /** Folding two constants; none when the combination has no meaning or does not fit. A scale before a duration
      is swapped behind it. */
  function FoldBinary(op: Operator, left: Folded, right: Folded): Option<Folded> {
    if left.IntValue? && right.IntValue? then IntOperation(op, left.count, right.count)
    else if !left.CyclesValue? && !right.CyclesValue? then
      (if left.IntValue? && (op == AddOp || op == MultiplyOp)
       then AsFloat(Apply(op, DecimalOf(right), DecimalOf(left)))
       else AsFloat(Apply(op, DecimalOf(left), DecimalOf(right))))
    else if left.CyclesValue? && right.CyclesValue? then
      match op
      case AddOp => AsCycles(Add(left.cycles, right.cycles))
      case SubtractOp => AsCycles(Sub(left.cycles, right.cycles))
      case MultiplyOp => None
      case DivideOp => AsFloat(Div(left.cycles, right.cycles))
    else if left.CyclesValue? then
      match op
      case AddOp => None
      case SubtractOp => None
      case MultiplyOp => AsCycles(Mul(left.cycles, DecimalOf(right)))
      case DivideOp => AsCycles(Div(left.cycles, DecimalOf(right)))
    else if op == MultiplyOp then AsCycles(Mul(right.cycles, DecimalOf(left)))
    else None
  }

  function FoldNegate(s: Folded): Option<Folded> {
    match s
    case IntValue(n) => if InI64(-n) then Some(IntValue(-n)) else None
    case FloatValue(v) => AsFloat(Neg(v))
    case CyclesValue(v) => AsCycles(Neg(v))
  }

  function Fold(e: NormExpr, clock: nat): Option<Folded> {
    match e
    case IntLiteral(value) => if InI64(value) then Some(IntValue(value)) else None
    case FloatLiteral(digits, scale) => AsFloat(Parsed(digits, scale))
    case UnitName(timeUnit) => FoldUnit(timeUnit, clock)
    case Cycles(count) => if InI64(count) then Some(CyclesValue(FromInt(count))) else None
    case Negated(operand) =>
      var v := Fold(operand, clock);
      if v.None? then None else FoldNegate(v.value)
    case Posited(operand) => Fold(operand, clock)
    case Binary(op, left, right) =>
      var l, r := Fold(left, clock), Fold(right, clock);
      if l.None? || r.None? then None else FoldBinary(op, l.value, r.value)
    case OtherText => None
  }

  // ---- meaning

  ghost function RealApply(op: Operator, x: real, y: real): real {
    match op
    case AddOp => x + y
    case SubtractOp => x - y
    case MultiplyOp => x * y
    case DivideOp => if y == 0.0 then 0.0 else x / y
  }

  /** The number an expression stands for when a second is worth `second`, and a cycle its part of that. */
  ghost function Meaning(e: NormExpr, second: real, clock: nat): real
    requires clock > 0
  {
    match e
    case IntLiteral(value) => value as real
    case FloatLiteral(digits, scale) => digits as real / Pow10(scale) as real
    case UnitName(timeUnit) => second / Pow10(timeUnit.Power()) as real
    case Cycles(count) => count as real * (second / clock as real)
    case Negated(operand) => -Meaning(operand, second, clock)
    case Posited(operand) => Meaning(operand, second, clock)
    case Binary(op, left, right) => RealApply(op, Meaning(left, second, clock), Meaning(right, second, clock))
    case OtherText => 0.0
  }

  ghost function Scaled(d: Dimension, k: real, x: real): real {
    if d == Duration then k * x else x
  }

  /** Dimension checking is sound: a change of the time scale multiplies durations and leaves scalars alone. */
  lemma {:induction false} ScalingLaw(e: NormExpr, second: real, second': real, clock: nat, k: real)
    requires clock > 0 && k > 0.0 && second' == k * second && DimensionOf(e).Some?
    ensures Meaning(e, second', clock) == Scaled(DimensionOf(e).value, k, Meaning(e, second, clock))
  {
    match e
    case Negated(operand) =>
      ScalingLaw(operand, second, second', clock, k);
      ScaledNegation(DimensionOf(e).value, k, Meaning(operand, second, clock));
    case Posited(operand) => ScalingLaw(operand, second, second', clock, k);
    case Binary(op, left, right) =>
      ScalingLaw(left, second, second', clock, k);
      ScalingLaw(right, second, second', clock, k);
      ScaledOperation(op, DimensionOf(left).value, DimensionOf(right).value,
        Meaning(left, second, clock), Meaning(right, second, clock), k);
    case _ => ScalingLeaf(e, second, second', clock, k);
  }

  lemma ScalingLeaf(e: NormExpr, second: real, second': real, clock: nat, k: real)
    requires clock > 0 && k > 0.0 && second' == k * second && DimensionOf(e).Some?
    requires !e.Negated? && !e.Posited? && !e.Binary?
    ensures Meaning(e, second', clock) == Scaled(DimensionOf(e).value, k, Meaning(e, second, clock))
  {
    if e.UnitName? {
      ScaledQuotient(k, second, Pow10(e.timeUnit.Power()) as real);
    } else if e.Cycles? {
      ScaledQuotient(k, second, clock as real);
      Reassociate(e.count as real, k, second / clock as real);
    }
  }

  lemma ScaledNegation(d: Dimension, k: real, x: real)
    ensures -Scaled(d, k, x) == Scaled(d, k, -x)
  {
  }

  lemma ScaledQuotient(k: real, x: real, p: real)
    requires p > 0.0
    ensures k * x / p == k * (x / p)
  {
    assert x == x / p * p;
    RealQuotient(k * x, p, k * (x / p));
  }

  lemma Reassociate(a: real, k: real, b: real)
    ensures a * (k * b) == k * (a * b)
  {
  }

  lemma ScaledOperation(op: Operator, l: Dimension, r: Dimension, x: real, y: real, k: real)
    requires k > 0.0 && Combined(op, l, r).Some?
    ensures RealApply(op, Scaled(l, k, x), Scaled(r, k, y)) == Scaled(Combined(op, l, r).value, k, RealApply(op, x, y))
  {
    if op == MultiplyOp {
      ScaledProduct(l, r, x, y, k);
    } else if op == DivideOp {
      ScaledDivide(l, r, x, y, k);
    } else {
      ScaledSum(k, x, y);
    }
  }

  lemma ScaledProduct(l: Dimension, r: Dimension, x: real, y: real, k: real)
    requires l == Scalar || r == Scalar
    ensures Scaled(l, k, x) * Scaled(r, k, y) == Scaled(if l == r then Scalar else Duration, k, x * y)
  {
    Reassociate(x, k, y);
    LeftFactor(k, x, y);
  }

  lemma ScaledDivide(l: Dimension, r: Dimension, x: real, y: real, k: real)
    requires k > 0.0 && Combined(DivideOp, l, r).Some?
    ensures RealApply(DivideOp, Scaled(l, k, x), Scaled(r, k, y)) ==
      Scaled(if l == r then Scalar else Duration, k, RealApply(DivideOp, x, y))
  {
    if y == 0.0 {
      ZeroProduct(k);
    } else {
      NonzeroProduct(k, y);
      ScaledDivision(k, x, y);
    }
  }

  lemma ScaledSum(k: real, x: real, y: real)
    ensures k * x + k * y == k * (x + y)
    ensures k * x - k * y == k * (x - y)
  {
  }

  lemma LeftFactor(k: real, x: real, y: real)
    ensures k * x * y == k * (x * y)
  {
  }

  lemma ZeroProduct(k: real)
    ensures k * 0.0 == 0.0
  {
  }

  lemma NonzeroProduct(k: real, y: real)
    requires k > 0.0 && y != 0.0
    ensures k * y != 0.0
  {
  }

  lemma ScaledDivision(k: real, x: real, y: real)
    requires k > 0.0 && y != 0.0 && k * y != 0.0
    ensures k * x / y == k * (x / y)
    ensures k * x / (k * y) == x / y
  {
    var q := x / y;
    assert x == q * y;
    QuotientBy(k * x, y, k * q);
    QuotientBy(k * x, k * y, q);
  }

  lemma QuotientBy(a: real, b: real, q: real)
    requires b != 0.0 && a == q * b
    ensures a / b == q
  {
    var r := a / b;
    assert r * b == q * b;
    assert (r - q) * b == 0.0;
  }

  // ---- type inference

  predicate IsNumericScalar(t: SourceType) {
    t == Int64 || t == Float64
  }

  function ScalarBinaryType(op: Operator, left: Option<SourceType>, right: Option<SourceType>): Option<SourceType> {
    if (op == AddOp || op == SubtractOp) && left == Some(DurationType) && right == Some(DurationType)
      then Some(DurationType)
    else if op == MultiplyOp &&
      ((left == Some(DurationType) && right.Some? && IsNumericScalar(right.value)) ||
       (right == Some(DurationType) && left.Some? && IsNumericScalar(left.value))) then Some(DurationType)
    else if op == DivideOp && left == Some(DurationType) && right.Some? && IsNumericScalar(right.value)
      then Some(DurationType)
    else if op == DivideOp && left == Some(DurationType) && right == Some(DurationType) then Some(Float64)
    else if left == Some(DurationType) || right == Some(DurationType) then None
    else if left == Some(Float64) || right == Some(Float64) then Some(Float64)
    else if left == Some(Int64) && right == Some(Int64) then Some(Int64)
    else None
  }

  function InferType(e: NormExpr): Option<SourceType> {
    match e
    case IntLiteral(_) => Some(Int64)
    case FloatLiteral(_, _) => Some(Float64)
    case UnitName(_) => Some(DurationType)
    case Cycles(_) => Some(DurationType)
    case Negated(operand) => InferType(operand)
    case Posited(operand) => InferType(operand)
    case Binary(op, left, right) => ScalarBinaryType(op, InferType(left), InferType(right))
    case OtherText => None
  }

  function DimensionOfType(t: SourceType): Dimension {
    if t == DurationType then Duration else Scalar
  }

  /** What the dimension checker accepts has the type of its dimension. */
  lemma {:induction false} DimensionIsInferred(e: NormExpr)
    requires DimensionOf(e).Some?
    ensures InferType(e).Some? && DimensionOfType(InferType(e).value) == DimensionOf(e).value
  {
    match e
    case Negated(operand) => DimensionIsInferred(operand);
    case Posited(operand) => DimensionIsInferred(operand);
    case Binary(op, left, right) =>
      DimensionIsInferred(left);
      DimensionIsInferred(right);
    case _ =>
  }

  predicate HasDivision(e: NormExpr) {
    match e
    case Negated(operand) => HasDivision(operand)
    case Posited(operand) => HasDivision(operand)
    case Binary(op, left, right) => op == DivideOp || HasDivision(left) || HasDivision(right)
    case _ => false
  }

  function TypeOfFolded(s: Folded): SourceType {
    match s
    case IntValue(_) => Int64
    case FloatValue(_) => Float64
    case CyclesValue(_) => DurationType
  }

  /** A folded constant has the inferred type, unless integers were divided on the way to an inferred integer: that
      division is typed Int64 but folds to a float. */
  lemma {:induction false} FoldedTypeIsInferred(e: NormExpr, clock: nat)
    requires Fold(e, clock).Some?
    ensures InferType(e).Some?
    ensures TypeOfFolded(Fold(e, clock).value) == (if InferType(e) == Some(Int64) && HasDivision(e) then Float64
      else InferType(e).value)
  {
    match e
    case Negated(operand) => FoldedTypeIsInferred(operand, clock);
    case Posited(operand) => FoldedTypeIsInferred(operand, clock);
    case Binary(op, left, right) =>
      FoldedTypeIsInferred(left, clock);
      FoldedTypeIsInferred(right, clock);
    case _ =>
  }

  /** The quotient of two integers is typed an integer and folds to a float. */
  lemma IntegerQuotientIsFloat(clock: nat)
    ensures var e := Binary(DivideOp, IntLiteral(1), IntLiteral(2));
      InferType(e) == Some(Int64) && Fold(e, clock) == Some(FloatValue(Decimal(1, 2)))
  {
    assert Fold(IntLiteral(1), clock) == Some(IntValue(1)) && Fold(IntLiteral(2), clock) == Some(IntValue(2));
    assert InferType(IntLiteral(1)) == Some(Int64) && InferType(IntLiteral(2)) == Some(Int64);
    HalfIsReduced();
  }

  lemma HalfIsReduced()
    ensures Div(FromInt(1), FromInt(2)) == Some(Decimal(1, 2))
  {
    assert Gcd(1, 2) == Gcd(2, 1) == Gcd(1, 0) == 1;
  }

  // ---- both routes compute the meaning

  lemma ApplyIsExact(op: Operator, a: Decimal, b: Decimal)
    requires Canonical(a) && Canonical(b) && Apply(op, a, b).Some?
    ensures Canonical(Apply(op, a, b).value) && Value(Apply(op, a, b).value) == RealApply(op, Value(a), Value(b))
  {
    match op
    case AddOp => AddIsExact(a, b);
    case SubtractOp => SubIsExact(a, b);
    case MultiplyOp => MulIsExact(a, b);
    case DivideOp => DivIsExact(a, b);
  }

  lemma IntIsCanonical(n: int)
    requires InI128(n)
    ensures Canonical(FromInt(n)) && Value(FromInt(n)) == n as real
  {
    var p, q := GcdDivides(Abs(n), 1);
    DividesOne(Gcd(Abs(n), 1), q);
    assert q * Gcd(Abs(n), 1) == Gcd(Abs(n), 1) * q;
  }

  /** Parsing reads seconds. */
  lemma {:induction false} ParseIsMeaning(e: NormExpr, clock: nat)
    requires clock > 0 && ParseNumeric(e).Some?
    ensures Canonical(ParseNumeric(e).value) && Value(ParseNumeric(e).value) == Meaning(e, 1.0, clock)
  {
    match e
    case IntLiteral(value) => IntIsCanonical(value);
    case FloatLiteral(digits, scale) => ParsedIsWritten(digits, scale);
    case UnitName(timeUnit) => ParsedIsWritten(1, timeUnit.Power());
    case Negated(operand) =>
      ParseIsMeaning(operand, clock);
      NegIsExact(ParseNumeric(operand).value);
    case Posited(operand) => ParseIsMeaning(operand, clock);
    case Binary(op, left, right) =>
      ParseIsMeaning(left, clock);
      ParseIsMeaning(right, clock);
      ApplyIsExact(op, ParseNumeric(left).value, ParseNumeric(right).value);
  }

  ghost predicate FoldedOk(s: Folded) {
    Canonical(DecimalOf(s)) && (s.IntValue? ==> InI64(s.count))
  }

  function DimensionOfFolded(s: Folded): Dimension {
    if s.CyclesValue? then Duration else Scalar
  }

  /** Folding two constants applies the operation to their numbers, under the checker's rules for dimensions. */
  lemma FoldBinaryIsExact(op: Operator, left: Folded, right: Folded)
    requires FoldedOk(left) && FoldedOk(right) && FoldBinary(op, left, right).Some?
    ensures var s := FoldBinary(op, left, right).value;
      && FoldedOk(s) && Combined(op, DimensionOfFolded(left), DimensionOfFolded(right)) == Some(DimensionOfFolded(s))
      && Value(DecimalOf(s)) == RealApply(op, Value(DecimalOf(left)), Value(DecimalOf(right)))
  {
    var a, b := DecimalOf(left), DecimalOf(right);
    if left.IntValue? && right.IntValue? {
      IntOperationIsExact(op, left.count, right.count);
    } else {
      FoldBinaryApplies(op, left, right);
      if Swapped(op, left, right) {
        ApplyIsExact(op, b, a);
        SwapIsSame(op, Value(a), Value(b));
      } else {
        ApplyIsExact(op, a, b);
      }
    }
  }

  /** A commutative operation is applied with the operand that is not an integer, or the cycles, first. */
  predicate Swapped(op: Operator, left: Folded, right: Folded) {
    && (op == AddOp || op == MultiplyOp)
    && ((right.CyclesValue? && !left.CyclesValue?) || (left.IntValue? && right.FloatValue?))
  }

  lemma SwapIsSame(op: Operator, x: real, y: real)
    requires op == AddOp || op == MultiplyOp
    ensures RealApply(op, y, x) == RealApply(op, x, y)
  {
  }

  lemma FoldBinaryApplies(op: Operator, left: Folded, right: Folded)
    requires FoldBinary(op, left, right).Some? && !(left.IntValue? && right.IntValue?)
    ensures var s := FoldBinary(op, left, right).value;
      && !s.IntValue? && Combined(op, DimensionOfFolded(left), DimensionOfFolded(right)) == Some(DimensionOfFolded(s))
      && Some(DecimalOf(s)) == if Swapped(op, left, right) then Apply(op, DecimalOf(right), DecimalOf(left))
        else Apply(op, DecimalOf(left), DecimalOf(right))
  {
  }

  lemma IntOperationIsExact(op: Operator, left: int, right: int)
    requires InI64(left) && InI64(right) && IntOperation(op, left, right).Some?
    ensures var s := IntOperation(op, left, right).value;
      && FoldedOk(s) && !s.CyclesValue? && Value(DecimalOf(s)) == RealApply(op, left as real, right as real)
    ensures Value(FromInt(left)) == left as real && Value(FromInt(right)) == right as real
  {
    IntIsCanonical(left);
    IntIsCanonical(right);
    if op == DivideOp {
      DivIsExact(FromInt(left), FromInt(right));
    } else {
      var n := IntOperation(op, left, right).value.count;
      IntIsCanonical(n);
      IntegersAsReals(op, left, right, n);
    }
  }

  lemma IntegersAsReals(op: Operator, left: int, right: int, n: int)
    requires op != DivideOp
    requires n == (if op == AddOp then left + right else if op == SubtractOp then left - right else left * right)
    ensures n as real == RealApply(op, left as real, right as real)
  {
  }

  lemma FoldNegateIsExact(s: Folded)
    requires FoldedOk(s) && FoldNegate(s).Some?
    ensures FoldedOk(FoldNegate(s).value) && DimensionOfFolded(FoldNegate(s).value) == DimensionOfFolded(s)
    ensures Value(DecimalOf(FoldNegate(s).value)) == -Value(DecimalOf(s))
  {
    if s.IntValue? {
      IntIsCanonical(s.count);
      IntIsCanonical(-s.count);
    } else {
      NegIsExact(DecimalOf(s));
    }
  }

  /** Folding reads cycles, and its results have the dimension the checker finds. */
  lemma {:induction false} FoldIsMeaning(e: NormExpr, clock: nat)
    requires 0 < clock <= U64_MAX && Fold(e, clock).Some?
    ensures var s := Fold(e, clock).value;
      && FoldedOk(s) && DimensionOf(e) == Some(DimensionOfFolded(s))
      && Value(DecimalOf(s)) == Meaning(e, clock as real, clock)
  {
    match e
    case IntLiteral(value) => IntIsCanonical(value);
    case FloatLiteral(digits, scale) => ParsedIsWritten(digits, scale);
    case UnitName(timeUnit) => UnitIsExact(timeUnit, clock);
    case Cycles(count) =>
      IntIsCanonical(count);
      RealQuotient(clock as real, clock as real, 1.0);
    case Negated(operand) =>
      FoldIsMeaning(operand, clock);
      FoldNegateIsExact(Fold(operand, clock).value);
    case Posited(operand) => FoldIsMeaning(operand, clock);
    case Binary(op, left, right) =>
      FoldIsMeaning(left, clock);
      FoldIsMeaning(right, clock);
      FoldBinaryIsExact(op, Fold(left, clock).value, Fold(right, clock).value);
  }

  lemma UnitIsExact(timeUnit: TimeUnit, clock: nat)
    requires clock <= U64_MAX
    ensures FoldUnit(timeUnit, clock).Some? ==>
      var s := FoldUnit(timeUnit, clock).value;
      s.CyclesValue? && Canonical(s.cycles) && Value(s.cycles) == clock as real / Pow10(timeUnit.Power()) as real
  {
    var p := Pow10(timeUnit.Power());
    IntIsCanonical(clock);
    assert Pow10(9) == 1_000_000_000 && Pow10(6) == 1_000_000 && Pow10(3) == 1000 && Pow10(0) == 1;
    IntIsCanonical(p);
    DivIsExact(FromInt(clock), FromInt(p));
  }

  // ---- the units of time against each other

  function ThousandOf(timeUnit: TimeUnit): NormExpr {
    Binary(MultiplyOp, IntLiteral(1000), UnitName(timeUnit))
  }

  lemma PowersOfThousand()
    ensures Pow10(0) == 1 && Pow10(3) == 1000 && Pow10(6) == 1_000_000 && Pow10(9) == 1_000_000_000
  {
    assert Pow10(2) == 100 && Pow10(5) == 100_000 && Pow10(8) == 100_000_000;
  }

  /** The number of an expression relates the units as a second, its thousandth, its millionth and its billionth. */
  lemma UnitsMean(second: real, clock: nat)
    requires clock > 0
    ensures Meaning(UnitName(Seconds), second, clock) == second
    ensures Meaning(ThousandOf(Milliseconds), second, clock) == Meaning(UnitName(Seconds), second, clock)
    ensures Meaning(ThousandOf(Microseconds), second, clock) == Meaning(UnitName(Milliseconds), second, clock)
    ensures Meaning(ThousandOf(Nanoseconds), second, clock) == Meaning(UnitName(Microseconds), second, clock)
  {
    PowersOfThousand();
  }

  /** Parsed, a second is 1, and a thousand of each smaller unit are the very value of the next larger one. */
  lemma UnitsParse()
    ensures ParseNumeric(UnitName(Seconds)) == Some(Decimal(1, 1))
    ensures ParseNumeric(ThousandOf(Milliseconds)) == ParseNumeric(UnitName(Seconds))
    ensures ParseNumeric(ThousandOf(Microseconds)) == ParseNumeric(UnitName(Milliseconds))
    ensures ParseNumeric(ThousandOf(Nanoseconds)) == ParseNumeric(UnitName(Microseconds))
    ensures ParseNumeric(UnitName(Nanoseconds)).Some? && ParseNumeric(UnitName(Microseconds)).Some?
    ensures ParseNumeric(UnitName(Milliseconds)).Some?
  {
    PowersOfThousand();
    ParsedUnit(Seconds);
    ParsedThousand(Milliseconds, Seconds);
    ParsedThousand(Microseconds, Milliseconds);
    ParsedThousand(Nanoseconds, Microseconds);
  }

  lemma ParsedUnit(timeUnit: TimeUnit)
    ensures ParseNumeric(UnitName(timeUnit)) == Some(Decimal(1, Pow10(timeUnit.Power())))
    ensures Canonical(Decimal(1, Pow10(timeUnit.Power()))) && Pow10(timeUnit.Power()) <= 1_000_000_000
  {
    PowersOfThousand();
    UnitFraction(Pow10(timeUnit.Power()));
  }

  lemma UnitFraction(p: int)
    requires 0 < p <= I128_MAX
    ensures Canonical(Decimal(1, p)) && New(1, p) == Some(Decimal(1, p))
  {
    var x, y := GcdDivides(1, p);
    DividesOne(Gcd(1, p), x);
    assert x * Gcd(1, p) == Gcd(1, p) * x;
  }

  lemma ParsedThousand(small: TimeUnit, large: TimeUnit)
    requires Pow10(small.Power()) == 1000 * Pow10(large.Power())
    ensures ParseNumeric(ThousandOf(small)) == ParseNumeric(UnitName(large))
    ensures ParseNumeric(UnitName(small)).Some? && ParseNumeric(UnitName(large)).Some?
  {
    ParsedUnit(small);
    ParsedUnit(large);
    IntIsCanonical(1000);
    var s, l := Decimal(1, Pow10(small.Power())), Decimal(1, Pow10(large.Power()));
    assert ParseNumeric(IntLiteral(1000)) == Some(FromInt(1000));
    MulIsExact(FromInt(1000), s);
    Thousandth(1, Pow10(small.Power()), Pow10(large.Power()));
    SameValueSame(Mul(FromInt(1000), s).value, l);
  }

  lemma Thousandth(n: int, p: int, q: int)
    requires 0 < q && p == 1000 * q
    ensures 1000.0 * (n as real / p as real) == n as real / q as real
  {
    assert p as real == 1000.0 * q as real;
    RealQuotient(n as real, q as real, 1000.0 * (n as real / p as real));
  }

  /** Folded, a second is the clock, and a thousand of each smaller unit are the very constant of the next larger
      one. */
  lemma UnitsFold(clock: nat)
    requires 0 < clock <= U64_MAX
    ensures Fold(UnitName(Seconds), clock) == Some(CyclesValue(FromInt(clock)))
    ensures Fold(ThousandOf(Milliseconds), clock) == Fold(UnitName(Seconds), clock)
    ensures Fold(ThousandOf(Microseconds), clock) == Fold(UnitName(Milliseconds), clock)
    ensures Fold(ThousandOf(Nanoseconds), clock) == Fold(UnitName(Microseconds), clock)
    ensures Fold(UnitName(Nanoseconds), clock).Some? && Fold(UnitName(Microseconds), clock).Some?
    ensures Fold(UnitName(Milliseconds), clock).Some?
  {
    PowersOfThousand();
    IntIsCanonical(clock);
    var v := FoldedUnit(Seconds, clock);
    SameValueSame(v, FromInt(clock));
    FoldedThousand(Milliseconds, Seconds, clock);
    FoldedThousand(Microseconds, Milliseconds, clock);
    FoldedThousand(Nanoseconds, Microseconds, clock);
  }

  lemma FoldedUnit(timeUnit: TimeUnit, clock: nat) returns (v: Decimal)
    requires clock <= U64_MAX
    ensures Fold(UnitName(timeUnit), clock) == Some(CyclesValue(v)) && Canonical(v)
    ensures Value(v) == clock as real / Pow10(timeUnit.Power()) as real
    ensures Abs(v.numerator) <= clock && v.denominator <= 1_000_000_000
  {
    PowersOfThousand();
    var p := Pow10(timeUnit.Power());
    IntIsCanonical(clock);
    IntIsCanonical(p);
    DivIsExact(FromInt(clock), FromInt(p));
    NewReduces(clock, p);
    UnitIsExact(timeUnit, clock);
    v := FoldUnit(timeUnit, clock).value.cycles;
  }

  lemma FoldedThousand(small: TimeUnit, large: TimeUnit, clock: nat)
    requires clock <= U64_MAX && Pow10(small.Power()) == 1000 * Pow10(large.Power())
    ensures Fold(ThousandOf(small), clock) == Fold(UnitName(large), clock)
    ensures Fold(UnitName(small), clock).Some? && Fold(UnitName(large), clock).Some?
  {
    var s := FoldedUnit(small, clock);
    var l := FoldedUnit(large, clock);
    assert Fold(IntLiteral(1000), clock) == Some(IntValue(1000));
    assert Fold(ThousandOf(small), clock) == AsCycles(Mul(s, FromInt(1000)));
    ThousandfoldIs(s, l, clock, Pow10(small.Power()), Pow10(large.Power()));
  }

  lemma ThousandfoldIs(s: Decimal, l: Decimal, clock: nat, p: int, q: int)
    requires clock <= U64_MAX && 0 < q && p == 1000 * q && Canonical(s) && Canonical(l)
    requires Value(s) == clock as real / p as real && Value(l) == clock as real / q as real
    requires Abs(s.numerator) <= clock && s.denominator <= 1_000_000_000
    ensures Mul(s, FromInt(1000)) == Some(l)
  {
    IntIsCanonical(1000);
    MulIsExact(s, FromInt(1000));
    Thousandth(clock, p, q);
    Commute(Value(s), 1000.0);
    SameValueSame(Mul(s, FromInt(1000)).value, l);
  }

  /** The two routes from source to cycles agree. They give the same number; for a duration the same constant; for
      a scalar the same constant exactly when its type is a float, it divides, or it is a bare integer. */
  lemma RoutesAgree(e: NormExpr, clock: nat)
    requires 0 < clock <= U64_MAX && LowerDefault(e, clock).Some? && Fold(e, clock).Some?
    ensures DecimalOf(LowerDefault(e, clock).value) == DecimalOf(Fold(e, clock).value)
    ensures DimensionOf(e) == Some(Duration) ==> LowerDefault(e, clock) == Fold(e, clock)
    ensures DimensionOf(e) == Some(Scalar) ==>
      (LowerDefault(e, clock) == Fold(e, clock) <==> InferType(e) == Some(Float64) || HasDivision(e) || e.IntLiteral?)
  {
    FoldIsMeaning(e, clock);
    FoldedTypeIsInferred(e, clock);
    if !e.IntLiteral? && !e.Cycles? {
      if HasDurationUnit(e) {
        DurationRoutesAgree(e, clock);
      } else {
        ScalarRoutesAgree(e, clock);
      }
    }
  }

  lemma DurationRoutesAgree(e: NormExpr, clock: nat)
    requires 0 < clock <= U64_MAX && HasDurationUnit(e) && ParseNumeric(e).Some? && Fold(e, clock).Some?
    requires Mul(ParseNumeric(e).value, FromInt(clock)).Some?
    ensures Fold(e, clock) == Some(CyclesValue(Mul(ParseNumeric(e).value, FromInt(clock)).value))
  {
    var seconds, m := ParsedSeconds(e, clock);
    var folded, c := FoldedCycles(e, clock);
    SecondsToCycles(e, clock, m, c);
    CyclesAgree(seconds, folded, clock, m, c);
  }

  lemma ParsedSeconds(e: NormExpr, clock: nat) returns (seconds: Decimal, m: real)
    requires clock > 0 && ParseNumeric(e).Some?
    ensures ParseNumeric(e) == Some(seconds) && Canonical(seconds) && Value(seconds) == m == Meaning(e, 1.0, clock)
  {
    ParseIsMeaning(e, clock);
    seconds, m := ParseNumeric(e).value, Meaning(e, 1.0, clock);
  }

  lemma FoldedCycles(e: NormExpr, clock: nat) returns (folded: Decimal, c: real)
    requires 0 < clock <= U64_MAX && HasDurationUnit(e) && Fold(e, clock).Some?
    ensures Fold(e, clock) == Some(CyclesValue(folded)) && Canonical(folded)
    ensures Value(folded) == c == Meaning(e, clock as real, clock)
  {
    FoldIsMeaning(e, clock);
    folded, c := DecimalOf(Fold(e, clock).value), Meaning(e, clock as real, clock);
  }

  lemma SecondsToCycles(e: NormExpr, clock: nat, m: real, c: real)
    requires clock > 0 && DimensionOf(e) == Some(Duration)
    requires m == Meaning(e, 1.0, clock) && c == Meaning(e, clock as real, clock)
    ensures c == clock as real * m
  {
    DurationScales(e, 1.0, clock as real, clock, clock as real, m, c);
  }

  lemma DurationScales(e: NormExpr, second: real, second': real, clock: nat, k: real, m: real, c: real)
    requires clock > 0 && k > 0.0 && second == 1.0 && second' == k && DimensionOf(e) == Some(Duration)
    requires m == Meaning(e, second, clock) && c == Meaning(e, second', clock)
    ensures c == k * m
  {
    TimesOne(k);
    ScalingLaw(e, second, second', clock, k);
  }

  lemma TimesOne(x: real)
    ensures x * 1.0 == x
  {
  }

  lemma CyclesAgree(seconds: Decimal, folded: Decimal, clock: nat, m: real, c: real)
    requires clock <= U64_MAX && Canonical(seconds) && Canonical(folded) && Mul(seconds, FromInt(clock)).Some?
    requires Value(seconds) == m && Value(folded) == c && c == clock as real * m
    ensures Mul(seconds, FromInt(clock)).value == folded
  {
    IntIsCanonical(clock);
    MulIsExact(seconds, FromInt(clock));
    Commute(m, clock as real);
    SameValueSame(Mul(seconds, FromInt(clock)).value, folded);
  }

  lemma Commute(x: real, y: real)
    ensures x * y == y * x
  {
  }

  lemma ScalarRoutesAgree(e: NormExpr, clock: nat)
    requires 0 < clock <= U64_MAX && DimensionOf(e) == Some(Scalar) && ParseNumeric(e).Some? && Fold(e, clock).Some?
    ensures ParseNumeric(e).value == DecimalOf(Fold(e, clock).value)
  {
    FoldIsMeaning(e, clock);
    ParseIsMeaning(e, clock);
    ScalingLaw(e, 1.0, clock as real, clock, clock as real);
    SameValueSame(ParseNumeric(e).value, DecimalOf(Fold(e, clock).value));
  }

  /** A negative integer default is such a scalar: it becomes a float on one route and stays an integer on the other. */
  lemma NegativeDefaultBecomesFloat(n: int, clock: nat)
    requires InI64(n) && InI64(-n)
    ensures LowerDefault(Negated(IntLiteral(n)), clock) == Some(FloatValue(FromInt(-n)))
    ensures Fold(Negated(IntLiteral(n)), clock) == Some(IntValue(-n))
  {
    IntIsCanonical(n);
    NegIsExact(FromInt(n));
    assert ParseNumeric(IntLiteral(n)) == Some(FromInt(n));
    assert DimensionOf(IntLiteral(n)) == Some(Scalar) && Fold(IntLiteral(n), clock) == Some(IntValue(n));
  }

  /** A compile value declared a duration is accepted exactly when it has the dimension and its number fits, and then
      it is the folded one. */
  lemma DeclaredDuration(e: NormExpr, clock: nat)
    requires 0 < clock <= U64_MAX
    ensures LowerCompile(e, Some(DurationType), clock).Ok? <==>
      DimensionOf(e) == Some(Duration) && LowerDefault(e, clock).Some?
    ensures LowerCompile(e, Some(DurationType), clock).Ok? && Fold(e, clock).Some? ==>
      LowerCompile(e, Some(DurationType), clock).value == Fold(e, clock).value
  {
    if HasDurationUnit(e) && ParseNumeric(e).Some? && Fold(e, clock).Some? &&
      Mul(ParseNumeric(e).value, FromInt(clock)).Some?
    {
      DurationRoutesAgree(e, clock);
    }
  }

  /** Declared an integer it is accepted exactly when its number is one that fits, read in seconds whatever its
      dimension; a count of cycles stays one whatever is declared. */
  lemma DeclaredInteger(e: NormExpr, clock: nat, n: int)
    requires clock > 0
    ensures LowerCompile(e, Some(Int64), clock).Ok? ==>
      (LowerCompile(e, Some(Int64), clock).value.IntValue? <==> !e.Cycles?)
    ensures LowerCompile(e, Some(Int64), clock) == Ok(IntValue(n)) ==> Meaning(e, 1.0, clock) == n as real
    ensures ParseNumeric(e).Some? && InI64(n) && Meaning(e, 1.0, clock) == n as real ==>
      LowerCompile(e, Some(Int64), clock) == Ok(IntValue(n))
  {
    if ParseNumeric(e).Some? {
      ParseIsMeaning(e, clock);
      IntegerConversion(ParseNumeric(e).value, n);
    }
  }

  lemma IntegerConversion(v: Decimal, n: int)
    requires Canonical(v)
    ensures ToSignedCycleDelta(v) == Some(n) <==> InI64(n) && Value(v) == n as real
  {
    ExactConversion(v);
    if InI64(n) {
      IntIsCanonical(n);
      SameValueSame(v, FromInt(n));
    }
  }
}
