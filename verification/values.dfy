/** The value-level helpers of the interpreter: truthiness, equality,
    `stringify`, and the unary and binary operators with their runtime
    errors. Numbers are exact reals; JavaScript's `Math.trunc` and `%` are
    written out because they round toward zero. */
module Values {
  import opened Common
  import opened Tokens
  import opened Runtime
  import opened Callables

  /** `isTruthy`: `nil` and `false` are falsy, everything else is truthy. */
  predicate IsTruthy(v: Value) {
    match v
    case Nil => false
    case Bool(b) => b
    case _ => true
  }

  lemma TruthyCases(v: Value)
    ensures !IsTruthy(v) <==> v == Nil || v == Bool(false)
  {
  }

  /** `isEqual`: two nils are equal, nil equals nothing else, and otherwise
      strict equality, which compares primitives by value and objects by
      identity. */
  predicate IsEqual(a: Value, b: Value) {
    if a.Nil? && b.Nil? then true
    else if a.Nil? then false
    else a == b
  }

  /** Lox equality is an equivalence: it coincides with equality of the
      modelled values, so two objects are equal exactly when they are the
      same object. */
  lemma IsEqualIsIdentity(a: Value, b: Value)
    ensures IsEqual(a, b) <==> a == b
    ensures IsEqual(a, b) == IsEqual(b, a)
    ensures a.Obj? && b.Obj? ==> (IsEqual(a, b) <==> a.ref == b.ref)
    ensures a.Num? != b.Num? ==> !IsEqual(a, b)
  {
  }

  /** The value of a literal token. */
  function LiteralValue(lit: LitValue): (v: Value)
    ensures lit.LNil? <==> v.Nil?
    ensures lit.LBool? ==> v == Bool(lit.b)
    ensures lit.LNum? ==> v == Num(lit.n)
    ensures lit.LStr? ==> v == Str(lit.s)
  {
    match lit
    case LNil => Nil
    case LBool(b) => Bool(b)
    case LNum(n) => Num(n)
    case LStr(s) => Str(s)
  }

  /** `stringify`: "nil", the text of a number, the string itself, "true"
      or "false", or the object's `toString`. */
  function Stringify(h: Heap, v: Value): (s: string)
    requires WellFormed(h) && ValueOk(h, v)
    ensures v.Nil? ==> s == "nil"
    ensures v.Str? ==> s == v.s
    ensures v.Bool? ==> s == (if v.b then "true" else "false")
    ensures v.Num? && v.n == v.n.Floor as real ==> s == IntToString(v.n.Floor)
  {
    match v
    case Nil => "nil"
    case Bool(b) => if b then "true" else "false"
    case Num(n) => NumberText(n)
    case Str(s) => s
    case Obj(r) => ObjectText(h, r)
  }

  /** An integral number prints as its decimal digits, which read back as
      the number. */
  lemma StringifyIntegral(h: Heap, n: nat)
    requires WellFormed(h)
    ensures AllDigits(Stringify(h, Num(n as real)))
    ensures DigitsValue(Stringify(h, Num(n as real))) == n
  {
    DigitsValueOfNatToString(n);
  }

  /** `Math.trunc`: rounds toward zero. */
  function Trunc(x: real): (t: int)
    ensures x >= 0.0 ==> 0.0 <= t as real <= x < t as real + 1.0
    ensures x < 0.0 ==> t as real - 1.0 < x <= t as real <= 0.0
  {
    if x >= 0.0 then x.Floor else -((-x).Floor)
  }

  /** JavaScript's `%`: the remainder of truncating division. */
  function JsRem(a: real, b: real): (r: real)
    requires b != 0.0
  {
    a - b * Trunc(a / b) as real
  }

  /** The remainder has the sign of the dividend, is smaller in size than
      the divisor, and recombines with the truncated quotient. */
  lemma JsRemProperties(a: real, b: real)
    requires b != 0.0
    ensures a == b * Trunc(a / b) as real + JsRem(a, b)
    ensures a >= 0.0 ==> 0.0 <= JsRem(a, b)
    ensures a <= 0.0 ==> JsRem(a, b) <= 0.0
    ensures -Abs(b) < JsRem(a, b) < Abs(b)
  {
    var q := a / b;
    var t := Trunc(q) as real;
    var f := q - t;
    assert a == b * q;
    assert JsRem(a, b) == b * f;
    // q and a / b have signs that agree through b, and f has the sign of q
    if b > 0.0 {
      assert a >= 0.0 ==> q >= 0.0;
      assert a <= 0.0 ==> q <= 0.0;
    } else {
      assert a >= 0.0 ==> q <= 0.0;
      assert a <= 0.0 ==> q >= 0.0;
    }
    SignedFractionTimes(b, f, q >= 0.0);
  }

  /** A multiple of `b` by a fraction strictly between -1 and 1 is smaller in
      size than `b`, with the sign of the product. */
  lemma SignedFractionTimes(b: real, f: real, nonneg: bool)
    requires b != 0.0
    requires nonneg ==> 0.0 <= f < 1.0
    requires !nonneg ==> -1.0 < f <= 0.0
    ensures -Abs(b) < b * f < Abs(b)
    ensures (nonneg == (b > 0.0)) ==> 0.0 <= b * f
    ensures (nonneg != (b > 0.0)) ==> b * f <= 0.0
  {
    if b > 0.0 {
      PositiveTimesFraction(b, f);
    } else {
      NegativeTimesFraction(b, f);
    }
  }

  lemma PositiveTimesFraction(c: real, f: real)
    requires c > 0.0 && -1.0 < f < 1.0
    ensures -c < c * f < c
    ensures f >= 0.0 ==> c * f >= 0.0
    ensures f <= 0.0 ==> c * f <= 0.0
  {
    MulNonneg(c, 1.0 - f);
    MulNonneg(c, 1.0 + f);
    assert c * (1.0 - f) == c - c * f;
    assert c * (1.0 + f) == c + c * f;
    if f >= 0.0 { MulNonneg(c, f); } else { MulNonneg(c, -f); }
  }

  lemma NegativeTimesFraction(b: real, f: real)
    requires b < 0.0 && -1.0 < f < 1.0
    ensures b < b * f < -b
    ensures f >= 0.0 ==> b * f <= 0.0
    ensures f <= 0.0 ==> b * f >= 0.0
  {
    MulNonneg(-b, 1.0 - f);
    MulNonneg(-b, 1.0 + f);
    assert (-b) * (1.0 - f) == -b + b * f;
    assert (-b) * (1.0 + f) == -b - b * f;
    if f >= 0.0 {
      MulNonneg(-b, f);
      assert (-b) * f == -(b * f);
    } else {
      MulNonneg(-b, -f);
      assert (-b) * (-f) == b * f;
    }
  }

  lemma MulNonneg(x: real, y: real)
    requires 0.0 <= x && 0.0 <= y
    ensures 0.0 <= x * y
    ensures x > 0.0 && y > 0.0 ==> x * y > 0.0
  {
  }

  function Abs(x: real): real {
    if x < 0.0 then -x else x
  }

  /** The unary operators: `!` negates truthiness, `-` needs a number, any
      other operator yields nil. */
  function UnaryOp(op: Token, v: Value): (r: Result<Value, RuntimeError>)
    ensures op.kind == Bang ==> r == Ok(Bool(!IsTruthy(v)))
    ensures op.kind == Minus ==>
      (r.Err? <==> !v.Num?) && (r.Ok? ==> r.value == Num(-v.n))
    ensures op.kind != Bang && op.kind != Minus ==> r == Ok(Nil)
    ensures r.Err? ==> r.error == RuntimeError(op, "Operand must be a number.")
  {
    match op.kind
    case Bang => Ok(Bool(!IsTruthy(v)))
    case Minus =>
      if v.Num? then Ok(Num(-v.n)) else Err(RuntimeError(op, "Operand must be a number."))
    case _ => Ok(Nil)
  }

  /** Applied twice, `!` gives the operand's truthiness as a boolean and
      `-` gives back the number; `-` on anything but a number fails before
      a second application. */
  lemma UnaryTwice(op: Token, v: Value)
    requires op.kind == Bang || op.kind == Minus
    ensures op.kind == Bang ==> UnaryOp(op, UnaryOp(op, v).value) == Ok(Bool(IsTruthy(v)))
    ensures op.kind == Minus ==>
              (v.Num? <==> UnaryOp(op, v).Ok?) && (v.Num? ==> UnaryOp(op, UnaryOp(op, v).value) == Ok(v))
  {
  }

  /** The operators that need two numbers. */
  predicate NumericOperator(k: TokenType) {
    k in {Greater, GreaterEqual, Less, LessEqual, Minus, Percent, KwDiv, Slash, Star}
  }

  /** The operators that fail on a zero right operand. */
  predicate DividingOperator(k: TokenType) {
    k in {Percent, KwDiv, Slash}
  }

  const OperandsMessage := "Operands must be a numbers."
  const PlusMessage := "Operands must be two numbers or two strings."
  const DivisionMessage := "Division by zero."

  /** The arithmetic of one binary operator on two numbers whose types have
      already been checked. */
  function Arith(k: TokenType, a: real, b: real): Value
    requires NumericOperator(k) && (DividingOperator(k) ==> b != 0.0)
  {
    match k
    case Greater => Bool(a > b)
    case GreaterEqual => Bool(a >= b)
    case Less => Bool(a < b)
    case LessEqual => Bool(a <= b)
    case Minus => Num(a - b)
    case Percent => Num(JsRem(a, b))
    case KwDiv => Num(Trunc(a / b) as real)
    case Slash => Num(a / b)
    case Star => Num(a * b)
  }

  /** `visitBinaryExpr` once both operands are evaluated. */
  function BinaryOp(op: Token, l: Value, r: Value): (res: Result<Value, RuntimeError>)
    ensures res.Err? ==> res.error.token == op
    ensures res.Ok? && res.value.Obj? ==> false
  {
    var k := op.kind;
    if NumericOperator(k) then
      if !(l.Num? && r.Num?) then Err(RuntimeError(op, OperandsMessage))
      else if DividingOperator(k) && r.n == 0.0 then Err(RuntimeError(op, DivisionMessage))
      else Ok(Arith(k, l.n, r.n))
    else match k
      case Plus =>
        if l.Num? && r.Num? then Ok(Num(l.n + r.n))
        else if l.Str? && r.Str? then Ok(Str(l.s + r.s))
        else Err(RuntimeError(op, PlusMessage))
      case BangEqual => Ok(Bool(!IsEqual(l, r)))
      case EqualEqual => Ok(Bool(IsEqual(l, r)))
      case _ => Ok(Nil)
  }

  /** When a binary operator fails, and with which message: a type error is
      reported before division by zero, and equality never fails. */
  lemma BinaryOpErrors(op: Token, l: Value, r: Value)
    ensures NumericOperator(op.kind) ==>
      (BinaryOp(op, l, r).Err? <==> !(l.Num? && r.Num?) || (DividingOperator(op.kind) && r.n == 0.0))
    ensures NumericOperator(op.kind) && !(l.Num? && r.Num?) ==>
      BinaryOp(op, l, r) == Err(RuntimeError(op, OperandsMessage))
    ensures DividingOperator(op.kind) && l.Num? && r == Num(0.0) ==>
      BinaryOp(op, l, r) == Err(RuntimeError(op, DivisionMessage))
    ensures op.kind == Plus ==>
      (BinaryOp(op, l, r).Err? <==> !(l.Num? && r.Num?) && !(l.Str? && r.Str?))
    ensures op.kind == EqualEqual ==> BinaryOp(op, l, r) == Ok(Bool(l == r))
    ensures op.kind == BangEqual ==> BinaryOp(op, l, r) == Ok(Bool(l != r))
    ensures !NumericOperator(op.kind) && op.kind !in {Plus, EqualEqual, BangEqual} ==>
      BinaryOp(op, l, r) == Ok(Nil)
  {
    IsEqualIsIdentity(l, r);
  }

  /** `div` is division rounded toward zero and `%` is what it leaves
      over: for any numbers with a non-zero divisor,
      `a == b * (a div b) + a % b`. */
  lemma DivAndRemAgree(op: Token, a: real, b: real)
    requires b != 0.0
    ensures var q := BinaryOp(op.(kind := KwDiv), Num(a), Num(b));
            var m := BinaryOp(op.(kind := Percent), Num(a), Num(b));
      q.Ok? && m.Ok? && q.value.Num? && m.value.Num?
      && a == b * q.value.n + m.value.n
      && q.value.n == q.value.n.Floor as real
  {
    JsRemProperties(a, b);
  }

  /** `+` concatenates two strings and adds two numbers. */
  lemma PlusCases(op: Token, l: Value, r: Value)
    requires op.kind == Plus
    ensures l.Str? && r.Str? ==> BinaryOp(op, l, r) == Ok(Str(l.s + r.s))
    ensures l.Num? && r.Num? ==> BinaryOp(op, l, r) == Ok(Num(l.n + r.n))
  {
  }
}
