/** The calculator engine (`src/tools/calculator.py`).

    Inputs are Python floats; every finite one is converted to a decimal
    through its `str` form and the arithmetic is exact, so finite floats are
    modelled as reals. Addition and multiplication are left folds computed
    by loops; the binary operations are guarded expressions. */
module Calculator {
  import opened Outcomes
  import opened Text
  import opened Models
  import Config

  const AllOperations: set<OperationType> := {Add, Subtract, Multiply, Divide, Power, Modulo}

  predicate AllFinite(numbers: seq<Float>) {
    forall i :: 0 <= i < |numbers| ==> numbers[i].Finite?
  }

  /** The decimal value of each (finite) input. */
  function Values(numbers: seq<Float>): (r: seq<real>)
    requires AllFinite(numbers)
    ensures |r| == |numbers|
    ensures forall i :: 0 <= i < |numbers| ==> r[i] == numbers[i].value
  {
    seq(|numbers|, i requires 0 <= i < |numbers| && AllFinite(numbers) => numbers[i].value)
  }

  // --- the errors the engine raises ------------------------------------------

  const NoNumbers := Exception(ValueError, "No numbers provided")
  const TooManyNumbers := Exception(ValueError, "Too many numbers (max 10)")
  const NaNNotAllowed := Exception(ValueError, "NaN values not allowed")
  const InfiniteNotAllowed := Exception(ValueError, "Infinite values not allowed")
  const DivideByZero := Exception(ZeroDivisionError, "Cannot divide by zero")
  const ModuloByZero := Exception(ZeroDivisionError, "Cannot calculate modulo by zero")
  const PrecisionOutOfRange := Exception(ValueError, "Precision must be between 0 and 15")
  const ZeroToNegativePower := Exception(ZeroDivisionError, "Cannot raise zero to negative power")
  /** `str()` of the `decimal.InvalidOperation` a power raises, wrapped. */
  const PowerFailed := Exception(ValueError, "Power operation failed: [<class 'decimal.InvalidOperation'>]")

  function ArityError(op: OperationType): Exception {
    Exception(ValueError, ArityMessage(op))
  }

  function NonFiniteError(x: Float): Exception
    requires !x.Finite?
  {
    if x.NaN? then NaNNotAllowed else InfiniteNotAllowed
  }

  // --- input checks ----------------------------------------------------------

  /** Index of the first NaN or infinite input. */
  function FirstNonFinite(numbers: seq<Float>): (k: nat)
    requires !AllFinite(numbers)
    ensures k < |numbers| && !numbers[k].Finite?
    ensures forall j :: 0 <= j < k ==> numbers[j].Finite?
  {
    if !numbers[0].Finite? then 0 else 1 + FirstNonFinite(numbers[1..])
  }

  /** What the engine accepts as operands of `op`. */
  predicate NumbersAccepted(numbers: seq<Float>, op: OperationType) {
    && 1 <= |numbers| <= 10
    && AllFinite(numbers)
    && (IsBinary(op) ==> |numbers| == 2)
    && ((op == Divide || op == Modulo) ==> !IsZero(numbers[1]))
  }

  /** `_validate_numbers`: the count first (empty, then more than ten), then
      the first NaN or infinity, then the arity of a binary operation, then a
      zero divisor of a division or a modulo. */
  function CheckNumbers(numbers: seq<Float>, op: OperationType): (r: Outcome)
    ensures r.Pass? <==> NumbersAccepted(numbers, op)
  {
    if |numbers| == 0 then Fail(NoNumbers)
    else if |numbers| > 10 then Fail(TooManyNumbers)
    else if !AllFinite(numbers) then Fail(NonFiniteError(numbers[FirstNonFinite(numbers)]))
    else if IsBinary(op) && |numbers| != 2 then Fail(ArityError(op))
    else if op == Divide && |numbers| > 1 && IsZero(numbers[1]) then Fail(DivideByZero)
    else if op == Modulo && |numbers| > 1 && IsZero(numbers[1]) then Fail(ModuloByZero)
    else Pass
  }

  /** `_validate_numbers`, scanning the inputs for NaN and infinity one by
      one and stopping at the first. */
  method ValidateNumbers(numbers: seq<Float>, op: OperationType) returns (r: Outcome)
    ensures r == CheckNumbers(numbers, op)
  {
    if |numbers| == 0 {
      return Fail(NoNumbers);
    }
    if |numbers| > 10 {
      return Fail(TooManyNumbers);
    }
    var i := 0;
    while i < |numbers|
      invariant 0 <= i <= |numbers|
      invariant forall j :: 0 <= j < i ==> numbers[j].Finite?
    {
      if numbers[i].NaN? {
        return Fail(NaNNotAllowed);
      }
      if numbers[i].Infinity? {
        return Fail(InfiniteNotAllowed);
      }
      i := i + 1;
    }
    if IsBinary(op) && |numbers| != 2 {
      return Fail(ArityError(op));
    }
    if op == Divide && |numbers| > 1 && IsZero(numbers[1]) {
      return Fail(DivideByZero);
    }
    if op == Modulo && |numbers| > 1 && IsZero(numbers[1]) {
      return Fail(ModuloByZero);
    }
    return Pass;
  }

  /** Whatever the engine accepts, the input record accepts too; the engine
      is stricter on non-finite values and on a zero modulo divisor. */
  lemma EngineStricterThanInputModel(numbers: seq<Float>, op: OperationType)
    requires CheckNumbers(numbers, op).Pass?
    ensures 1 <= |numbers| <= 10 && ValidateInputNumbers(Some(op), numbers) == Ok(numbers)
  {
  }

  /** A zero modulo divisor passes the input record but not the engine. */
  lemma ModuloByZeroOnlyEngineRejects(a: real)
    ensures ValidateInputNumbers(Some(Modulo), [Finite(a), Finite(0.0)]).Ok?
    ensures CheckNumbers([Finite(a), Finite(0.0)], Modulo) == Fail(ModuloByZero)
  {
  }

  /** `_validate_precision`. */
  function CheckPrecision(precision: int): (r: Outcome)
    ensures r.Pass? <==> 0 <= precision <= Config.CalculatorMaxPrecision
    ensures r.Fail? ==> r.error == PrecisionOutOfRange
  {
    if precision < 0 || precision > Config.CalculatorMaxPrecision then Fail(PrecisionOutOfRange) else Pass
  }

  // --- arithmetic ------------------------------------------------------------

  /** Left fold of `+` seeded with 0. */
  function Sum(xs: seq<real>): real {
    if xs == [] then 0.0 else Sum(xs[..|xs| - 1]) + xs[|xs| - 1]
  }

  /** Left fold of `*` seeded with 1. */
  function Product(xs: seq<real>): real {
    if xs == [] then 1.0 else Product(xs[..|xs| - 1]) * xs[|xs| - 1]
  }

  /** `_add`: accumulate the inputs into a running total. */
  method AddNumbers(numbers: seq<Float>) returns (r: real)
    requires AllFinite(numbers)
    ensures r == Sum(Values(numbers))
  {
    ghost var xs := Values(numbers);
    r := 0.0;
    var i := 0;
    while i < |numbers|
      invariant 0 <= i <= |numbers|
      invariant r == Sum(xs[..i])
    {
      assert xs[..i + 1][..i] == xs[..i];
      r := r + numbers[i].value;
      i := i + 1;
    }
    assert xs[..|numbers|] == xs;
  }

  /** `_multiply`: accumulate the inputs into a running product. */
  method MultiplyNumbers(numbers: seq<Float>) returns (r: real)
    requires AllFinite(numbers)
    ensures r == Product(Values(numbers))
  {
    ghost var xs := Values(numbers);
    r := 1.0;
    var i := 0;
    while i < |numbers|
      invariant 0 <= i <= |numbers|
      invariant r == Product(xs[..i])
    {
      assert xs[..i + 1][..i] == xs[..i];
      r := r * numbers[i].value;
      i := i + 1;
    }
    assert xs[..|numbers|] == xs;
  }

  /** The sum of a concatenation is the sum of the sums. */
  lemma {:induction false} SumAppend(a: seq<real>, b: seq<real>)
    ensures Sum(a + b) == Sum(a) + Sum(b)
    decreases |b|
  {
    if b != [] {
      var b' := b[..|b| - 1];
      assert (a + b)[..|a + b| - 1] == a + b';
      SumAppend(a, b');
    } else {
      assert a + b == a;
    }
  }

  /** The product of a concatenation is the product of the products. */
  lemma {:induction false} ProductAppend(a: seq<real>, b: seq<real>)
    ensures Product(a + b) == Product(a) * Product(b)
    decreases |b|
  {
    if b != [] {
      var b' := b[..|b| - 1];
      assert (a + b)[..|a + b| - 1] == a + b';
      ProductAppend(a, b');
    } else {
      assert a + b == a;
    }
  }

  /** A product is zero exactly when one of its factors is. */
  lemma {:induction false} ProductZero(xs: seq<real>)
    ensures Product(xs) == 0.0 <==> exists i :: 0 <= i < |xs| && xs[i] == 0.0
    decreases |xs|
  {
    if xs != [] {
      var init := xs[..|xs| - 1];
      ProductZero(init);
      if exists i :: 0 <= i < |init| && init[i] == 0.0 {
        var i :| 0 <= i < |init| && init[i] == 0.0;
        assert xs[i] == 0.0;
      }
      if exists i :: 0 <= i < |xs| && xs[i] == 0.0 {
        var i :| 0 <= i < |xs| && xs[i] == 0.0;
        if i < |init| {
          assert init[i] == 0.0;
        }
      }
    }
  }

  /** `multiply [2, 3, 4]` is 24. */
  lemma MultiplyExample()
    ensures Product([2.0, 3.0, 4.0]) == 24.0
  {
    assert [2.0, 3.0, 4.0][..2] == [2.0, 3.0];
    assert [2.0, 3.0][..1] == [2.0];
  }

  /** `_subtract`. */
  function Difference(numbers: seq<Float>): (r: Result<real>)
    requires AllFinite(numbers)
    ensures r.Err? <==> |numbers| != 2
    ensures r.Err? ==> r.error == Exception(ValueError, "Subtraction requires exactly 2 numbers")
    ensures r.Ok? ==> r.value + numbers[1].value == numbers[0].value
  {
    if |numbers| != 2 then Err(Exception(ValueError, "Subtraction requires exactly 2 numbers"))
    else Ok(numbers[0].value - numbers[1].value)
  }

  /** `_divide`: re-checks the zero divisor itself. */
  function Quotient(numbers: seq<Float>): (r: Result<real>)
    requires AllFinite(numbers)
    ensures |numbers| != 2 ==> r == Err(Exception(ValueError, "Division requires exactly 2 numbers"))
    ensures |numbers| == 2 && numbers[1].value == 0.0 ==> r == Err(DivideByZero)
    ensures |numbers| == 2 && numbers[1].value != 0.0 ==> r.Ok? && r.value * numbers[1].value == numbers[0].value
  {
    if |numbers| != 2 then Err(Exception(ValueError, "Division requires exactly 2 numbers"))
    else if numbers[1].value == 0.0 then Err(DivideByZero)
    else Ok(numbers[0].value / numbers[1].value)
  }

  /** `int(x)` for a decimal: truncation toward zero. */
  function Trunc(x: real): (n: int)
    ensures 0.0 <= x ==> 0 <= n && n as real <= x < n as real + 1.0
    ensures x < 0.0 ==> n <= 0 && n as real - 1.0 < x <= n as real
  {
    if x >= 0.0 then x.Floor else -((-x).Floor)
  }

  /** `_modulo`: decimal remainder, which keeps the dividend's sign. */
  function Remainder(numbers: seq<Float>): (r: Result<real>)
    requires AllFinite(numbers)
    ensures |numbers| != 2 ==> r == Err(Exception(ValueError, "Modulo operation requires exactly 2 numbers"))
    ensures |numbers| == 2 && numbers[1].value == 0.0 ==> r == Err(ModuloByZero)
    ensures |numbers| == 2 && numbers[1].value != 0.0 ==>
      var x, y := numbers[0].value, numbers[1].value;
      && r.Ok?
      && x == Trunc(x / y) as real * y + r.value
      && (if y > 0.0 then -y < r.value < y else y < r.value < -y)
      && (r.value == 0.0 || (r.value < 0.0 <==> x < 0.0))
  {
    if |numbers| != 2 then Err(Exception(ValueError, "Modulo operation requires exactly 2 numbers"))
    else if numbers[1].value == 0.0 then Err(ModuloByZero)
    else
      var x, y := numbers[0].value, numbers[1].value;
      var q := Trunc(x / y);
      ModuloBounds(x, y, q);
      Ok(x - q as real * y)
  }

  lemma ModuloBounds(x: real, y: real, q: int)
    requires y != 0.0 && q == Trunc(x / y)
    ensures var m := x - q as real * y;
      && (if y > 0.0 then -y < m < y else y < m < -y)
      && (m == 0.0 || (m < 0.0 <==> x < 0.0))
  {
    var t := x / y;
    var d := t - q as real;
    var m := x - q as real * y;
    TruncFraction(t, q);
    RemainderScalesFraction(x, y, q as real, d, m);
    QuotientSign(x, y);
    FractionScale(d, y, m);
    SignsCombine(x, y, t, d, m);
  }

  /** What truncation leaves of a quotient is a fraction of its sign. */
  lemma TruncFraction(t: real, q: int)
    requires q == Trunc(t)
    ensures -1.0 < t - q as real < 1.0
    ensures t - q as real < 0.0 ==> t < 0.0
    ensures t - q as real > 0.0 ==> t > 0.0
  {
  }

  /** The sign reasoning behind `ModuloBounds`, free of products: the
      remainder `m` is the fraction `d` of the quotient `t` scaled by `y`. */
  lemma SignsCombine(x: real, y: real, t: real, d: real, m: real)
    requires y != 0.0 && -1.0 < d < 1.0
    requires d < 0.0 ==> t < 0.0
    requires d > 0.0 ==> t > 0.0
    requires y > 0.0 ==> (t >= 0.0 <==> x >= 0.0) && (t > 0.0 <==> x > 0.0)
    requires y < 0.0 ==> (t >= 0.0 <==> x <= 0.0) && (t > 0.0 <==> x < 0.0)
    requires y > 0.0 ==> -y < m < y
    requires y < 0.0 ==> y < m < -y
    requires m == 0.0 <==> d == 0.0
    requires m < 0.0 <==> (d < 0.0 && y > 0.0) || (d > 0.0 && y < 0.0)
    ensures if y > 0.0 then -y < m < y else y < m < -y
    ensures m == 0.0 || (m < 0.0 <==> x < 0.0)
  {
  }

  /** `x - q*y` is the fractional part of the quotient, scaled back by `y`. */
  lemma RemainderScalesFraction(x: real, y: real, q: real, d: real, m: real)
    requires y != 0.0 && d == x / y - q && m == x - q * y
    ensures m == d * y
  {
    assert x == (x / y) * y;
  }

  /** The sign of a quotient: `x / y` is non-negative exactly when `x` and
      `y` do not have opposite signs. */
  lemma QuotientSign(x: real, y: real)
    requires y != 0.0
    ensures y > 0.0 ==> (x / y >= 0.0 <==> x >= 0.0) && (x / y > 0.0 <==> x > 0.0)
    ensures y < 0.0 ==> (x / y >= 0.0 <==> x <= 0.0) && (x / y > 0.0 <==> x < 0.0)
  {
    assert x == (x / y) * y;
  }

  /** A fraction strictly between -1 and 1 scales a non-zero number into
      the open interval around zero; the product is zero only for a zero
      fraction, and negative exactly when the signs differ. */
  lemma FractionScale(d: real, y: real, m: real)
    requires -1.0 < d < 1.0 && y != 0.0 && m == d * y
    ensures y > 0.0 ==> -y < m < y
    ensures y < 0.0 ==> y < m < -y
    ensures m == 0.0 <==> d == 0.0
    ensures m < 0.0 <==> (d < 0.0 && y > 0.0) || (d > 0.0 && y < 0.0)
  {
    if y > 0.0 {
      assert (1.0 - d) * y > 0.0;
      assert (1.0 + d) * y > 0.0;
    } else {
      assert (1.0 - d) * y < 0.0;
      assert (1.0 + d) * y < 0.0;
    }
  }

  /** `b ** n` for a natural exponent. */
  function IntPow(b: real, n: nat): real {
    if n == 0 then 1.0 else b * IntPow(b, n - 1)
  }

  /** Powers add their exponents. */
  lemma {:induction false} IntPowAdd(b: real, m: nat, n: nat)
    ensures IntPow(b, m + n) == IntPow(b, m) * IntPow(b, n)
    decreases m
  {
    if m > 0 {
      IntPowAdd(b, m - 1, n);
    }
  }

  lemma {:induction false} IntPowNonZero(b: real, n: nat)
    requires b != 0.0
    ensures IntPow(b, n) != 0.0
    decreases n
  {
    if n > 0 {
      IntPowNonZero(b, n - 1);
    }
  }

  predicate IsIntegral(x: real) {
    x == x.Floor as real
  }

  /** `_power`. An integral exponent gives an exact power; any other
      exponent goes to `fracPow`, the decimal module's inexact power. As in
      the decimal module, `0 ** 0` and a negative base with a non-integral
      exponent are invalid operations. */
  function Exponentiate(numbers: seq<Float>, fracPow: (real, real) -> real): (r: Result<real>)
    requires AllFinite(numbers)
    ensures |numbers| != 2 ==> r == Err(Exception(ValueError, "Power operation requires exactly 2 numbers"))
    ensures |numbers| == 2 ==>
      var b, e := numbers[0].value, numbers[1].value;
      && (b == 0.0 && e < 0.0 ==> r == Err(ZeroToNegativePower))
      && (b == 0.0 && e == 0.0 ==> r == Err(PowerFailed))
      && (b < 0.0 && !IsIntegral(e) ==> r == Err(PowerFailed))
      && (IsIntegral(e) && e >= 0.0 && !(b == 0.0 && e == 0.0) ==> r == Ok(IntPow(b, e.Floor)))
      && (IsIntegral(e) && e < 0.0 && b != 0.0 ==> r.Ok? && r.value * IntPow(b, -e.Floor) == 1.0)
      && (!IsIntegral(e) && b == 0.0 && e > 0.0 ==> r == Ok(0.0))
      && (!IsIntegral(e) && b > 0.0 ==> r == Ok(fracPow(b, e)))
  {
    if |numbers| != 2 then Err(Exception(ValueError, "Power operation requires exactly 2 numbers"))
    else
      var b, e := numbers[0].value, numbers[1].value;
      if b == 0.0 && e < 0.0 then Err(ZeroToNegativePower)
      else if IsIntegral(e) then
        if b == 0.0 && e == 0.0 then Err(PowerFailed)
        else if e >= 0.0 then Ok(IntPow(b, e.Floor))
        else
          IntPowNonZero(b, -e.Floor);
          Ok(1.0 / IntPow(b, -e.Floor))
      else if b < 0.0 then Err(PowerFailed)
      else if b == 0.0 then Ok(0.0)
      else Ok(fracPow(b, e))
  }

  /** The value each operation denotes, the dispatch table of the engine. */
  function Evaluate(op: OperationType, numbers: seq<Float>, fracPow: (real, real) -> real): Result<real>
    requires AllFinite(numbers)
  {
    match op
    case Add => Ok(Sum(Values(numbers)))
    case Subtract => Difference(numbers)
    case Multiply => Ok(Product(Values(numbers)))
    case Divide => Quotient(numbers)
    case Power => Exponentiate(numbers, fracPow)
    case Modulo => Remainder(numbers)
  }

  /** Once the inputs are accepted, only a power can still fail. */
  lemma EvaluateAccepted(op: OperationType, numbers: seq<Float>, fracPow: (real, real) -> real)
    requires NumbersAccepted(numbers, op)
    ensures Evaluate(op, numbers, fracPow).Err? ==> op == Power
    ensures Evaluate(op, numbers, fracPow).Err? <==>
      op == Power &&
        ((numbers[0].value == 0.0 && numbers[1].value <= 0.0) ||
         (numbers[0].value < 0.0 && !IsIntegral(numbers[1].value)))
  {
  }

  // --- formatting ------------------------------------------------------------

  /** `_format_result`: precision 0 prints the integer part; any other
      precision goes through float formatting, `formatFixed`. */
  function FormatResult(result: real, precision: nat, formatFixed: (real, nat) -> string): (s: string)
    ensures precision == 0 ==> ParseInt(s) == Some(Trunc(result))
    ensures precision > 0 ==> s == formatFixed(result, precision)
  {
    if precision == 0 then
      IntToStringRoundTrip(Trunc(result));
      IntToString(Trunc(result))
    else formatFixed(result, precision)
  }

  /** `7 / 3` at precision 0 prints "2"; `2 * 3 * 4` prints "24". */
  lemma FormatExamples(formatFixed: (real, nat) -> string)
    ensures FormatResult(7.0 / 3.0, 0, formatFixed) == "2"
    ensures FormatResult(24.0, 0, formatFixed) == "24"
  {
    assert Trunc(7.0 / 3.0) == 2;
    assert Trunc(24.0) == 24;
    assert NatToString(24) == NatToString(2) + [DigitChar(4)];
  }

  // --- the tool --------------------------------------------------------------

  /** `CalculatorTool`. The decimal functions the model leaves uninterpreted
      are fixed when the tool is built. */
  class CalculatorTool {
    var initialized: bool
    /** The keys of `_operations_map`. */
    const operations: set<OperationType>
    const fracPow: (real, real) -> real
    const formatFixed: (real, nat) -> string

    constructor (fracPow: (real, real) -> real, formatFixed: (real, nat) -> string)
      ensures operations == AllOperations && !initialized
      ensures this.fracPow == fracPow && this.formatFixed == formatFixed
    {
      initialized := false;
      operations := AllOperations;
      this.fracPow := fracPow;
      this.formatFixed := formatFixed;
    }

    /** `initialize`: sets the flag once; a second call changes nothing. */
    method Initialize()
      modifies this
      ensures initialized
      ensures old(initialized) ==> unchanged(this)
    {
      if initialized {
        return;
      }
      initialized := true;
    }

    /** `_validate_operation`: the operation must have an entry in the
        dispatch table. */
    method ValidateOperation(op: OperationType) returns (r: Outcome)
      ensures r.Pass? <==> op in operations
      ensures r.Fail? ==> r.error == Exception(ValueError, "Unsupported operation: " + OperationName(op))
    {
      if op !in operations {
        return Fail(Exception(ValueError, "Unsupported operation: " + OperationName(op)));
      }
      return Pass;
    }

    /** `calculate`: initialise if needed, validate operation, numbers and
        precision in that order, dispatch, format. The result echoes the
        operation and the unchanged input list. A tool built by the
        constructor supports every operation, so the first error cannot
        arise for it. */
    method Calculate(op: OperationType, numbers: seq<Float>, precision: int) returns (r: Result<CalculatorResult>)
      modifies this
      ensures initialized
      ensures op !in operations ==> r == Err(Exception(ValueError, "Unsupported operation: " + OperationName(op)))
      ensures op in operations && CheckNumbers(numbers, op).Fail? ==> r == Err(CheckNumbers(numbers, op).error)
      ensures op in operations && CheckNumbers(numbers, op).Pass? && CheckPrecision(precision).Fail? ==> r == Err(PrecisionOutOfRange)
      ensures op in operations && CheckNumbers(numbers, op).Pass? && CheckPrecision(precision).Pass? ==>
        match Evaluate(op, numbers, fracPow)
        case Err(e) => r == Err(e)
        case Ok(v) => r == Ok(CalculatorResult(v, op, numbers, FormatResult(v, precision, formatFixed)))
    {
      if !initialized {
        Initialize();
      }
      var check := ValidateOperation(op);
      if check.Fail? {
        return Err(check.error);
      }
      check := ValidateNumbers(numbers, op);
      if check.Fail? {
        return Err(check.error);
      }
      check := CheckPrecision(precision);
      if check.Fail? {
        return Err(check.error);
      }
      var value: Result<real>;
      match op {
        case Add =>
          var s := AddNumbers(numbers);
          value := Ok(s);
        case Subtract =>
          value := Difference(numbers);
        case Multiply =>
          var p := MultiplyNumbers(numbers);
          value := Ok(p);
        case Divide =>
          value := Quotient(numbers);
        case Power =>
          value := Exponentiate(numbers, fracPow);
        case Modulo =>
          value := Remainder(numbers);
      }
      if value.Err? {
        return Err(value.error);
      }
      var formatted := FormatResult(value.value, precision, formatFixed);
      return Ok(CalculatorResult(value.value, op, numbers, formatted));
    }
  }
}
