/**
  The calculation function of the calculator web page (main.py:49-84): two numbers and an
  operation label go in, Python's pair `(result, error_message)` comes out. The operands are
  exact reals; the two library calls whose numeric content lies outside the model, `**` on
  floats and `math.log`, are supplied as a `Library` value, so that only the guards around
  them are verified.
 */
module Calculator {
  import opened Wrappers
  import opened PyNumeric

  /** The seven entries of the operation drop-down, and any other label a caller might pass. */
  datatype Operation =
    | Add | Subtract | Multiply | Divide | Modulo | Power | Logarithm
    | Other(name: string)

  /** The label the drop-down shows for each operation (main.py:35-38). */
  function Label(op: Operation): (text: string)
    ensures !op.Other? ==> text in Labels
    ensures WellFormed(op) ==> (op.Other? <==> text !in Labels)
  {
    match op
    case Add => "덧셈 (+)"
    case Subtract => "뺄셈 (-)"
    case Multiply => "곱셈 (*)"
    case Divide => "나눗셈 (/)"
    case Modulo => "모듈러연산 (%)"
    case Power => "지수연산 (x^y)"
    case Logarithm => "로그연산 (log)"
    case Other(name) => name
  }

  /** The labels `calculate` compares against, in drop-down order. */
  const Labels: seq<string> := [
    "덧셈 (+)", "뺄셈 (-)", "곱셈 (*)", "나눗셈 (/)",
    "모듈러연산 (%)", "지수연산 (x^y)", "로그연산 (log)"
  ]

  /** An `Other` carrying one of the seven labels would be that operation, not an unmatched one. */
  predicate WellFormed(op: Operation) {
    op.Other? ==> op.name !in Labels
  }

  /** Which branch of the `if`/`elif` chain a label string selects; `Other` when none does. */
  function Parse(text: string): (op: Operation)
    ensures Label(op) == text
    ensures WellFormed(op)
    ensures op.Other? <==> text !in Labels
  {
    if text == Labels[0] then Add
    else if text == Labels[1] then Subtract
    else if text == Labels[2] then Multiply
    else if text == Labels[3] then Divide
    else if text == Labels[4] then Modulo
    else if text == Labels[5] then Power
    else if text == Labels[6] then Logarithm
    else Other(text)
  }

  /** Parsing the label of a well-formed operation gives the operation back. */
  lemma ParseLabel(op: Operation)
    requires WellFormed(op)
    ensures Parse(Label(op)) == op
  {
  }

  /** A result value: a float for most branches, a Python int for modulo. */
  datatype Number = Float(f: real) | Int(i: int)

  /** What a call into the float library does: return a value or raise with a message. */
  datatype Foreign = Returns(value: real) | Raises(cause: string)

  /**
    The library calls the model leaves uninterpreted. `pow(x, y)` is `x ** y` on floats, which may
    raise (overflow, zero to a negative power). `log(x, base)` is `math.log(x, base)`, argument
    first as in Python; it is only ever called with a positive argument and a positive base other
    than 1, where it returns a value.
   */
  datatype Library = Library(pow: (real, real) -> Foreign, log: (real, real) -> real)

  const DivisionByZeroMessage: string := "0으로 나눌 수 없습니다."
  const ModuloByZeroMessage: string := "0으로 모듈러 연산을 할 수 없습니다."
  const LogBaseMessage: string := "로그의 밑은 0보다 크고 1이 아니어야 합니다."
  const LogArgumentMessage: string := "로그의 진수는 0보다 커야 합니다."

  /** The fixed text ("an error occurred during calculation: ") before the exception's own text. */
  const ExceptionPrefix: string := "계산 중 오류가 발생했습니다: "

  /**
    The message the `except` clause builds from a caught exception (main.py:81-82): the fixed
    prefix followed by the exception's text, so the text can be read back from the message.
   */
  function ExceptionMessage(cause: string): (m: string)
    ensures |m| == |ExceptionPrefix| + |cause|
    ensures m[..|ExceptionPrefix|] == ExceptionPrefix && m[|ExceptionPrefix|..] == cause
  {
    ExceptionPrefix + cause
  }

  /**
    The calculator's error taxonomy: the four errors it detects itself, and an exception caught by
    the `except` clause together with the exception's own text.
   */
  datatype ErrorKind =
    | DivisionByZero | ModuloByZero | InvalidLogBase | InvalidLogArgument
    | Computation(cause: string)

  /**
    The `error_message` string `calculate` returns for each kind of error. Every message is
    non-empty, and only a caught exception's message begins with the generic prefix.
   */
  function Message(kind: ErrorKind): (m: string)
    ensures |m| > 0
    ensures kind.Computation? <==> |m| >= |ExceptionPrefix| && m[..|ExceptionPrefix|] == ExceptionPrefix
  {
    assert DivisionByZeroMessage[0] != ExceptionPrefix[0] && ModuloByZeroMessage[0] != ExceptionPrefix[0];
    assert LogBaseMessage[0] != ExceptionPrefix[0] && LogArgumentMessage[0] != ExceptionPrefix[0];
    match kind
    case DivisionByZero => DivisionByZeroMessage
    case ModuloByZero => ModuloByZeroMessage
    case InvalidLogBase => LogBaseMessage
    case InvalidLogArgument => LogArgumentMessage
    case Computation(cause) => ExceptionMessage(cause)
  }

  /**
    Different errors have different messages, so a message identifies its error, and for a caught
    exception the message gives back the exception's text.
   */
  lemma MessageIdentifiesError(k1: ErrorKind, k2: ErrorKind)
    requires Message(k1) == Message(k2)
    ensures k1 == k2
  {
    // Only the generic message starts with the first letter of its prefix.
    assert Message(k1)[0] == ExceptionPrefix[0] <==> k1.Computation?;
    assert Message(k2)[0] == ExceptionPrefix[0] <==> k2.Computation?;
    if k1.Computation? && k2.Computation? {
      assert k1.cause == Message(k1)[|ExceptionPrefix|..];
      assert k2.cause == Message(k2)[|ExceptionPrefix|..];
    }
  }

  /** Python's text for the `ZeroDivisionError` raised by an int `%` whose divisor is 0. */
  const IntModuloByZeroCause: string := "integer modulo by zero"

  /** The body of the `try`: either it runs to its end with the two locals set, or it raises. */
  datatype Step =
    | Completed(result: Option<Number>, errorMessage: Option<string>)
    | Raised(cause: string)

  /**
    The `if`/`elif` chain inside the `try` (main.py:55-79), branch for branch. Each branch sets at
    most one of the two locals, only modulo and power can raise, and nothing is set exactly when
    the operation matched no branch.
   */
  function TryBlock(num1: real, num2: real, operation: Operation, lib: Library): (step: Step)
    ensures step.Completed? ==> !(step.result.Some? && step.errorMessage.Some?)
    ensures step.Raised? ==> operation == Modulo || operation == Power
    ensures step == Completed(None, None) <==> operation.Other?
  {
    if operation == Add then
      Completed(Some(Float(num1 + num2)), None)
    else if operation == Subtract then
      Completed(Some(Float(num1 - num2)), None)
    else if operation == Multiply then
      Completed(Some(Float(num1 * num2)), None)
    else if operation == Divide && num2 != 0.0 then
      Completed(Some(Float(num1 / num2)), None)
    else if operation == Divide && num2 == 0.0 then
      Completed(None, Some(DivisionByZeroMessage))
    else if operation == Modulo && num2 != 0.0 then
      // The guard tests the float; the divisor actually used is its truncation.
      var a, b := Trunc(num1), Trunc(num2);
      if b == 0 then Raised(IntModuloByZeroCause) else Completed(Some(Int(FloorMod(a, b))), None)
    else if operation == Modulo && num2 == 0.0 then
      Completed(None, Some(ModuloByZeroMessage))
    else if operation == Power then
      match lib.pow(num1, num2)
      case Returns(v) => Completed(Some(Float(v)), None)
      case Raises(cause) => Raised(cause)
    else if operation == Logarithm then
      if num1 > 0.0 && num1 != 1.0 && num2 > 0.0 then
        Completed(Some(Float(lib.log(num2, num1))), None)
      else if num1 <= 0.0 || num1 == 1.0 then
        Completed(None, Some(LogBaseMessage))
      else if num2 <= 0.0 then
        Completed(None, Some(LogArgumentMessage))
      else
        Completed(None, None)
    else
      Completed(None, None)
  }

  /**
    `calculate(num1, num2, operation)` (main.py:49-84), with the operation given by its label as in
    Python: the pair `(result, error_message)`. An exception is caught and becomes the error
    message; `result` is then still `None`, since every exception is raised while the right-hand
    side of its assignment is evaluated. At most one of the two is set, and both stay `None`
    exactly when the label is none of the seven.
   */
  function Calculate(num1: real, num2: real, operation: string, lib: Library)
    : (out: (Option<Number>, Option<string>))
    ensures !(out.0.Some? && out.1.Some?)
    ensures out.0.None? && out.1.None? <==> operation !in Labels
  {
    match TryBlock(num1, num2, Parse(operation), lib)
    case Completed(result, errorMessage) => (result, errorMessage)
    case Raised(cause) => (None, Some(ExceptionMessage(cause)))
  }

  /** Addition, subtraction and multiplication always return the value and never an error. */
  lemma ArithmeticAlwaysSucceeds(num1: real, num2: real, lib: Library)
    ensures Calculate(num1, num2, Label(Add), lib) == (Some(Float(num1 + num2)), None)
    ensures Calculate(num1, num2, Label(Subtract), lib) == (Some(Float(num1 - num2)), None)
    ensures Calculate(num1, num2, Label(Multiply), lib) == (Some(Float(num1 * num2)), None)
  {
  }

  /** Division reports division by zero for a zero divisor and returns the quotient otherwise. */
  lemma DivideOutcome(num1: real, num2: real, lib: Library)
    ensures num2 == 0.0 ==> Calculate(num1, num2, Label(Divide), lib) == (None, Some(DivisionByZeroMessage))
    ensures num2 != 0.0 ==> Calculate(num1, num2, Label(Divide), lib) == (Some(Float(num1 / num2)), None)
  {
  }

  /**
    The three outcomes of modulo. A zero divisor gets the modulo-by-zero message. A non-zero
    divisor of magnitude below 1 passes the guard but truncates to 0, so Python's own
    `ZeroDivisionError` is caught and reported through the generic message. Any other divisor
    gives the Python remainder of the truncated operands.
   */
  lemma ModuloOutcome(num1: real, num2: real, lib: Library)
    ensures num2 == 0.0 ==>
      Calculate(num1, num2, Label(Modulo), lib) == (None, Some(ModuloByZeroMessage))
    ensures num2 != 0.0 && -1.0 < num2 < 1.0 ==>
      Calculate(num1, num2, Label(Modulo), lib) == (None, Some(ExceptionMessage(IntModuloByZeroCause)))
    ensures num2 <= -1.0 || num2 >= 1.0 ==>
      Trunc(num2) != 0 &&
      Calculate(num1, num2, Label(Modulo), lib) == (Some(Int(FloorMod(Trunc(num1), Trunc(num2)))), None)
  {
    TruncZeroIff(num2);
  }

  /**
    A modulo result is the remainder of floor division of `int(num1)` by `d == int(num2)`: zero or
    of the sign of `d`, smaller than `d` in magnitude, and `int(num1) == d * q + r` for an integer `q`.
   */
  lemma ModuloRemainder(num1: real, num2: real, lib: Library)
    requires Calculate(num1, num2, Label(Modulo), lib).0.Some?
    ensures var d, r := Trunc(num2), Calculate(num1, num2, Label(Modulo), lib).0.value;
      && r.Int?
      && d != 0
      && (d > 0 ==> 0 <= r.i < d)
      && (d < 0 ==> d < r.i <= 0)
      && exists q: int :: Trunc(num1) == d * q + r.i
  {
    TruncZeroIff(num2);
    var d := Trunc(num2);
    var q := FloorDiv(Trunc(num1), d);
    assert Trunc(num1) == d * q + FloorMod(Trunc(num1), d);
  }

  /** Power returns what `**` returns, and a raised exception becomes the generic message. */
  lemma PowerOutcome(num1: real, num2: real, lib: Library)
    ensures lib.pow(num1, num2).Returns? ==>
      Calculate(num1, num2, Label(Power), lib) == (Some(Float(lib.pow(num1, num2).value)), None)
    ensures lib.pow(num1, num2).Raises? ==>
      Calculate(num1, num2, Label(Power), lib) == (None, Some(ExceptionMessage(lib.pow(num1, num2).cause)))
  {
  }

  /**
    Logarithm has a result exactly when the base `num1` is positive and not 1 and the argument
    `num2` is positive; the result is then the logarithm of `num2` to base `num1`.
   */
  lemma LogarithmSucceedsIff(num1: real, num2: real, lib: Library)
    ensures Calculate(num1, num2, Label(Logarithm), lib).0.Some? <==> num1 > 0.0 && num1 != 1.0 && num2 > 0.0
    ensures num1 > 0.0 && num1 != 1.0 && num2 > 0.0 ==>
      Calculate(num1, num2, Label(Logarithm), lib).0 == Some(Float(lib.log(num2, num1)))
  {
  }

  /**
    When logarithm fails, a bad base is reported even if the argument is bad too, and the
    argument is reported only when the base is valid.
   */
  lemma LogarithmErrorPrecedence(num1: real, num2: real, lib: Library)
    ensures num1 <= 0.0 || num1 == 1.0 ==>
      Calculate(num1, num2, Label(Logarithm), lib) == (None, Some(LogBaseMessage))
    ensures Calculate(num1, num2, Label(Logarithm), lib).1 == Some(LogArgumentMessage) <==>
      num1 > 0.0 && num1 != 1.0 && num2 <= 0.0
  {
  }

  /**
    The error a call reports, stated from the operands alone, operation by operation: a zero
    divisor for division; for modulo a zero divisor, or a divisor whose integer part is 0, which
    Python's own `%` rejects; an exception raised by `**`; for logarithm an invalid base first and
    then an invalid argument. No error for anything else.
   */
  function ExpectedError(num1: real, num2: real, operation: Operation, lib: Library): Option<ErrorKind> {
    match operation
    case Divide =>
      if num2 == 0.0 then Some(DivisionByZero) else None
    case Modulo =>
      if num2 == 0.0 then Some(ModuloByZero)
      else if Trunc(num2) == 0 then Some(Computation(IntModuloByZeroCause))
      else None
    case Power =>
      if lib.pow(num1, num2).Raises? then Some(Computation(lib.pow(num1, num2).cause)) else None
    case Logarithm =>
      if num1 <= 0.0 || num1 == 1.0 then Some(InvalidLogBase)
      else if num2 <= 0.0 then Some(InvalidLogArgument)
      else None
    case _ => None
  }

  /**
    `calculate` reports exactly the expected error, with its message, and returns a result exactly
    when there is no error and the label matched a branch.
   */
  lemma CalculateReportsExpectedError(num1: real, num2: real, operation: string, lib: Library)
    ensures var out, e := Calculate(num1, num2, operation, lib), ExpectedError(num1, num2, Parse(operation), lib);
      && (e.Some? ==> out.1 == Some(Message(e.value)))
      && (e.None? ==> out.1.None?)
      && (out.0.Some? <==> e.None? && operation in Labels)
  {
  }

  /** The message returned by `calculate` tells which error occurred. */
  lemma ErrorMessageIdentifiesError(num1: real, num2: real, operation: string, lib: Library, kind: ErrorKind)
    requires Calculate(num1, num2, operation, lib).1 == Some(Message(kind))
    ensures ExpectedError(num1, num2, Parse(operation), lib) == Some(kind)
  {
    CalculateReportsExpectedError(num1, num2, operation, lib);
    var e := ExpectedError(num1, num2, Parse(operation), lib);
    MessageIdentifiesError(e.value, kind);
  }

  /** What the page shows after the button is pressed. */
  datatype Display = ShowsError(message: string) | ShowsResult(value: Number) | ShowsWarning

  /**
    The caller's reading of the pair (main.py:92-99): a non-empty error message is shown as an
    error (Python treats the empty string as false), otherwise a present result is shown, and
    otherwise a warning asks the user to choose an operation and check the inputs.
   */
  function Present(out: (Option<Number>, Option<string>)): (d: Display)
    ensures d.ShowsError? <==> out.1.Some? && out.1.value != ""
    ensures d.ShowsResult? <==> (out.1.None? || out.1.value == "") && out.0.Some?
    ensures d.ShowsError? ==> d.message == out.1.value
    ensures d.ShowsResult? ==> d.value == out.0.value
  {
    if out.1.Some? && out.1.value != "" then ShowsError(out.1.value)
    else if out.0.Some? then ShowsResult(out.0.value)
    else ShowsWarning
  }

  /**
    Every message `calculate` can produce is non-empty, so the page shows exactly what
    `calculate` decided: its error, its result, or the warning for an unmatched label.
   */
  lemma PresentFollowsCalculate(num1: real, num2: real, operation: string, lib: Library)
    ensures var out := Calculate(num1, num2, operation, lib);
      && (out.1.Some? ==> Present(out) == ShowsError(out.1.value))
      && (out.0.Some? ==> Present(out) == ShowsResult(out.0.value))
      && (Present(out) == ShowsWarning <==> operation !in Labels)
  {
    var out := Calculate(num1, num2, operation, lib);
    if out.1.Some? {
      CalculateReportsExpectedError(num1, num2, operation, lib);
      var e := ExpectedError(num1, num2, Parse(operation), lib);
      assert |Message(e.value)| > 0;
    }
  }

  /** Modulo on sample operands, including Python's signs for negative operands. */
  lemma ModuloExamples(lib: Library)
    ensures Calculate(7.0, 3.0, Label(Modulo), lib) == (Some(Int(1)), None)
    ensures Calculate(7.0, 0.0, Label(Modulo), lib) == (None, Some(ModuloByZeroMessage))
    ensures Calculate(-7.0, 3.0, Label(Modulo), lib) == (Some(Int(2)), None)
    ensures Calculate(7.9, -3.5, Label(Modulo), lib) == (Some(Int(-2)), None)
    ensures Calculate(-7.9, 0.5, Label(Modulo), lib).1 == Some(ExceptionMessage(IntModuloByZeroCause))
  {
  }
}
