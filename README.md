# Calculator: the calculation function, verified

The repository is a Streamlit calculator page. Its one piece of logic is
`calculate(num1, num2, operation)`. It takes two numbers and one of seven operation labels
(addition, subtraction, multiplication, division, modulo, power, logarithm). It returns
Python's pair `(result, error_message)`. Division and modulo guard against a zero divisor.
Logarithm checks its base (`num1`) before its argument (`num2`). Any exception raised inside
the `try` is caught and turned into a generic "error during calculation" message.

The model has three modules:

- `Wrappers` (`wrappers.dfy`): the `Option` type, standing for Python's `None`-or-value.
- `PyNumeric` (`py_numeric.dfy`): Python's `int(x)` on a float, which truncates toward zero, and
  Python's `%` on ints, which is floor modulo. Dafny's own `%` is Euclidean, so floor modulo is
  written out. It is proved to be the unique remainder of floor division, and floor division is
  proved to be the floor of the exact quotient.
- `Calculator` (`calculator.dfy`): the operation labels and the `if`/`elif` chain of the `try`
  block (`TryBlock`). It also holds `Calculate`, which adds the `except` handler, and `Present`,
  which is how the page reads the pair. Lemmas state each branch's outcome and which error
  wins. The error kinds (`ErrorKind`) are tied to the page's messages, and each message
  identifies its error.

Operands are exact reals. The result is `Number`: `Float` for most branches, and `Int` for modulo,
which returns a Python int. Error messages are the page's own Korean strings. `x ** y` and
`math.log(x, base)` come in as a `Library` value whose two functions the model does not interpret.
`pow` may return a value or raise with a message. `log` always returns a value, because the guard
only lets through a positive argument and a positive base other than 1.

A divisor that truncates to 0 might be expected to give the modulo-by-zero message. The code
tests the untruncated `num2` instead (main.py:65, main.py:68). A divisor with `0 < |num2| < 1`
therefore passes the guard. `int(num2) % ...` then raises Python's own `ZeroDivisionError`, which
the `except` clause reports as the generic message (`ModuloOutcome`).

`Calculate` takes the operation as its label string, as `calculate` does. `Parse` maps the string
to the branch it selects. An unknown label selects no branch and yields `(None, None)`.

## Model

| member | source | states |
|---|---|---|
| `PyNumeric.Trunc` | main.py:67 | `int(x)` is the integer between 0 and `x` that is less than 1 away from `x` |
| `PyNumeric.TruncUnique` | main.py:67 | no other integer meets those conditions, so they define `int(x)` |
| `PyNumeric.TruncNegate` | main.py:67 | `int(-x) == -int(x)`: rounding is toward zero, not toward minus infinity |
| `PyNumeric.TruncZeroIff` | main.py:67 | `int(x) == 0` exactly when `-1 < x < 1` |
| `PyNumeric.FloorDiv` | main.py:67 | `a // b` times `b` lies within one `b` of `a`, on the side Python rounds to |
| `PyNumeric.FloorMod` | main.py:67 | `a % b` is zero or has the divisor's sign, has smaller magnitude than `b`, and `a == b * (a // b) + a % b` |
| `PyNumeric.FloorDivModUnique` | main.py:67 | any quotient and remainder meeting the division identity and the sign/bound conditions equal Python's `//` and `%` |
| `PyNumeric.FloorDivIsFloorOfQuotient` | main.py:67 | `a // b` is the floor of the exact quotient `a / b` |
| `Calculator.Label` | main.py:35-38 | each of the seven operations has one of the drop-down labels; a well-formed unmatched operation has none |
| `Calculator.Parse` | main.py:35-38 | a label string maps to the operation whose label it is; it maps to `Other` exactly when it is none of the seven labels |
| `Calculator.ParseLabel` | main.py:35-38 | parsing an operation's label gives the operation back |
| `Calculator.ExceptionMessage` | main.py:81-82 | the caught exception's message is the fixed prefix followed by the exception's own text |
| `Calculator.Message` | main.py:61-82 | every error message is non-empty, and only the message of a caught exception begins with the generic prefix |
| `Calculator.TryBlock` | main.py:55-79 | each branch sets at most one of `result` and `error_message`, only modulo and power can raise, and nothing is set exactly when no branch matched |
| `Calculator.Calculate` | main.py:49-84 | `result` and `error_message` are never both set, and both are `None` exactly when the label is none of the seven (main.py:51-52, 84) |
| `Calculator.ArithmeticAlwaysSucceeds` | main.py:55-60 | add, subtract and multiply return `num1+num2`, `num1-num2`, `num1*num2` with no error |
| `Calculator.DivideOutcome` | main.py:61-64 | a zero divisor gives only the division-by-zero message; any other gives only `num1/num2` |
| `Calculator.ModuloOutcome` | main.py:65-69 | zero divisor gives the modulo-by-zero message; `0 < abs(num2) < 1` gives the generic message for Python's `ZeroDivisionError`; otherwise the result is `int(num1) % int(num2)` |
| `Calculator.ModuloRemainder` | main.py:67 | a modulo result `r` with divisor `d = int(num2)` is zero or has the sign of `d`, has `abs(r) < abs(d)`, and `int(num1) == d*q + r` for some integer `q` |
| `Calculator.PowerOutcome` | main.py:70-71 | power returns what `**` returns; an exception from `**` becomes the generic message carrying its text |
| `Calculator.LogarithmSucceedsIff` | main.py:72-75 | logarithm has a result exactly when `num1 > 0`, `num1 != 1` and `num2 > 0`, and the result is `math.log(num2, num1)` |
| `Calculator.LogarithmErrorPrecedence` | main.py:76-79 | an invalid base is reported even when the argument is also invalid; the argument error appears exactly when the base is valid and `num2 <= 0` |
| `Calculator.MessageIdentifiesError` | main.py:61-82 | the four fixed messages and the generic message are all different, and a generic message gives back the exception's text |
| `Calculator.CalculateReportsExpectedError` | main.py:54-82 | the reported error is exactly the one the operands call for (zero divisor; modulo divisor with integer part 0; exception from `**`; invalid log base, then invalid argument), and a result appears exactly when there is no error and the label matched |
| `Calculator.ErrorMessageIdentifiesError` | main.py:54-82 | the returned message tells which error occurred |
| `Calculator.Present` | main.py:92-99 | the page shows an error exactly for a non-empty message, and then shows that message; otherwise it shows a result exactly when one is present, and shows that result |
| `Calculator.PresentFollowsCalculate` | main.py:88-99 | every message `calculate` produces is non-empty, so the page shows its error or its result, and shows the warning exactly for an unmatched label |
| `Calculator.ModuloExamples` | main.py:65-69 | `7 % 3 == 1`, `int(-7.0) % 3 == 2`, `int(7.9) % int(-3.5) == -2`, zero divisor and fractional divisor errors |

## Left out

- The Streamlit page: configuration, inputs, drop-down, button, sidebar (main.py:1-47 and
  main.py:86-109). Only the page's reading of the returned pair is modelled (`Present`).
- The session-state write and the inline warning for a non-positive logarithm argument
  (main.py:26, main.py:40). They are UI state, not calculation.
- IEEE floating point: rounding, `inf`, NaN and overflow of `+`, `-`, `*` and `/`. Operands and
  results are exact reals. `int()` on an infinite or NaN float, which raises in Python, cannot
  arise.
- The numbers computed by `**` and `math.log`. Both are parameters (`Library`). Python 3 returns a
  `complex` for a negative base with a fractional exponent, and that lies outside a real-valued
  model.
- `Calculator.LogarithmSucceedsIff`: assumes `math.log` never raises once the guard holds. This is
  true for finite floats, but it is an assumption, not a proof.
- The formatting of results (`:,.4f` and the LaTeX line, main.py:96-97).
- The exact text of Python's `ZeroDivisionError` for `int % 0` depends on the Python version. The
  model uses the wording of CPython 3.11 and later, "integer modulo by zero".
