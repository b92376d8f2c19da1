# functional: function composition, curry and Kind, in Dafny

A model of the `functional` Python package, version 0.5. The package has three small parts:

- **FunctionRich** (`functional/functionrich.py`) wraps one callable. Its operators build new wrappers:
  - composition that spreads a tuple result (`%`);
  - composition that passes the result as one argument (`//`, `<<`, `>>`);
  - n-fold self-composition (`^`);
  - application (`&`);
  - pointwise arithmetic, comparison and unary operators.

  The module also exports `identity`.
- **curry** (`functional/functionrich.py`) accumulates positional and keyword arguments. If calling the target raises a TypeError, the call returns a new curry that holds the merged arguments.
- **Kind** (`functional/kind.py`) holds one value. It has a truthiness-driven fallback `|`, an extraction `>` and an `fmap` that skips None.
- **find_first** (`functional/__init__.py`) is a linear search.

The model is purely functional:

- Python values are the `Values.Value` datatype: None, bool, int, str and tuple.
- Exceptions are `Values.Exc`. A call returns `Values.Result`: `Ok(value)` or `Raised(exc)`. An exception raised inside a wrapped callable therefore propagates exactly as it does in Python.
- Integers follow Python 2, the language of the package. `bool` is a subclass of `int`, and `/` on integers is floor division.
- A wrapped callable is a Dafny function `seq<Value> -> Result<Value>`.
- Every operator is a function that builds a new `Rich` value. Two wrappers are compared through `Same`, meaning they give equal outcomes on every argument tuple.

Modules, one per file:

| file | module | models |
|---|---|---|
| values.dfy | `Values` | the Python values, truthiness, `==`, arithmetic and comparisons the operators delegate to |
| functionrich.dfy | `RichFunctions` | `_unpack`, `FunctionRich`, `identity` |
| curry.dfy | `Currying` | `curry`, and the three-parameter function used by the package's tests |
| kind.dfy | `Kinds` | `Kind` |
| find_first.dfy | `Search` | `find_first` |

Python operators map to model members as follows:

- `f % g` is `Mod(f, g)`. `x % f` is `RMod(f, x)` when x is neither a FunctionRich nor a str. A str x formats itself with `str.__mod__`, so `__rmod__` is never reached (see "Left out").
- `f // g` and `f << g` are `FloorDiv(f, g)`. `f >> g` is `RFloorDiv(f, g)`, and `x // f` for a non-FunctionRich x is `RFloorDiv(f, x)`. `__lshift__` and `__rshift__` are aliases in the source, so they get no separate member.
- `f OP g` is `Pointwise(f, OP, g)`, for the four arithmetic operators and the six comparisons.
- The reflected arithmetic `x + f`, `x - f`, `x * f` and `x / f`, for a non-FunctionRich x, is `Reflected(f, OP, x)`.
- A comparison with the FunctionRich on the right has no reflected method. Python swaps it instead: `x < f` is `f > x`, which is `Pointwise(f, Gt, Plain(x))` for a plain value x; likewise `<=` becomes `>=`, and `==` and `!=` keep their operator.
- `-f`, `abs(f)` and `f ** n` are `Lift(f, Neg)`, `Lift(f, Abs)` and `Lift(f, Pow(n))`.
- `+f` is `Pos(f)`.

## Model

| member | source | states |
|---|---|---|
| RichFunctions.New | functional/functionrich.py:81-89 | wrapping a FunctionRich reuses its callable with no double wrapping; a routine is stored as is; any other value becomes a function that returns it whatever the arguments; extra constructor arguments are bound in front of the call's arguments, and binding them to a non-callable is a TypeError |
| RichFunctions.Unpack | functional/functionrich.py:24-28 | `_unpack(f, v)`: a tuple v is spread into f's positional arguments, any other v is f's single argument; its laws are stated by RichFunctions.ApplyIsUnpackAndMod and RichFunctions.RepeatIsIteratedApplication |
| RichFunctions.Apply | functional/functionrich.py:101-104 | `f & arg`, which is `_unpack(f, arg)`; RichFunctions.ApplyIsUnpackAndMod states this and the link with `%` |
| RichFunctions.Mod | functional/functionrich.py:107-109 | `f % g`; its laws are RichFunctions.ApplyIsUnpackAndMod, ModVersusFloorDiv, ModAssociative, ModCongruent and IdentityUnits |
| RichFunctions.RMod | functional/functionrich.py:110-112 | `x % f` for a left operand x that is neither a FunctionRich nor a str; RichFunctions.ReflectedCompositionSwaps states it |
| RichFunctions.FloorDiv | functional/functionrich.py:113-115 | `f // g` and `f << g`; its laws are RichFunctions.ModVersusFloorDiv and FloorDivAssociative |
| RichFunctions.RFloorDiv | functional/functionrich.py:116-120 | `f >> g` and `x // f`; RichFunctions.ReflectedCompositionSwaps states it |
| RichFunctions.Identity | functional/functionrich.py:190-192 | `identity` returns its one argument, and any other number of arguments is a TypeError (Python's own arity check) |
| RichFunctions.Xor | functional/functionrich.py:121-130 | `f ^ n` as written; RichFunctions.XorLoop, XorCases and XorOfRichIsIdentity state its behaviour |
| RichFunctions.Pointwise | functional/functionrich.py:133-156 | `f OP g` for the arithmetic operators and, by lines 169-186, the comparisons; RichFunctions.PointwiseConstant, ComparisonsArePointwise, LessMirrorsGreater and ArithmeticOnNumbers state its laws |
| RichFunctions.Reflected | functional/functionrich.py:136-156 | `__radd__`, `__rsub__`, `__rmul__` and `__rdiv__`; RichFunctions.ReflectedArithmeticSwaps and PointwiseConstant state them |
| RichFunctions.Lift | functional/functionrich.py:159-166 | `f ** n`, `-f` and `abs(f)`; RichFunctions.UnaryLaws and PowerAdd state their laws |
| RichFunctions.Pos | functional/functionrich.py:163-164 | `+f` returns the receiver itself, not a new wrapper |
| RichFunctions.ApplyIsUnpackAndMod | functional/functionrich.py:24-28 | `f & v` spreads a tuple v into f and otherwise passes v as the one argument, exactly as `_unpack`; `(f % g)(*args)` is `f & g(*args)`, and an exception from g propagates without calling f |
| RichFunctions.ModVersusFloorDiv | functional/functionrich.py:107-115 | `f % g` and `f // g` agree whenever g's result is not a tuple; on a tuple result `%` spreads it into f while `//` passes the tuple itself as f's single argument |
| RichFunctions.ReflectedCompositionSwaps | functional/functionrich.py:110-120 | the reflected compositions are the forward ones with the operands swapped: `x % f` for an x that is not a str behaves as `FunctionRich(x) % f`, and `f >> g` behaves as `g << f` |
| RichFunctions.ModAssociative | functional/functionrich.py:107-109 | `%` is associative on every argument tuple, spreading and exceptions included |
| RichFunctions.FloorDivAssociative | functional/functionrich.py:113-115 | `//` (and so `<<`) is associative on every argument tuple |
| RichFunctions.IdentityUnits | functional/functionrich.py:190-192 | `identity` returns its single argument, and any other number of arguments is a TypeError; `g % identity` applied to x is `g & x`; `identity % g` gives g's result back only when that result is not a tuple: a 1-tuple is unwrapped and any other tuple raises TypeError |
| RichFunctions.XorLoop | functional/functionrich.py:121-130 | the loop that composes `self % f` n - 1 times builds exactly the wrapper `Xor` describes: n nested `%` of f for a positive integer n, `identity` when `n == 0` is truthy, NotImplemented otherwise |
| RichFunctions.RepeatIsIteratedApplication | functional/functionrich.py:121-126 | n nested `%` of f, called with args, is f applied to args and then fed back into f through `_unpack` n - 1 more times |
| RichFunctions.RepeatAdd | functional/functionrich.py:121-126 | `f ^ (m + n)` behaves as `(f ^ m) % (f ^ n)` for positive m and n |
| RichFunctions.XorCases | functional/functionrich.py:121-130 | `f ^ 1` is f itself; `f ^ 0` and `f ^ False` are identity; a positive n gives n-fold application; a negative number, None, a string, a tuple or a plain routine gives NotImplemented |
| RichFunctions.XorOfRichIsIdentity | functional/functionrich.py:127-128 | as written, `f ^ g` for a FunctionRich g is identity, because `g == 0` builds a truthy FunctionRich; the intended definition gives NotImplemented |
| RichFunctions.XorIntended | functional/functionrich.py:121-130 | `f ^ n` as intended: it gives a wrapper only for an integer n of at least zero, and there it agrees with the code |
| RichFunctions.PointwiseConstant | functional/functionrich.py:133-156 | a non-callable operand acts as a constant: `(f OP c)(*args)` is `f(*args) OP c` and the reflected `(c OP f)(*args)` is `c OP f(*args)`, with f's exception propagating |
| RichFunctions.ReflectedArithmeticSwaps | functional/functionrich.py:133-156 | the reflected `g + f`, `g - f`, `g * f`, `g / f` behave as the forward operator with g as the receiver: g is called first and its result is the left operand |
| RichFunctions.ComparisonsArePointwise | functional/functionrich.py:175-180 | `f == f` compares results, not wrappers: called on args it is True whenever f returns; `!=` returns when `==` does and gives the negated boolean |
| RichFunctions.LessMirrorsGreater | functional/functionrich.py:169-186 | when both operands return, `f < g` agrees with `g > f` and `f <= g` with `g >= f` |
| RichFunctions.ArithmeticOnNumbers | functional/functionrich.py:133-156 | on a numeric result, `f - f` is 0, `f / 0` raises ZeroDivisionError, and `f + f` equals `f * 2` |
| RichFunctions.UnaryLaws | functional/functionrich.py:159-166 | `+f` is f itself; `abs(-f)` equals `abs(f)` on every input, exceptions included; `-(-f)` gives back an integer result |
| Values.CmpAntisymmetric | functional/functionrich.py:169-186 | the ordering the comparison operators delegate to is antisymmetric: swapping the operands negates the order, and one order is a TypeError exactly when the swapped one is |
| Values.OrderingExamples | functional/functionrich.py:169-186 | strings compare lexicographically and tuples item by item, with a proper prefix ordered first: `'a' < 'b'`, `'ab' < 'b'`, `(1,) < (2,)`, `(1, 'x') < (True, 'y')`; `1 < 'a'` is a TypeError in the model |
| RichFunctions.PowerAdd | functional/functionrich.py:159-160 | `f ** (m + n)` behaves as `f ** m * f ** n` on every argument tuple: equal integers on a numeric result, the same TypeError on any other result, the same exception when f raises |
| Values.IntFloorDiv | functional/functionrich.py:151-156 | integer `/` rounds towards negative infinity: the quotient q satisfies `b*q <= a < b*q + b` for b > 0, and the mirrored bounds for b < 0 |
| Currying.Make | functional/functionrich.py:52-56 | `curry(f, *args, **kwargs)` holds the target and the given arguments; Currying.Call, DecoratorExample and PartialFormExample state what calling it does |
| Currying.MergeKwargs | functional/functionrich.py:59-64 | the merged keyword arguments have the keys of both maps; a new keyword overrides an accumulated one and every other accumulated value is kept |
| Currying.Call | functional/functionrich.py:58-73 | the target is called with the accumulated positional arguments followed by the new ones and the merged keywords; a returned value is given back raw; a TypeError gives a new curry with the same target and the merged arguments; any other exception propagates |
| Currying.PartialThenCall | functional/functionrich.py:58-73 | after a call that ends in a new curry, calling that curry is the same as one call on the original curry with both argument lists concatenated and both keyword maps merged, so `curry(f, a)(b)` and `curry(f)(a)(b)` agree |
| Currying.ChainAccumulates | functional/functionrich.py:58-73 | along any chain of calls that keeps producing curries, the target is unchanged and the accumulated positional arguments and keyword names only grow |
| Currying.DecoratorExample | tests/test_functional.py:4-11 | for `f(arg1, arg2, arg3='defult')` decorated with curry, `f('a', arg3=' other')` is a curry, and calling that with `'b'` returns `'ab other'` |
| Currying.PartialFormExample | tests/test_functional.py:14-22 | `curry(f, 'a')(arg3=' other')` is a curry, and calling that with `'b'` returns `'ab other'` |
| Currying.BodyTypeErrorBecomesPartial | functional/functionrich.py:66-73 | a TypeError raised inside the target's body (`1 + 2 + 'x'`) is also turned into a new curry rather than propagated |
| Kinds.Make | functional/kind.py:4-12 | `Kind(k)` for a Kind k is k itself; otherwise it holds the given value |
| Kinds.IsTruthy | functional/kind.py:14-16 | `bool(k)` is the truth value of the held value; Kinds.OrLaws uses it |
| Kinds.Or | functional/kind.py:18-28 | the fallback operator gives the receiver or `Kind(other)`, and its result is truthy exactly when the receiver or the other value is; Kinds.OrLaws states which of the two is chosen |
| Kinds.Extract | functional/kind.py:30-33 | `k > x` gives the held value whatever x is; Kinds.OrLaws and FallbackExamples state it |
| Kinds.Chain | functional/kind.py:18-28 | a left-to-right fallback chain gives the head or `Kind` of one of the operands, and is truthy exactly when one of them is |
| Kinds.MakeIdempotent | functional/kind.py:4-9 | wrapping twice gives the same Kind as wrapping once |
| Kinds.OrLaws | functional/kind.py:14-33 | the fallback operator returns a truthy receiver as is and gives `Kind(other)` for a falsy one; a Kind falling back on itself is itself; the result is truthy exactly when the receiver or the other operand is; `>` extracts the chosen value whatever its right operand |
| Kinds.ChainFromTruthy | functional/kind.py:27-28 | once a link of a fallback chain is truthy, every later operand is ignored |
| Kinds.ChainPicksFirstTruthyOrLast | functional/kind.py:18-28 | a left-to-right fallback chain equals `Kind` of the first operand whose value is truthy, or of the last operand when none is |
| Kinds.FirstTruthyIndex | functional/kind.py:18-28 | the position the chain stops at: every operand before it is falsy, and it is truthy or the last operand |
| Kinds.FallbackExamples | functional/kind.py:19-26 | the docstring's chains: 0, 100, None, True extracts 100, also with the last two operands given as Kinds; 0, None, '', 0 extracts 0, not '' |
| Kinds.Fmap | functional/kind.py:35-38 | a None value is left alone; any other value, falsy ones included, is replaced by f of it; an exception from f propagates |
| Kinds.FmapLaws | functional/kind.py:35-38 | fmap with a function that returns its argument changes nothing; fmap f then fmap g equals fmap of g after f when f never returns None |
| Kinds.FmapNoneBreaksComposition | functional/kind.py:35-38 | when f returns None, fmap f then fmap g differs from fmap of g after f, because the second fmap skips the None |
| Kinds.FmapExamples | functional/kind.py:35-38 | `Kind(None).fmap(+1)` holds None, `Kind(5).fmap(+1)` holds 6 and `Kind(0).fmap(+1)` holds 1 |
| Search.FindFirst | functional/__init__.py:24-29 | the result is an element of the list that satisfies the predicate, and every element before it fails; there is no result exactly when no element satisfies it; the predicate is partial and need only be defined up to the first match, so the verifier checks that no element past the match is handed to it |
| Search.StopsBeforeDivisionByZero | functional/__init__.py:26-28 | `find_first(lambda x: 10 / x > 2, [5, 2, 0])` returns 2 after examining two elements; the predicate is undefined at 0, which the search never reaches |
| Search.FindFirstValue | functional/__init__.py:24-29 | a non-None result is the first match; None comes back exactly when nothing matches or the first match is itself None, so those two cases cannot be told apart |

## Findings

| source | as written | input that shows it | evidently intended | confidence | as-written member | corrected member |
|---|---|---|---|---|---|---|
| functional/functionrich.py:127-130 | `elif n == 0:` tests the truth of `n == 0`. For a FunctionRich n, that expression is `n.__eq__(0)`, a new FunctionRich, and every FunctionRich is truthy. | `f ^ g` with g a FunctionRich returns `identity` | NotImplemented, as for every other exponent that is not an integer | medium, not executed | RichFunctions.Xor (shown by RichFunctions.XorOfRichIsIdentity) | RichFunctions.XorIntended |

## Notes on the code

- **curry catches every TypeError.** The `except TypeError` at functional/functionrich.py:66-73 is not limited to arity errors: a TypeError raised inside the target's body also becomes a new curry instead of propagating. `Currying.Call` models this, and `Currying.BodyTypeErrorBecomesPartial` shows it with `1 + 2 + 'x'`.
- **Accumulated arguments need not grow strictly.** A call with no new arguments that still raises TypeError returns a curry holding the same arguments as before (functional/functionrich.py:59-73). `Currying.ChainAccumulates` states the non-strict growth that holds.
- **The `Kind` docstring is wrong.** The docstring at functional/kind.py:20-21 claims `Kind(0) | None | '' | 0 > 1` is `''`. By lines 27-28 it is `0`, the last operand. `Kinds.FallbackExamples` proves `0`.

## Left out

- I/O: the `print e` in `curry.__call__` is not modelled.
- `inspect.getargspec` in `curry.__init__` is not modelled. Its result is unused. The target is assumed to be a plain function, so `Currying.Make` never fails.
- Python's rule for which calls raise TypeError is not modelled in general. A target returns an explicit `Raised(TypeError)`. Only the test's function `f(arg1, arg2, arg3='defult')` has its argument binding written out (`Currying.Concat3`).
- Callable objects other than routines, classes and partials are not modelled, because `Value` cannot hold objects. In Python these are promoted to constants that return the object. Examples are a curry instance or an object with `__call__`.
- Floats are not modelled, so true division, float `**` and float `abs` are absent. So is string and tuple repetition by `*`. Values here are None, bool, int, str and tuple.
- Ordering comparisons cover two numbers, two strings (lexicographic, by character) and two tuples (item by item). Python 2 also orders None, and values of different types, by an implementation rule (None first, then by type name). The model gives a TypeError for those pairs instead.
- `x % f` for a str x is Python's string formatting, which never reaches `FunctionRich.__rmod__`: `'%s' % f` gives a string and `'abc' % f` raises TypeError. String formatting is not modelled, so `RichFunctions.RMod` is only the reflected composition for other left operands.
- Lift: the exponent of `f ** n` is a non-negative integer. Negative exponents give floats in Python, and any other exponent is a TypeError at call time; neither is modelled.
- Xor: Python 2 `long` exponents are treated as integers. `isinstance(n, int)` is false for a `long`, so in Python such an exponent gives NotImplemented. Python's own conversion of NotImplemented into a TypeError at the `^` call site is not modelled either.
- `functools.partial` is modelled only as placing the bound arguments before the call's arguments (`RichFunctions.New`).
- `__repr__` and `__str__` are not modelled. They only format text.
- Object identity and in-place mutation are not modelled. `Kind.fmap` updates the receiver and returns it, while `Kinds.Fmap` returns the updated Kind. Aliases of the receiver seeing the update is not represented. The number of Kind constructions noted in the `|` docstring is also not modelled.
- find_first: Python iterates any iterable, and the model takes a sequence. The predicate is a partial Dafny function that need only be defined on the elements the search reaches; an exception it raises on such an element, which Python would propagate, is not modelled.
- setup.py is not modelled. It holds packaging and a test runner with no behavioural logic.
