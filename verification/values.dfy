/** The small fragment of Python's data model that the functional package
    manipulates: values (with tuples, since composition spreads them),
    exceptions, truth value testing, and the arithmetic and comparison
    operators that the pointwise FunctionRich operators delegate to.
    Integers follow Python 2, the language the package is written in:
    `bool` is a subclass of `int` and `/` on integers is floor division. */
module Values {

  datatype Value =
    | NoneVal
    | Bool(b: bool)
    | Int(i: int)
    | Str(s: string)
    | Tuple(items: seq<Value>)

  /** The exceptions the model distinguishes. `TypeError` matters because
      curry catches it; every other exception only propagates. */
  datatype Exc = TypeError | ZeroDivisionError | OtherError(name: string)

  /** The outcome of a Python call: a returned value or a raised exception. */
  datatype Result<+T> = Ok(value: T) | Raised(exc: Exc)

  /** Python truth value testing: None, False, 0, '' and () are false. */
  predicate Truthy(v: Value)
  {
    match v
    case NoneVal => false
    case Bool(b) => b
    case Int(i) => i != 0
    case Str(s) => |s| > 0
    case Tuple(xs) => |xs| > 0
  }

  /** `isinstance(v, int)`: booleans are integers in Python. */
  predicate IsNumeric(v: Value)
  {
    v.Bool? || v.Int?
  }

  function NumOf(v: Value): int
    requires IsNumeric(v)
  {
    if v.Bool? then (if v.b then 1 else 0) else v.i
  }

  /** Python's `a // b` on integers (also Python 2's `a / b`): the quotient
      rounded towards negative infinity. Dafny's own `/` is Euclidean. */
  function IntFloorDiv(a: int, b: int): (q: int)
    requires b != 0
    ensures b > 0 ==> b * q <= a < b * q + b
    ensures b < 0 ==> b * q + b < a <= b * q
  {
    if b > 0 then a / b else (-a) / (-b)
  }

  /** Python's `x ** n` for an integer base and a non-negative exponent. */
  function IntPow(x: int, n: nat): int
  {
    if n == 0 then 1 else x * IntPow(x, n - 1)
  }

  lemma {:induction false} IntPowAdd(x: int, m: nat, n: nat)
    ensures IntPow(x, m + n) == IntPow(x, m) * IntPow(x, n)
  {
    if m > 0 {
      IntPowAdd(x, m - 1, n);
      calc {
        IntPow(x, m + n);
        x * IntPow(x, (m - 1) + n);
        x * (IntPow(x, m - 1) * IntPow(x, n));
        (x * IntPow(x, m - 1)) * IntPow(x, n);
      }
    }
  }

  /** Python's `==`: numbers compare by value across bool and int, tuples
      element-wise, everything else structurally. */
  predicate PyEq(a: Value, b: Value)
    decreases a
  {
    if IsNumeric(a) && IsNumeric(b) then NumOf(a) == NumOf(b)
    else if a.Tuple? && b.Tuple? then
      |a.items| == |b.items| &&
      forall k :: 0 <= k < |a.items| ==> PyEq(a.items[k], b.items[k])
    else a == b
  }

  lemma {:induction false} PyEqReflexive(a: Value)
    ensures PyEq(a, a)
    decreases a
  {
    if a.Tuple? && !IsNumeric(a) {
      forall k | 0 <= k < |a.items|
        ensures PyEq(a.items[k], a.items[k])
      {
        PyEqReflexive(a.items[k]);
      }
    }
  }

  lemma {:induction false} PyEqSymmetric(a: Value, b: Value)
    requires PyEq(a, b)
    ensures PyEq(b, a)
    decreases a
  {
    if a.Tuple? && b.Tuple? {
      forall k | 0 <= k < |b.items|
        ensures PyEq(b.items[k], a.items[k])
      {
        PyEqSymmetric(a.items[k], b.items[k]);
      }
    }
  }

  /** The binary operators FunctionRich lifts pointwise. */
  datatype BinOp = Add | Sub | Mul | Div | Lt | Le | Eq | Ne | Ge | Gt

  /** The operators that have a reflected form (`__radd__` and friends). */
  predicate IsArithmetic(op: BinOp)
  {
    op.Add? || op.Sub? || op.Mul? || op.Div?
  }

  function Compare(op: BinOp, x: int, y: int): bool
    requires op.Lt? || op.Le? || op.Ge? || op.Gt?
  {
    match op
    case Lt => x < y
    case Le => x <= y
    case Ge => x >= y
    case Gt => x > y
  }

  function Sign(x: int): int
  {
    if x < 0 then -1 else if x > 0 then 1 else 0
  }

  /** Lexicographic order of two strings, character by character: -1, 0 or 1. */
  function StrCmp(s: string, t: string): int
  {
    if |s| == 0 || |t| == 0 then Sign(|s| - |t|)
    else if s[0] != t[0] then (if s[0] < t[0] then -1 else 1)
    else StrCmp(s[1..], t[1..])
  }

  /** How Python orders two values, as -1, 0 or 1: numbers by value, strings
      lexicographically, tuples by their first pair of unequal items (or by
      length when one is a prefix of the other). Any other pair is a
      TypeError. */
  function Cmp(a: Value, b: Value): Result<int>
    decreases a, 1
  {
    if IsNumeric(a) && IsNumeric(b) then Ok(Sign(NumOf(a) - NumOf(b)))
    else if a.Str? && b.Str? then Ok(StrCmp(a.s, b.s))
    else if a.Tuple? && b.Tuple? then ItemsCmp(a, b, 0)
    else Raised(TypeError)
  }

  /** Tuple order from position i on: items that are `==` are skipped, the
      first unequal pair decides. */
  function ItemsCmp(a: Value, b: Value, i: nat): Result<int>
    requires a.Tuple? && b.Tuple?
    requires i <= |a.items| && i <= |b.items|
    decreases a, 0, |a.items| - i
  {
    if i == |a.items| || i == |b.items| then Ok(Sign(|a.items| - |b.items|))
    else if PyEq(a.items[i], b.items[i]) then ItemsCmp(a, b, i + 1)
    else Cmp(a.items[i], b.items[i])
  }

  function Negate(r: Result<int>): Result<int>
  {
    match r
    case Ok(c) => Ok(-c)
    case Raised(e) => Raised(e)
  }

  lemma {:induction false} StrCmpAntisymmetric(s: string, t: string)
    ensures StrCmp(t, s) == -StrCmp(s, t)
    decreases |s|
  {
    if |s| > 0 && |t| > 0 && s[0] == t[0] {
      StrCmpAntisymmetric(s[1..], t[1..]);
    }
  }

  /** Swapping the operands negates the order, and one order is a TypeError
      exactly when the other is. */
  lemma {:induction false} CmpAntisymmetric(a: Value, b: Value)
    ensures Cmp(b, a) == Negate(Cmp(a, b))
    decreases a, 1
  {
    if IsNumeric(a) && IsNumeric(b) {
    } else if a.Str? && b.Str? {
      StrCmpAntisymmetric(a.s, b.s);
    } else if a.Tuple? && b.Tuple? {
      ItemsCmpAntisymmetric(a, b, 0);
    }
  }

  lemma {:induction false} ItemsCmpAntisymmetric(a: Value, b: Value, i: nat)
    requires a.Tuple? && b.Tuple?
    requires i <= |a.items| && i <= |b.items|
    ensures ItemsCmp(b, a, i) == Negate(ItemsCmp(a, b, i))
    decreases a, 0, |a.items| - i
  {
    if i == |a.items| || i == |b.items| {
    } else {
      if PyEq(a.items[i], b.items[i]) {
        PyEqSymmetric(a.items[i], b.items[i]);
        ItemsCmpAntisymmetric(a, b, i + 1);
      } else {
        if PyEq(b.items[i], a.items[i]) {
          PyEqSymmetric(b.items[i], a.items[i]);
        }
        CmpAntisymmetric(a.items[i], b.items[i]);
      }
    }
  }

  /** `'a' < 'b'`, `'ab' < 'b'`, `'a' < 'ab'`, `(1,) < (2,)` and
      `(1, 'x') < (True, 'y')` hold, `(1,) >= (1, 0)` is False, and `1 < 'a'`
      is a TypeError in the model. */
  lemma OrderingExamples()
    ensures Binary(Lt, Str("a"), Str("b")) == Ok(Bool(true))
    ensures Binary(Lt, Str("ab"), Str("b")) == Ok(Bool(true))
    ensures Binary(Lt, Str("a"), Str("ab")) == Ok(Bool(true))
    ensures Binary(Lt, Tuple([Int(1)]), Tuple([Int(2)])) == Ok(Bool(true))
    ensures Binary(Lt, Tuple([Int(1), Str("x")]), Tuple([Bool(true), Str("y")])) == Ok(Bool(true))
    ensures Binary(Ge, Tuple([Int(1)]), Tuple([Int(1), Int(0)])) == Ok(Bool(false))
    ensures Binary(Lt, Int(1), Str("a")) == Raised(TypeError)
  {
  }

  /** `a OP b` evaluated by Python on the modelled values. */
  function Binary(op: BinOp, a: Value, b: Value): Result<Value>
  {
    match op
    case Eq => Ok(Bool(PyEq(a, b)))
    case Ne => Ok(Bool(!PyEq(a, b)))
    case Add =>
      if IsNumeric(a) && IsNumeric(b) then Ok(Int(NumOf(a) + NumOf(b)))
      else if a.Str? && b.Str? then Ok(Str(a.s + b.s))
      else if a.Tuple? && b.Tuple? then Ok(Tuple(a.items + b.items))
      else Raised(TypeError)
    case Sub =>
      if IsNumeric(a) && IsNumeric(b) then Ok(Int(NumOf(a) - NumOf(b)))
      else Raised(TypeError)
    case Mul =>
      if IsNumeric(a) && IsNumeric(b) then Ok(Int(NumOf(a) * NumOf(b)))
      else Raised(TypeError)
    case Div =>
      if !(IsNumeric(a) && IsNumeric(b)) then Raised(TypeError)
      else if NumOf(b) == 0 then Raised(ZeroDivisionError)
      else Ok(Int(IntFloorDiv(NumOf(a), NumOf(b))))
    case _ =>
      match Cmp(a, b)
      case Ok(c) => Ok(Bool(Compare(op, c, 0)))
      case Raised(e) => Raised(e)
  }

  /** The unary operators FunctionRich lifts: `-x`, `abs(x)`, `x ** n`. */
  datatype UnOp = Neg | Abs | Pow(n: nat)

  function Unary(op: UnOp, a: Value): Result<Value>
  {
    if !IsNumeric(a) then Raised(TypeError)
    else
      var x := NumOf(a);
      match op
      case Neg => Ok(Int(-x))
      case Abs => Ok(Int(if x < 0 then -x else x))
      case Pow(n) => Ok(Int(IntPow(x, n)))
  }
}
