/** FunctionRich: a wrapper around one callable whose operators build new
    wrappers. Composition (`%`, `//`, `<<`, `>>`), repetition (`^`),
    application (`&`) and the pointwise arithmetic, unary and comparison
    operators are each a pure equation over the operands' results; nothing
    is called until the built wrapper itself is called. */
module RichFunctions {
  import opened Values

  /** A Python callable invoked with positional arguments `f(*args)`. */
  type Callable = seq<Value> -> Result<Value>

  /** A FunctionRich instance: its single `_func` slot. */
  datatype Rich = Rich(func: Callable)

  /** What the constructor, or an operator's other operand, can be handed:
      another FunctionRich, a routine / class / partial (stored as is), or
      any other value (promoted to a constant function). */
  datatype Operand = Wrapped(rich: Rich) | Routine(routine: Callable) | Plain(value: Value)

  /** The outcome of `f ^ n`: a new wrapper or Python's `NotImplemented`. */
  datatype XorResult = Fn(fn: Rich) | NotImplemented

  /** Two wrappers that return the same outcome on every argument tuple. */
  ghost predicate Same(f: Rich, g: Rich)
  {
    forall args :: f.func(args) == g.func(args)
  }

  /** `FunctionRich(o)._func`, the callable an operand is promoted to. */
  function Promote(o: Operand): Callable
  {
    match o
    case Wrapped(r) => r.func
    case Routine(g) => g
    case Plain(v) => (args: seq<Value>) => Ok(v)
  }

  /** `FunctionRich(o, *bound)`. Extra constructor arguments are pre-bound
      with `functools.partial`, which refuses a non-callable first
      argument with a TypeError; the resulting partial is stored as is. */
  function New(o: Operand, bound: seq<Value>): (r: Result<Rich>)
    ensures |bound| == 0 && o.Wrapped? ==> r == Ok(o.rich)
    ensures |bound| == 0 && o.Routine? ==> r == Ok(Rich(o.routine))
    ensures |bound| == 0 && o.Plain? ==>
      r.Ok? && forall args :: r.value.func(args) == Ok(o.value)
    ensures |bound| > 0 ==> (r.Ok? <==> !o.Plain?)
    ensures |bound| > 0 && r.Ok? ==>
      forall args :: r.value.func(args) == Promote(o)(bound + args)
  {
    if |bound| == 0 then Ok(Rich(Promote(o)))
    else if o.Plain? then Raised(TypeError)
    else
      var g := Promote(o);
      Ok(Rich((args: seq<Value>) => g(bound + args)))
  }

  /** `_unpack(f, v)`: a tuple is spread into positional arguments, any
      other value is passed as the single argument. */
  function Unpack(f: Callable, v: Value): Result<Value>
  {
    if v.Tuple? then f(v.items) else f([v])
  }

  /** Feed an outcome into `f` through `_unpack`; a raised exception
      propagates without calling `f`. */
  function Then(r: Result<Value>, f: Callable): Result<Value>
  {
    match r
    case Ok(v) => Unpack(f, v)
    case Raised(e) => Raised(e)
  }

  /** Feed an outcome into `f` as its single argument, never spreading. */
  function PassOn(r: Result<Value>, f: Callable): Result<Value>
  {
    match r
    case Ok(v) => f([v])
    case Raised(e) => Raised(e)
  }

  /** `f & arg`. */
  function Apply(f: Rich, arg: Value): Result<Value>
  {
    if arg.Tuple? then f.func(arg.items) else f.func([arg])
  }

  /** `f % g`: g runs first, its result is spread into f. */
  function Mod(f: Rich, g: Operand): Rich
  {
    var h := Promote(g);
    Rich((args: seq<Value>) => Then(h(args), f.func))
  }

  /** `g % f` for a left operand g that is not a FunctionRich. */
  function RMod(f: Rich, g: Operand): Rich
  {
    var h := Promote(g);
    Rich((args: seq<Value>) => Then(f.func(args), h))
  }

  /** `f // g` and `f << g`: g runs first, its result is f's one argument. */
  function FloorDiv(f: Rich, g: Operand): Rich
  {
    var h := Promote(g);
    Rich((args: seq<Value>) => PassOn(h(args), f.func))
  }

  /** `f >> g`, and `g // f` for a left operand g that is not a FunctionRich:
      f runs first, its result is g's one argument. */
  function RFloorDiv(f: Rich, g: Operand): Rich
  {
    var h := Promote(g);
    Rich((args: seq<Value>) => PassOn(f.func(args), h))
  }

  /** The module-level `identity`: a one-parameter Python function, so any
      other number of arguments is a TypeError. */
  function Identity(): (r: Rich)
    ensures forall x :: r.func([x]) == Ok(x)
    ensures forall args :: |args| != 1 ==> r.func(args) == Raised(TypeError)
  {
    Rich((args: seq<Value>) => if |args| == 1 then Ok(args[0]) else Raised(TypeError))
  }

  /** `self % (self % ... % self)` with n occurrences of self: the wrapper
      the loop of `__xor__` has built after n - 1 rounds. */
  function Repeat(f: Rich, n: nat): Rich
    requires n >= 1
  {
    if n == 1 then f else Mod(f, Wrapped(Repeat(f, n - 1)))
  }

  /** `isinstance(n, int) and n > 0`. */
  predicate IsPositiveInt(n: Operand)
  {
    n.Plain? && IsNumeric(n.value) && NumOf(n.value) > 0
  }

  /** The truth value of `n == 0`. For a FunctionRich n, `n == 0` is
      `n.__eq__(0)`, a new FunctionRich, and every FunctionRich is truthy. */
  predicate EqualsZeroTest(n: Operand)
  {
    match n
    case Plain(v) => PyEq(v, Int(0))
    case Routine(_) => false
    case Wrapped(_) => true
  }

  /** `f ^ n` as written. */
  function Xor(f: Rich, n: Operand): XorResult
  {
    if IsPositiveInt(n) then Fn(Repeat(f, NumOf(n.value)))
    else if EqualsZeroTest(n) then Fn(Identity())
    else NotImplemented
  }

  /** The loop of `__xor__`, proved to build exactly `Xor(f, n)`. */
  method XorLoop(f: Rich, n: Operand) returns (r: XorResult)
    ensures r == Xor(f, n)
  {
    if IsPositiveInt(n) {
      var k := NumOf(n.value);
      var g := f;
      var i := 0;
      while i < k - 1
        invariant 0 <= i <= k - 1
        invariant g == Repeat(f, i + 1)
      {
        g := Mod(f, Wrapped(g));
        i := i + 1;
      }
      r := Fn(g);
    } else if EqualsZeroTest(n) {
      r := Fn(Identity());
    } else {
      r := NotImplemented;
    }
  }

  /** `f ^ n` as evidently intended: only an integer exponent of at least
      zero is supported; every other operand is `NotImplemented`. */
  function XorIntended(f: Rich, n: Operand): (r: XorResult)
    ensures r.Fn? ==> n.Plain? && IsNumeric(n.value) && NumOf(n.value) >= 0
    ensures n.Plain? && IsNumeric(n.value) && NumOf(n.value) >= 0 ==> r == Xor(f, n)
  {
    if n.Plain? && IsNumeric(n.value) && NumOf(n.value) >= 0 then Xor(f, n)
    else NotImplemented
  }

  /** Python's operators applied to two outcomes, left one evaluated first. */
  function Combine(op: BinOp, a: Result<Value>, b: Result<Value>): Result<Value>
  {
    match a
    case Raised(e) => Raised(e)
    case Ok(x) =>
      match b
      case Raised(e) => Raised(e)
      case Ok(y) => Binary(op, x, y)
  }

  /** `f OP g` for `+ - * /` and `< <= == != >= >`: both operands are called
      with the same arguments, the receiver first. */
  function Pointwise(f: Rich, op: BinOp, g: Operand): Rich
  {
    var h := Promote(g);
    Rich((args: seq<Value>) => Combine(op, f.func(args), h(args)))
  }

  /** `g OP f` for a left operand g that is not a FunctionRich
      (`__radd__`, `__rsub__`, `__rmul__`, `__rdiv__`). */
  function Reflected(f: Rich, op: BinOp, g: Operand): Rich
    requires IsArithmetic(op)
  {
    var h := Promote(g);
    Rich((args: seq<Value>) => Combine(op, h(args), f.func(args)))
  }

  /** `-f`, `abs(f)` and `f ** n`. */
  function Lift(f: Rich, op: UnOp): Rich
  {
    Rich((args: seq<Value>) =>
      match f.func(args)
      case Raised(e) => Raised(e)
      case Ok(x) => Unary(op, x))
  }

  /** `+f`: the receiver itself, not a copy. */
  function Pos(f: Rich): (r: Rich)
    ensures r == f
  {
    f
  }

  // ---------------------------------------------------------------------
  // Composition

  /** `f & v` is `_unpack(f, v)`, and `(f % g)(*args)` is `f & g(*args)`. */
  lemma ApplyIsUnpackAndMod(f: Rich, g: Rich, args: seq<Value>)
    ensures forall v :: Apply(f, v) == Unpack(f.func, v)
    ensures g.func(args).Ok? ==> Mod(f, Wrapped(g)).func(args) == Apply(f, g.func(args).value)
    ensures g.func(args).Raised? ==> Mod(f, Wrapped(g)).func(args) == g.func(args)
  {
  }

  /** `%` and `//` agree whenever g's result is not a tuple; on a tuple
      `%` spreads it while `//` passes the tuple itself. */
  lemma ModVersusFloorDiv(f: Rich, g: Operand, args: seq<Value>)
    ensures !(Promote(g)(args).Ok? && Promote(g)(args).value.Tuple?) ==>
      Mod(f, g).func(args) == FloorDiv(f, g).func(args)
    ensures Promote(g)(args).Ok? && Promote(g)(args).value.Tuple? ==>
      Mod(f, g).func(args) == f.func(Promote(g)(args).value.items) &&
      FloorDiv(f, g).func(args) == f.func([Promote(g)(args).value])
  {
  }

  /** The reflected forms are the forward forms with the operands swapped:
      `x % f` is `FunctionRich(x) % f` and `f >> g` is `g << f`. */
  lemma ReflectedCompositionSwaps(f: Rich, g: Operand)
    ensures Same(RMod(f, g), Mod(Rich(Promote(g)), Wrapped(f)))
    ensures Same(RFloorDiv(f, g), FloorDiv(Rich(Promote(g)), Wrapped(f)))
  {
  }

  lemma ModCongruent(a: Rich, a': Rich, b: Rich, b': Rich)
    requires Same(a, a') && Same(b, b')
    ensures Same(Mod(a, Wrapped(b)), Mod(a', Wrapped(b')))
  {
  }

  /** `%` is associative, spreading included. */
  lemma {:induction false} ModAssociative(a: Rich, b: Rich, c: Rich)
    ensures Same(Mod(a, Wrapped(Mod(b, Wrapped(c)))), Mod(Mod(a, Wrapped(b)), Wrapped(c)))
  {
    forall args
      ensures Mod(a, Wrapped(Mod(b, Wrapped(c)))).func(args) == Mod(Mod(a, Wrapped(b)), Wrapped(c)).func(args)
    {
      match c.func(args)
      case Raised(e) =>
        assert Mod(b, Wrapped(c)).func(args) == Raised(e);
        assert Mod(Mod(a, Wrapped(b)), Wrapped(c)).func(args) == Raised(e);
      case Ok(v) =>
        var inner := if v.Tuple? then v.items else [v];
        calc {
          Mod(a, Wrapped(Mod(b, Wrapped(c)))).func(args);
          Then(Then(Ok(v), b.func), a.func);
          Then(b.func(inner), a.func);
          Mod(a, Wrapped(b)).func(inner);
          Unpack(Mod(a, Wrapped(b)).func, v);
          Mod(Mod(a, Wrapped(b)), Wrapped(c)).func(args);
        }
    }
  }

  /** `//` (and so `<<`) is associative. */
  lemma FloorDivAssociative(a: Rich, b: Rich, c: Rich)
    ensures Same(FloorDiv(a, Wrapped(FloorDiv(b, Wrapped(c)))), FloorDiv(FloorDiv(a, Wrapped(b)), Wrapped(c)))
  {
    forall args
      ensures FloorDiv(a, Wrapped(FloorDiv(b, Wrapped(c)))).func(args) == FloorDiv(FloorDiv(a, Wrapped(b)), Wrapped(c)).func(args)
    {
      match c.func(args)
      case Raised(e) =>
        assert FloorDiv(b, Wrapped(c)).func(args) == Raised(e);
        assert FloorDiv(FloorDiv(a, Wrapped(b)), Wrapped(c)).func(args) == Raised(e);
      case Ok(v) =>
        assert FloorDiv(b, Wrapped(c)).func(args) == b.func([v]);
        assert FloorDiv(FloorDiv(a, Wrapped(b)), Wrapped(c)).func(args) == FloorDiv(a, Wrapped(b)).func([v]);
    }
  }

  /** `identity` returns its one argument; it is a left unit of `%` only
      for non-tuple results: a 1-tuple is unwrapped and any other tuple
      is a TypeError. With one argument it is a right unit: `g % identity`
      is `g & x`. */
  lemma IdentityUnits(g: Rich, x: Value, args: seq<Value>)
    ensures Identity().func([x]) == Ok(x)
    ensures |args| != 1 ==> Identity().func(args) == Raised(TypeError)
    ensures Mod(g, Wrapped(Identity())).func([x]) == Apply(g, x)
    ensures match g.func(args)
      case Ok(v) =>
        if !v.Tuple? then Mod(Identity(), Wrapped(g)).func(args) == Ok(v)
        else if |v.items| == 1 then Mod(Identity(), Wrapped(g)).func(args) == Ok(v.items[0])
        else Mod(Identity(), Wrapped(g)).func(args) == Raised(TypeError)
      case Raised(e) => Mod(Identity(), Wrapped(g)).func(args) == Raised(e)
  {
  }

  // ---------------------------------------------------------------------
  // Repetition

  /** n-fold application: f applied to `args`, then its result fed back into
      f through `_unpack` k more times. */
  function Feed(f: Callable, k: nat, r: Result<Value>): Result<Value>
    decreases k
  {
    if k == 0 then r else Feed(f, k - 1, Then(r, f))
  }

  lemma {:induction false} FeedStep(f: Callable, k: nat, r: Result<Value>)
    ensures Then(Feed(f, k, r), f) == Feed(f, k + 1, r)
    decreases k
  {
    if k > 0 {
      FeedStep(f, k - 1, Then(r, f));
    }
  }

  /** The wrapper built by the loop is n-fold application of f. */
  lemma {:induction false} RepeatIsIteratedApplication(f: Rich, n: nat, args: seq<Value>)
    requires n >= 1
    ensures Repeat(f, n).func(args) == Feed(f.func, n - 1, f.func(args))
    decreases n
  {
    if n > 1 {
      RepeatIsIteratedApplication(f, n - 1, args);
      FeedStep(f.func, n - 2, f.func(args));
    }
  }

  /** `f ^ (m + n)` behaves as `(f ^ m) % (f ^ n)`. */
  lemma {:induction false} RepeatAdd(f: Rich, m: nat, n: nat)
    requires m >= 1 && n >= 1
    ensures Same(Repeat(f, m + n), Mod(Repeat(f, m), Wrapped(Repeat(f, n))))
    decreases m
  {
    if m > 1 {
      RepeatAdd(f, m - 1, n);
      assert Repeat(f, m + n) == Mod(f, Wrapped(Repeat(f, (m - 1) + n)));
      ModCongruent(f, f, Repeat(f, (m - 1) + n), Mod(Repeat(f, m - 1), Wrapped(Repeat(f, n))));
      ModAssociative(f, Repeat(f, m - 1), Repeat(f, n));
    }
  }

  /** `f ^ n`: n = 1 gives f itself, n = 0 (or False) gives identity, a
      positive n gives n-fold application, and a negative number, a string,
      None, a tuple or a plain routine give NotImplemented. */
  lemma XorCases(f: Rich, n: Operand, args: seq<Value>)
    ensures n == Plain(Int(1)) ==> Xor(f, n) == Fn(f)
    ensures n == Plain(Int(0)) || n == Plain(Bool(false)) ==> Xor(f, n) == Fn(Identity())
    ensures IsPositiveInt(n) ==>
      Xor(f, n).Fn? && Xor(f, n).fn.func(args) == Feed(f.func, NumOf(n.value) - 1, f.func(args))
    ensures n.Plain? && IsNumeric(n.value) && NumOf(n.value) < 0 ==> Xor(f, n) == NotImplemented
    ensures n.Plain? && (n.value.NoneVal? || n.value.Str? || n.value.Tuple?) ==> Xor(f, n) == NotImplemented
    ensures n.Routine? ==> Xor(f, n) == NotImplemented
  {
    if IsPositiveInt(n) {
      RepeatIsIteratedApplication(f, NumOf(n.value), args);
    }
  }

  /** The discrepancy: a FunctionRich exponent is not an integer, yet
      `f ^ g` returns identity instead of NotImplemented. */
  lemma XorOfRichIsIdentity(f: Rich, g: Rich)
    ensures Xor(f, Wrapped(g)) == Fn(Identity())
    ensures XorIntended(f, Wrapped(g)) == NotImplemented
  {
  }

  // ---------------------------------------------------------------------
  // Pointwise operators

  /** A non-callable operand acts as a constant: `(f OP c)(*args)` is
      `f(*args) OP c`, and the reflected `(c OP f)(*args)` is `c OP f(*args)`. */
  lemma PointwiseConstant(f: Rich, op: BinOp, c: Value, args: seq<Value>)
    ensures Pointwise(f, op, Plain(c)).func(args) ==
      (match f.func(args) case Ok(x) => Binary(op, x, c) case Raised(e) => Raised(e))
    ensures IsArithmetic(op) ==>
      (Reflected(f, op, Plain(c)).func(args) ==
       match f.func(args) case Ok(x) => Binary(op, c, x) case Raised(e) => Raised(e))
  {
  }

  /** The reflected arithmetic form is the forward form with the operands
      swapped: `g + f` evaluates `g(*args) + f(*args)`. */
  lemma ReflectedArithmeticSwaps(f: Rich, op: BinOp, g: Operand)
    requires IsArithmetic(op)
    ensures Same(Reflected(f, op, g), Pointwise(Rich(Promote(g)), op, Wrapped(f)))
  {
  }

  /** Comparisons compare results, not wrappers: `(f == f)(*args)` is True
      whenever f returns, and `!=` is its negation. */
  lemma ComparisonsArePointwise(f: Rich, g: Operand, args: seq<Value>)
    ensures f.func(args).Ok? ==> Pointwise(f, Eq, Wrapped(f)).func(args) == Ok(Bool(true))
    ensures Pointwise(f, Eq, g).func(args).Ok? <==> Pointwise(f, Ne, g).func(args).Ok?
    ensures Pointwise(f, Eq, g).func(args).Ok? ==>
      Pointwise(f, Eq, g).func(args).value.Bool? &&
      Pointwise(f, Ne, g).func(args) == Ok(Bool(!Pointwise(f, Eq, g).func(args).value.b))
  {
    if f.func(args).Ok? {
      PyEqReflexive(f.func(args).value);
    }
  }

  /** `f < g` and `g > f` agree whenever both operands return. */
  lemma LessMirrorsGreater(f: Rich, g: Rich, args: seq<Value>)
    requires f.func(args).Ok? && g.func(args).Ok?
    ensures Pointwise(f, Lt, Wrapped(g)).func(args) == Pointwise(g, Gt, Wrapped(f)).func(args)
    ensures Pointwise(f, Le, Wrapped(g)).func(args) == Pointwise(g, Ge, Wrapped(f)).func(args)
  {
    CmpAntisymmetric(f.func(args).value, g.func(args).value);
  }

  /** `f - f` is 0 and `f / 0` raises ZeroDivisionError on numeric results. */
  lemma ArithmeticOnNumbers(f: Rich, args: seq<Value>)
    requires f.func(args).Ok? && IsNumeric(f.func(args).value)
    ensures Pointwise(f, Sub, Wrapped(f)).func(args) == Ok(Int(0))
    ensures Pointwise(f, Div, Plain(Int(0))).func(args) == Raised(ZeroDivisionError)
    ensures Pointwise(f, Add, Wrapped(f)).func(args) == Pointwise(f, Mul, Plain(Int(2))).func(args)
  {
  }

  // ---------------------------------------------------------------------
  // Unary operators

  /** `+f` is f; `abs(-f)` is `abs(f)` on every input, errors included;
      `-(-f)` gives back an integer result. */
  lemma UnaryLaws(f: Rich, args: seq<Value>)
    ensures Pos(f) == f
    ensures Lift(Lift(f, Neg), Abs).func(args) == Lift(f, Abs).func(args)
    ensures f.func(args).Ok? && f.func(args).value.Int? ==>
      Lift(Lift(f, Neg), Neg).func(args) == f.func(args)
  {
    match f.func(args)
    case Raised(_) =>
    case Ok(x) =>
      assert Lift(f, Neg).func(args) == Unary(Neg, x);
      if IsNumeric(x) {
        assert Lift(Lift(f, Neg), Abs).func(args) == Unary(Abs, Int(-NumOf(x)));
      }
  }

  /** `f ** (m + n)` is `f ** m * f ** n` on numeric results. */
  lemma PowerAdd(f: Rich, m: nat, n: nat)
    ensures Same(Lift(f, Pow(m + n)), Pointwise(Lift(f, Pow(m)), Mul, Wrapped(Lift(f, Pow(n)))))
  {
    forall args: seq<Value>
      ensures Lift(f, Pow(m + n)).func(args) ==
        Pointwise(Lift(f, Pow(m)), Mul, Wrapped(Lift(f, Pow(n)))).func(args)
    {
      var r := f.func(args);
      var lhs := Lift(f, Pow(m + n)).func(args);
      var rhs := Pointwise(Lift(f, Pow(m)), Mul, Wrapped(Lift(f, Pow(n)))).func(args);
      assert rhs == Combine(Mul, Lift(f, Pow(m)).func(args), Lift(f, Pow(n)).func(args));
      if r.Ok? && IsNumeric(r.value) {
        var x := NumOf(r.value);
        IntPowAdd(x, m, n);
        assert lhs == Ok(Int(IntPow(x, m + n)));
        assert rhs == Binary(Mul, Int(IntPow(x, m)), Int(IntPow(x, n)));
      }
    }
  }
}
