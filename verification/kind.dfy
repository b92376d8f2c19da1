/** Kind: one held scalar value (possibly None) with a truthiness-driven
    fallback operator `|`, an extraction operator `>` and an `fmap` that
    leaves None alone. */
module Kinds {
  import opened Values

  datatype Kind = Kind(wrap: Value)

  /** What `Kind(...)` or the right operand of `|` can be handed: a Kind
      already, or any other value. */
  datatype KindArg = AKind(kind: Kind) | AValue(value: Value)

  /** The plain value an argument stands for. */
  function Unwrapped(a: KindArg): Value
  {
    match a
    case AKind(k) => k.wrap
    case AValue(v) => v
  }

  /** `Kind(a)`: a Kind is returned as it is, never wrapped twice. */
  function Make(a: KindArg): (k: Kind)
    ensures k.wrap == Unwrapped(a)
    ensures a.AKind? ==> k == a.kind
  {
    match a
    case AKind(k) => k
    case AValue(v) => Kind(v)
  }

  /** `bool(k)`. */
  predicate IsTruthy(k: Kind)
  {
    Truthy(k.wrap)
  }

  /** `k | other`. */
  function Or(k: Kind, other: KindArg): (r: Kind)
    ensures r == k || r == Make(other)
    ensures IsTruthy(r) <==> IsTruthy(k) || Truthy(Unwrapped(other))
  {
    if IsTruthy(k) then k else Make(other)
  }

  /** `k > anything`: the held value; the right operand is ignored. */
  function Extract(k: Kind, ignored: Value): Value
  {
    k.wrap
  }

  /** `k.fmap(f)`: the updated Kind, or the exception `f` raised. */
  function Fmap(k: Kind, f: Value -> Result<Value>): (r: Result<Kind>)
    ensures k.wrap == NoneVal ==> r == Ok(k)
    ensures k.wrap != NoneVal ==>
      (r.Ok? <==> f(k.wrap).Ok?) &&
      (r.Ok? ==> r.value.wrap == f(k.wrap).value) &&
      (r.Raised? ==> r.exc == f(k.wrap).exc)
  {
    if k.wrap == NoneVal then Ok(k)
    else
      match f(k.wrap)
      case Ok(v) => Ok(Kind(v))
      case Raised(e) => Raised(e)
  }

  /** `head | a1 | a2 | ...`, evaluated left to right: the result is one of
      the operands, and it is truthy exactly when some operand is. */
  function Chain(head: Kind, rest: seq<KindArg>): (r: Kind)
    ensures r == head || exists i :: 0 <= i < |rest| && r == Make(rest[i])
    ensures IsTruthy(r) <==> IsTruthy(head) || exists i :: 0 <= i < |rest| && Truthy(Unwrapped(rest[i]))
    decreases |rest|
  {
    if |rest| == 0 then head else Chain(Or(head, rest[0]), rest[1..])
  }

  /** The position of the first operand whose value is truthy, or of the
      last operand when none is. */
  function FirstTruthyIndex(ops: seq<KindArg>): (i: nat)
    requires |ops| > 0
    ensures i < |ops|
    ensures forall j :: 0 <= j < i ==> !Truthy(Unwrapped(ops[j]))
    ensures Truthy(Unwrapped(ops[i])) || i == |ops| - 1
    decreases |ops|
  {
    if |ops| == 1 || Truthy(Unwrapped(ops[0])) then 0
    else 1 + FirstTruthyIndex(ops[1..])
  }

  /** The first operand whose value is truthy, or the last operand. */
  function FirstTruthyOrLast(ops: seq<KindArg>): KindArg
    requires |ops| > 0
  {
    ops[FirstTruthyIndex(ops)]
  }

  /** `Kind(a) | b` equals `Kind(a)` when it is truthy and `Kind(b)` otherwise;
      `k | k` is k; `>` then extracts the chosen value whatever its right
      operand. */
  lemma OrLaws(k: Kind, other: KindArg, x: Value)
    ensures IsTruthy(k) ==> Or(k, other) == k
    ensures !IsTruthy(k) ==> Or(k, other) == Make(other) && Or(k, other).wrap == Unwrapped(other)
    ensures Or(k, AKind(k)) == k
    ensures IsTruthy(Or(k, other)) <==> IsTruthy(k) || Truthy(Unwrapped(other))
    ensures Extract(Or(k, other), x) == if IsTruthy(k) then k.wrap else Unwrapped(other)
  {
  }

  lemma {:induction false} ChainFromTruthy(head: Kind, rest: seq<KindArg>)
    requires IsTruthy(head)
    ensures Chain(head, rest) == head
    decreases |rest|
  {
    if |rest| > 0 {
      ChainFromTruthy(Or(head, rest[0]), rest[1..]);
    }
  }

  /** A fallback chain yields the first truthy operand, or the last operand
      if none is truthy; a Kind operand comes back as itself. */
  lemma {:induction false} ChainPicksFirstTruthyOrLast(first: KindArg, rest: seq<KindArg>)
    ensures Chain(Make(first), rest) == Make(FirstTruthyOrLast([first] + rest))
    decreases |rest|
  {
    var ops := [first] + rest;
    if |rest| == 0 {
    } else if Truthy(Unwrapped(first)) {
      ChainFromTruthy(Make(first), rest);
    } else {
      assert Or(Make(first), rest[0]) == Make(rest[0]);
      ChainPicksFirstTruthyOrLast(rest[0], rest[1..]);
      assert [rest[0]] + rest[1..] == rest == ops[1..];
    }
  }

  /** Wrapping twice is wrapping once. */
  lemma MakeIdempotent(a: KindArg)
    ensures Make(AKind(Make(a))) == Make(a)
  {
  }

  /** `fmap` with a function that returns its argument changes nothing, and
      `fmap(f)` then `fmap(g)` is `fmap(g after f)` as long as f never
      returns None. */
  lemma FmapLaws(k: Kind, f: Value -> Result<Value>, g: Value -> Result<Value>)
    ensures Fmap(k, (v: Value) => Ok(v)) == Ok(k)
    ensures (forall v :: f(v) != Ok(NoneVal)) ==>
      (match Fmap(k, f)
       case Ok(k1) => Fmap(k1, g)
       case Raised(e) => Raised(e))
      == Fmap(k, (v: Value) => match f(v) case Ok(w) => g(w) case Raised(e) => Raised(e))
  {
  }

  /** When f returns None the composition law fails: the second `fmap` skips
      the None, the composed function does not. */
  lemma FmapNoneBreaksComposition()
    ensures var f := (v: Value) => Ok(NoneVal);
      var g := (v: Value) => Ok(Int(1));
      Fmap(Kind(Int(5)), f) == Ok(Kind(NoneVal)) &&
      Fmap(Kind(NoneVal), g) == Ok(Kind(NoneVal)) &&
      Fmap(Kind(Int(5)), (v: Value) => match f(v) case Ok(w) => g(w) case Raised(e) => Raised(e))
        == Ok(Kind(Int(1)))
  {
  }

  /** `Kind(0) | 100 | None | True > 1` and `Kind(0) | 100 | Kind(None) |
      Kind(True) > 1` are 100. `Kind(0) | None | '' | 0 > 1` is 0, the last
      operand, not '': all four operands are falsy. */
  lemma FallbackExamples()
    ensures Extract(Chain(Make(AValue(Int(0))), [AValue(Int(100)), AValue(NoneVal), AValue(Bool(true))]), Int(1)) == Int(100)
    ensures Extract(Chain(Make(AValue(Int(0))), [AValue(Int(100)), AKind(Kind(NoneVal)), AKind(Kind(Bool(true)))]), Int(1)) == Int(100)
    ensures Extract(Chain(Make(AValue(Int(0))), [AValue(NoneVal), AValue(Str("")), AValue(Int(0))]), Int(1)) == Int(0)
    ensures Extract(Chain(Make(AValue(Int(0))), [AValue(NoneVal), AValue(Str("")), AValue(Int(0))]), Int(1)) != Str("")
  {
  }

  /** `Kind(None).fmap(lambda x: x + 1) > 1` is None and
      `Kind(5).fmap(lambda x: x + 1) > 1` is 6; 0 is falsy but not None,
      so `Kind(0).fmap(lambda x: x + 1) > 1` is 1. */
  lemma FmapExamples()
    ensures var inc := (v: Value) => Binary(Add, v, Int(1));
      Fmap(Kind(NoneVal), inc) == Ok(Kind(NoneVal)) &&
      Fmap(Kind(Int(5)), inc) == Ok(Kind(Int(6))) &&
      Fmap(Kind(Int(0)), inc) == Ok(Kind(Int(1)))
  {
  }
}
