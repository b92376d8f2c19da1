/** curry: a callable together with the positional and keyword arguments
    accumulated so far. Each call merges the new arguments into the
    accumulated ones and calls the target; a TypeError from that call is
    turned into a new curry holding the merged arguments. */
module Currying {
  import opened Values

  /** A Python function called as `f(*args, **kwargs)`. */
  type Target = (seq<Value>, map<string, Value>) -> Result<Value>

  datatype Curry = Curry(f: Target, args: seq<Value>, kwargs: map<string, Value>)

  /** What calling a curry produces: the target's raw result, a new curry
      waiting for more arguments, or an exception that is not a TypeError. */
  datatype Outcome = Returned(v: Value) | Partial(next: Curry) | Propagated(exc: Exc)

  /** `curry(f, *args, **kwargs)`. */
  function Make(f: Target, args: seq<Value>, kwargs: map<string, Value>): Curry
  {
    Curry(f, args, kwargs)
  }

  /** A copy of `held` updated with `given`: given keys win, no key is lost. */
  function MergeKwargs(held: map<string, Value>, given: map<string, Value>): (m: map<string, Value>)
    ensures m.Keys == held.Keys + given.Keys
    ensures forall k :: k in given ==> m[k] == given[k]
    ensures forall k :: k in held && k !in given ==> m[k] == held[k]
  {
    held + given
  }

  /** `c(*args, **kwargs)`. */
  function Call(c: Curry, args: seq<Value>, kwargs: map<string, Value>): (r: Outcome)
    ensures c.f(c.args + args, MergeKwargs(c.kwargs, kwargs)).Ok? <==> r.Returned?
    ensures r.Returned? ==> Ok(r.v) == c.f(c.args + args, MergeKwargs(c.kwargs, kwargs))
    ensures c.f(c.args + args, MergeKwargs(c.kwargs, kwargs)) == Raised(TypeError) <==> r.Partial?
    ensures r.Partial? ==>
      r.next.f == c.f &&
      r.next.args == c.args + args &&
      r.next.kwargs.Keys == c.kwargs.Keys + kwargs.Keys &&
      (forall k :: k in kwargs ==> r.next.kwargs[k] == kwargs[k]) &&
      (forall k :: k in c.kwargs && k !in kwargs ==> r.next.kwargs[k] == c.kwargs[k])
    ensures r.Propagated? ==>
      (r.exc != TypeError && c.f(c.args + args, MergeKwargs(c.kwargs, kwargs)) == Raised(r.exc))
  {
    var argsN := c.args + args;
    var kwargsN := MergeKwargs(c.kwargs, kwargs);
    match c.f(argsN, kwargsN)
    case Ok(v) => Returned(v)
    case Raised(TypeError) => Partial(Curry(c.f, argsN, kwargsN))
    case Raised(e) => Propagated(e)
  }

  /** A call that ends in a new curry, followed by a second call, is the
      same as one call with both argument lists: so `curry(f, a)(b)`,
      `curry(f)(a)(b)` and `f(a, b)` agree whenever `f(a)` alone is a
      TypeError. The receiver itself is left as it was. */
  lemma PartialThenCall(c: Curry, a1: seq<Value>, k1: map<string, Value>,
                        a2: seq<Value>, k2: map<string, Value>)
    requires Call(c, a1, k1).Partial?
    ensures Call(Call(c, a1, k1).next, a2, k2) == Call(c, a1 + a2, MergeKwargs(k1, k2))
  {
    var next := Call(c, a1, k1).next;
    assert next.args + a2 == c.args + (a1 + a2);
    assert MergeKwargs(next.kwargs, k2) == MergeKwargs(c.kwargs, MergeKwargs(k1, k2));
  }

  /** Accumulated arguments only grow along a chain of partial calls. */
  lemma {:induction false} ChainAccumulates(c: Curry, calls: seq<(seq<Value>, map<string, Value>)>)
    ensures var r := Chain(c, calls);
      r.Partial? ==> r.next.f == c.f && c.args <= r.next.args && c.kwargs.Keys <= r.next.kwargs.Keys
    decreases |calls|
  {
    if |calls| > 0 {
      var r := Call(c, calls[0].0, calls[0].1);
      if r.Partial? {
        ChainAccumulates(r.next, calls[1..]);
        var last := Chain(r.next, calls[1..]);
        if last.Partial? {
          assert c.args <= r.next.args;
          assert r.next.args <= last.next.args;
        }
      }
    }
  }

  /** Successive calls `c(a1)(a2)...`, stopping at the first call that does
      not return a curry. */
  function Chain(c: Curry, calls: seq<(seq<Value>, map<string, Value>)>): Outcome
    decreases |calls|
  {
    if |calls| == 0 then Partial(c)
    else
      match Call(c, calls[0].0, calls[0].1)
      case Partial(next) => Chain(next, calls[1..])
      case r => r
  }

  // ---------------------------------------------------------------------
  // The target used by the package's tests

  /** `def f(arg1, arg2, arg3='defult'): return arg1+arg2+arg3`, with
      Python's binding of positional and keyword arguments to parameters:
      too many positional arguments, an unknown keyword, a parameter given
      twice or a missing required parameter is a TypeError. */
  function Concat3(args: seq<Value>, kwargs: map<string, Value>): Result<Value>
  {
    if |args| > 3 then Raised(TypeError)
    else if !(kwargs.Keys <= {"arg1", "arg2", "arg3"}) then Raised(TypeError)
    else if (|args| >= 1 && "arg1" in kwargs) || (|args| >= 2 && "arg2" in kwargs)
         || (|args| >= 3 && "arg3" in kwargs) then Raised(TypeError)
    else if (|args| < 1 && "arg1" !in kwargs) || (|args| < 2 && "arg2" !in kwargs) then Raised(TypeError)
    else
      var a1 := if |args| >= 1 then args[0] else kwargs["arg1"];
      var a2 := if |args| >= 2 then args[1] else kwargs["arg2"];
      var a3 := if |args| >= 3 then args[2] else if "arg3" in kwargs then kwargs["arg3"] else Str("defult");
      match Binary(Add, a1, a2)
      case Raised(e) => Raised(e)
      case Ok(s) => Binary(Add, s, a3)
  }

  /** The decorator form: `f('a', arg3=' other')` is still a curry, and
      calling it with `'b'` gives `'ab other'`. */
  lemma DecoratorExample()
    ensures Call(Make(Concat3, [], map[]), [Str("a")], map["arg3" := Str(" other")]).Partial?
    ensures Call(Call(Make(Concat3, [], map[]), [Str("a")], map["arg3" := Str(" other")]).next,
                 [Str("b")], map[]) == Returned(Str("ab other"))
  {
    var kw := map["arg3" := Str(" other")];
    assert MergeKwargs(map[], kw) == kw;
    assert Concat3([Str("a")], kw) == Raised(TypeError);
    var next := Curry(Concat3, [Str("a")], kw);
    assert MergeKwargs(kw, map[]) == kw;
    assert [Str("a")] + [Str("b")] == [Str("a"), Str("b")];
    assert Str("a").s + Str("b").s + Str(" other").s == "ab other";
  }

  /** The partial form: `curry(f, 'a')(arg3=' other')` is a curry and
      calling it with `'b'` gives `'ab other'`. */
  lemma PartialFormExample()
    ensures Call(Make(Concat3, [Str("a")], map[]), [], map["arg3" := Str(" other")]).Partial?
    ensures Call(Call(Make(Concat3, [Str("a")], map[]), [], map["arg3" := Str(" other")]).next,
                 [Str("b")], map[]) == Returned(Str("ab other"))
  {
    var kw := map["arg3" := Str(" other")];
    assert MergeKwargs(map[], kw) == kw;
    assert [Str("a")] + [] == [Str("a")];
    assert Concat3([Str("a")], kw) == Raised(TypeError);
    assert MergeKwargs(kw, map[]) == kw;
    assert [Str("a")] + [Str("b")] == [Str("a"), Str("b")];
    assert Str("a").s + Str("b").s + Str(" other").s == "ab other";
  }

  /** A TypeError raised inside the body, not by argument binding, is
      caught as well: `1 + 2 + 'x'` turns into a new curry instead of
      propagating. */
  lemma BodyTypeErrorBecomesPartial()
    ensures Call(Make(Concat3, [], map[]), [Int(1), Int(2), Str("x")], map[]).Partial?
  {
  }
}
