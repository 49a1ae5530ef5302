/** The builtins that `setupEnv` installs, except `apply` (which calls back into
    the evaluator and lives with it). Each takes the evaluated argument vector.
    `args[i]` past the end of the vector, `car()`/`cdr()` of a non-pair and
    `num()` of a value other than an integer or `()` are undefined behaviour in
    the source. Every `()` is a copy of the static `schemeNil`, whose `num_` the
    constructor never writes and so stays at its zero initialisation: `()`
    counts as 0. */
module Builtins {
  import opened Common
  import opened Values

  /** The names `setupEnv` binds in the global frame, and what each is bound to. */
  const GlobalNames: seq<(string, Op)> := [
    ("+", Plus), ("eq?", EqP), ("cons", Cons), ("car", Car), ("cdr", Cdr),
    ("pair?", PairP), ("null?", NullP), ("display", Display), ("newline", Newline),
    ("apply", Apply)]

  function GlobalTable(): map<string, Value>
  {
    map["+" := Builtin(Plus), "eq?" := Builtin(EqP), "cons" := Builtin(Cons), "car" := Builtin(Car),
        "cdr" := Builtin(Cdr), "pair?" := Builtin(PairP), "null?" := Builtin(NullP),
        "display" := Builtin(Display), "newline" := Builtin(Newline), "apply" := Builtin(Apply)]
  }

  /** The `num()` that `+` reads: the payload of an integer, 0 for `()`. */
  function NumOf(v: Value): int
  {
    if v.Int? then v.n else 0
  }

  /** The sum `std::accumulate` builds from 0, left to right. */
  function Sum(args: seq<Value>): (r: Result<int>)
    ensures r.Ok? <==> forall k :: 0 <= k < |args| ==> args[k].Int? || args[k].Nil?
  {
    if args == [] then Ok(0)
    else
      match Sum(args[..|args| - 1])
      case Abort(f) => Abort(f)
      case Ok(s) =>
        var last := args[|args| - 1];
        if last.Int? then Ok(s + last.n) else if last.Nil? then Ok(s) else Abort(UndefinedBehaviour)
  }

  /** `+`. */
  function Add(args: seq<Value>): Result<Value>
  {
    match Sum(args)
    case Ok(s) => Ok(Int(s))
    case Abort(f) => Abort(f)
  }

  /** `+` over a concatenation of argument vectors is the sum of `+` over each part. */
  lemma {:induction false} SumAppend(xs: seq<Value>, ys: seq<Value>)
    requires Sum(xs).Ok? && Sum(ys).Ok?
    ensures Sum(xs + ys) == Ok(Sum(xs).value + Sum(ys).value)
    decreases |ys|
  {
    if ys == [] {
      assert xs + ys == xs;
    } else {
      var init, last := ys[..|ys| - 1], ys[|ys| - 1];
      assert Sum(init).Ok? && (last.Int? || last.Nil?) && Sum(ys).value == Sum(init).value + NumOf(last);
      SumAppend(xs, init);
      var all := xs + ys;
      assert all[..|all| - 1] == xs + init;
      assert all[|all| - 1] == last;
    }
  }

  /** `()` adds nothing: `(+ n '())` is `n`, and so is `+` applied to `n` and a
      parameter that a short call left bound to `()`. */
  lemma AddNil(n: int)
    ensures Add([Int(n), Nil]) == Ok(Int(n))
    ensures Add([Nil, Int(n)]) == Ok(Int(n))
  {
    assert [Int(n)][..0] == [] && [Nil][..0] == [];
    assert Sum([Int(n)]) == Ok(n) && Sum([Nil]) == Ok(0);
    assert [Int(n), Nil][..1] == [Int(n)];
    assert [Nil, Int(n)][..1] == [Nil];
  }

  /** `eq?` as written: `all_of((args.begin())++, …)` starts at `args[0]`
      itself (a post-increment), and is true on an empty vector. */
  function Same(args: seq<Value>): Value
  {
    Bool(forall k :: 0 <= k < |args| ==> Eq(args[0], args[k]))
  }

  /** Including `args[0]` in the comparison changes nothing: `eq?` says whether
      every further argument is `eq` to the first. */
  lemma SameComparesTail(args: seq<Value>)
    ensures Same(args) == Bool(forall k :: 1 <= k < |args| ==> Eq(args[0], args[k]))
  {
    if args != [] {
      EqIsEquivalence(args[0], args[0], args[0]);
    }
  }

  /** `cons`: a fresh pair of the first two arguments. */
  function MakePair(args: seq<Value>, id: nat): Result<Value>
  {
    if |args| < 2 then Abort(UndefinedBehaviour) else Ok(Pair(id, args[0], args[1]))
  }

  function First(args: seq<Value>): Result<Value>
  {
    if |args| < 1 || !args[0].Pair? then Abort(UndefinedBehaviour) else Ok(args[0].car)
  }

  function Rest(args: seq<Value>): Result<Value>
  {
    if |args| < 1 || !args[0].Pair? then Abort(UndefinedBehaviour) else Ok(args[0].cdr)
  }

  function IsPair(args: seq<Value>): Result<Value>
  {
    if |args| < 1 then Abort(UndefinedBehaviour) else Ok(Bool(args[0].Pair?))
  }

  function IsNull(args: seq<Value>): Result<Value>
  {
    if |args| < 1 then Abort(UndefinedBehaviour) else Ok(Bool(args[0].Nil?))
  }

  /** `car` and `cdr` give back what `cons` put together, and the pair is a pair. */
  lemma CarCdrCons(a: Value, b: Value, more: seq<Value>, id: nat)
    ensures MakePair([a, b] + more, id).Ok?
    ensures First([MakePair([a, b] + more, id).value]) == Ok(a)
    ensures Rest([MakePair([a, b] + more, id).value]) == Ok(b)
    ensures IsPair([MakePair([a, b] + more, id).value]) == Ok(Bool(true))
    ensures IsNull([MakePair([a, b] + more, id).value]) == Ok(Bool(false))
  {
  }
}
