/** Whole forms run through the driver's pipeline (expand, analyse, evaluate in
    the global frame) from the state `main` starts in. */
module Scenarios {
  import opened Common
  import opened Values
  import opened Environment
  import opened Builtins
  import opened Analyzer
  import opened Semantics

  /** A proper list with placeholder pair identities, as the reader builds one. */
  function L(xs: seq<Value>): Value
  {
    ListFrom(xs, 100)
  }

  /** `(+ 1 2)` compiles to an application of the variable `+`. */
  lemma AnalyzeAdd()
    ensures Analyze(L([Sym("+"), Int(1), Int(2)])) == Ok(App(Var("+"), [Const(Int(1)), Const(Int(2))]))
  {
    var tail := L([Int(2)]);
    assert tail == Pair(100, Int(2), Nil);
    assert AnalyzeList(Nil) == Ok([]);
    assert [Const(Int(2))] + [] == [Const(Int(2))];
    assert AnalyzeList(tail) == Ok([Const(Int(2))]);
    var args := L([Int(1), Int(2)]);
    assert args == Pair(101, Int(1), tail);
    assert [Const(Int(1))] + [Const(Int(2))] == [Const(Int(1)), Const(Int(2))];
    assert AnalyzeList(args) == Ok([Const(Int(1)), Const(Int(2))]);
    assert L([Sym("+"), Int(1), Int(2)]) == Pair(102, Sym("+"), args);
  }

  /** Run in the global frame, it calls the builtin `+` and gives 3. */
  lemma EvalAdd()
    ensures var r := Eval(App(Var("+"), [Const(Int(1)), Const(Int(2))]), Global, Initial(), 1);
      r.res == Ok(Int(3)) && r.st == Initial()
  {
    var st := Initial();
    assert Lookup(st.frames, Global, "+") == Some(Builtin(Plus));
    assert Eval(Var("+"), Global, st, 1) == Outcome(Ok(Builtin(Plus)), st);
    var es := [Const(Int(1)), Const(Int(2))];
    assert es[1..] == [Const(Int(2))];
    assert es[1..][1..] == [];
    assert EvalArgs([], Global, st, 1) == Outcomes(Ok([]), st);
    assert [Int(2)] + [] == [Int(2)];
    assert EvalArgs(es[1..], Global, st, 1) == Outcomes(Ok([Int(2)]), st);
    assert [Int(1)] + [Int(2)] == [Int(1), Int(2)];
    assert EvalArgs(es, Global, st, 1) == Outcomes(Ok([Int(1), Int(2)]), st);
    assert Sum([Int(1)]) == Ok(1) by { assert [Int(1)][..0] == []; }
    assert Sum([Int(1), Int(2)]) == Ok(3) by { assert [Int(1), Int(2)][..1] == [Int(1)]; }
  }

  /** `((lambda (x) x) 7)`: the closure is allocated, called in a new frame whose
      parent is the global frame, and returns its argument. */
  lemma EvalIdentityCall()
    ensures var r := Eval(App(Lambda(["x"], None, [Var("x")]), [Const(Int(7))]), Global, Initial(), 1);
      r.res == Ok(Int(7)) && r.st.next == 3 && r.st.frames[2] == map["x" := Int(7)]
  {
    var st := Initial();
    var p := Proc(1, Global, ["x"], None, [Var("x")]);
    var st1 := st.(next := 2);
    assert Eval(Lambda(["x"], None, [Var("x")]), Global, st, 1) == Outcome(Ok(Closure(p)), st1);
    var es := [Const(Int(7))];
    assert es[1..] == [];
    assert EvalArgs([], Global, st1, 1) == Outcomes(Ok([]), st1);
    assert [Int(7)] + [] == [Int(7)];
    assert EvalArgs(es, Global, st1, 1) == Outcomes(Ok([Int(7)]), st1);
    var table := CallFrame(["x"], None, [Int(7)], 3);
    assert ["x"][..0] == [];
    assert table == map["x" := Int(7)];
    var env := Frame(2, Some(Global));
    var st2 := st1.(frames := st1.frames[2 := table], next := 3);
    assert CallEnv(p, [Int(7)], st1) == (env, st2);
    assert Lookup(st2.frames, env, "x") == Some(Int(7));
    assert EvalBody([Var("x")], env, st2, 0, Err) == Outcome(Ok(Int(7)), st2) by {
      assert [Var("x")][1..] == [];
    }
  }

  /** `((lambda (x y) (+ x y)) 1)`: the short call binds `y` to `()`, which `+`
      counts as 0, so the call gives 1. */
  lemma EvalShortCallAdds()
    ensures Eval(App(Lambda(["x", "y"], None, [App(Var("+"), [Var("x"), Var("y")])]), [Const(Int(1))]),
                 Global, Initial(), 2).res == Ok(Int(1))
  {
    var st := Initial();
    var body := [App(Var("+"), [Var("x"), Var("y")])];
    var p := Proc(1, Global, ["x", "y"], None, body);
    var st1 := st.(next := 2);
    assert Eval(Lambda(["x", "y"], None, body), Global, st, 2) == Outcome(Ok(Closure(p)), st1);
    var es := [Const(Int(1))];
    assert es[1..] == [];
    assert EvalArgs([], Global, st1, 2) == Outcomes(Ok([]), st1);
    assert [Int(1)] + [] == [Int(1)];
    assert EvalArgs(es, Global, st1, 2) == Outcomes(Ok([Int(1)]), st1);
    var table := CallFrame(["x", "y"], None, [Int(1)], 3);
    assert ["x", "y"][..1] == ["x"] && ["x"][..0] == [];
    assert table == map["x" := Int(1), "y" := Nil];
    var env := Frame(2, Some(Global));
    var st2 := st1.(frames := st1.frames[2 := table], next := 3);
    assert CallEnv(p, [Int(1)], st1) == (env, st2);
    assert st2.frames == map[0 := GlobalTable(), 2 := map["x" := Int(1), "y" := Nil]];
    ShortCallBody(st2);
    assert ApplyClosure(p, [Int(1)], st1, 1) == EvalBody(body, env, st2, 1, Err);
    assert CallFunc(Closure(p), [Int(1)], st1, 2) == ApplyClosure(p, [Int(1)], st1, 1);
  }

  /** The body `(+ x y)` in the frame of that call, where `x` is 1 and `y` is `()`. */
  lemma ShortCallBody(st2: State)
    requires st2.frames == map[0 := GlobalTable(), 2 := map["x" := Int(1), "y" := Nil]]
    ensures EvalBody([App(Var("+"), [Var("x"), Var("y")])], Frame(2, Some(Global)), st2, 1, Err).res == Ok(Int(1))
  {
    var env := Frame(2, Some(Global));
    var body := [App(Var("+"), [Var("x"), Var("y")])];
    ShortCallOperator(st2);
    ShortCallArgs(st2);
    AddNil(1);
    assert RunBuiltin(Plus, [Int(1), Nil], st2, 0) == Outcome(Ok(Int(1)), st2);
    assert CallFunc(Builtin(Plus), [Int(1), Nil], st2, 1) == Outcome(Ok(Int(1)), st2);
    assert Eval(body[0], env, st2, 1) == Outcome(Ok(Int(1)), st2);
    assert body[1..] == [];
  }

  /** `+` is not bound in the call's frame and is found in the global one. */
  lemma ShortCallOperator(st2: State)
    requires st2.frames == map[0 := GlobalTable(), 2 := map["x" := Int(1), "y" := Nil]]
    ensures Eval(Var("+"), Frame(2, Some(Global)), st2, 1) == Outcome(Ok(Builtin(Plus)), st2)
  {
    assert "+" !in Bindings(st2.frames, 2);
    assert "+" in GlobalTable() && GlobalTable()["+"] == Builtin(Plus);
    assert FindFrame(st2.frames, Frame(2, Some(Global)), "+") == Some(Global);
  }

  /** The operands `x` and `y` of that body evaluate to 1 and `()`. */
  lemma ShortCallArgs(st2: State)
    requires st2.frames == map[0 := GlobalTable(), 2 := map["x" := Int(1), "y" := Nil]]
    ensures EvalArgs([Var("x"), Var("y")], Frame(2, Some(Global)), st2, 1) == Outcomes(Ok([Int(1), Nil]), st2)
  {
    var env := Frame(2, Some(Global));
    assert Eval(Var("x"), env, st2, 1) == Outcome(Ok(Int(1)), st2);
    assert Eval(Var("y"), env, st2, 1) == Outcome(Ok(Nil), st2);
    var xs := [Var("x"), Var("y")];
    assert xs[1..] == [Var("y")] && xs[1..][1..] == [];
    assert EvalArgs([], env, st2, 1) == Outcomes(Ok([]), st2);
    assert [Nil] + [] == [Nil];
    assert EvalArgs(xs[1..], env, st2, 1) == Outcomes(Ok([Nil]), st2);
    assert [Int(1)] + [Nil] == [Int(1), Nil];
  }
}
