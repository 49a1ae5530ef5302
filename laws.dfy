/** Properties of evaluation, closure calls and macro expansion. */
module Laws {
  import opened Common
  import opened Values
  import opened Environment
  import opened Builtins
  import opened Analyzer
  import opened Semantics
  import opened Identities

  // ---------------------------------------------------------------- variables

  /** A symbol evaluates to its binding in the innermost frame of the chain that
      binds it, and to ERR when no frame does; the state is unchanged. */
  lemma VarIsNearestBinding(x: string, env: Frame, st: State, fuel: nat)
    ensures Eval(Var(x), env, st, fuel).st == st
    ensures (forall k :: 0 <= k < |Chain(env)| ==> x !in Bindings(st.frames, Chain(env)[k].id))
      ==> Eval(Var(x), env, st, fuel).res == Ok(Err)
    ensures forall k ::
      (0 <= k < |Chain(env)| && x in Bindings(st.frames, Chain(env)[k].id)
       && (forall j :: 0 <= j < k ==> x !in Bindings(st.frames, Chain(env)[j].id)))
      ==> Eval(Var(x), env, st, fuel).res == Ok(Bindings(st.frames, Chain(env)[k].id)[x])
  {
    FindFrameNearest(st.frames, env, x);
    forall k | 0 <= k < |Chain(env)| && x in Bindings(st.frames, Chain(env)[k].id)
      && (forall j :: 0 <= j < k ==> x !in Bindings(st.frames, Chain(env)[j].id))
      ensures Eval(Var(x), env, st, fuel).res == Ok(Bindings(st.frames, Chain(env)[k].id)[x])
    {
      var g := FindFrame(st.frames, env, x);
      assert !forall j :: 0 <= j < |Chain(env)| ==> x !in Bindings(st.frames, Chain(env)[j].id) by {
        assert x in Bindings(st.frames, Chain(env)[k].id);
      }
      var i :| 0 <= i < |Chain(env)| && Chain(env)[i] == g.value
        && forall j :: 0 <= j < i ==> x !in Bindings(st.frames, Chain(env)[j].id);
      assert i == k;
    }
  }

  // ------------------------------------------------------------------- define

  /** `define` evaluates the value in the current frame, then binds the name in
      that frame only, and returns `()`; nothing else of the state changes. */
  lemma DefineBindsInCurrentFrame(x: string, e: Expr, env: Frame, st: State, fuel: nat)
    requires Eval(e, env, st, fuel).res.Ok?
    ensures var inner := Eval(e, env, st, fuel);
      var r := Eval(Define(x, e), env, st, fuel);
      && r.res == Ok(Nil)
      && Lookup(r.st.frames, env, x) == Some(inner.res.value)
      && (forall id :: id != env.id ==> Bindings(r.st.frames, id) == Bindings(inner.st.frames, id))
      && Bindings(r.st.frames, env.id).Keys == Bindings(inner.st.frames, env.id).Keys + {x}
      && r.st.macros == inner.st.macros && r.st.next == inner.st.next
  {
    var inner := Eval(e, env, st, fuel);
    DefineOnlyCurrentFrame(inner.st.frames, env, x, inner.res.value);
  }

  // ------------------------------------------------------------ closure calls

  /** Updating the table of a frame that is not on a chain does not change what
      the chain finds. */
  lemma {:induction false} FindFrameOffChain(store: Store, f: Frame, x: string, id: nat, t: map<string, Value>)
    requires forall k :: 0 <= k < |Chain(f)| ==> Chain(f)[k].id != id
    ensures FindFrame(store[id := t], f, x) == FindFrame(store, f, x)
    ensures Lookup(store[id := t], f, x) == Lookup(store, f, x)
  {
    assert Chain(f)[0] == f;
    match f.next
    case None =>
    case Some(p) =>
      assert forall k :: 0 <= k < |Chain(p)| ==> Chain(p)[k] == Chain(f)[k + 1];
      FindFrameOffChain(store, p, x, id, t);
  }

  /** Scoping is lexical: the body of a closure runs in a new frame whose parent
      is the frame the closure captured (the caller's frame plays no part); the
      parameters are bound there, positionally or to `()`, the rest parameter to
      the surplus as a list; every other name is looked up in the captured frame. */
  lemma CallIsLexical(p: Proc, args: seq<Value>, st: State, x: string)
    requires Distinct(p.params) && (p.rest.Some? ==> p.rest.value !in p.params)
    requires FrameBelow(p.env, st.next)
    ensures var (env, st') := CallEnv(p, args, st);
      && env.next == Some(p.env)
      && (Fresh(st) ==> env.id !in st.frames)
      && (forall k :: 0 <= k < |p.params| ==> Lookup(st'.frames, env, p.params[k]) == Some(ArgAt(args, k)))
      && (p.rest.Some? ==>
            Lookup(st'.frames, env, p.rest.value).Some?
            && ListToSeq(Lookup(st'.frames, env, p.rest.value).value)
               == Some(if |p.params| < |args| then args[|p.params|..] else []))
      && (x !in p.params && p.rest != Some(x) ==> Lookup(st'.frames, env, x) == Lookup(st.frames, p.env, x))
  {
    var (env, st') := CallEnv(p, args, st);
    FrameBelowChain(p.env, st.next);
    CallFrameBinds(p.params, p.rest, args, st.next + 1);
    forall k | 0 <= k < |p.params| ensures p.params[k] in Bindings(st'.frames, env.id) {
    }
    if x !in p.params && p.rest != Some(x) {
      assert x !in Bindings(st'.frames, env.id);
      FindFrameOffChain(st.frames, p.env, x, st.next, CallFrame(p.params, p.rest, args, st.next + 1));
    }
  }

  /** A call with surplus arguments and no rest parameter ignores the surplus. */
  lemma SurplusDropped(p: Proc, args: seq<Value>, more: seq<Value>, st: State, fuel: nat)
    requires p.rest.None? && |args| >= |p.params|
    ensures ApplyClosure(p, args + more, st, fuel) == ApplyClosure(p, args, st, fuel)
  {
    assert CallFrame(p.params, p.rest, args + more, st.next + 1) == CallFrame(p.params, p.rest, args, st.next + 1) by {
      BindFixedPrefix(p.params, args, more);
    }
  }

  lemma {:induction false} BindFixedPrefix(params: seq<string>, args: seq<Value>, more: seq<Value>)
    requires |args| >= |params|
    ensures BindFixed(params, args + more) == BindFixed(params, args)
  {
    if params != [] {
      BindFixedPrefix(params[..|params| - 1], args, more);
      assert (args + more)[|params| - 1] == args[|params| - 1];
    }
  }

  /** `callFunc` on something that is neither a builtin nor a closure fails the
      source's `assert`, whatever the arguments. */
  lemma CallNonProcedure(f: Value, args: seq<Value>, st: State, fuel: nat)
    requires fuel > 0 && !f.Builtin? && !f.Closure?
    ensures CallFunc(f, args, st, fuel) == Outcome(Abort(AssertionFailure), st)
  {
  }

  // ------------------------------------------------------- and, or and bodies

  /** `and` over already computed values, as Scheme defines it here: ERR when
      there are none, `#f` at the first false one, else the last. */
  function AndOf(vs: seq<Value>, last: Value): Value
  {
    if vs == [] then last
    else if !ToBool(vs[0]) then Bool(false)
    else AndOf(vs[1..], vs[0])
  }

  /** `or` over already computed values: the first true one, else `#f`. */
  function OrOf(vs: seq<Value>): Value
  {
    if vs == [] then Bool(false)
    else if ToBool(vs[0]) then vs[0]
    else OrOf(vs[1..])
  }

  function Consts(vs: seq<Value>): (es: seq<Expr>)
    ensures |es| == |vs| && forall k :: 0 <= k < |vs| ==> es[k] == Const(vs[k])
  {
    if vs == [] then [] else [Const(vs[0])] + Consts(vs[1..])
  }

  lemma {:induction false} AndOfConsts(vs: seq<Value>, env: Frame, st: State, fuel: nat, last: Value)
    ensures EvalAnd(Consts(vs), env, st, fuel, last) == Outcome(Ok(AndOf(vs, last)), st)
  {
    if vs != [] {
      assert Consts(vs)[1..] == Consts(vs[1..]);
      AndOfConsts(vs[1..], env, st, fuel, vs[0]);
    }
  }

  lemma {:induction false} OrOfConsts(vs: seq<Value>, env: Frame, st: State, fuel: nat)
    ensures EvalOr(Consts(vs), env, st, fuel) == Outcome(Ok(OrOf(vs)), st)
  {
    if vs != [] {
      assert Consts(vs)[1..] == Consts(vs[1..]);
      OrOfConsts(vs[1..], env, st, fuel);
    }
  }

  /** On constant operands `and` and `or` compute `AndOf` and `OrOf`; in
      particular an empty `and` is ERR and an empty `or` is `#f`. */
  lemma AndOrOnValues(vs: seq<Value>, env: Frame, st: State, fuel: nat)
    ensures Eval(And(Consts(vs)), env, st, fuel) == Outcome(Ok(AndOf(vs, Err)), st)
    ensures Eval(Or(Consts(vs)), env, st, fuel) == Outcome(Ok(OrOf(vs)), st)
    ensures AndOf([], Err) == Err && OrOf([]) == Bool(false)
  {
    AndOfConsts(vs, env, st, fuel, Err);
    OrOfConsts(vs, env, st, fuel);
  }

  /** `and` stops at the first false operand: what follows is not evaluated. */
  lemma AndShortCircuits(e: Expr, rest: seq<Expr>, env: Frame, st: State, fuel: nat, last: Value)
    requires Eval(e, env, st, fuel).res == Ok(Bool(false))
    ensures EvalAnd([e] + rest, env, st, fuel, last) == Outcome(Ok(Bool(false)), Eval(e, env, st, fuel).st)
  {
    assert ([e] + rest)[0] == e;
  }

  /** `or` stops at the first true operand and returns it: what follows is not evaluated. */
  lemma OrShortCircuits(e: Expr, rest: seq<Expr>, env: Frame, st: State, fuel: nat)
    requires Eval(e, env, st, fuel).res.Ok? && ToBool(Eval(e, env, st, fuel).res.value)
    ensures EvalOr([e] + rest, env, st, fuel) == Eval(e, env, st, fuel)
  {
    assert ([e] + rest)[0] == e;
  }

  /** On any operands that all evaluate without failing, `and` has the value
      `AndOf` gives for their values in order. */
  lemma {:induction false} AndOnEvaluated(es: seq<Expr>, env: Frame, st: State, fuel: nat, last: Value)
    requires EvalArgs(es, env, st, fuel).res.Ok?
    ensures EvalAnd(es, env, st, fuel, last).res == Ok(AndOf(EvalArgs(es, env, st, fuel).res.value, last))
    decreases |es|
  {
    if es != [] {
      var r := Eval(es[0], env, st, fuel);
      var vs := EvalArgs(es, env, st, fuel).res.value;
      assert vs == [r.res.value] + EvalArgs(es[1..], env, r.st, fuel).res.value;
      if ToBool(r.res.value) {
        AndOnEvaluated(es[1..], env, r.st, fuel, r.res.value);
        assert vs[1..] == EvalArgs(es[1..], env, r.st, fuel).res.value;
      }
    }
  }

  /** On any operands that all evaluate without failing, `or` has the value
      `OrOf` gives for their values in order. */
  lemma {:induction false} OrOnEvaluated(es: seq<Expr>, env: Frame, st: State, fuel: nat)
    requires EvalArgs(es, env, st, fuel).res.Ok?
    ensures EvalOr(es, env, st, fuel).res == Ok(OrOf(EvalArgs(es, env, st, fuel).res.value))
    decreases |es|
  {
    if es != [] {
      var r := Eval(es[0], env, st, fuel);
      var vs := EvalArgs(es, env, st, fuel).res.value;
      assert vs == [r.res.value] + EvalArgs(es[1..], env, r.st, fuel).res.value;
      if !ToBool(r.res.value) {
        OrOnEvaluated(es[1..], env, r.st, fuel);
        assert vs[1..] == EvalArgs(es[1..], env, r.st, fuel).res.value;
      }
    }
  }

  /** A body evaluates every form in turn, exactly as the arguments of a call
      are evaluated, and returns the value of the last one (`last`, ERR for a
      closure, when there is none); the first failure is the body's. */
  lemma {:induction false} BodyIsLastOfArgs(es: seq<Expr>, env: Frame, st: State, fuel: nat, last: Value)
    ensures var a := EvalArgs(es, env, st, fuel);
      EvalBody(es, env, st, fuel, last)
        == if a.res.Abort? then Outcome(Abort(a.res.fault), a.st)
           else Outcome(Ok(if es == [] then last else a.res.value[|es| - 1]), a.st)
    decreases |es|
  {
    if es != [] {
      var r := Eval(es[0], env, st, fuel);
      if r.res.Ok? {
        BodyIsLastOfArgs(es[1..], env, r.st, fuel, r.res.value);
        var rs := EvalArgs(es[1..], env, r.st, fuel);
        if rs.res.Ok? && |es| > 1 {
          assert ([r.res.value] + rs.res.value)[|es| - 1] == rs.res.value[|es| - 2];
        }
      }
    }
  }

  /** A body of constants returns the last of them, and an empty body returns `last`. */
  lemma {:induction false} BodyReturnsLast(es: seq<Expr>, env: Frame, st: State, fuel: nat, last: Value)
    requires forall k :: 0 <= k < |es| ==> es[k].Const?
    ensures EvalBody(es, env, st, fuel, last) == Outcome(Ok(if es == [] then last else es[|es| - 1].v), st)
  {
    if es != [] {
      BodyReturnsLast(es[1..], env, st, fuel, es[0].v);
      if |es| > 1 {
        assert es[1..][|es[1..]| - 1] == es[|es| - 1];
      }
    }
  }

  // ------------------------------------------------------------------ macroify

  /** `macroify` registers the named binding as a macro only when it is a closure
      (returning `#t`); otherwise it returns ERR and changes nothing. Frames and
      the identity counter never change. */
  lemma MacroifyRegistersClosures(x: string, env: Frame, st: State, fuel: nat)
    ensures var r := Eval(Macroify(x), env, st, fuel);
      && r.st.frames == st.frames && r.st.next == st.next
      && (if Lookup(st.frames, env, x).Some? && Lookup(st.frames, env, x).value.Closure?
          then r.res == Ok(Bool(true)) && r.st.macros == st.macros[x := Lookup(st.frames, env, x).value.proc]
          else r.res == Ok(Err) && r.st == st)
  {
  }

  // ----------------------------------------------------------- macro expansion

  /** Somewhere outside `(quote …)` there is a pair headed by a macro name. Both
      the car and the cdr are searched, so a cdr suffix `(m …)` of a list counts. */
  predicate HasMacroCall(v: Value, macros: map<string, Proc>)
  {
    v.Pair? && v.car != Sym("quote") &&
    ((v.car.Sym? && v.car.name in macros) || HasMacroCall(v.car, macros) || HasMacroCall(v.cdr, macros))
  }

  lemma {:induction false} SimilarMacroCalls(a: Value, b: Value, macros: map<string, Proc>)
    requires Similar(a, b)
    ensures HasMacroCall(a, macros) == HasMacroCall(b, macros)
  {
    if a.Pair? && b.Pair? {
      SimilarMacroCalls(a.car, b.car, macros);
      SimilarMacroCalls(a.cdr, b.cdr, macros);
    }
  }

  /** A pass substitutes exactly when there is a macro call. Without one, it
      returns a tree equal to its input up to fresh pair identities and changes
      neither frames nor macros; with one, it reports a substitution unless it
      fails. */
  lemma {:induction false} PassFindsMacroCalls(v: Value, st: State, fuel: nat)
    ensures var p := ExpandPass(v, st, fuel);
      !HasMacroCall(v, st.macros) ==>
        p.res.Ok? && !p.did && Similar(p.res.value, v) && p.st.frames == st.frames && p.st.macros == st.macros
    ensures var p := ExpandPass(v, st, fuel);
      HasMacroCall(v, st.macros) ==> p.did || p.res.Abort?
    decreases VSize(v)
  {
    if v.Pair? && v.car != Sym("quote") && !(v.car.Sym? && v.car.name in st.macros) {
      PassFindsMacroCalls(v.car, st, fuel);
      var a := ExpandPass(v.car, st, fuel);
      if a.res.Ok? {
        if !HasMacroCall(v.car, st.macros) {
          PassFindsMacroCalls(v.cdr, a.st, fuel);
        }
        else {
          var b := ExpandPass(v.cdr, a.st, fuel);
        }
      }
    } else if v.Pair? && v.car == Sym("quote") {
      SimilarIsEquivalence(v, v, v);
    } else if !v.Pair? {
      SimilarIsEquivalence(v, v, v);
    }
  }

  /** `expandMacros` returns only after a pass that found nothing to substitute,
      so what it returns contains no macro call for the table it ends with. */
  lemma {:induction false} ExpandReachesFixedPoint(v: Value, st: State, fuel: nat)
    requires Expand(v, st, fuel).res.Ok?
    ensures !HasMacroCall(Expand(v, st, fuel).res.value, Expand(v, st, fuel).st.macros)
    decreases fuel
  {
    assert fuel > 0;
    var p := ExpandPass(v, st, fuel - 1);
    assert p.res.Ok?;
    if p.did {
      ExpandReachesFixedPoint(p.res.value, p.st, fuel - 1);
    } else {
      PassFindsMacroCalls(v, st, fuel - 1);
      assert !HasMacroCall(v, st.macros);
      SimilarMacroCalls(p.res.value, v, st.macros);
    }
  }

  /** With an empty macro table, expansion (given one unit of fuel for its one
      pass) gives back the same tree up to fresh pair identities, and leaves the
      frames and the table alone. */
  lemma ExpandWithoutMacros(v: Value, st: State, fuel: nat)
    requires st.macros == map[] && fuel >= 1
    ensures var r := Expand(v, st, fuel);
      r.res.Ok? && Similar(r.res.value, v) && r.st.frames == st.frames && r.st.macros == map[]
  {
    NoMacroCallsWithoutMacros(v);
    PassFindsMacroCalls(v, st, fuel - 1);
  }

  lemma {:induction false} NoMacroCallsWithoutMacros(v: Value)
    ensures !HasMacroCall(v, map[])
  {
    if v.Pair? {
      NoMacroCallsWithoutMacros(v.car);
      NoMacroCallsWithoutMacros(v.cdr);
    }
  }

  /** A pass leaves a non-pair and a `(quote …)` node exactly as they are. */
  lemma PassLeavesQuoteAndAtoms(v: Value, st: State, fuel: nat)
    requires !v.Pair? || v.car == Sym("quote")
    ensures ExpandPass(v, st, fuel) == Expansion(Ok(v), false, st)
  {
  }

  /** The head of a macro call is looked up in the table; the call is replaced by
      the macro's result, which is not itself expanded in the same pass. */
  lemma PassAppliesMacro(v: Value, st: State, fuel: nat)
    requires v.Pair? && v.car.Sym? && v.car.name != "quote" && v.car.name in st.macros
    requires ListToSeq(v.cdr).Some? && fuel > 0
    ensures var p := ExpandPass(v, st, fuel);
      var r := ApplyClosure(st.macros[v.car.name], ListToSeq(v.cdr).value, st, fuel - 1);
      p == Expansion(r.res, true, r.st)
  {
  }

  // ------------------------------------------------------------ the builtins

  /** `apply` calls its first argument on the middle arguments followed by the
      elements of the last one, which must be a non-empty proper list. */
  lemma ApplySpreadsLastArgument(f: Value, xs: seq<Value>, lst: Value, st: State, fuel: nat)
    requires lst.Pair? && ListToSeq(lst).Some?
    ensures RunBuiltin(Apply, [f] + xs + [lst], st, fuel) == CallFunc(f, xs + ListToSeq(lst).value, st, fuel)
  {
    var args := [f] + xs + [lst];
    assert args[1..|args| - 1] == xs;
  }

  /** `(apply f '())` fails the source's `assert(lst.isCons())`: the empty list
      is not accepted as the last argument. */
  lemma ApplyRejectsEmptyList(f: Value, xs: seq<Value>, st: State, fuel: nat)
    ensures RunBuiltin(Apply, [f] + xs + [Nil], st, fuel) == Outcome(Abort(AssertionFailure), st)
  {
  }

  /** `cons` allocates a pair with a new identity. In a well-formed state it
      is `eq?` to no pair bound in any frame and to no pair older than the
      counter, which every value an evaluation returns is (`ConsAfterEval`);
      and the state stays well formed. */
  lemma ConsIsFresh(a: Value, b: Value, st: State, fuel: nat, q: Value)
    requires Wf(st) && ValueBelow(a, st.next) && ValueBelow(b, st.next) && ValueBelow(q, st.next)
    ensures var r := RunBuiltin(Cons, [a, b], st, fuel);
      && r.res == Ok(Pair(st.next, a, b)) && r.st.next == st.next + 1 && Kept(r)
      && (q.Pair? ==> Same([r.res.value, q]) == Bool(false))
      && (forall id, x :: id in st.frames && x in st.frames[id] && st.frames[id][x].Pair? ==>
            Same([r.res.value, st.frames[id][x]]) == Bool(false))
  {
    RunBuiltinKeeps(Cons, [a, b], st, fuel);
    var p := Pair(st.next, a, b);
    forall id, x | id in st.frames && x in st.frames[id] && st.frames[id][x].Pair?
      ensures Same([p, st.frames[id][x]]) == Bool(false)
    {
      var args := [p, st.frames[id][x]];
      assert !Eq(args[0], args[1]);
    }
    if q.Pair? {
      var args := [p, q];
      assert !Eq(args[0], args[1]);
    }
  }

  /** The pair an evaluation returns is never `eq?` to a pair `cons` allocates
      afterwards, whatever the expression (a quoted datum included). */
  lemma ConsAfterEval(e: Expr, env: Frame, st: State, fuel: nat, a: Value, b: Value, fuel': nat)
    requires Wf(st) && FrameBelow(env, st.next) && ExprBelow(e, st.next)
    ensures var r := Eval(e, env, st, fuel);
      r.res.Ok? && r.res.value.Pair? ==>
        Same([RunBuiltin(Cons, [a, b], r.st, fuel').res.value, r.res.value]) == Bool(false)
  {
    EvalKeeps(e, env, st, fuel);
    var r := Eval(e, env, st, fuel);
    if r.res.Ok? && r.res.value.Pair? {
      var args := [Pair(r.st.next, a, b), r.res.value];
      assert !Eq(args[0], args[1]);
    }
  }

  // ---------------------------------------------------------- the global frame

  /** The global frame binds each builtin name of `setupEnv` (and not `-`, whose
      definition is not part of this model), and the initial state is well formed. */
  lemma GlobalFrameHoldsBuiltins()
    ensures Fresh(Initial())
    ensures forall k :: 0 <= k < |GlobalNames| ==>
      Lookup(Initial().frames, Global, GlobalNames[k].0) == Some(Builtin(GlobalNames[k].1))
    ensures Lookup(Initial().frames, Global, "-") == None
  {
  }
}
