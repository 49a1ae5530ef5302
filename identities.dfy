/** Why identities are never reused. Pairs, closures and frames take their
    identities from the counter `next`; this module proves that everything the
    interpreter can reach (the tables of the store, the macro table, the values
    an evaluation returns, the data the reader builds from `next` on) has
    identities below `next`, so that the next allocation is new in the sense of
    `eq?` as well as of the store. */
module Identities {
  import opened Common
  import opened Values
  import opened Environment
  import opened Builtins
  import opened Analyzer
  import opened Semantics
  import opened Lexer
  import opened Reader

  // ------------------------------------------------------------- the invariant

  /** Every pair and closure identity in `v`, and every frame a closure in it
      captured, is below `n`. */
  predicate ValueBelow(v: Value, n: nat)
  {
    match v
    case Pair(id, a, d) => id < n && ValueBelow(a, n) && ValueBelow(d, n)
    case Closure(p) => ProcBelow(p, n)
    case _ => true
  }

  predicate ProcBelow(p: Proc, n: nat)
  {
    p.id < n && FrameBelow(p.env, n) && forall k :: 0 <= k < |p.body| ==> ExprBelow(p.body[k], n)
  }

  predicate FrameBelow(f: Frame, n: nat)
  {
    f.id < n && (f.next.Some? ==> FrameBelow(f.next.value, n))
  }

  /** The constants (quoted data, `me` forms) of a compiled expression and of the
      bodies of the lambdas in it are below `n`. */
  predicate ExprBelow(e: Expr, n: nat)
  {
    match e
    case Const(v) => ValueBelow(v, n)
    case Lambda(_, _, body) => forall k :: 0 <= k < |body| ==> ExprBelow(body[k], n)
    case Define(_, val) => ExprBelow(val, n)
    case And(es) => forall k :: 0 <= k < |es| ==> ExprBelow(es[k], n)
    case Or(es) => forall k :: 0 <= k < |es| ==> ExprBelow(es[k], n)
    case Me(form) => ValueBelow(form, n)
    case App(f, args) => ExprBelow(f, n) && forall k :: 0 <= k < |args| ==> ExprBelow(args[k], n)
    case _ => true
  }

  predicate ExprsBelow(es: seq<Expr>, n: nat)
  {
    forall k :: 0 <= k < |es| ==> ExprBelow(es[k], n)
  }

  predicate ValuesBelow(vs: seq<Value>, n: nat)
  {
    forall k :: 0 <= k < |vs| ==> ValueBelow(vs[k], n)
  }

  /** The interpreter's state invariant: every frame of the store, every value
      bound in it and every macro is older than `next`. */
  predicate Wf(st: State)
  {
    && Fresh(st)
    && (forall id, x :: id in st.frames && x in st.frames[id] ==> ValueBelow(st.frames[id][x], st.next))
    && (forall x :: x in st.macros ==> ProcBelow(st.macros[x], st.next))
  }

  /** What an evaluation step leaves: a well-formed state, and a result older
      than its `next`. */
  predicate Kept(r: Outcome)
  {
    Wf(r.st) && (r.res.Ok? ==> ValueBelow(r.res.value, r.st.next))
  }

  predicate KeptAll(r: Outcomes)
  {
    Wf(r.st) && (r.res.Ok? ==> ValuesBelow(r.res.value, r.st.next))
  }

  predicate KeptPass(r: Expansion)
  {
    Wf(r.st) && (r.res.Ok? ==> ValueBelow(r.res.value, r.st.next))
  }

  /** The frames of a chain are below `n` exactly when the chain is. */
  lemma {:induction false} FrameBelowChain(f: Frame, n: nat)
    ensures FrameBelow(f, n) <==> forall k :: 0 <= k < |Chain(f)| ==> Chain(f)[k].id < n
  {
    var c := Chain(f);
    match f.next
    case None =>
      assert c == [f];
    case Some(p) =>
      FrameBelowChain(p, n);
      assert c == [f] + Chain(p);
      if FrameBelow(f, n) {
        forall k | 0 <= k < |c| ensures c[k].id < n {
          if k > 0 {
            assert c[k] == Chain(p)[k - 1];
          }
        }
      }
      if forall k :: 0 <= k < |c| ==> c[k].id < n {
        assert c[0] == f;
        forall k | 0 <= k < |Chain(p)| ensures Chain(p)[k].id < n {
          assert c[k + 1] == Chain(p)[k];
        }
        assert FrameBelow(p, n);
      }
  }

  // ------------------------------------------------------------ monotonicity

  lemma {:induction false} ValueUp(v: Value, n: nat, m: nat)
    requires ValueBelow(v, n) && n <= m
    ensures ValueBelow(v, m)
  {
    match v
    case Pair(_, a, d) => ValueUp(a, n, m); ValueUp(d, n, m);
    case Closure(p) => ProcUp(p, n, m);
    case _ =>
  }

  lemma {:induction false} ProcUp(p: Proc, n: nat, m: nat)
    requires ProcBelow(p, n) && n <= m
    ensures ProcBelow(p, m)
  {
    FrameUp(p.env, n, m);
    forall k | 0 <= k < |p.body| ensures ExprBelow(p.body[k], m) {
      ExprUp(p.body[k], n, m);
    }
  }

  lemma {:induction false} FrameUp(f: Frame, n: nat, m: nat)
    requires FrameBelow(f, n) && n <= m
    ensures FrameBelow(f, m)
  {
    if f.next.Some? {
      FrameUp(f.next.value, n, m);
    }
  }

  lemma {:induction false} ExprUp(e: Expr, n: nat, m: nat)
    requires ExprBelow(e, n) && n <= m
    ensures ExprBelow(e, m)
  {
    match e
    case Const(v) => ValueUp(v, n, m);
    case Lambda(_, _, body) =>
      forall k | 0 <= k < |body| ensures ExprBelow(body[k], m) { ExprUp(body[k], n, m); }
    case Define(_, val) => ExprUp(val, n, m);
    case And(es) =>
      forall k | 0 <= k < |es| ensures ExprBelow(es[k], m) { ExprUp(es[k], n, m); }
    case Or(es) =>
      forall k | 0 <= k < |es| ensures ExprBelow(es[k], m) { ExprUp(es[k], n, m); }
    case Me(form) => ValueUp(form, n, m);
    case App(f, args) =>
      ExprUp(f, n, m);
      forall k | 0 <= k < |args| ensures ExprBelow(args[k], m) { ExprUp(args[k], n, m); }
    case _ =>
  }

  /** The operands after the first stay below a larger bound. */
  lemma ExprsTail(es: seq<Expr>, n: nat, m: nat)
    requires es != [] && ExprsBelow(es, n) && n <= m
    ensures ExprsBelow(es[1..], m)
  {
    forall k | 0 <= k < |es| - 1 ensures ExprBelow(es[1..][k], m) {
      ExprUp(es[k + 1], n, m);
    }
  }

  /** Advancing the counter keeps a well-formed state well formed. */
  lemma WfUp(st: State, m: nat)
    requires Wf(st) && st.next <= m
    ensures Wf(st.(next := m))
  {
    forall id, x | id in st.frames && x in st.frames[id] ensures ValueBelow(st.frames[id][x], m) {
      ValueUp(st.frames[id][x], st.next, m);
    }
    forall x | x in st.macros ensures ProcBelow(st.macros[x], m) {
      ProcUp(st.macros[x], st.next, m);
    }
  }

  // ------------------------------------------------------- frames and lists

  /** The state `main` starts from is well formed, and so is the global frame. */
  lemma InitialWf()
    ensures Wf(Initial()) && FrameBelow(Global, Initial().next)
  {
  }

  /** A name found on a chain of a well-formed store is bound to an older value. */
  lemma LookupBelow(st: State, env: Frame, x: string)
    requires Wf(st)
    ensures Lookup(st.frames, env, x).Some? ==> ValueBelow(Lookup(st.frames, env, x).value, st.next)
  {
    match FindFrame(st.frames, env, x)
    case None =>
    case Some(g) => assert g.id in st.frames;
  }

  lemma DefineWf(st: State, env: Frame, x: string, v: Value)
    requires Wf(st) && FrameBelow(env, st.next) && ValueBelow(v, st.next)
    ensures Wf(st.(frames := DefineIn(st.frames, env, x, v)))
  {
  }

  lemma {:induction false} ListFromBelow(xs: seq<Value>, next: nat, n: nat)
    requires ValuesBelow(xs, n) && next + |xs| <= n
    ensures ValueBelow(ListFrom(xs, next), n)
  {
    if xs != [] {
      ListFromBelow(xs[1..], next, n);
    }
  }

  lemma {:induction false} ListToSeqBelow(v: Value, n: nat)
    requires ValueBelow(v, n) && ListToSeq(v).Some?
    ensures ValuesBelow(ListToSeq(v).value, n)
  {
    if v.Pair? {
      ListToSeqBelow(v.cdr, n);
    }
  }

  lemma {:induction false} BindFixedBelow(params: seq<string>, args: seq<Value>, n: nat)
    requires ValuesBelow(args, n)
    ensures forall x :: x in BindFixed(params, args) ==> ValueBelow(BindFixed(params, args)[x], n)
  {
    if params != [] {
      BindFixedBelow(params[..|params| - 1], args, n);
    }
  }

  /** The frame of a call is new, and everything it binds is older than the
      counter after the call has allocated it and its rest list. */
  lemma CallEnvWf(p: Proc, args: seq<Value>, st: State)
    requires Wf(st) && ProcBelow(p, st.next) && ValuesBelow(args, st.next)
    ensures var (env, st') := CallEnv(p, args, st);
      Wf(st') && FrameBelow(env, st'.next) && ExprsBelow(p.body, st'.next)
  {
    var (env, st') := CallEnv(p, args, st);
    var m := st'.next;
    assert ValuesBelow(args, m) by {
      forall k | 0 <= k < |args| ensures ValueBelow(args[k], m) { ValueUp(args[k], st.next, m); }
    }
    BindFixedBelow(p.params, args, m);
    if p.rest.Some? && |p.params| < |args| {
      ListFromBelow(args[|p.params|..], st.next + 1, m);
    }
    var table := CallFrame(p.params, p.rest, args, st.next + 1);
    assert forall x :: x in table ==> ValueBelow(table[x], m);
    WfUp(st, m);
    FrameUp(p.env, st.next, m);
    ProcUp(p, st.next, m);
  }

  // -------------------------------------------------------------- analysis

  /** Compiling a datum keeps its constants: the compiled expression is below
      any bound the datum is below. */
  lemma {:induction false} AnalyzeBelow(v: Value, n: nat)
    requires ValueBelow(v, n)
    ensures Analyze(v).Ok? ==> ExprBelow(Analyze(v).value, n)
    decreases VSize(v), 4
  {
    match v
    case Pair(_, h, s) =>
      if h == Sym("lambda") {
        AnalyzeLambdaBelow(s, n);
      } else if h == Sym("macroify") {
      } else if h == Sym("define") || h == Sym("define-macro") {
        AnalyzeDefineBelow(s, n);
      } else if h == Sym("quote") {
      } else if h == Sym("and") || h == Sym("or") {
        AnalyzeListBelow(s, n);
      } else if h == Sym("me") {
      } else {
        AnalyzeBelow(h, n);
        AnalyzeListBelow(s, n);
      }
    case _ =>
  }

  lemma {:induction false} AnalyzeListBelow(v: Value, n: nat)
    requires ValueBelow(v, n)
    ensures AnalyzeList(v).Ok? ==> ExprsBelow(AnalyzeList(v).value, n)
    decreases VSize(v), 1
  {
    if v.Pair? {
      AnalyzeBelow(v.car, n);
      AnalyzeListBelow(v.cdr, n);
    }
  }

  lemma {:induction false} LambdaOfBelow(p: Value, body: Value, n: nat)
    requires ValueBelow(body, n)
    ensures LambdaOf(p, body).Ok? ==> ExprBelow(LambdaOf(p, body).value, n)
    decreases VSize(body), 2
  {
    AnalyzeListBelow(body, n);
  }

  lemma {:induction false} AnalyzeLambdaBelow(s: Value, n: nat)
    requires ValueBelow(s, n)
    ensures AnalyzeLambda(s).Ok? ==> ExprBelow(AnalyzeLambda(s).value, n)
    decreases VSize(s), 3
  {
    if s.Pair? {
      LambdaOfBelow(s.car, s.cdr, n);
    }
  }

  lemma {:induction false} AnalyzeDefineBelow(s: Value, n: nat)
    requires ValueBelow(s, n)
    ensures AnalyzeDefine(s).Ok? ==> ExprBelow(AnalyzeDefine(s).value, n)
    decreases VSize(s), 3
  {
    if s.Pair? {
      if s.car.Pair? {
        LambdaOfBelow(s.car.cdr, s.cdr, n);
      } else if s.cdr.Pair? {
        assert VSize(s.cdr.car) < VSize(s.cdr) < VSize(s);
        AnalyzeBelow(s.cdr.car, n);
      }
    }
  }

  // ------------------------------------------------------------ evaluation

  /** Evaluation keeps the invariant, and what it returns is older than the
      counter it leaves. */
  lemma {:induction false} EvalKeeps(e: Expr, env: Frame, st: State, fuel: nat)
    requires Wf(st) && FrameBelow(env, st.next) && ExprBelow(e, st.next)
    ensures Kept(Eval(e, env, st, fuel))
    decreases fuel, 3, Size(e), 1
  {
    match e
    case Const(_) =>
    case Var(x) => LookupBelow(st, env, x);
    case Lambda(ps, rest, body) =>
      WfUp(st, st.next + 1);
      ProcUp(Proc(st.next, env, ps, rest, body), st.next + 1, st.next + 1) by {
        FrameUp(env, st.next, st.next + 1);
        forall k | 0 <= k < |body| ensures ExprBelow(body[k], st.next + 1) {
          ExprUp(body[k], st.next, st.next + 1);
        }
      }
    case Define(x, val) =>
      EvalKeeps(val, env, st, fuel);
      var r := Eval(val, env, st, fuel);
      if r.res.Ok? {
        FrameUp(env, st.next, r.st.next);
        DefineWf(r.st, env, x, r.res.value);
      }
    case Macroify(x) => LookupBelow(st, env, x);
    case And(es) => EvalAndKeeps(es, env, st, fuel, Err);
    case Or(es) => EvalOrKeeps(es, env, st, fuel);
    case Me(s) => ExpandKeeps(s, st, fuel);
    case App(fn, args) =>
      EvalKeeps(fn, env, st, fuel);
      var f := Eval(fn, env, st, fuel);
      if f.res.Ok? {
        FrameUp(env, st.next, f.st.next);
        assert ExprsBelow(args, f.st.next) by {
          forall k | 0 <= k < |args| ensures ExprBelow(args[k], f.st.next) { ExprUp(args[k], st.next, f.st.next); }
        }
        EvalArgsKeeps(args, env, f.st, fuel);
        var a := EvalArgs(args, env, f.st, fuel);
        if a.res.Ok? {
          ValueUp(f.res.value, f.st.next, a.st.next);
          CallFuncKeeps(f.res.value, a.res.value, a.st, fuel);
        }
      }
  }

  lemma {:induction false} EvalAndKeeps(es: seq<Expr>, env: Frame, st: State, fuel: nat, last: Value)
    requires Wf(st) && FrameBelow(env, st.next) && ExprsBelow(es, st.next) && ValueBelow(last, st.next)
    ensures Kept(EvalAnd(es, env, st, fuel, last))
    decreases fuel, 3, SizeAll(es), 2
  {
    if es != [] {
      EvalKeeps(es[0], env, st, fuel);
      var r := Eval(es[0], env, st, fuel);
      if r.res.Ok? && ToBool(r.res.value) {
        FrameUp(env, st.next, r.st.next);
        ExprsTail(es, st.next, r.st.next);
        EvalAndKeeps(es[1..], env, r.st, fuel, r.res.value);
      }
    }
  }

  lemma {:induction false} EvalOrKeeps(es: seq<Expr>, env: Frame, st: State, fuel: nat)
    requires Wf(st) && FrameBelow(env, st.next) && ExprsBelow(es, st.next)
    ensures Kept(EvalOr(es, env, st, fuel))
    decreases fuel, 3, SizeAll(es), 2
  {
    if es != [] {
      EvalKeeps(es[0], env, st, fuel);
      var r := Eval(es[0], env, st, fuel);
      if r.res.Ok? && !ToBool(r.res.value) {
        FrameUp(env, st.next, r.st.next);
        ExprsTail(es, st.next, r.st.next);
        EvalOrKeeps(es[1..], env, r.st, fuel);
      }
    }
  }

  lemma {:induction false} EvalBodyKeeps(es: seq<Expr>, env: Frame, st: State, fuel: nat, last: Value)
    requires Wf(st) && FrameBelow(env, st.next) && ExprsBelow(es, st.next) && ValueBelow(last, st.next)
    ensures Kept(EvalBody(es, env, st, fuel, last))
    decreases fuel, 3, SizeAll(es), 2
  {
    if es != [] {
      EvalKeeps(es[0], env, st, fuel);
      var r := Eval(es[0], env, st, fuel);
      if r.res.Ok? {
        FrameUp(env, st.next, r.st.next);
        ExprsTail(es, st.next, r.st.next);
        EvalBodyKeeps(es[1..], env, r.st, fuel, r.res.value);
      }
    }
  }

  lemma {:induction false} EvalArgsKeeps(es: seq<Expr>, env: Frame, st: State, fuel: nat)
    requires Wf(st) && FrameBelow(env, st.next) && ExprsBelow(es, st.next)
    ensures KeptAll(EvalArgs(es, env, st, fuel))
    decreases fuel, 3, SizeAll(es), 2
  {
    if es != [] {
      EvalKeeps(es[0], env, st, fuel);
      var r := Eval(es[0], env, st, fuel);
      if r.res.Ok? {
        FrameUp(env, st.next, r.st.next);
        ExprsTail(es, st.next, r.st.next);
        EvalArgsKeeps(es[1..], env, r.st, fuel);
        var rs := EvalArgs(es[1..], env, r.st, fuel);
        if rs.res.Ok? {
          ValueUp(r.res.value, r.st.next, rs.st.next);
        }
      }
    }
  }

  /** A call of an older closure on older arguments keeps the invariant. */
  lemma {:induction false} ApplyClosureKeeps(p: Proc, args: seq<Value>, st: State, fuel: nat)
    requires Wf(st) && ProcBelow(p, st.next) && ValuesBelow(args, st.next)
    ensures Kept(ApplyClosure(p, args, st, fuel))
    decreases fuel, 4, 0, 0
  {
    CallEnvWf(p, args, st);
    var (env, st') := CallEnv(p, args, st);
    EvalBodyKeeps(p.body, env, st', fuel, Err);
  }

  lemma {:induction false} CallFuncKeeps(f: Value, args: seq<Value>, st: State, fuel: nat)
    requires Wf(st) && ValueBelow(f, st.next) && ValuesBelow(args, st.next)
    ensures Kept(CallFunc(f, args, st, fuel))
    decreases fuel, 0, 0, 0
  {
    if fuel > 0 {
      match f
      case Builtin(op) => RunBuiltinKeeps(op, args, st, fuel - 1);
      case Closure(p) => ApplyClosureKeeps(p, args, st, fuel - 1);
      case _ =>
    }
  }

  lemma {:induction false} RunBuiltinKeeps(op: Op, args: seq<Value>, st: State, fuel: nat)
    requires Wf(st) && ValuesBelow(args, st.next)
    ensures Kept(RunBuiltin(op, args, st, fuel))
    decreases fuel, 1, 0, 0
  {
    match op
    case Plus => {
      match Sum(args)
      case Ok(_) =>
      case Abort(_) =>
    }
    case Cons =>
      if |args| >= 2 {
        WfUp(st, st.next + 1);
        ValueUp(args[0], st.next, st.next + 1);
        ValueUp(args[1], st.next, st.next + 1);
      }
    case Apply =>
      if |args| >= 2 {
        var lst := args[|args| - 1];
        if lst.Pair? && ListToSeq(lst).Some? {
          var xs := ListToSeq(lst).value;
          ListToSeqBelow(lst, st.next);
          var call := args[1..|args| - 1] + xs;
          assert ValuesBelow(call, st.next) by {
            forall k | 0 <= k < |call| ensures ValueBelow(call[k], st.next) {
              if k < |args| - 2 {
                assert call[k] == args[k + 1];
              } else {
                assert call[k] == xs[k - (|args| - 2)];
              }
            }
          }
          CallFuncKeeps(args[0], call, st, fuel);
        }
      }
    case _ =>
  }

  // -------------------------------------------------------- macro expansion

  lemma {:induction false} ExpandKeeps(v: Value, st: State, fuel: nat)
    requires Wf(st) && ValueBelow(v, st.next)
    ensures Kept(Expand(v, st, fuel))
    decreases fuel, 2, 0, 0
  {
    if fuel > 0 {
      ExpandPassKeeps(v, st, fuel - 1);
      var p := ExpandPass(v, st, fuel - 1);
      if p.res.Ok? && p.did {
        ExpandKeeps(p.res.value, p.st, fuel - 1);
      }
    }
  }

  lemma {:induction false} ExpandPassKeeps(v: Value, st: State, fuel: nat)
    requires Wf(st) && ValueBelow(v, st.next)
    ensures KeptPass(ExpandPass(v, st, fuel))
    decreases fuel, 1, VSize(v), 1
  {
    match v
    case Pair(_, h, d) =>
      if h == Sym("quote") {
      } else if h.Sym? && h.name in st.macros {
        if ListToSeq(d).Some? && fuel > 0 {
          ListToSeqBelow(d, st.next);
          ApplyClosureKeeps(st.macros[h.name], ListToSeq(d).value, st, fuel - 1);
        }
      } else {
        RebuildKeeps(v, st, fuel);
      }
    case _ =>
  }

  /** The pass over a pair that is neither quoted nor a macro call: the passes
      over its car and its cdr, and the new node joining their results. */
  lemma {:induction false} RebuildKeeps(v: Value, st: State, fuel: nat)
    requires Wf(st) && ValueBelow(v, st.next)
    requires v.Pair? && v.car != Sym("quote") && !(v.car.Sym? && v.car.name in st.macros)
    ensures KeptPass(ExpandPass(v, st, fuel))
    decreases fuel, 1, VSize(v), 0
  {
    var h, d := v.car, v.cdr;
    ExpandPassKeeps(h, st, fuel);
    var a := ExpandPass(h, st, fuel);
    if a.res.Ok? {
      ValueUp(d, st.next, a.st.next);
      ExpandPassKeeps(d, a.st, fuel);
      var b := ExpandPass(d, a.st, fuel);
      if b.res.Ok? {
        ValueUp(a.res.value, a.st.next, b.st.next + 1);
        ValueUp(b.res.value, b.st.next, b.st.next + 1);
        WfUp(b.st, b.st.next + 1);
      }
    }
  }

  // ------------------------------------------------------------ the driver

  /** A datum read with identities from `next` on is new: none of its pairs is
      older than the state, and once the counter has moved past it the state
      is well formed and the datum older than the counter. */
  lemma ReadIsNew(s: string, c: Cursor, st: State)
    requires c.pos <= |s| && Wf(st)
    ensures var p := ParseSexp(s, c, st.next);
      p.res.Ok? ==> IdsIn(p.res.value, st.next, p.ids) && Wf(st.(next := p.ids)) && ValueBelow(p.res.value, p.ids)
  {
    var p := ParseSexp(s, c, st.next);
    ParseSexpIds(s, c, st.next);
    WfUp(st, p.ids);
    if p.res.Ok? {
      IdsInBelow(p.res.value, st.next, p.ids);
    }
  }

  lemma {:induction false} IdsInBelow(v: Value, lo: nat, hi: nat)
    requires IdsIn(v, lo, hi)
    ensures ValueBelow(v, hi)
  {
    if v.Pair? {
      IdsInBelow(v.car, lo, hi);
      IdsInBelow(v.cdr, lo, hi);
    }
  }

  /** Running a form keeps the invariant: the whole driver loop (read a datum
      from `next` on, expand, analyse, evaluate in the global frame) never
      makes an identity reachable that is not older than the counter. */
  lemma RunFormKeeps(v: Value, st: State, fuel: nat)
    requires Wf(st) && FrameBelow(Global, st.next) && ValueBelow(v, st.next)
    ensures Kept(RunForm(v, st, fuel))
  {
    ExpandKeeps(v, st, fuel);
    var x := Expand(v, st, fuel);
    if x.res.Ok? {
      AnalyzeBelow(x.res.value, x.st.next);
      FrameUp(Global, st.next, x.st.next);
      if Analyze(x.res.value).Ok? {
        EvalKeeps(Analyze(x.res.value).value, Global, x.st, fuel);
      }
    }
  }
}
