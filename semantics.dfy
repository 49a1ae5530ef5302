/** Evaluation of compiled expressions (the closures `analyze` returns),
    `SchemeClosure::apply`, `callFunc`, the `apply` builtin and the macro expander
    (`expandMacros_`, `expandMacros`). The interpreter's mutable state is a value:
    the frame store, the macro table and the next unused identity for pairs,
    closures and frames. A closure call or a macro expansion may not terminate,
    so each of them consumes one unit of `fuel`, and running out is an outcome. */
module Semantics {
  import opened Common
  import opened Values
  import opened Environment
  import opened Builtins
  import opened Analyzer

  datatype State = State(frames: Store, macros: map<string, Proc>, next: nat)

  datatype Outcome = Outcome(res: Result<Value>, st: State)

  datatype Outcomes = Outcomes(res: Result<seq<Value>>, st: State)

  /** The result of one expansion pass and whether it made a substitution (`did_stuff`). */
  datatype Expansion = Expansion(res: Result<Value>, did: bool, st: State)

  /** Every frame in the store has an identity below `next`, so the next frame
      allocated is a new one. */
  predicate Fresh(st: State)
  {
    forall id :: id in st.frames ==> id < st.next
  }

  /** What every step does to the state: identities are never reused, and a
      well-formed store stays well formed. */
  predicate Grows(st: State, st': State)
  {
    st.next <= st'.next && (Fresh(st) ==> Fresh(st'))
  }

  /** The global frame that `main` creates and `setupEnv` fills. */
  const Global: Frame := Frame(0, None)

  function Initial(): State
  {
    State(map[0 := GlobalTable()], map[], 1)
  }

  /** The compiled expression `e` run in the frame `env`. */
  function Eval(e: Expr, env: Frame, st: State, fuel: nat): (r: Outcome)
    ensures env.id < st.next ==> Grows(st, r.st)
    ensures st.next <= r.st.next
    decreases fuel, 3, Size(e), 1
  {
    match e
    case Const(v) => Outcome(Ok(v), st)
    case Var(x) =>
      (match Lookup(st.frames, env, x)
       case Some(v) => Outcome(Ok(v), st)
       case None => Outcome(Ok(Err), st))
    case Lambda(ps, rest, body) =>
      Outcome(Ok(Closure(Proc(st.next, env, ps, rest, body))), st.(next := st.next + 1))
    case Define(x, val) =>
      var r := Eval(val, env, st, fuel);
      if r.res.Abort? then r
      else Outcome(Ok(Nil), r.st.(frames := DefineIn(r.st.frames, env, x, r.res.value)))
    case Macroify(x) =>
      (match Lookup(st.frames, env, x)
       case Some(Closure(p)) => Outcome(Ok(Bool(true)), st.(macros := st.macros[x := p]))
       case _ => Outcome(Ok(Err), st))
    case And(es) => EvalAnd(es, env, st, fuel, Err)
    case Or(es) => EvalOr(es, env, st, fuel)
    case Me(s) => Expand(s, st, fuel)
    case App(fn, args) =>
      var f := Eval(fn, env, st, fuel);
      if f.res.Abort? then f
      else
        var a := EvalArgs(args, env, f.st, fuel);
        if a.res.Abort? then Outcome(Abort(a.res.fault), a.st)
        else CallFunc(f.res.value, a.res.value, a.st, fuel)
  }

  /** The loop of `analyzeAnd`'s closure; `last` is the value of the previous operand. */
  function EvalAnd(es: seq<Expr>, env: Frame, st: State, fuel: nat, last: Value): (r: Outcome)
    ensures env.id < st.next ==> Grows(st, r.st)
    ensures st.next <= r.st.next
    decreases fuel, 3, SizeAll(es), 2
  {
    if es == [] then Outcome(Ok(last), st)
    else
      var r := Eval(es[0], env, st, fuel);
      if r.res.Abort? then r
      else if !ToBool(r.res.value) then Outcome(Ok(Bool(false)), r.st)
      else EvalAnd(es[1..], env, r.st, fuel, r.res.value)
  }

  /** The loop of `analyzeOr`'s closure. */
  function EvalOr(es: seq<Expr>, env: Frame, st: State, fuel: nat): (r: Outcome)
    ensures env.id < st.next ==> Grows(st, r.st)
    ensures st.next <= r.st.next
    decreases fuel, 3, SizeAll(es), 2
  {
    if es == [] then Outcome(Ok(Bool(false)), st)
    else
      var r := Eval(es[0], env, st, fuel);
      if r.res.Abort? then r
      else if ToBool(r.res.value) then r
      else EvalOr(es[1..], env, r.st, fuel)
  }

  /** The loop of `analyzeBody`'s closure: every form in turn, keeping the last value. */
  function EvalBody(es: seq<Expr>, env: Frame, st: State, fuel: nat, last: Value): (r: Outcome)
    ensures env.id < st.next ==> Grows(st, r.st)
    ensures st.next <= r.st.next
    decreases fuel, 3, SizeAll(es), 2
  {
    if es == [] then Outcome(Ok(last), st)
    else
      var r := Eval(es[0], env, st, fuel);
      if r.res.Abort? then r
      else EvalBody(es[1..], env, r.st, fuel, r.res.value)
  }

  /** The arguments of an application, left to right, in the caller's frame. */
  function EvalArgs(es: seq<Expr>, env: Frame, st: State, fuel: nat): (r: Outcomes)
    ensures env.id < st.next ==> Grows(st, r.st)
    ensures st.next <= r.st.next
    ensures r.res.Ok? ==> |r.res.value| == |es|
    decreases fuel, 3, SizeAll(es), 2
  {
    if es == [] then Outcomes(Ok([]), st)
    else
      var r := Eval(es[0], env, st, fuel);
      if r.res.Abort? then Outcomes(Abort(r.res.fault), r.st)
      else
        var rs := EvalArgs(es[1..], env, r.st, fuel);
        if rs.res.Abort? then rs
        else Outcomes(Ok([r.res.value] + rs.res.value), rs.st)
  }

  /** The frame and state in which `SchemeClosure::apply` runs the body: a new
      frame whose parent is the captured frame, holding the parameter bindings,
      with the rest list allocated after the frame. */
  function CallEnv(p: Proc, args: seq<Value>, st: State): (Frame, State)
  {
    var id := st.next;
    var table := CallFrame(p.params, p.rest, args, id + 1);
    (Frame(id, Some(p.env)),
     st.(frames := st.frames[id := table], next := id + 1 + RestCells(p.params, p.rest, args)))
  }

  /** `SchemeClosure::apply`. */
  function ApplyClosure(p: Proc, args: seq<Value>, st: State, fuel: nat): (r: Outcome)
    ensures Grows(st, r.st)
    decreases fuel, 4, 0, 0
  {
    var (env, st') := CallEnv(p, args, st);
    EvalBody(p.body, env, st', fuel, Err)
  }

  /** `callFunc`: a builtin is run, a closure applied; anything else fails the
      source's `assert`. Each call consumes one unit of fuel. */
  function CallFunc(f: Value, args: seq<Value>, st: State, fuel: nat): (r: Outcome)
    ensures Grows(st, r.st)
    decreases fuel, 0, 0, 0
  {
    if fuel == 0 then Outcome(Abort(OutOfFuel), st)
    else match f
      case Builtin(op) => RunBuiltin(op, args, st, fuel - 1)
      case Closure(p) => ApplyClosure(p, args, st, fuel - 1)
      case _ => Outcome(Abort(AssertionFailure), st)
  }

  /** The builtin `op` of `setupEnv` on the evaluated arguments. */
  function RunBuiltin(op: Op, args: seq<Value>, st: State, fuel: nat): (r: Outcome)
    ensures Grows(st, r.st)
    decreases fuel, 1, 0, 0
  {
    match op
    case Plus => Outcome(Add(args), st)
    case EqP => Outcome(Ok(Same(args)), st)
    case Cons =>
      var r := MakePair(args, st.next);
      Outcome(r, if r.Ok? then st.(next := st.next + 1) else st)
    case Car => Outcome(First(args), st)
    case Cdr => Outcome(Rest(args), st)
    case PairP => Outcome(IsPair(args), st)
    case NullP => Outcome(IsNull(args), st)
    case Display => Outcome(Ok(Nil), st)
    case Newline => Outcome(Ok(Nil), st)
    case Apply =>
      if |args| < 2 then Outcome(Abort(UndefinedBehaviour), st)
      else
        var lst := args[|args| - 1];
        if !lst.Pair? then Outcome(Abort(AssertionFailure), st)
        else match ListToSeq(lst)
          case None => Outcome(Abort(UndefinedBehaviour), st)
          case Some(xs) => CallFunc(args[0], args[1..|args| - 1] + xs, st, fuel)
  }

  /** `expandMacros`: passes until one makes no substitution. Each pass consumes
      one unit of fuel. */
  function Expand(v: Value, st: State, fuel: nat): (r: Outcome)
    ensures Grows(st, r.st)
    decreases fuel, 2, 0, 0
  {
    if fuel == 0 then Outcome(Abort(OutOfFuel), st)
    else
      var p := ExpandPass(v, st, fuel - 1);
      if p.res.Abort? || !p.did then Outcome(p.res, p.st)
      else Expand(p.res.value, p.st, fuel - 1)
  }

  /** `expandMacros_`: one pass. A `(quote …)` node and a non-pair are left as
      they are; a pair headed by a macro name is replaced by the result of
      applying the macro to the (unevaluated) elements of its cdr; any other pair
      is rebuilt from the passes over its car and its cdr. */
  function ExpandPass(v: Value, st: State, fuel: nat): (r: Expansion)
    ensures Grows(st, r.st)
    decreases fuel, 1, VSize(v), 0
  {
    match v
    case Pair(_, h, d) =>
      if h == Sym("quote") then Expansion(Ok(v), false, st)
      else if h.Sym? && h.name in st.macros then
        match ListToSeq(d)
        case None => Expansion(Abort(UndefinedBehaviour), true, st)
        case Some(xs) =>
          if fuel == 0 then Expansion(Abort(OutOfFuel), true, st)
          else
            var r := ApplyClosure(st.macros[h.name], xs, st, fuel - 1);
            Expansion(r.res, true, r.st)
      else
        var a := ExpandPass(h, st, fuel);
        if a.res.Abort? then a
        else
          var b := ExpandPass(d, a.st, fuel);
          if b.res.Abort? then b
          else Expansion(Ok(Pair(b.st.next, a.res.value, b.res.value)), a.did || b.did, b.st.(next := b.st.next + 1))
    case _ => Expansion(Ok(v), false, st)
  }

  /** One read datum as the driver loop treats it: expanded, analysed, then run
      in the global frame. */
  function RunForm(v: Value, st: State, fuel: nat): (r: Outcome)
    ensures Global.id < st.next ==> Grows(st, r.st)
    ensures st.next <= r.st.next
  {
    var x := Expand(v, st, fuel);
    if x.res.Abort? then x
    else match Analyze(x.res.value)
      case Abort(f) => Outcome(Abort(f), x.st)
      case Ok(e) => Eval(e, Global, x.st, fuel)
  }
}
