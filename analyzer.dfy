/** `SchemeAnalyzer::analyze` and its helpers: a value is compiled once into an
    `Expr`. Where the source takes `car()` of something that is not a pair, or
    iterates a list that does not end in `()`, it dereferences a null `cons_`:
    the analysis ends with `UndefinedBehaviour`. */
module Analyzer {
  import opened Common
  import opened Values

  datatype Params = Params(fixed: seq<string>, rest: Option<string>)

  /** The parameter list of a `lambda`: the names along the cdr chain, then the
      rest name from a final cdr that is not `()`. That tail must be a symbol (an
      `assert` of the source); an empty rest name means no rest parameter. */
  function ParamNames(p: Value): (r: Result<Params>)
    ensures r.Ok? ==> |r.value.fixed| == |ListPrefix(p)|
    ensures r.Ok? <==> (ListTail(p).Nil? || ListTail(p).Sym?)
    ensures r.Ok? ==> forall k :: 0 <= k < |ListPrefix(p)| ==> r.value.fixed[k] == IdText(ListPrefix(p)[k])
    ensures r.Ok? ==> r.value.rest == if ListTail(p).Sym? && ListTail(p).name != "" then Some(ListTail(p).name) else None
  {
    match p
    case Pair(_, a, d) =>
      (match ParamNames(d)
       case Ok(ps) => Ok(Params([IdText(a)] + ps.fixed, ps.rest))
       case Abort(f) => Abort(f))
    case Nil => Ok(Params([], None))
    case Sym(x) => Ok(Params([], if x == "" then None else Some(x)))
    case _ => Abort(AssertionFailure)
  }

  /** The elements before the final cdr of a (possibly improper) list. */
  function ListPrefix(p: Value): seq<Value>
  {
    if p.Pair? then [p.car] + ListPrefix(p.cdr) else []
  }

  /** The final cdr of a list: `()` for a proper list. */
  function ListTail(p: Value): Value
  {
    if p.Pair? then ListTail(p.cdr) else p
  }

  /** `analyze` on each element of a proper list, in order (`std::transform`
      over the list). */
  function AnalyzeList(v: Value): (r: Result<seq<Expr>>)
    ensures r.Ok? ==> ListToSeq(v).Some? && |r.value| == |ListToSeq(v).value|
    decreases VSize(v), 1
  {
    match v
    case Nil => Ok([])
    case Pair(_, a, d) =>
      (match Analyze(a)
       case Abort(f) => Abort(f)
       case Ok(e) =>
         match AnalyzeList(d)
         case Abort(f) => Abort(f)
         case Ok(es) => Ok([e] + es))
    case _ => Abort(UndefinedBehaviour)
  }

  /** `analyzeLambda` on `(params . body)`. */
  function AnalyzeLambda(s: Value): Result<Expr>
    decreases VSize(s), 3
  {
    if !s.Pair? then Abort(UndefinedBehaviour) else LambdaOf(s.car, s.cdr)
  }

  /** A `lambda` with the parameter list `p` and the body forms `body`. */
  function LambdaOf(p: Value, body: Value): Result<Expr>
    decreases VSize(body), 2
  {
    match ParamNames(p)
    case Abort(f) => Abort(f)
    case Ok(ps) =>
      match AnalyzeList(body)
      case Abort(f) => Abort(f)
      case Ok(es) => Ok(Lambda(ps.fixed, ps.rest, es))
  }

  /** `analyzeDefine` on what follows `define`: `((f . params) . body)` defines
      `f` as that lambda; otherwise `(x e …)` defines `x` as `e`. */
  function AnalyzeDefine(s: Value): Result<Expr>
    decreases VSize(s), 3
  {
    if !s.Pair? then Abort(UndefinedBehaviour)
    else if s.car.Pair? then
      match LambdaOf(s.car.cdr, s.cdr)
      case Abort(f) => Abort(f)
      case Ok(l) => Ok(Define(IdText(s.car.car), l))
    else if !s.cdr.Pair? then Abort(UndefinedBehaviour)
    else
      assert VSize(s.cdr.car) < VSize(s.cdr) < VSize(s);
      match Analyze(s.cdr.car)
      case Abort(f) => Abort(f)
      case Ok(e) => Ok(Define(IdText(s.car), e))
  }

  /** `SchemeAnalyzer::analyze`: self-evaluating atoms, symbols, the special forms
      by their head symbol in the order `lambda`, `macroify`, `define`,
      `define-macro`, `quote`, `and`, `or`, `me`, then application; an ERR, a
      builtin or a closure compiles to the constant ERR. */
  function Analyze(v: Value): Result<Expr>
    decreases VSize(v), 4
  {
    match v
    case Int(_) => Ok(Const(v))
    case Bool(_) => Ok(Const(v))
    case Str(_) => Ok(Const(v))
    case Nil => Ok(Const(v))
    case Sym(x) => Ok(Var(x))
    case Pair(_, h, s) =>
      if h == Sym("lambda") then AnalyzeLambda(s)
      else if h == Sym("macroify") then
        if s.Pair? then Ok(Macroify(IdText(s.car))) else Abort(UndefinedBehaviour)
      else if h == Sym("define") || h == Sym("define-macro") then AnalyzeDefine(s)
      else if h == Sym("quote") then
        if s.Pair? then Ok(Const(s.car)) else Abort(UndefinedBehaviour)
      else if h == Sym("and") then
        (match AnalyzeList(s) case Ok(es) => Ok(And(es)) case Abort(f) => Abort(f))
      else if h == Sym("or") then
        (match AnalyzeList(s) case Ok(es) => Ok(Or(es)) case Abort(f) => Abort(f))
      else if h == Sym("me") then Ok(Me(s))
      else
        (match Analyze(h)
         case Abort(f) => Abort(f)
         case Ok(fn) =>
           match AnalyzeList(s)
           case Abort(f) => Abort(f)
           case Ok(args) => Ok(App(fn, args)))
    case Err => Ok(Const(Err))
    case Builtin(_) => Ok(Const(Err))
    case Closure(_) => Ok(Const(Err))
  }

  /** `(define (f . params) . body)` compiles exactly as `(define f (lambda params . body))`. */
  lemma DefineSugar(f: Value, params: Value, body: Value, i: nat, j: nat, k: nat, l: nat, m: nat, n: nat, o: nat)
    requires !f.Pair?
    ensures Analyze(Pair(i, Sym("define"), Pair(j, Pair(k, f, params), body)))
         == Analyze(Pair(l, Sym("define"), Pair(m, f, Pair(n, Pair(o, Sym("lambda"), Pair(0, params, body)), Nil))))
  {
    var lam := Pair(o, Sym("lambda"), Pair(0, params, body));
    assert Analyze(lam) == LambdaOf(params, body);
    assert AnalyzeDefine(Pair(m, f, Pair(n, lam, Nil))) == match LambdaOf(params, body)
      case Abort(e) => Abort(e)
      case Ok(x) => Ok(Define(IdText(f), x));
  }

  /** `define-macro` is compiled by `analyzeDefine`: it only defines. */
  lemma DefineMacroIsDefine(s: Value, i: nat)
    ensures Analyze(Pair(i, Sym("define-macro"), s)) == Analyze(Pair(i, Sym("define"), s))
  {
  }

  /** The body of a lambda is analysed once, when the lambda is: a body form that
      cannot be analysed makes the enclosing lambda fail to analyse. */
  lemma LambdaAnalysesBody(p: Value, body: Value)
    requires ParamNames(p).Ok?
    ensures LambdaOf(p, body).Ok? <==> AnalyzeList(body).Ok?
    ensures LambdaOf(p, body).Ok? ==> LambdaOf(p, body).value.body == AnalyzeList(body).value
  {
  }

  /** Analysing a list analyses each of its elements, in order. */
  lemma {:induction false} AnalyzeListElementwise(v: Value)
    requires AnalyzeList(v).Ok?
    ensures forall k :: 0 <= k < |AnalyzeList(v).value| ==>
      Analyze(ListToSeq(v).value[k]) == Ok(AnalyzeList(v).value[k])
    decreases VSize(v)
  {
    if v.Pair? {
      AnalyzeListElementwise(v.cdr);
    }
  }
}
