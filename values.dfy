/** The tagged value model (`SchemeType`), the compiled expressions the analyzer
    produces, closures and environment frames. They are declared together because
    they are mutually recursive: a closure holds its compiled body, and a compiled
    `quote` holds the quoted value. */
module Values {
  import opened Common

  /** The builtin procedures that the driver installs in the global frame. */
  datatype Op = Plus | EqP | Cons | Car | Cdr | PairP | NullP | Display | Newline | Apply

  /** `SchemeType`. A pair node and a closure carry an identity (`id`): two copies of
      one C++ `shared_ptr` have the same id, two separately allocated nodes do not. */
  datatype Value =
    | Int(n: int)
    | Sym(name: string)
    | Str(text: string)
    | Bool(b: bool)
    | Nil
    | Pair(id: nat, car: Value, cdr: Value)
    | Builtin(op: Op)
    | Closure(proc: Proc)
    | Err

  /** An environment frame: its identity, whose bindings live in the interpreter's
      store, and its immutable link to the enclosing frame (`next_`). */
  datatype Frame = Frame(id: nat, next: Option<Frame>)

  /** `SchemeClosure`: the captured frame, the fixed parameter names, the rest
      parameter (`restArgName_`, absent when empty) and the compiled body, one
      expression per body form. */
  datatype Proc = Proc(id: nat, env: Frame, params: seq<string>, rest: Option<string>, body: seq<Expr>)

  /** The analyzer's `Expr`: what was decided once, at analysis time, about a form. */
  datatype Expr =
    | Const(v: Value)                                             // self-evaluating and quoted data
    | Var(name: string)                                           // symbol lookup
    | Lambda(params: seq<string>, rest: Option<string>, body: seq<Expr>)
    | Define(name: string, val: Expr)
    | Macroify(name: string)
    | And(es: seq<Expr>)
    | Or(es: seq<Expr>)
    | Me(form: Value)                                             // the `me` debugging form
    | App(fn: Expr, args: seq<Expr>)

  /** Size of the part of an expression that is evaluated directly (not lambda bodies). */
  function Size(e: Expr): nat
  {
    match e
    case Define(_, val) => 1 + Size(val)
    case And(es) => 1 + SizeAll(es)
    case Or(es) => 1 + SizeAll(es)
    case App(f, args) => 1 + Size(f) + SizeAll(args)
    case _ => 1
  }

  function SizeAll(es: seq<Expr>): nat
  {
    if es == [] then 0 else Size(es[0]) + SizeAll(es[1..])
  }

  /** Number of value nodes, used to bound recursion over a value tree. */
  function VSize(v: Value): nat
  {
    if v.Pair? then 1 + VSize(v.car) + VSize(v.cdr) else 1
  }

  predicate SameKind(a: Value, b: Value)
  {
    match (a, b)
    case (Int(_), Int(_)) => true
    case (Sym(_), Sym(_)) => true
    case (Str(_), Str(_)) => true
    case (Bool(_), Bool(_)) => true
    case (Nil, Nil) => true
    case (Pair(_, _, _), Pair(_, _, _)) => true
    case (Builtin(_), Builtin(_)) => true
    case (Closure(_), Closure(_)) => true
    case (Err, Err) => true
    case _ => false
  }

  /** `SchemeType::toBool`: only the boolean false is false. */
  function ToBool(v: Value): (r: bool)
    ensures !r <==> v == Bool(false)
  {
    (v.Bool? && v.b) || !v.Bool?
  }

  /** `SchemeType::eq`: atoms by payload, pairs and closures by identity,
      and any two builtins, two errors or two nils are equal. */
  function Eq(a: Value, b: Value): (r: bool)
    ensures !SameKind(a, b) ==> !r
    ensures (a.Int? || a.Bool? || a.Str? || a.Sym?) ==> (r <==> a == b)
    ensures a.Pair? && b.Pair? ==> (r <==> a.id == b.id)
    ensures a.Closure? && b.Closure? ==> (r <==> a.proc.id == b.proc.id)
    ensures (a.Builtin? || a.Err? || a.Nil?) ==> (r <==> SameKind(a, b))
  {
    match (a, b)
    case (Str(x), Str(y)) => x == y
    case (Sym(x), Sym(y)) => x == y
    case (Int(x), Int(y)) => x == y
    case (Bool(x), Bool(y)) => x == y
    case (Pair(i, _, _), Pair(j, _, _)) => i == j
    case (Builtin(_), Builtin(_)) => true
    case (Closure(p), Closure(q)) => p.id == q.id
    case (Err, Err) => true
    case (Nil, Nil) => true
    case _ => false
  }

  lemma EqIsEquivalence(a: Value, b: Value, c: Value)
    ensures Eq(a, a)
    ensures Eq(a, b) ==> Eq(b, a)
    ensures Eq(a, b) && Eq(b, c) ==> Eq(a, c)
  {
  }

  /** The `id_` field read through `id()`/`str()`: the text of a symbol or a
      string, and the empty string for every other kind. */
  function IdText(v: Value): string
  {
    match v
    case Sym(x) => x
    case Str(s) => s
    case _ => ""
  }

  /** `carIsId`: the value is a pair whose head is the symbol `x`. */
  predicate CarIsId(v: Value, x: string)
  {
    v.Pair? && v.car == Sym(x)
  }

  /** The elements of a proper list. Iterating a list that ends in anything but
      `()` dereferences the null `cons_` of the tail in the source: `None`. */
  function ListToSeq(v: Value): Option<seq<Value>>
  {
    match v
    case Nil => Some([])
    case Pair(_, a, d) =>
      (match ListToSeq(d)
       case Some(xs) => Some([a] + xs)
       case None => None)
    case _ => None
  }

  /** A fresh proper list of `xs`, as `SchemeClosure::apply` builds the rest
      argument: consing from the last element backwards, so the last cell is
      allocated first and gets identity `next`. */
  function ListFrom(xs: seq<Value>, next: nat): (r: Value)
    ensures xs == [] <==> r == Nil
  {
    if xs == [] then Nil else Pair(next + |xs| - 1, xs[0], ListFrom(xs[1..], next))
  }

  lemma {:induction false} ListFromToSeq(xs: seq<Value>, next: nat)
    ensures ListToSeq(ListFrom(xs, next)) == Some(xs)
  {
    if xs != [] {
      ListFromToSeq(xs[1..], next);
      assert [xs[0]] + xs[1..] == xs;
    }
  }

  /** Every pair node of `v` has an identity in `[lo, hi)`, and `v` holds no
      closure: what the reader builds from the identities `lo` to `hi - 1`. */
  predicate IdsIn(v: Value, lo: nat, hi: nat)
  {
    match v
    case Pair(id, a, d) => lo <= id < hi && IdsIn(a, lo, hi) && IdsIn(d, lo, hi)
    case Closure(_) => false
    case _ => true
  }

  lemma {:induction false} IdsWiden(v: Value, lo: nat, hi: nat, lo': nat, hi': nat)
    requires IdsIn(v, lo, hi) && lo' <= lo && hi <= hi'
    ensures IdsIn(v, lo', hi')
  {
    if v.Pair? {
      IdsWiden(v.car, lo, hi, lo', hi');
      IdsWiden(v.cdr, lo, hi, lo', hi');
    }
  }

  /** Equal up to the identities of pair nodes. */
  predicate Similar(a: Value, b: Value)
  {
    if a.Pair? && b.Pair? then Similar(a.car, b.car) && Similar(a.cdr, b.cdr) else a == b
  }

  lemma {:induction false} SimilarIsEquivalence(a: Value, b: Value, c: Value)
    ensures Similar(a, a)
    ensures Similar(a, b) ==> Similar(b, a)
    ensures Similar(a, b) && Similar(b, c) ==> Similar(a, c)
  {
    if a.Pair? {
      SimilarIsEquivalence(a.car, if b.Pair? then b.car else b, if c.Pair? then c.car else c);
      SimilarIsEquivalence(a.cdr, if b.Pair? then b.cdr else b, if c.Pair? then c.cdr else c);
    }
  }

  /** `schemeListToVector`: copy the elements of a list by walking its cdr chain. */
  method ListToVector(v: Value) returns (r: Option<seq<Value>>)
    ensures r == ListToSeq(v)
  {
    var acc: seq<Value> := [];
    var cur := v;
    assert ListToSeq(cur).Some? ==> acc + ListToSeq(cur).value == ListToSeq(cur).value;
    while cur.Pair?
      invariant ListToSeq(v) == match ListToSeq(cur) case Some(t) => Some(acc + t) case None => None
      decreases cur
    {
      assert ListToSeq(cur.cdr).Some? ==> acc + ([cur.car] + ListToSeq(cur.cdr).value) == (acc + [cur.car]) + ListToSeq(cur.cdr).value;
      acc := acc + [cur.car];
      cur := cur.cdr;
    }
    if cur.Nil? {
      r := Some(acc);
      assert acc + [] == acc;
    } else {
      r := None;
    }
  }
}
