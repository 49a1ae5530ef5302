/** The interpreter as the source runs it: one object whose fields are updated
    in place (the frame tables, `macro_table_`, and the allocation counter that
    stands for fresh `make_shared` identities), with the loops of the source.
    Every method is proved to do what the corresponding function of `Semantics`
    says. */
module Interp {
  import opened Common
  import opened Values
  import opened Environment
  import opened Builtins
  import opened Analyzer
  import Sem = Semantics

  /** The size of an element bounds the size of the list it is in. */
  lemma {:induction false} SizeAllBound(es: seq<Expr>, i: nat)
    requires i < |es|
    ensures Size(es[i]) <= SizeAll(es)
  {
    if i > 0 {
      SizeAllBound(es[1..], i - 1);
      assert es[1..][i - 1] == es[i];
    }
  }

  class Interpreter {
    var frames: Store
    var macros: map<string, Proc>
    var next: nat

    function State(): Sem.State
      reads this
    {
      Sem.State(frames, macros, next)
    }

    /** `main`: the global frame filled by `setupEnv`, and an empty macro table. */
    constructor ()
      ensures State() == Sem.Initial()
    {
      frames := map[0 := GlobalTable()];
      macros := map[];
      next := 1;
    }

    /** `Frame::findFrame`: the do-while walk up the parent links. */
    method FindFrame(f: Frame, x: string) returns (r: Option<Frame>)
      ensures r == Environment.FindFrame(frames, f, x)
    {
      var cur := f;
      while true
        invariant Environment.FindFrame(frames, f, x) == Environment.FindFrame(frames, cur, x)
        decreases |Chain(cur)|
      {
        if x in Bindings(frames, cur.id) {
          return Some(cur);
        }
        if cur.next.None? {
          return None;
        }
        assert Chain(cur) == [cur] + Chain(cur.next.value);
        cur := cur.next.value;
      }
    }

    /** `Frame::lookup`. */
    method Lookup(f: Frame, x: string) returns (r: Option<Value>)
      ensures r == Environment.Lookup(frames, f, x)
    {
      var g := FindFrame(f, x);
      if g.Some? {
        r := Some(Bindings(frames, g.value.id)[x]);
      } else {
        r := None;
      }
    }

    /** The new frame of `SchemeClosure::apply`: the counted loop over the fixed
        parameter names, then the rest list built by consing from the last
        argument backwards. */
    method BindArgs(p: Proc, args: seq<Value>) returns (env: Frame)
      modifies this
      ensures (env, State()) == Sem.CallEnv(p, args, old(State()))
    {
      var id := next;
      next := next + 1;
      var table: map<string, Value> := map[];
      var i := 0;
      while i < |p.params|
        invariant 0 <= i <= |p.params|
        invariant table == BindFixed(p.params[..i], args)
        invariant frames == old(frames) && macros == old(macros) && next == id + 1
      {
        assert p.params[..i + 1][..i] == p.params[..i];
        table := table[p.params[i] := if i >= |args| then Nil else args[i]];
        i := i + 1;
      }
      assert p.params[..i] == p.params;
      if p.rest.Some? {
        if i < |args| {
          var lst := Nil;
          var j := |args|;
          while j > i
            invariant i <= j <= |args|
            invariant lst == ListFrom(args[j..], id + 1)
            invariant next == id + 1 + (|args| - j)
            invariant frames == old(frames) && macros == old(macros)
          {
            j := j - 1;
            assert args[j..][1..] == args[j + 1..];
            lst := Pair(next, args[j], lst);
            next := next + 1;
          }
          table := table[p.rest.value := lst];
        } else {
          table := table[p.rest.value := Nil];
        }
      }
      assert table == CallFrame(p.params, p.rest, args, id + 1);
      assert next == id + 1 + RestCells(p.params, p.rest, args);
      frames := frames[id := table];
      env := Frame(id, Some(p.env));

    }

    method Eval(e: Expr, env: Frame, fuel: nat) returns (r: Result<Value>)
      modifies this
      ensures Sem.Outcome(r, State()) == Sem.Eval(e, env, old(State()), fuel)
      decreases fuel, 3, Size(e), 1
    {
      match e {
        case Const(v) =>
          r := Ok(v);
        case Var(x) =>
          var v := Lookup(env, x);
          r := if v.Some? then Ok(v.value) else Ok(Err);
        case Lambda(ps, rest, body) =>
          r := Ok(Closure(Proc(next, env, ps, rest, body)));
          next := next + 1;
        case Define(x, val) =>
          r := Eval(val, env, fuel);
          if r.Ok? {
            frames := DefineIn(frames, env, x, r.value);
            r := Ok(Nil);
          }
        case Macroify(x) =>
          var v := Lookup(env, x);
          if v.Some? && v.value.Closure? {
            macros := macros[x := v.value.proc];
            r := Ok(Bool(true));
          } else {
            r := Ok(Err);
          }
        case And(es) =>
          r := EvalAnd(es, env, fuel);
        case Or(es) =>
          r := EvalOr(es, env, fuel);
        case Me(s) =>
          r := Expand(s, fuel);
        case App(fn, args) =>
          var f := Eval(fn, env, fuel);
          if f.Abort? {
            return f;
          }
          var a := EvalArgs(args, env, fuel);
          if a.Abort? {
            return Abort(a.fault);
          }
          r := CallFunc(f.value, a.value, fuel);
      }
    }

    /** The closure of `analyzeAnd`: `last` starts as ERR. */
    method EvalAnd(es: seq<Expr>, env: Frame, fuel: nat) returns (r: Result<Value>)
      modifies this
      ensures Sem.Outcome(r, State()) == Sem.EvalAnd(es, env, old(State()), fuel, Err)
      decreases fuel, 3, SizeAll(es), 2
    {
      var last := Err;
      var i := 0;
      while i < |es|
        invariant 0 <= i <= |es|
        invariant Sem.EvalAnd(es, env, old(State()), fuel, Err) == Sem.EvalAnd(es[i..], env, State(), fuel, last)
      {
        assert es[i..][1..] == es[i + 1..];
        SizeAllBound(es, i);
        var v := Eval(es[i], env, fuel);
        if v.Abort? {
          return v;
        }
        last := v.value;
        if !ToBool(last) {
          return Ok(Bool(false));
        }
        i := i + 1;
      }
      r := Ok(last);
    }

    /** The closure of `analyzeOr`. */
    method EvalOr(es: seq<Expr>, env: Frame, fuel: nat) returns (r: Result<Value>)
      modifies this
      ensures Sem.Outcome(r, State()) == Sem.EvalOr(es, env, old(State()), fuel)
      decreases fuel, 3, SizeAll(es), 2
    {
      var i := 0;
      while i < |es|
        invariant 0 <= i <= |es|
        invariant Sem.EvalOr(es, env, old(State()), fuel) == Sem.EvalOr(es[i..], env, State(), fuel)
      {
        assert es[i..][1..] == es[i + 1..];
        SizeAllBound(es, i);
        var v := Eval(es[i], env, fuel);
        if v.Abort? || ToBool(v.value) {
          return v;
        }
        i := i + 1;
      }
      r := Ok(Bool(false));
    }

    /** The closure of `analyzeBody`: `res` starts as ERR. */
    method EvalBody(es: seq<Expr>, env: Frame, fuel: nat) returns (r: Result<Value>)
      modifies this
      ensures Sem.Outcome(r, State()) == Sem.EvalBody(es, env, old(State()), fuel, Err)
      decreases fuel, 3, SizeAll(es), 2
    {
      var res := Err;
      var i := 0;
      while i < |es|
        invariant 0 <= i <= |es|
        invariant Sem.EvalBody(es, env, old(State()), fuel, Err) == Sem.EvalBody(es[i..], env, State(), fuel, res)
      {
        assert es[i..][1..] == es[i + 1..];
        SizeAllBound(es, i);
        var v := Eval(es[i], env, fuel);
        if v.Abort? {
          return v;
        }
        res := v.value;
        i := i + 1;
      }
      r := Ok(res);
    }

    /** The `std::transform` of `analyzeApplication`'s closure over the arguments. */
    method EvalArgs(es: seq<Expr>, env: Frame, fuel: nat) returns (r: Result<seq<Value>>)
      modifies this
      ensures Sem.Outcomes(r, State()) == Sem.EvalArgs(es, env, old(State()), fuel)
      decreases fuel, 3, SizeAll(es), 2
    {
      var vals: seq<Value> := [];
      var i := 0;
      assert es[0..] == es;
      ghost var all := Sem.EvalArgs(es, env, State(), fuel);
      assert all.res.Ok? ==> vals + all.res.value == all.res.value;
      while i < |es|
        invariant 0 <= i <= |es|
        invariant var rest := Sem.EvalArgs(es[i..], env, State(), fuel);
          Sem.EvalArgs(es, env, old(State()), fuel)
          == if rest.res.Abort? then rest else Sem.Outcomes(Ok(vals + rest.res.value), rest.st)
      {
        assert es[i..][1..] == es[i + 1..];
        SizeAllBound(es, i);
        var v := Eval(es[i], env, fuel);
        if v.Abort? {
          return Abort(v.fault);
        }
        ghost var tail := Sem.EvalArgs(es[i + 1..], env, State(), fuel);
        assert tail.res.Ok? ==> vals + ([v.value] + tail.res.value) == (vals + [v.value]) + tail.res.value;
        vals := vals + [v.value];
        i := i + 1;
      }
      assert vals + [] == vals;
      r := Ok(vals);
    }

    /** `SchemeClosure::apply`. */
    method ApplyClosure(p: Proc, args: seq<Value>, fuel: nat) returns (r: Result<Value>)
      modifies this
      ensures Sem.Outcome(r, State()) == Sem.ApplyClosure(p, args, old(State()), fuel)
      decreases fuel, 4, 0, 0
    {
      var env := BindArgs(p, args);
      r := EvalBody(p.body, env, fuel);
    }

    /** `callFunc`. */
    method CallFunc(f: Value, args: seq<Value>, fuel: nat) returns (r: Result<Value>)
      modifies this
      ensures Sem.Outcome(r, State()) == Sem.CallFunc(f, args, old(State()), fuel)
      decreases fuel, 0, 0, 0
    {
      if fuel == 0 {
        return Abort(OutOfFuel);
      }
      if f.Builtin? {
        r := RunBuiltin(f.op, args, fuel - 1);
      } else if f.Closure? {
        r := ApplyClosure(f.proc, args, fuel - 1);
      } else {
        r := Abort(AssertionFailure);
      }
    }

    /** The builtins of `setupEnv`; `apply` copies the list elements with the
        list iterator before calling. */
    method RunBuiltin(op: Op, args: seq<Value>, fuel: nat) returns (r: Result<Value>)
      modifies this
      ensures Sem.Outcome(r, State()) == Sem.RunBuiltin(op, args, old(State()), fuel)
      decreases fuel, 1, 0, 0
    {
      match op {
        case Plus => r := Add(args);
        case EqP => r := Ok(Same(args));
        case Cons =>
          r := MakePair(args, next);
          if r.Ok? {
            next := next + 1;
          }
        case Car => r := First(args);
        case Cdr => r := Rest(args);
        case PairP => r := IsPair(args);
        case NullP => r := IsNull(args);
        case Display => r := Ok(Nil);
        case Newline => r := Ok(Nil);
        case Apply =>
          if |args| < 2 {
            return Abort(UndefinedBehaviour);
          }
          var lst := args[|args| - 1];
          if !lst.Pair? {
            return Abort(AssertionFailure);
          }
          var elems := ListToVector(lst);
          if elems.None? {
            return Abort(UndefinedBehaviour);
          }
          r := CallFunc(args[0], args[1..|args| - 1] + elems.value, fuel);
      }
    }

    /** `expandMacros`: the do-while loop on `did_stuff`. */
    method Expand(v: Value, fuel: nat) returns (r: Result<Value>)
      modifies this
      ensures Sem.Outcome(r, State()) == Sem.Expand(v, old(State()), fuel)
      decreases fuel, 2, 0, 0
    {
      var s := v;
      var f: nat := fuel;
      while true
        invariant f <= fuel
        invariant Sem.Expand(v, old(State()), fuel) == Sem.Expand(s, State(), f)
        decreases f
      {
        if f == 0 {
          return Abort(OutOfFuel);
        }
        var x, didStuff := ExpandPass(s, f - 1);
        if x.Abort? || !didStuff {
          return x;
        }
        s := x.value;
        f := f - 1;
      }
    }

    /** `expandMacros_`; the out-parameter stands for `*did_stuff`. */
    method ExpandPass(v: Value, fuel: nat) returns (r: Result<Value>, didStuff: bool)
      modifies this
      ensures Sem.Expansion(r, didStuff, State()) == Sem.ExpandPass(v, old(State()), fuel)
      decreases fuel, 1, VSize(v), 0
    {
      if !v.Pair? || v.car == Sym("quote") {
        return Ok(v), false;
      }
      if v.car.Sym? && v.car.name in macros {
        didStuff := true;
        var sc := macros[v.car.name];
        var args := ListToVector(v.cdr);
        if args.None? {
          return Abort(UndefinedBehaviour), true;
        }
        if fuel == 0 {
          return Abort(OutOfFuel), true;
        }
        r := ApplyClosure(sc, args.value, fuel - 1);
        return;
      }
      var a, didCar := ExpandPass(v.car, fuel);
      if a.Abort? {
        return a, didCar;
      }
      var d, didCdr := ExpandPass(v.cdr, fuel);
      if d.Abort? {
        return d, didCdr;
      }
      r := Ok(Pair(next, a.value, d.value));
      next := next + 1;
      didStuff := didCar || didCdr;
    }

    /** One datum of the driver loop: expand, analyse, run in the global frame. */
    method RunForm(v: Value, fuel: nat) returns (r: Result<Value>)
      modifies this
      ensures Sem.Outcome(r, State()) == Sem.RunForm(v, old(State()), fuel)
    {
      var x := Expand(v, fuel);
      if x.Abort? {
        return x;
      }
      var e := Analyze(x.value);
      if e.Abort? {
        return Abort(e.fault);
      }
      r := Eval(e.value, Sem.Global, fuel);
    }
  }
}
