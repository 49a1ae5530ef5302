/** Environment frames (`Frame`, `findFrame`, `lookup`) and the frame that
    `SchemeClosure::apply` fills for a call. A frame is an identity and a link to
    its parent; the name-to-value table of every frame lives in a store indexed
    by frame identity, so that a frame captured by several closures is one table,
    updated once for all of them. */
module Environment {
  import opened Common
  import opened Values

  /** The tables of all frames, by frame identity. */
  type Store = map<nat, map<string, Value>>

  /** The table of frame `id`; a frame that was never written is empty. */
  function Bindings(store: Store, id: nat): map<string, Value>
  {
    if id in store then store[id] else map[]
  }

  /** The frames that `findFrame` visits, innermost first. */
  function Chain(f: Frame): (c: seq<Frame>)
    ensures |c| >= 1 && c[0] == f
  {
    match f.next
    case None => [f]
    case Some(p) => [f] + Chain(p)
  }

  /** `Frame::findFrame`: the innermost frame on the chain whose table has `x`. */
  function FindFrame(store: Store, f: Frame, x: string): (r: Option<Frame>)
    ensures r.Some? ==> x in Bindings(store, r.value.id)
  {
    if x in Bindings(store, f.id) then Some(f)
    else match f.next
      case None => None
      case Some(p) => FindFrame(store, p, x)
  }

  /** `Frame::lookup`: the value in the frame that `findFrame` returns. */
  function Lookup(store: Store, f: Frame, x: string): Option<Value>
  {
    match FindFrame(store, f, x)
    case Some(g) => Some(Bindings(store, g.id)[x])
    case None => None
  }

  /** `findFrame` finds nothing exactly when no frame of the chain binds `x`, and
      otherwise the first frame of the chain that binds it. */
  lemma FindFrameNearest(store: Store, f: Frame, x: string)
    ensures FindFrame(store, f, x).None? <==>
      forall k :: 0 <= k < |Chain(f)| ==> x !in Bindings(store, Chain(f)[k].id)
    ensures FindFrame(store, f, x).Some? ==>
      exists k :: 0 <= k < |Chain(f)| && Chain(f)[k] == FindFrame(store, f, x).value
        && forall j :: 0 <= j < k ==> x !in Bindings(store, Chain(f)[j].id)
  {
    FindFrameNone(store, f, x);
    if FindFrame(store, f, x).Some? {
      var k := FindFrameFirst(store, f, x);
    }
  }

  /** The chain of a frame with a parent is the frame, then the parent's chain. */
  lemma ChainStep(f: Frame)
    requires f.next.Some?
    ensures Chain(f) == [f] + Chain(f.next.value)
    ensures |Chain(f)| == |Chain(f.next.value)| + 1
    ensures forall k :: 0 <= k < |Chain(f.next.value)| ==> Chain(f)[k + 1] == Chain(f.next.value)[k]
  {
  }

  lemma {:induction false} FindFrameNone(store: Store, f: Frame, x: string)
    ensures FindFrame(store, f, x).None? <==>
      forall k :: 0 <= k < |Chain(f)| ==> x !in Bindings(store, Chain(f)[k].id)
  {
    match f.next
    case None =>
      assert Chain(f) == [f];
    case Some(p) =>
      FindFrameNone(store, p, x);
      ChainStep(f);
      assert Chain(f)[0] == f;
      if x !in Bindings(store, f.id) {
        forall k | 0 <= k < |Chain(f)| && FindFrame(store, f, x).None?
          ensures x !in Bindings(store, Chain(f)[k].id)
        {
          if k > 0 {
            assert Chain(f)[k] == Chain(p)[k - 1];
          }
        }
      }
  }

  /** The position on the chain of the frame that `findFrame` returns. */
  lemma {:induction false} FindFrameFirst(store: Store, f: Frame, x: string) returns (k: nat)
    requires FindFrame(store, f, x).Some?
    ensures k < |Chain(f)| && Chain(f)[k] == FindFrame(store, f, x).value
    ensures forall j :: 0 <= j < k ==> x !in Bindings(store, Chain(f)[j].id)
  {
    if x in Bindings(store, f.id) {
      k := 0;
    } else {
      var p := f.next.value;
      var k' := FindFrameFirst(store, p, x);
      ChainStep(f);
      k := k' + 1;
      forall j | 0 <= j < k ensures x !in Bindings(store, Chain(f)[j].id) {
        if j > 0 {
          assert Chain(f)[j] == Chain(p)[j - 1];
        }
      }
    }
  }

  /** `(*env)[x] = v`, the assignment a `define` performs on the current frame. */
  function DefineIn(store: Store, f: Frame, x: string, v: Value): Store
  {
    store[f.id := Bindings(store, f.id)[x := v]]
  }

  /** A definition is seen first from its own frame, changes no other frame, and
      changes no other name of its frame. */
  lemma DefineOnlyCurrentFrame(store: Store, f: Frame, x: string, v: Value)
    ensures Lookup(DefineIn(store, f, x, v), f, x) == Some(v)
    ensures forall id :: id != f.id ==> Bindings(DefineIn(store, f, x, v), id) == Bindings(store, id)
    ensures forall y :: y != x && y in Bindings(store, f.id) ==>
      y in Bindings(DefineIn(store, f, x, v), f.id) && Bindings(DefineIn(store, f, x, v), f.id)[y] == Bindings(store, f.id)[y]
    ensures Bindings(DefineIn(store, f, x, v), f.id).Keys == Bindings(store, f.id).Keys + {x}
  {
  }

  /** The argument for parameter position `i`, or `()` when the call is short of arguments. */
  function ArgAt(args: seq<Value>, i: nat): Value
  {
    if i < |args| then args[i] else Nil
  }

  /** The table after the loop of `SchemeClosure::apply` over the fixed parameter
      names: each name in turn is bound to its positional argument, so a name that
      occurs twice keeps the later binding. */
  function BindFixed(params: seq<string>, args: seq<Value>): map<string, Value>
  {
    if params == [] then map[]
    else BindFixed(params[..|params| - 1], args)[params[|params| - 1] := ArgAt(args, |params| - 1)]
  }

  /** The new frame's table: the fixed parameters, then the rest parameter bound to
      a fresh list of the surplus arguments (or `()`). Cells of that list take the
      identities from `next` on. */
  function CallFrame(params: seq<string>, rest: Option<string>, args: seq<Value>, next: nat): map<string, Value>
  {
    var m := BindFixed(params, args);
    match rest
    case None => m
    case Some(r) => m[r := if |params| < |args| then ListFrom(args[|params|..], next) else Nil]
  }

  /** The number of cells of the rest list a call allocates. */
  function RestCells(params: seq<string>, rest: Option<string>, args: seq<Value>): nat
  {
    if rest.Some? && |params| < |args| then |args| - |params| else 0
  }

  predicate Distinct(xs: seq<string>)
  {
    forall i, j :: 0 <= i < j < |xs| ==> xs[i] != xs[j]
  }

  /** Fixed parameters bind positionally; one without an argument binds to `()`. */
  lemma BindFixedPositional(params: seq<string>, args: seq<Value>)
    requires Distinct(params)
    ensures BindFixed(params, args).Keys == set x | x in params
    ensures forall k :: 0 <= k < |params| ==> BindFixed(params, args)[params[k]] == ArgAt(args, k)
  {
    BindFixedKeys(params, args);
    BindFixedValues(params, args);
  }

  lemma {:induction false} BindFixedKeys(params: seq<string>, args: seq<Value>)
    ensures BindFixed(params, args).Keys == set x | x in params
  {
    if params != [] {
      var init := params[..|params| - 1];
      BindFixedKeys(init, args);
      assert params == init + [params[|params| - 1]];
      assert (set x | x in params) == (set x | x in init) + {params[|params| - 1]};
    }
  }

  lemma {:induction false} BindFixedValues(params: seq<string>, args: seq<Value>)
    requires Distinct(params)
    ensures forall k :: 0 <= k < |params| ==> params[k] in BindFixed(params, args)
    ensures forall k :: 0 <= k < |params| ==> BindFixed(params, args)[params[k]] == ArgAt(args, k)
  {
    if params != [] {
      var n := |params| - 1;
      var init := params[..n];
      assert forall k :: 0 <= k < n ==> init[k] == params[k];
      BindFixedValues(init, args);
      forall k | 0 <= k < n
        ensures params[k] in BindFixed(params, args) && BindFixed(params, args)[params[k]] == ArgAt(args, k)
      {
        assert params[k] != params[n];
        assert init[k] == params[k];
      }
    }
  }

  /** A repeated parameter name, as in `(lambda (x x) …)`, is bound by its last
      position: each position writes the frame in turn, so the last one wins. */
  lemma {:induction false} BindFixedLastWins(params: seq<string>, args: seq<Value>, k: nat)
    requires k < |params|
    requires forall j :: k < j < |params| ==> params[j] != params[k]
    ensures params[k] in BindFixed(params, args) && BindFixed(params, args)[params[k]] == ArgAt(args, k)
    decreases |params|
  {
    var n := |params| - 1;
    if k < n {
      var init := params[..n];
      assert init[k] == params[k];
      assert forall j :: k < j < |init| ==> init[j] == params[j];
      BindFixedLastWins(init, args, k);
      assert params[n] != params[k];
    }
  }

  /** `((lambda (x x) x) 1 2)` binds `x` to 2. */
  lemma RepeatedParameter(a: Value, b: Value)
    ensures BindFixed(["x", "x"], [a, b]) == map["x" := b]
  {
    assert ["x"][..0] == [];
    assert BindFixed(["x"], [a, b]) == map["x" := a];
    assert ["x", "x"][..1] == ["x"];
    assert BindFixed(["x", "x"], [a, b]) == map["x" := a]["x" := b];
  }

  /** The whole effect of binding a call: exactly the parameter names are bound
      (surplus arguments without a rest parameter are dropped), fixed ones by
      position, and the rest parameter to the surplus as a proper list in
      argument order, or `()` when there is no surplus. */
  lemma CallFrameBinds(params: seq<string>, rest: Option<string>, args: seq<Value>, next: nat)
    requires Distinct(params) && (rest.Some? ==> rest.value !in params)
    ensures var m := CallFrame(params, rest, args, next);
      && m.Keys == (set x | x in params) + (if rest.Some? then {rest.value} else {})
      && (forall k :: 0 <= k < |params| ==> m[params[k]] == ArgAt(args, k))
      && (rest.Some? ==> ListToSeq(m[rest.value]) == Some(if |params| < |args| then args[|params|..] else []))
  {
    BindFixedPositional(params, args);
    if rest.Some? && |params| < |args| {
      ListFromToSeq(args[|params|..], next);
    }
  }
}
