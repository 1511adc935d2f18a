/** The step-2 evaluator as pure functions: a list is evaluated by
    evaluating every element, head included, left to right, and then
    applying the head if it is a primitive. The environment is only read. */
module Step2Spec {
  import opened Types
  import Env
  import Core

  /** `eval_ast`: a symbol is looked up, a list has each element
      evaluated, anything else evaluates to itself. */
  function EvalAst(ast: Value, st: seq<Env.Frame>, env: nat): (r: Result<Value>)
    requires Env.Linked(st) && env < |st|
    ensures ast.List? && r.Ok? ==> r.value.List? && |r.value.elems| == |ast.elems|
    decreases ast, 1
  {
    match ast
    case Symbol(s) => Env.Get(st, env, s)
    case List(vs) =>
      (match EvalList(vs, st, env)
       case Ok(es) => Ok(List(es))
       case Err(e) => Err(e))
    case _ => Ok(ast)
  }

  /** The loop of `eval_ast` over a list: the results of evaluating each
      element in order, or the first error. */
  function EvalList(vs: seq<Value>, st: seq<Env.Frame>, env: nat): (r: Result<seq<Value>>)
    requires Env.Linked(st) && env < |st|
    ensures r.Ok? ==> |r.value| == |vs|
    decreases vs, 0
  {
    if vs == [] then Ok([])
    else
      match EvalList(vs[..|vs| - 1], st, env)
      case Err(e) => Err(e)
      case Ok(es) =>
        match Eval(vs[|vs| - 1], st, env)
        case Err(e) => Err(e)
        case Ok(v) => Ok(es + [v])
  }

  /** `eval`. */
  function Eval(ast: Value, st: seq<Env.Frame>, env: nat): Result<Value>
    requires Env.Linked(st) && env < |st|
    decreases ast, 2
  {
    if ast.List? then
      var r := EvalAst(ast, st, env);
      if r.Err? then Err(r.error)
      else
        var values := r.value.elems;
        if values == [] then Err(EmptyApplication)
        else if values[0].Func? then Core.Apply(values[0].prim, values[1..])
        else Err(NotAFunction(values[0]))
    else EvalAst(ast, st, env)
  }

  // ---------------------------------------------------------------------
  // Properties

  /** A symbol evaluates to its binding and any other value that is not a
      list evaluates to itself. */
  lemma EvalNonList(ast: Value, st: seq<Env.Frame>, env: nat)
    requires Env.Linked(st) && env < |st| && !ast.List?
    ensures ast.Symbol? ==> Eval(ast, st, env) == Env.Get(st, env, ast.name)
    ensures !ast.Symbol? ==> Eval(ast, st, env) == Ok(ast)
  {
  }

  /** Evaluating a list of elements succeeds exactly when every element
      evaluates, and then yields their values in order; otherwise it
      yields the error of the first element that fails. */
  lemma {:induction false} EvalListOrder(vs: seq<Value>, st: seq<Env.Frame>, env: nat)
    requires Env.Linked(st) && env < |st|
    ensures EvalList(vs, st, env).Ok? <==> forall i | 0 <= i < |vs| :: Eval(vs[i], st, env).Ok?
    ensures EvalList(vs, st, env).Ok? ==>
              forall i | 0 <= i < |vs| :: EvalList(vs, st, env).value[i] == Eval(vs[i], st, env).value
    ensures EvalList(vs, st, env).Err? ==>
              exists k | 0 <= k < |vs| ::
                Eval(vs[k], st, env) == Err(EvalList(vs, st, env).error)
                && forall j | 0 <= j < k :: Eval(vs[j], st, env).Ok?
    decreases |vs|
  {
    if vs != [] {
      var n := |vs| - 1;
      var init := vs[..n];
      EvalListOrder(init, st, env);
      assert forall i | 0 <= i < n :: init[i] == vs[i];
      var r := EvalList(init, st, env);
      if r.Err? {
        var k :| 0 <= k < n && Eval(init[k], st, env) == Err(r.error)
                 && forall j | 0 <= j < k :: Eval(init[j], st, env).Ok?;
        assert Eval(vs[k], st, env) == Err(EvalList(vs, st, env).error);
      } else if Eval(vs[n], st, env).Err? {
        assert Eval(vs[n], st, env) == Err(EvalList(vs, st, env).error);
      }
    }
  }

  /** Application: every element of a non-empty list, head included, is
      evaluated before the head is inspected; a primitive head is applied
      to the values of the rest, any other head is not a function, and the
      empty list cannot be applied. */
  lemma Application(vs: seq<Value>, st: seq<Env.Frame>, env: nat)
    requires Env.Linked(st) && env < |st|
    ensures vs == [] ==> Eval(List(vs), st, env) == Err(EmptyApplication)
    ensures EvalList(vs, st, env).Err? ==> Eval(List(vs), st, env) == Err(EvalList(vs, st, env).error)
    ensures EvalList(vs, st, env).Ok? && vs != [] ==>
              var es := EvalList(vs, st, env).value;
              Eval(List(vs), st, env) ==
                if es[0].Func? then Core.Apply(es[0].prim, es[1..]) else Err(NotAFunction(es[0]))
  {
    var l := EvalList(vs, st, env);
    assert EvalAst(List(vs), st, env) == if l.Ok? then Ok(List(l.value)) else Err(l.error);
  }

  /** Even when the head evaluates to something that is not a function, an
      argument that fails to evaluate is reported instead. */
  lemma ArgumentErrorsComeFirst(head: Value, arg: Value, st: seq<Env.Frame>, env: nat)
    requires Env.Linked(st) && env < |st|
    requires Eval(head, st, env).Ok? && !Eval(head, st, env).value.Func?
    requires Eval(arg, st, env).Err?
    ensures Eval(List([head, arg]), st, env) == Eval(arg, st, env)
  {
    EvalListOrder([head, arg], st, env);
    Application([head, arg], st, env);
  }
}

/** The step-2 evaluator as the source writes it: recursive methods whose
    list case is a loop pushing each evaluated element. */
module Step2 {
  import opened Types
  import Env
  import Core
  import Spec = Step2Spec

  method EvalAst(store: Env.Store, ast: Value, env: nat) returns (r: Result<Value>)
    requires store.Valid() && env < |store.frames|
    ensures r == Spec.EvalAst(ast, store.frames, env)
    decreases ast, 1
  {
    match ast
    case Symbol(s) =>
      r := Env.Get(store.frames, env, s);
    case List(values) =>
      var evalues: seq<Value> := [];
      for i := 0 to |values|
        invariant Spec.EvalList(values[..i], store.frames, env) == Ok(evalues)
      {
        var v := Eval(store, values[i], env);
        assert values[..i + 1][..i] == values[..i];
        if v.Err? {
          EvalListErrorStays(values, i + 1, store.frames, env);
          return Err(v.error);
        }
        evalues := evalues + [v.value];
      }
      assert values[..|values|] == values;
      r := Ok(List(evalues));
    case _ =>
      r := Ok(ast);
  }

  /** Once a prefix of the elements fails, the whole list fails with the
      same error. */
  lemma {:induction false} EvalListErrorStays(vs: seq<Value>, i: nat, st: seq<Env.Frame>, env: nat)
    requires Env.Linked(st) && env < |st| && i <= |vs|
    requires Spec.EvalList(vs[..i], st, env).Err?
    ensures Spec.EvalList(vs, st, env) == Spec.EvalList(vs[..i], st, env)
    decreases |vs| - i
  {
    if i < |vs| {
      assert vs[..i + 1][..i] == vs[..i];
      EvalListErrorStays(vs, i + 1, st, env);
    } else {
      assert vs[..i] == vs;
    }
  }

  method Eval(store: Env.Store, ast: Value, env: nat) returns (r: Result<Value>)
    requires store.Valid() && env < |store.frames|
    ensures r == Spec.Eval(ast, store.frames, env)
    decreases ast, 2
  {
    if ast.List? {
      var evaluated := EvalAst(store, ast, env);
      if evaluated.Err? {
        return Err(evaluated.error);
      }
      var values := evaluated.value.elems;
      if values == [] {
        return Err(EmptyApplication);
      }
      var args := values[1..];
      if values[0].Func? {
        r := Core.Call(values[0].prim, args);
      } else {
        r := Err(NotAFunction(values[0]));
      }
    } else {
      r := EvalAst(store, ast, env);
    }
  }
}
