/** The step-3 evaluator as pure functions over the arena: `def!` binds in
    the current frame, `let*` evaluates its body in a new child frame
    filled by `set_bindings`, and any other list applies a primitive. */
module Step3Spec {
  import opened Types
  import opened Env
  import Core

  /** `eval_ast`. */
  function EvalAst(ast: Value, st: seq<Frame>, env: nat): (o: Outcome<Value>)
    requires Linked(st) && env < |st|
    ensures Linked(o.frames) && Confined(st, o.frames, env)
    ensures ast.List? && o.result.Ok? ==> o.result.value.List? && |o.result.value.elems| == |ast.elems|
    decreases ast, 1
  {
    match ast
    case Symbol(s) => Outcome(Get(st, env, s), st)
    case List(vs) =>
      var o := EvalList(vs, st, env);
      Outcome(if o.result.Ok? then Ok(List(o.result.value)) else Err(o.result.error), o.frames)
    case _ => Outcome(Ok(ast), st)
  }

  /** The elements evaluated in order, each in the arena the previous one
      left, stopping at the first error. */
  function EvalList(vs: seq<Value>, st: seq<Frame>, env: nat): (o: Outcome<seq<Value>>)
    requires Linked(st) && env < |st|
    ensures Linked(o.frames) && Confined(st, o.frames, env)
    ensures o.result.Ok? ==> |o.result.value| == |vs|
    decreases vs, 0
  {
    if vs == [] then Outcome(Ok([]), st)
    else
      var p := EvalList(vs[..|vs| - 1], st, env);
      if p.result.Err? then p
      else
        var q := Eval(vs[|vs| - 1], p.frames, env);
        ConfinedThen(st, p.frames, q.frames, env, env);
        Outcome(if q.result.Ok? then Ok(p.result.value + [q.result.value]) else Err(q.result.error), q.frames)
  }

  /** `set_bindings`: pairs of a symbol and an expression, each expression
      evaluated in the frame being filled and bound there before the next
      pair is read. */
  function SetBindings(bs: seq<Value>, st: seq<Frame>, env: nat): (o: Outcome<Value>)
    requires Linked(st) && env < |st|
    ensures Linked(o.frames) && Confined(st, o.frames, env)
    ensures o.result.Ok? ==> o.result.value == Nil
    decreases bs, 0
  {
    if bs == [] then Outcome(Ok(Nil), st)
    else if |bs| == 1 then Outcome(Err(OddBindings), st)
    else if !bs[0].Symbol? then Outcome(Err(BindingKeyNotSymbol), st)
    else
      var o := Eval(bs[1], st, env);
      if o.result.Err? then o
      else
        var st1 := SetIn(o.frames, env, bs[0].name, o.result.value);
        ConfinedSet(o.frames, env, bs[0].name, o.result.value);
        ConfinedThen(st, o.frames, st1, env, env);
        var r := SetBindings(bs[2..], st1, env);
        ConfinedThen(st, st1, r.frames, env, env);
        r
  }

  /** `eval`. */
  function Eval(ast: Value, st: seq<Frame>, env: nat): (o: Outcome<Value>)
    requires Linked(st) && env < |st|
    ensures Linked(o.frames) && Confined(st, o.frames, env)
    decreases ast, 2
  {
    if !ast.List? then EvalAst(ast, st, env)
    else if ast.elems == [] then Outcome(Err(EmptyApplication), st)
    else
      var head, args := ast.elems[0], ast.elems[1..];
      if head == Symbol("def!") then
        if |args| == 2 && args[0].Symbol? then
          var o := Eval(args[1], st, env);
          if o.result.Err? then o
          else
            ConfinedSet(o.frames, env, args[0].name, o.result.value);
            Outcome(o.result, SetIn(o.frames, env, args[0].name, o.result.value))
        else Outcome(Err(MalformedDef), st)
      else if head == Symbol("let*") then
        if |args| >= 1 && args[0].List? then
          var child := |st|;
          var st1 := st + [Frame(map[], Some(env))];
          var o := SetBindings(args[0].elems, st1, child);
          ConfinedThen(st, st1, o.frames, env, child);
          if o.result.Err? then o
          else if |args| >= 2 then
            var b := Eval(args[1], o.frames, child);
            ConfinedThen(st, o.frames, b.frames, env, child);
            b
          else Outcome(Err(LetMissingBody), o.frames)
        else Outcome(Err(LetBindingsNotList), st)
      else
        var h := EvalAst(head, st, env);
        if h.result.Err? then h
        else if h.result.value.Func? then
          var a := EvalList(args, h.frames, env);
          ConfinedThen(st, h.frames, a.frames, env, env);
          Outcome(if a.result.Ok? then Core.Apply(h.result.value.prim, a.result.value) else Err(a.result.error),
                  a.frames)
        else Outcome(Err(NotAFunction(h.result.value)), h.frames)
  }

  // ---------------------------------------------------------------------
  // Properties

  function Form(head: string, args: seq<Value>): Value {
    List([Symbol(head)] + args)
  }

  /** `(def! s e)` evaluates `e`, returns its value and binds it in the
      current frame; any other shape binds nothing and fails. */
  lemma Def(args: seq<Value>, st: seq<Frame>, env: nat)
    requires Linked(st) && env < |st|
    ensures var o := Eval(Form("def!", args), st, env);
            if |args| == 2 && args[0].Symbol? then
              var e := Eval(args[1], st, env);
              o.result == e.result
              && (e.result.Ok? ==> o.frames == SetIn(e.frames, env, args[0].name, e.result.value)
                                   && Get(o.frames, env, args[0].name) == e.result)
            else o == Outcome(Err(MalformedDef), st)
  {
    var f := Form("def!", args);
    assert f.elems[1..] == args;
    if |args| == 2 && args[0].Symbol? {
      var e := Eval(args[1], st, env);
      if e.result.Ok? {
        SetThenGet(e.frames, env, args[0].name, e.result.value, args[0].name);
      }
    }
  }

  /** `let*` takes a List of bindings (a Vector is refused); its bindings
      and body go into one new child frame of the current one, so every
      frame that existed before, the current one included, is left as it
      was; with the bindings in place, a missing body is an error. */
  lemma Let(args: seq<Value>, st: seq<Frame>, env: nat)
    requires Linked(st) && env < |st|
    ensures var o := Eval(Form("let*", args), st, env);
            && (|args| == 0 || !args[0].List? ==> o == Outcome(Err(LetBindingsNotList), st))
            && (|args| >= 1 && args[0].List? ==>
                  var s := SetBindings(args[0].elems, st + [Frame(map[], Some(env))], |st|);
                  && o.frames[..|st|] == st
                  && o.frames[|st|].outer == Some(env)
                  && (s.result.Err? ==> o == s)
                  && (s.result.Ok? && |args| == 1 ==> o == Outcome(Err(LetMissingBody), s.frames))
                  && (s.result.Ok? && |args| >= 2 ==> o == Eval(args[1], s.frames, |st|)))
  {
    var f := Form("let*", args);
    assert f.elems[1..] == args;
    if |args| >= 1 && args[0].List? {
      var o := Eval(f, st, env);
      assert forall j | 0 <= j < |st| :: o.frames[j] == st[j];
    }
  }

  /** `set_bindings` evaluates pairs in order in the frame being filled,
      so a later binding sees an earlier one: `(let* (a 1 b a) b)` is 1. */
  lemma LaterBindingsSeeEarlier(st: seq<Frame>, env: nat)
    requires Linked(st) && env < |st|
    ensures Eval(Form("let*", [List([Symbol("a"), Integer(1), Symbol("b"), Symbol("a")]), Symbol("b")]), st, env).result
            == Ok(Integer(1))
  {
    var bs := [Symbol("a"), Integer(1), Symbol("b"), Symbol("a")];
    var args := [List(bs), Symbol("b")];
    var st1 := st + [Frame(map[], Some(env))];
    var c := |st|;
    var st2 := SetIn(st1, c, "a", Integer(1));
    var st3 := SetIn(st2, c, "b", Integer(1));
    assert SetBindings(bs, st1, c) == SetBindings([Symbol("b"), Symbol("a")], st2, c) by {
      assert bs == [Symbol("a"), Integer(1)] + [Symbol("b"), Symbol("a")];
      assert Eval(Integer(1), st1, c) == Outcome(Ok(Integer(1)), st1);
      SetBindingsPair("a", Integer(1), [Symbol("b"), Symbol("a")], st1, c);
    }
    assert SetBindings([Symbol("b"), Symbol("a")], st2, c) == SetBindings([], st3, c) by {
      SetThenGet(st1, c, "a", Integer(1), "a");
      assert Eval(Symbol("a"), st2, c) == Outcome(Ok(Integer(1)), st2);
      assert [Symbol("b"), Symbol("a")] == [Symbol("b"), Symbol("a")] + [];
      SetBindingsPair("b", Symbol("a"), [], st2, c);
    }
    assert Eval(Symbol("b"), st3, c).result == Ok(Integer(1)) by {
      SetThenGet(st2, c, "b", Integer(1), "b");
    }
    Let(args, st, env);
  }

  /** `set_bindings` evaluates a pair's expression and binds its value in
      the frame being filled before it reads the next pair. */
  lemma SetBindingsPair(name: string, e: Value, rest: seq<Value>, st: seq<Frame>, env: nat)
    requires Linked(st) && env < |st|
    ensures var o := Eval(e, st, env);
            && (o.result.Err? ==> SetBindings([Symbol(name), e] + rest, st, env) == o)
            && (o.result.Ok? ==>
                  SetBindings([Symbol(name), e] + rest, st, env)
                  == SetBindings(rest, SetIn(o.frames, env, name, o.result.value), env))
  {
    assert ([Symbol(name), e] + rest)[2..] == rest;
  }

  /** `set_bindings` refuses a non-symbol key and an unpaired trailing
      element, binding nothing for that pair. */
  lemma SetBindingsErrors(bs: seq<Value>, st: seq<Frame>, env: nat)
    requires Linked(st) && env < |st|
    ensures |bs| == 1 ==> SetBindings(bs, st, env) == Outcome(Err(OddBindings), st)
    ensures |bs| >= 2 && !bs[0].Symbol? ==> SetBindings(bs, st, env) == Outcome(Err(BindingKeyNotSymbol), st)
  {
  }

  /** The head must evaluate to a primitive, which is applied to the
      arguments evaluated left to right; anything else is not a function. */
  lemma Application(head: Value, args: seq<Value>, st: seq<Frame>, env: nat)
    requires Linked(st) && env < |st|
    requires head != Symbol("def!") && head != Symbol("let*")
    ensures var o := Eval(List([head] + args), st, env);
            var h := EvalAst(head, st, env);
            && (h.result.Err? ==> o == h)
            && (h.result.Ok? && !h.result.value.Func? ==> o == Outcome(Err(NotAFunction(h.result.value)), h.frames))
            && (h.result.Ok? && h.result.value.Func? ==>
                  var a := EvalList(args, h.frames, env);
                  o.frames == a.frames
                  && o.result == if a.result.Ok? then Core.Apply(h.result.value.prim, a.result.value)
                                 else Err(a.result.error))
  {
    assert ([head] + args)[1..] == args;
  }

  /** The empty list cannot be applied. */
  lemma EmptyApplicationFails(st: seq<Frame>, env: nat)
    requires Linked(st) && env < |st|
    ensures Eval(List([]), st, env) == Outcome(Err(EmptyApplication), st)
  {
  }
}

/** The step-3 evaluator as the source writes it: `eval_ast` and
    `set_bindings` are loops that update the shared arena in place. */
module Step3 {
  import opened Types
  import opened Env
  import Core
  import Spec = Step3Spec

  method EvalAst(store: Store, ast: Value, env: nat) returns (r: Result<Value>)
    requires store.Valid() && env < |store.frames|
    modifies store
    ensures store.Valid()
    ensures Outcome(r, store.frames) == Spec.EvalAst(ast, old(store.frames), env)
    decreases ast, 1
  {
    match ast
    case Symbol(s) =>
      r := Get(store.frames, env, s);
    case List(values) =>
      var evalues := EvalList(store, values, env);
      r := if evalues.Ok? then Ok(List(evalues.value)) else Err(evalues.error);
    case _ =>
      r := Ok(ast);
  }

  /** The push loop of `eval_ast`. */
  method EvalList(store: Store, values: seq<Value>, env: nat) returns (r: Result<seq<Value>>)
    requires store.Valid() && env < |store.frames|
    modifies store
    ensures store.Valid()
    ensures Outcome(r, store.frames) == Spec.EvalList(values, old(store.frames), env)
    decreases values, 0
  {
    ghost var st0 := store.frames;
    var evalues: seq<Value> := [];
    for i := 0 to |values|
      invariant store.Valid() && env < |store.frames|
      invariant Spec.EvalList(values[..i], st0, env) == Outcome(Ok(evalues), store.frames)
    {
      assert values[..i + 1][..i] == values[..i];
      var v := Eval(store, values[i], env);
      if v.Err? {
        EvalListErrorStays(values, i + 1, st0, env);
        return Err(v.error);
      }
      evalues := evalues + [v.value];
    }
    assert values[..|values|] == values;
    r := Ok(evalues);
  }

  lemma {:induction false} EvalListErrorStays(vs: seq<Value>, i: nat, st: seq<Frame>, env: nat)
    requires Linked(st) && env < |st| && i <= |vs|
    requires Spec.EvalList(vs[..i], st, env).result.Err?
    ensures Spec.EvalList(vs, st, env) == Spec.EvalList(vs[..i], st, env)
    decreases |vs| - i
  {
    if i < |vs| {
      assert vs[..i + 1][..i] == vs[..i];
      EvalListErrorStays(vs, i + 1, st, env);
    } else {
      assert vs[..i] == vs;
    }
  }

  /** `set_bindings`: takes the bindings two at a time. */
  method SetBindings(store: Store, bindings: seq<Value>, env: nat) returns (r: Result<Value>)
    requires store.Valid() && env < |store.frames|
    modifies store
    ensures store.Valid()
    ensures Outcome(r, store.frames) == Spec.SetBindings(bindings, old(store.frames), env)
    decreases bindings, 1
  {
    var i := 0;
    while true
      invariant i <= |bindings|
      invariant store.Valid() && env < |store.frames|
      invariant Spec.SetBindings(bindings[i..], store.frames, env)
                == Spec.SetBindings(bindings, old(store.frames), env)
      decreases |bindings| - i
    {
      var rest := bindings[i..];
      if rest == [] {
        return Ok(Nil);
      } else if |rest| == 1 {
        return Err(OddBindings);
      } else if !rest[0].Symbol? {
        return Err(BindingKeyNotSymbol);
      }
      var val := Eval(store, rest[1], env);
      if val.Err? {
        return Err(val.error);
      }
      store.Set(env, rest[0].name, val.value);
      assert rest[2..] == bindings[i + 2..];
      i := i + 2;
    }
  }

  method Eval(store: Store, ast: Value, env: nat) returns (r: Result<Value>)
    requires store.Valid() && env < |store.frames|
    modifies store
    ensures store.Valid()
    ensures Outcome(r, store.frames) == Spec.Eval(ast, old(store.frames), env)
    decreases ast, 2
  {
    if !ast.List? {
      r := EvalAst(store, ast, env);
      return;
    }
    var values := ast.elems;
    if values == [] {
      return Err(EmptyApplication);
    }
    var arg0, args := values[0], values[1..];
    if arg0 == Symbol("def!") {
      if |args| == 2 && args[0].Symbol? {
        var val := Eval(store, args[1], env);
        if val.Err? {
          return val;
        }
        store.Set(env, args[0].name, val.value);
        r := val;
      } else {
        r := Err(MalformedDef);
      }
    } else if arg0 == Symbol("let*") {
      if |args| >= 1 && args[0].List? {
        var letEnv := store.New(Some(env));
        var bound := SetBindings(store, args[0].elems, letEnv);
        if bound.Err? {
          return bound;
        }
        if |args| >= 2 {
          r := Eval(store, args[1], letEnv);
        } else {
          r := Err(LetMissingBody);
        }
      } else {
        r := Err(LetBindingsNotList);
      }
    } else {
      var f := EvalAst(store, arg0, env);
      if f.Err? {
        return f;
      }
      if f.value.Func? {
        var evaluated := EvalList(store, args, env);
        if evaluated.Err? {
          return Err(evaluated.error);
        }
        r := Core.Call(f.value.prim, evaluated.value);
      } else {
        r := Err(NotAFunction(f.value));
      }
    }
  }
}
