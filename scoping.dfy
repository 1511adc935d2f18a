/** The observable difference between the step-4 and step-5 evaluators on
    a function that reads a free variable: step 4 resolves it in the frame
    of the call, step 5 in the frame where the function was made. */
module Scoping {
  import opened Types
  import opened Env
  import Step4Spec
  import Step5Spec

  function FnX(): Value {
    List([Symbol("fn*"), List([]), Symbol("x")])
  }

  function Outer(a: Int64): Value {
    List([Symbol("x"), Integer(a), Symbol("f"), FnX()])
  }

  function Inner(b: Int64): Value {
    List([Symbol("let*"), List([Symbol("x"), Integer(b)]), List([Symbol("f")])])
  }

  /** `(let* (x a f (fn* () x)) (let* (x b) (f)))` */
  function Program(a: Int64, b: Int64): Value {
    List([Symbol("let*"), Outer(a), Inner(b)])
  }

  function Root(): seq<Frame> {
    [Frame(map[], None)]
  }

  /** The arena once the outer `let*` has bound `x` to `a` and `f` to
      `fv`. */
  function AfterOuter(a: Int64, fv: Value): seq<Frame> {
    [Frame(map[], None), Frame(map["x" := Integer(a), "f" := fv], Some(0))]
  }

  /** The arena once the inner `let*` has bound its `x` to `b`. */
  function AfterInner(a: Int64, b: Int64, fv: Value): seq<Frame> {
    AfterOuter(a, fv) + [Frame(map["x" := Integer(b)], Some(1))]
  }

  lemma OuterBindings4()
    ensures Step4Spec.SetBindings(Outer(1).elems, Root() + [Frame(map[], Some(0))], 1, 9)
            == Outcome(Ok(Nil), AfterOuter(1, Lambda([], Symbol("x"))))
  {
  }
  lemma InnerBindings4()
    ensures Step4Spec.SetBindings([Symbol("x"), Integer(2)], AfterOuter(1, Lambda([], Symbol("x"))) + [Frame(map[], Some(1))], 2, 8)
            == Outcome(Ok(Nil), AfterInner(1, 2, Lambda([], Symbol("x"))))
  {
  }

  lemma Call4()
    ensures Step4Spec.Eval(List([Symbol("f")]), AfterInner(1, 2, Lambda([], Symbol("x"))), 2, 8).result == Ok(Integer(2))
  {
    var st := AfterInner(1, 2, Lambda([], Symbol("x")));
    assert Get(st, 2, "f") == Ok(Lambda([], Symbol("x")));
    Step4Spec.LambdaFreeVariable("f", "x", st, 2, 8);
    assert Get(st, 2, "x") == Ok(Integer(2));
  }

  lemma OuterLet4()
    ensures Step4Spec.Eval(Program(1, 2), Root(), 0, 10) == Step4Spec.Eval(Inner(2), AfterOuter(1, Lambda([], Symbol("x"))), 1, 9)
  {
    assert Program(1, 2) == Step4Spec.Form("let*", [Outer(1), Inner(2)]);
    Step4Spec.Let([Outer(1), Inner(2)], Root(), 0, 10);
    OuterBindings4();
  }

  lemma InnerLet4()
    ensures Step4Spec.Eval(Inner(2), AfterOuter(1, Lambda([], Symbol("x"))), 1, 9)
            == Step4Spec.Eval(List([Symbol("f")]), AfterInner(1, 2, Lambda([], Symbol("x"))), 2, 8)
  {
    assert Inner(2) == Step4Spec.Form("let*", [List([Symbol("x"), Integer(2)]), List([Symbol("f")])]);
    Step4Spec.Let([List([Symbol("x"), Integer(2)]), List([Symbol("f")])], AfterOuter(1, Lambda([], Symbol("x"))), 1, 9);
    InnerBindings4();
  }

  /** In step 4 the call of `f` sees the `x` of the inner `let*`:
      `(let* (x 1 f (fn* () x)) (let* (x 2) (f)))` is 2. */
  lemma DynamicScopeInStep4()
    ensures Step4Spec.Eval(Program(1, 2), Root(), 0, 10).result == Ok(Integer(2))
  {
    OuterLet4();
    InnerLet4();
    Call4();
  }

  /** The step-5 value of `f`: a closure over the outer `let*` frame. */
  function Clo(): Value {
    Closure([], Symbol("x"), 1)
  }

  lemma AfterOuterScoped(a: Int64)
    ensures ScopedFrames(AfterOuter(a, Clo()))
  {
    assert Scoped(Clo(), 2);
  }

  lemma AfterInnerScoped(a: Int64, b: Int64)
    ensures ScopedFrames(AfterInner(a, b, Clo()))
  {
    AfterOuterScoped(a);
    ScopedPush(AfterOuter(a, Clo()), Frame(map["x" := Integer(b)], Some(1)));
  }

  lemma CallFormPre(a: Int64, b: Int64)
    ensures Step5Spec.FormPre("f", [], AfterInner(a, b, Clo()), 2)
  {
    AfterInnerScoped(a, b);
    assert List([Symbol("f")]) == Step5Spec.Form("f", []);
  }

  lemma Lookups(a: Int64, b: Int64)
    ensures Get(AfterInner(a, b, Clo()), 2, "f") == Ok(Clo())
    ensures Get(AfterInner(a, b, Clo()), 2, "x") == Ok(Integer(b))
    ensures Get(AfterInner(a, b, Clo()), 1, "x") == Ok(Integer(a))
  {
    var st := AfterInner(a, b, Clo());
    assert "f" !in st[2].symbols && st[2].outer == Some(1);
    assert st[1].symbols["f"] == Clo();
    assert st[1].symbols["x"] == Integer(a);
    assert st[2].symbols["x"] == Integer(b);
  }

  lemma NotSpecial()
    ensures !Step5Spec.SpecialForm("f")
  {
    assert "f"[0] == 'f';
    assert "f" != "def!" && "f" != "let*" && "f" != "do" && "f" != "if" && "f" != "fn*";
  }

  /** Calling `f` wherever it is bound to `Clo()` goes on with `x` in a
      frame that sees the `x` of frame 1. */
  lemma CallClo(st: seq<Frame>, a: Int64, fuel: nat)
    requires Step5Spec.FormPre("f", [], st, 2) && fuel >= 1
    requires Get(st, 2, "f") == Ok(Clo()) && Get(st, 1, "x") == Ok(Integer(a))
    ensures var st' := st + [Frame(map[], Some(1))];
            && Step5Spec.Step(Step5Spec.Form("f", []), st, 2, fuel) == Step5Spec.Stepped(Step5Spec.Continue(Symbol("x"), |st|), st')
            && Get(st', |st|, "x") == Ok(Integer(a))
  {
    NotSpecial();
    Step5Spec.ClosureFreeVariable("f", "x", 1, st, 2, fuel);
  }

  /** At the call of `f` in the inner `let*`, step 5 goes on in a new
      frame under the outer `let*` frame, so the `x` it goes on to
      evaluate is the outer one, although the caller's frame binds `x` to
      `b`. */
  lemma LexicalScopeInStep5(a: Int64, b: Int64, fuel: nat)
    requires fuel >= 1
    ensures Step5Spec.Pre(Step5Spec.Form("f", []), AfterInner(a, b, Clo()), 2)
    ensures var st := AfterInner(a, b, Clo());
            var st' := st + [Frame(map[], Some(1))];
            && Get(st, 2, "x") == Ok(Integer(b))
            && Step5Spec.Step(Step5Spec.Form("f", []), st, 2, fuel) == Step5Spec.Stepped(Step5Spec.Continue(Symbol("x"), 3), st')
            && Get(st', 3, "x") == Ok(Integer(a))
  {
    CallFormPre(a, b);
    Lookups(a, b);
    CallClo(AfterInner(a, b, Clo()), a, fuel);
  }

  // ---------------------------------------------------------------------
  // The step-5 program from its start

  /** A binding pair whose expression is neither a list nor a symbol binds
      the expression itself, and `set_bindings` goes on with the rest. */
  lemma BindAtom(k: string, v: Value, rest: seq<Value>, st: seq<Frame>, env: nat, fuel: nat)
    requires ScopedFrames(st) && env < |st| && fuel >= 1
    requires !v.List? && !v.Symbol? && Scoped(v, |st|) && AllScoped(rest, |st|)
    ensures AllScoped([Symbol(k), v] + rest, |st|)
    ensures ScopedFrames(SetIn(st, env, k, v)) && AllScoped(rest, |st|)
    ensures Step5Spec.SetBindings([Symbol(k), v] + rest, st, env, fuel)
            == Step5Spec.SetBindings(rest, SetIn(st, env, k, v), env, fuel)
  {
    var bs := [Symbol(k), v] + rest;
    assert bs[2..] == rest;
    assert AllScoped(bs, |st|) by {
      forall i | 0 <= i < |bs| ensures Scoped(bs[i], |st|) {
        if i >= 2 { assert bs[i] == rest[i - 2]; }
      }
    }
    Step5Spec.EvalNonList(v, st, env, fuel);
    Step5Spec.SetBindingsRules(bs, st, env, fuel);
  }

  /** A binding pair whose expression is `(fn* ps body)` binds a closure
      over the frame being filled, and `set_bindings` goes on with the
      rest. */
  lemma BindFn(k: string, ps: seq<Value>, body: Value, rest: seq<Value>, st: seq<Frame>, env: nat, fuel: nat)
    requires ScopedFrames(st) && env < |st| && fuel >= 1
    requires AllScoped(ps, |st|) && Scoped(body, |st|) && AllScoped(rest, |st|)
    ensures AllScoped([Symbol(k), Step5Spec.Form("fn*", [List(ps), body])] + rest, |st|)
    ensures ScopedFrames(SetIn(st, env, k, Closure(ps, body, env))) && AllScoped(rest, |st|)
    ensures Step5Spec.SetBindings([Symbol(k), Step5Spec.Form("fn*", [List(ps), body])] + rest, st, env, fuel)
            == Step5Spec.SetBindings(rest, SetIn(st, env, k, Closure(ps, body, env)), env, fuel)
  {
    var fnArgs := [List(ps), body];
    var v := Step5Spec.Form("fn*", fnArgs);
    assert AllScoped(fnArgs, |st|) by {
      assert Scoped(List(ps), |st|);
    }
    Step5Spec.FormScoped("fn*", fnArgs, |st|);
    var bs := [Symbol(k), v] + rest;
    assert bs[2..] == rest;
    assert AllScoped(bs, |st|) by {
      forall i | 0 <= i < |bs| ensures Scoped(bs[i], |st|) {
        if i >= 2 { assert bs[i] == rest[i - 2]; }
      }
    }
    Step5Spec.Fn(fnArgs, st, env, fuel);
    Step5Spec.SetBindingsRules(bs, st, env, fuel);
  }

  /** A turn that goes on with a symbol: `eval` answers that symbol's
      binding in the frame the turn goes on in. */
  lemma CallGoesOn(ast: Value, st: seq<Frame>, env: nat, fuel: nat, x: string, st': seq<Frame>, env': nat)
    requires Step5Spec.Pre(ast, st, env) && fuel >= 2
    requires Step5Spec.Step(ast, st, env, fuel - 1) == Step5Spec.Stepped(Step5Spec.Continue(Symbol(x), env'), st')
    ensures Step5Spec.Eval(ast, st, env, fuel).result == Get(st', env', x)
  {
    Step5Spec.TurnGoesOn(ast, st, env, fuel, Symbol(x), st', env');
    var k := fuel - 1;
    Step5Spec.EvalNonList(Symbol(x), st', env', k);
  }

  /** A call of a closure of no parameters whose body is the symbol `x`
      answers the binding of `x` seen from the frame the closure
      captured. */
  lemma ClosureCallAnswers(name: string, x: string, captured: nat, st: seq<Frame>, env: nat, fuel: nat)
    requires Step5Spec.FormPre(name, [], st, env) && fuel >= 2 && !Step5Spec.SpecialForm(name)
    requires Get(st, env, name) == Ok(Closure([], Symbol(x), captured))
    ensures Step5Spec.Pre(Step5Spec.Form(name, []), st, env) && captured < |st|
    ensures Step5Spec.Eval(Step5Spec.Form(name, []), st, env, fuel).result == Get(st, captured, x)
  {
    var k := fuel - 1;
    Step5Spec.ClosureFreeVariable(name, x, captured, st, env, k);
    CallGoesOn(Step5Spec.Form(name, []), st, env, fuel, x, st + [Frame(map[], Some(captured))], |st|);
  }

  /** What `set_bindings` needs to fill a new child of `env` with the
      pairs of `bindings`. */
  predicate BindingsReady(bindings: Value, st: seq<Frame>, env: nat) {
    IsSequence(bindings) && ScopedFrames(st + [Frame(map[], Some(env))]) && AllScoped(bindings.elems, |st| + 1)
  }

  /** A `let*` whose bindings succeed goes on with its body in the
      arena they leave, in the new frame `child`. */
  lemma LetGoesOn(ast: Value, bindings: Value, body: Value, st: seq<Frame>, env: nat, fuel: nat, k: nat, child: nat, st': seq<Frame>)
    requires ast == Step5Spec.Form("let*", [bindings, body]) && child == |st| && k >= 1 && fuel == k + 1
    requires Step5Spec.FormPre("let*", [bindings, body], st, env) && BindingsReady(bindings, st, env)
    requires Step5Spec.SetBindings(bindings.elems, st + [Frame(map[], Some(env))], child, k) == Outcome(Ok(Nil), st')
    ensures Step5Spec.Pre(ast, st, env) && Step5Spec.Pre(body, st', child)
    ensures Step5Spec.Eval(ast, st, env, fuel) == Step5Spec.Eval(body, st', child, k)
  {
    Step5Spec.Let([bindings, body], st, env, fuel);
  }

  lemma OuterReady(a: Int64)
    ensures BindingsReady(Outer(a), Root(), 0)
  {
    ScopedPush(Root(), Frame(map[], Some(0)));
    assert Scoped(FnX(), 1);
    assert AllScoped(Outer(a).elems, 1);
    AllScopedMono(Outer(a).elems, 1, 2);
  }

  /** The pairs of the outer `let*` after `x`: `f` and its `fn*`. */
  function OuterRest(): seq<Value> {
    [Symbol("f"), Step5Spec.Form("fn*", [List([]), Symbol("x")])]
  }

  /** The first pair of the outer `let*` binds `x` to `a`. */
  lemma OuterFirstPair(a: Int64, fuel: nat)
    requires fuel >= 1
    ensures ScopedFrames(SetIn(Root() + [Frame(map[], Some(0))], 1, "x", Integer(a))) && AllScoped(OuterRest(), 2)
    ensures Step5Spec.SetBindings(Outer(a).elems, Root() + [Frame(map[], Some(0))], 1, fuel)
            == Step5Spec.SetBindings(OuterRest(), SetIn(Root() + [Frame(map[], Some(0))], 1, "x", Integer(a)), 1, fuel)
  {
    OuterReady(a);
    assert FnX() == Step5Spec.Form("fn*", [List([]), Symbol("x")]);
    assert Outer(a).elems == [Symbol("x"), Integer(a)] + OuterRest();
    assert AllScoped(OuterRest(), 2) by { assert Scoped(FnX(), 2); }
    BindAtom("x", Integer(a), OuterRest(), Root() + [Frame(map[], Some(0))], 1, fuel);
  }

  /** The second pair of the outer `let*` binds `f` to a closure over the
      frame being filled. */
  lemma OuterSecondPair(a: Int64, fuel: nat)
    requires fuel >= 1
    requires ScopedFrames(SetIn(Root() + [Frame(map[], Some(0))], 1, "x", Integer(a)))
    ensures Step5Spec.SetBindings(OuterRest(), SetIn(Root() + [Frame(map[], Some(0))], 1, "x", Integer(a)), 1, fuel)
            == Outcome(Ok(Nil), AfterOuter(a, Clo()))
  {
    var st2 := SetIn(Root() + [Frame(map[], Some(0))], 1, "x", Integer(a));
    assert OuterRest() == [Symbol("f"), Step5Spec.Form("fn*", [List([]), Symbol("x")])] + [];
    BindFn("f", [], Symbol("x"), [], st2, 1, fuel);
    assert SetIn(st2, 1, "f", Clo()) == AfterOuter(a, Clo());
  }

  /** The outer `let*`'s bindings in step 5: `x` is bound to `a` and `f`
      to a closure over the frame being filled. */
  lemma OuterBindings5(a: Int64, fuel: nat)
    requires fuel >= 1
    ensures BindingsReady(Outer(a), Root(), 0)
    ensures Step5Spec.SetBindings(Outer(a).elems, Root() + [Frame(map[], Some(0))], 1, fuel)
            == Outcome(Ok(Nil), AfterOuter(a, Clo()))
  {
    OuterReady(a);
    OuterFirstPair(a, fuel);
    OuterSecondPair(a, fuel);
  }

  /** The inner `let*`'s binding in step 5: `x` is `b` in a child of the
      outer `let*`'s frame. */
  lemma InnerBindings5(a: Int64, b: Int64, fuel: nat)
    requires fuel >= 1
    ensures BindingsReady(List([Symbol("x"), Integer(b)]), AfterOuter(a, Clo()), 1)
    ensures Step5Spec.SetBindings([Symbol("x"), Integer(b)], AfterOuter(a, Clo()) + [Frame(map[], Some(1))], 2, fuel)
            == Outcome(Ok(Nil), AfterInner(a, b, Clo()))
  {
    AfterOuterScoped(a);
    var st1 := AfterOuter(a, Clo()) + [Frame(map[], Some(1))];
    ScopedPush(AfterOuter(a, Clo()), Frame(map[], Some(1)));
    assert [Symbol("x"), Integer(b)] == [Symbol("x"), Integer(b)] + [];
    BindAtom("x", Integer(b), [], st1, 2, fuel);
    assert SetIn(st1, 2, "x", Integer(b)) == AfterInner(a, b, Clo());
  }

  /** What the outer `let*` needs to be evaluated in the root frame. */
  lemma OuterLetPre(a: Int64, b: Int64)
    ensures Program(a, b) == Step5Spec.Form("let*", [Outer(a), Inner(b)])
    ensures Step5Spec.FormPre("let*", [Outer(a), Inner(b)], Root(), 0)
  {
    assert Scoped(FnX(), 1);
    assert Scoped(Outer(a), 1);
    assert Scoped(Inner(b), 1);
    assert AllScoped([Outer(a), Inner(b)], 1);
  }

  /** The outer `let*` goes on with the inner one in the frame holding `x`
      and `f`. */
  lemma OuterLet5(a: Int64, b: Int64, fuel: nat)
    requires fuel >= 2
    ensures Step5Spec.Pre(Program(a, b), Root(), 0) && Step5Spec.Pre(Inner(b), AfterOuter(a, Clo()), 1)
    ensures Step5Spec.Eval(Program(a, b), Root(), 0, fuel) == Step5Spec.Eval(Inner(b), AfterOuter(a, Clo()), 1, fuel - 1)
  {
    OuterLetPre(a, b);
    var k := fuel - 1;
    OuterBindings5(a, k);
    LetGoesOn(Program(a, b), Outer(a), Inner(b), Root(), 0, fuel, k, 1, AfterOuter(a, Clo()));
  }

  /** What the inner `let*` needs to be evaluated in the outer one's
      frame. */
  lemma InnerLetPre(a: Int64, b: Int64)
    ensures Inner(b) == Step5Spec.Form("let*", [List([Symbol("x"), Integer(b)]), Step5Spec.Form("f", [])])
    ensures Step5Spec.FormPre("let*", [List([Symbol("x"), Integer(b)]), Step5Spec.Form("f", [])], AfterOuter(a, Clo()), 1)
  {
    AfterOuterScoped(a);
    var args := [List([Symbol("x"), Integer(b)]), Step5Spec.Form("f", [])];
    assert List([Symbol("f")]) == Step5Spec.Form("f", []);
    assert AllScoped(args, 2) by {
      assert Scoped(args[0], 2) && Scoped(args[1], 2);
    }
    Step5Spec.FormScoped("let*", args, 2);
  }

  /** The inner `let*` goes on with the call of `f` in the frame where `x`
      is `b`. */
  lemma InnerLet5(a: Int64, b: Int64, fuel: nat)
    requires fuel >= 2
    ensures Step5Spec.Pre(Inner(b), AfterOuter(a, Clo()), 1)
    ensures Step5Spec.Pre(Step5Spec.Form("f", []), AfterInner(a, b, Clo()), 2)
    ensures Step5Spec.Eval(Inner(b), AfterOuter(a, Clo()), 1, fuel)
            == Step5Spec.Eval(Step5Spec.Form("f", []), AfterInner(a, b, Clo()), 2, fuel - 1)
  {
    InnerLetPre(a, b);
    var k := fuel - 1;
    InnerBindings5(a, b, k);
    LetGoesOn(Inner(b), List([Symbol("x"), Integer(b)]), Step5Spec.Form("f", []), AfterOuter(a, Clo()), 1, fuel, k, 2, AfterInner(a, b, Clo()));
  }

  /** The call of `f` answers the `x` of the outer `let*`'s frame. */
  lemma Call5(a: Int64, b: Int64, fuel: nat)
    requires fuel >= 2
    ensures Step5Spec.Pre(Step5Spec.Form("f", []), AfterInner(a, b, Clo()), 2)
    ensures Step5Spec.Eval(Step5Spec.Form("f", []), AfterInner(a, b, Clo()), 2, fuel).result == Ok(Integer(a))
  {
    CallFormPre(a, b);
    Lookups(a, b);
    NotSpecial();
    ClosureCallAnswers("f", "x", 1, AfterInner(a, b, Clo()), 2, fuel);
  }

  /** In step 5 the whole program answers `a`, given fuel for its four
      turns: the call of `f` sees the `x` of the outer `let*`, where `f`
      was made, and not the `x` of the inner one. */
  lemma LexicalScopeInStep5Program(a: Int64, b: Int64, fuel: nat)
    requires fuel >= 4
    ensures Step5Spec.Pre(Program(a, b), Root(), 0)
    ensures Step5Spec.Eval(Program(a, b), Root(), 0, fuel).result == Ok(Integer(a))
  {
    OuterLet5(a, b, fuel);
    var k := fuel - 1;
    InnerLet5(a, b, k);
    var k2 := fuel - 2;
    Call5(a, b, k2);
  }
}
