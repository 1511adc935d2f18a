/** The step-4 evaluator as pure functions over the arena. It adds `do`,
    `if` and `fn*` to step 3; a `fn*` value carries no environment and is
    called with its arguments unevaluated, bound in a new child of the
    caller's frame. Evaluation may diverge, so every nested evaluation
    spends one unit of `fuel`, and running out is the error `OutOfFuel`. */
module Step4Spec {
  import opened Types
  import opened Env
  import Core

  /** `eval_ast`. */
  function EvalAst(ast: Value, st: seq<Frame>, env: nat, fuel: nat): (o: Outcome<Value>)
    requires Linked(st) && env < |st|
    ensures Linked(o.frames) && Confined(st, o.frames, env)
    ensures ast.List? && o.result.Ok? ==> o.result.value.List? && |o.result.value.elems| == |ast.elems|
    decreases fuel, 2, 0
  {
    match ast
    case Symbol(s) => Outcome(Get(st, env, s), st)
    case List(vs) =>
      var o := EvalList(vs, st, env, fuel);
      Outcome(if o.result.Ok? then Ok(List(o.result.value)) else Err(o.result.error), o.frames)
    case _ => Outcome(Ok(ast), st)
  }

  /** The elements evaluated in order, each in the arena the previous one
      left, stopping at the first error. */
  function EvalList(vs: seq<Value>, st: seq<Frame>, env: nat, fuel: nat): (o: Outcome<seq<Value>>)
    requires Linked(st) && env < |st|
    ensures Linked(o.frames) && Confined(st, o.frames, env)
    ensures o.result.Ok? ==> |o.result.value| == |vs|
    decreases fuel, 1, |vs|
  {
    if vs == [] then Outcome(Ok([]), st)
    else
      var p := EvalList(vs[..|vs| - 1], st, env, fuel);
      if p.result.Err? then p
      else
        var q := Eval(vs[|vs| - 1], p.frames, env, fuel);
        ConfinedThen(st, p.frames, q.frames, env, env);
        Outcome(if q.result.Ok? then Ok(p.result.value + [q.result.value]) else Err(q.result.error), q.frames)
  }

  /** `set_bindings`. */
  function SetBindings(bs: seq<Value>, st: seq<Frame>, env: nat, fuel: nat): (o: Outcome<Value>)
    requires Linked(st) && env < |st|
    ensures Linked(o.frames) && Confined(st, o.frames, env)
    ensures o.result.Ok? ==> o.result.value == Nil
    decreases fuel, 1, |bs|
  {
    if bs == [] then Outcome(Ok(Nil), st)
    else if |bs| == 1 then Outcome(Err(OddBindings), st)
    else if !bs[0].Symbol? then Outcome(Err(BindingKeyNotSymbol), st)
    else
      var o := Eval(bs[1], st, env, fuel);
      if o.result.Err? then o
      else
        var st1 := SetIn(o.frames, env, bs[0].name, o.result.value);
        ConfinedSet(o.frames, env, bs[0].name, o.result.value);
        ConfinedThen(st, o.frames, st1, env, env);
        var r := SetBindings(bs[2..], st1, env, fuel);
        ConfinedThen(st, st1, r.frames, env, env);
        r
  }

  /** `eval`: an empty list cannot be applied, the five special forms
      are recognised by the head symbol, a list in head position is
      evaluated first, and any other head is applied. */
  function Eval(ast: Value, st: seq<Frame>, env: nat, fuel: nat): (o: Outcome<Value>)
    requires Linked(st) && env < |st|
    ensures Linked(o.frames) && Confined(st, o.frames, env)
    decreases fuel, 0, 0
  {
    if fuel == 0 then Outcome(Err(OutOfFuel), st)
    else if !ast.List? then EvalAst(ast, st, env, fuel - 1)
    else if ast.elems == [] then Outcome(Err(EmptyApplication), st)
    else
      var head, args, f := ast.elems[0], ast.elems[1..], fuel - 1;
      if head == Symbol("def!") then DefForm(args, st, env, f)
      else if head == Symbol("let*") then LetForm(args, st, env, f)
      else if head == Symbol("do") then DoForm(args, st, env, f)
      else if head == Symbol("if") then IfForm(args, st, env, f)
      else if head == Symbol("fn*") then FnForm(args, st)
      else if head.List? then ListHeadForm(head, args, st, env, f)
      else ApplyForm(head, args, st, env, f)
  }

  /** `(def! s e)`. */
  function DefForm(args: seq<Value>, st: seq<Frame>, env: nat, fuel: nat): (o: Outcome<Value>)
    requires Linked(st) && env < |st|
    ensures Linked(o.frames) && Confined(st, o.frames, env)
    decreases fuel, 3, 0
  {
    if |args| == 2 && args[0].Symbol? then
      var o := Eval(args[1], st, env, fuel);
      if o.result.Err? then o
      else
        ConfinedSet(o.frames, env, args[0].name, o.result.value);
        Outcome(o.result, SetIn(o.frames, env, args[0].name, o.result.value))
    else Outcome(Err(MalformedDef), st)
  }

  /** `(let* bindings body)`. */
  function LetForm(args: seq<Value>, st: seq<Frame>, env: nat, fuel: nat): (o: Outcome<Value>)
    requires Linked(st) && env < |st|
    ensures Linked(o.frames) && Confined(st, o.frames, env)
    decreases fuel, 3, 0
  {
    if |args| == 2 && IsSequence(args[0]) then
      var child := |st|;
      var st1 := st + [Frame(map[], Some(env))];
      var o := SetBindings(args[0].elems, st1, child, fuel);
      ConfinedThen(st, st1, o.frames, env, child);
      if o.result.Err? then o
      else
        var b := Eval(args[1], o.frames, child, fuel);
        ConfinedThen(st, o.frames, b.frames, env, child);
        b
    else Outcome(Err(MalformedLet), st)
  }

  /** `(do e ...)`. */
  function DoForm(args: seq<Value>, st: seq<Frame>, env: nat, fuel: nat): (o: Outcome<Value>)
    requires Linked(st) && env < |st|
    ensures Linked(o.frames) && Confined(st, o.frames, env)
    decreases fuel, 3, 0
  {
    var o := EvalList(args, st, env, fuel);
    Outcome(if o.result.Err? then Err(o.result.error)
            else if args == [] then Ok(Nil)
            else Ok(o.result.value[|args| - 1]),
            o.frames)
  }

  /** `(if c t e)`. */
  function IfForm(args: seq<Value>, st: seq<Frame>, env: nat, fuel: nat): (o: Outcome<Value>)
    requires Linked(st) && env < |st|
    ensures Linked(o.frames) && Confined(st, o.frames, env)
    decreases fuel, 3, 0
  {
    if args == [] then Outcome(Err(MalformedIf), st)
    else
      var c := Eval(args[0], st, env, fuel);
      if c.result.Err? then c
      else if IsFalsy(c.result.value) then
        if |args| >= 3 then
          var b := Eval(args[2], c.frames, env, fuel);
          ConfinedThen(st, c.frames, b.frames, env, env);
          b
        else Outcome(Ok(Nil), c.frames)
      else if |args| >= 2 then
        var b := Eval(args[1], c.frames, env, fuel);
        ConfinedThen(st, c.frames, b.frames, env, env);
        b
      else Outcome(Err(MalformedIf), c.frames)
  }

  /** `(fn* params body)`. */
  function FnForm(args: seq<Value>, st: seq<Frame>): (o: Outcome<Value>)
    ensures o.frames == st
  {
    if |args| == 2 && IsSequence(args[0]) then Outcome(Ok(Lambda(args[0].elems, args[1])), st)
    else Outcome(Err(MalformedFn), st)
  }

  /** A list in head position is evaluated, and the application evaluated
      again with its value in place. */
  function ListHeadForm(head: Value, args: seq<Value>, st: seq<Frame>, env: nat, fuel: nat): (o: Outcome<Value>)
    requires Linked(st) && env < |st|
    ensures Linked(o.frames) && Confined(st, o.frames, env)
    decreases fuel, 3, 0
  {
    var h := Eval(head, st, env, fuel);
    if h.result.Err? then h
    else
      var r := Eval(List([h.result.value] + args), h.frames, env, fuel);
      ConfinedThen(st, h.frames, r.frames, env, env);
      r
  }

  /** Application: the head is evaluated and invoked on the arguments. */
  function ApplyForm(head: Value, args: seq<Value>, st: seq<Frame>, env: nat, fuel: nat): (o: Outcome<Value>)
    requires Linked(st) && env < |st|
    ensures Linked(o.frames) && Confined(st, o.frames, env)
    decreases fuel, 3, 0
  {
    var h := EvalAst(head, st, env, fuel);
    if h.result.Err? then h
    else
      var o := Invoke(h.result.value, args, h.frames, env, fuel);
      ConfinedThen(st, h.frames, o.frames, env, env);
      o
  }

  /** A primitive is applied to the evaluated arguments; a `fn*` value
      has its body evaluated with the parameters bound to the argument
      expressions in a new child of the caller's frame; anything else is
      not a function. */
  function Invoke(callee: Value, args: seq<Value>, st: seq<Frame>, env: nat, fuel: nat): (o: Outcome<Value>)
    requires Linked(st) && env < |st|
    ensures Linked(o.frames) && Confined(st, o.frames, env)
    decreases fuel, 2, 1
  {
    match callee
    case Func(p) =>
      var a := EvalList(args, st, env, fuel);
      Outcome(if a.result.Ok? then Core.Apply(p, a.result.value) else Err(a.result.error), a.frames)
    case Lambda(params, body) =>
      (match Bind(params, args)
       case Err(e) => Outcome(Err(e), st)
       case Ok(m) =>
         var st1 := st + [Frame(m, Some(env))];
         var b := Eval(body, st1, |st|, fuel);
         ConfinedPush(st, Frame(m, Some(env)), env);
         ConfinedThen(st, st1, b.frames, env, |st|);
         b)
    case _ => Outcome(Err(NotAFunction(callee)), st)
  }

  // ---------------------------------------------------------------------
  // Properties

  function Form(head: string, args: seq<Value>): Value {
    List([Symbol(head)] + args)
  }

  /** `(def! s e)` evaluates `e`, returns its value and binds it in the
      current frame; any other shape binds nothing and fails. */
  lemma Def(args: seq<Value>, st: seq<Frame>, env: nat, fuel: nat)
    requires Linked(st) && env < |st| && fuel >= 1
    ensures var o := Eval(Form("def!", args), st, env, fuel);
            if |args| == 2 && args[0].Symbol? then
              var e := Eval(args[1], st, env, fuel - 1);
              o.result == e.result
              && (e.result.Ok? ==> o.frames == SetIn(e.frames, env, args[0].name, e.result.value)
                                   && Get(o.frames, env, args[0].name) == e.result)
            else o == Outcome(Err(MalformedDef), st)
  {
    assert Form("def!", args).elems[1..] == args;
    if |args| == 2 && args[0].Symbol? {
      var e := Eval(args[1], st, env, fuel - 1);
      if e.result.Ok? {
        SetThenGet(e.frames, env, args[0].name, e.result.value, args[0].name);
      }
    }
  }

  /** `let*` takes exactly a List or Vector of bindings and a body; it
      evaluates the body in one new child of the current frame, filled by
      `set_bindings`, and leaves every frame that existed before as it
      was. */
  lemma Let(args: seq<Value>, st: seq<Frame>, env: nat, fuel: nat)
    requires Linked(st) && env < |st| && fuel >= 1
    ensures var o := Eval(Form("let*", args), st, env, fuel);
            && (!(|args| == 2 && IsSequence(args[0])) ==> o == Outcome(Err(MalformedLet), st))
            && (|args| == 2 && IsSequence(args[0]) ==>
                  var s := SetBindings(args[0].elems, st + [Frame(map[], Some(env))], |st|, fuel - 1);
                  && |o.frames| > |st|
                  && o.frames[..|st|] == st
                  && o.frames[|st|].outer == Some(env)
                  && (s.result.Err? ==> o == s)
                  && (s.result.Ok? ==> o == Eval(args[1], s.frames, |st|, fuel - 1)))
  {
    assert Form("let*", args).elems[1..] == args;
    assert Eval(Form("let*", args), st, env, fuel) == LetForm(args, st, env, fuel - 1);
    if |args| == 2 && IsSequence(args[0]) {
      var o := Eval(Form("let*", args), st, env, fuel);
      assert forall j | 0 <= j < |st| :: o.frames[j] == st[j];
    }
  }

  /** `do` evaluates every argument in order and answers with the last
      value, or Nil when there are none. */
  lemma Do(args: seq<Value>, st: seq<Frame>, env: nat, fuel: nat)
    requires Linked(st) && env < |st| && fuel >= 1
    ensures var o := Eval(Form("do", args), st, env, fuel);
            var l := EvalList(args, st, env, fuel - 1);
            && o.frames == l.frames
            && (l.result.Err? ==> o.result == Err(l.result.error))
            && (l.result.Ok? && args == [] ==> o.result == Ok(Nil))
            && (l.result.Ok? && args != [] ==> o.result == Ok(l.result.value[|args| - 1]))
  {
    assert Form("do", args).elems[1..] == args;
  }

  /** `if`: only Nil and False are false; a false condition takes the
      third argument or yields Nil without one, a true condition takes the
      second argument and fails without one, and a missing condition
      fails. */
  lemma If(args: seq<Value>, st: seq<Frame>, env: nat, fuel: nat)
    requires Linked(st) && env < |st| && fuel >= 1
    ensures var o := Eval(Form("if", args), st, env, fuel);
            && (args == [] ==> o == Outcome(Err(MalformedIf), st))
            && (args != [] ==>
                  var c := Eval(args[0], st, env, fuel - 1);
                  && (c.result.Err? ==> o == c)
                  && (c.result.Ok? && IsFalsy(c.result.value) ==>
                        o == if |args| >= 3 then Eval(args[2], c.frames, env, fuel - 1) else Outcome(Ok(Nil), c.frames))
                  && (c.result.Ok? && !IsFalsy(c.result.value) ==>
                        o == if |args| >= 2 then Eval(args[1], c.frames, env, fuel - 1)
                             else Outcome(Err(MalformedIf), c.frames)))
  {
    assert Form("if", args).elems[1..] == args;
  }

  /** `fn*` with a List or Vector of parameters and one body is a closure
      over nothing: it records the parameters and the body only. */
  lemma Fn(args: seq<Value>, st: seq<Frame>, env: nat, fuel: nat)
    requires Linked(st) && env < |st| && fuel >= 1
    ensures var o := Eval(Form("fn*", args), st, env, fuel);
            && o.frames == st
            && (|args| == 2 && IsSequence(args[0]) ==> o.result == Ok(Lambda(args[0].elems, args[1])))
            && (!(|args| == 2 && IsSequence(args[0])) ==> o.result == Err(MalformedFn))
  {
    assert Form("fn*", args).elems[1..] == args;
  }

  /** A list in head position is evaluated first, and the application is
      evaluated again with that value in its place and the same, still
      unevaluated, arguments. */
  lemma ListHead(head: Value, args: seq<Value>, st: seq<Frame>, env: nat, fuel: nat)
    requires Linked(st) && env < |st| && fuel >= 1 && head.List?
    ensures var o := Eval(List([head] + args), st, env, fuel);
            var h := Eval(head, st, env, fuel - 1);
            && (h.result.Err? ==> o == h)
            && (h.result.Ok? ==> o == Eval(List([h.result.value] + args), h.frames, env, fuel - 1))
  {
    assert ([head] + args)[0] == head && ([head] + args)[1..] == args;
  }

  /** Calling a `fn*` value binds its parameters to the argument
      expressions as written, unevaluated, in a new frame whose parent is
      the caller's frame, and evaluates the body there. */
  lemma LambdaCall(name: string, args: seq<Value>, st: seq<Frame>, env: nat, fuel: nat)
    requires Linked(st) && env < |st| && fuel >= 2
    requires name != "def!" && name != "let*" && name != "do" && name != "if" && name != "fn*"
    requires Get(st, env, name).Ok? && Get(st, env, name).value.Lambda?
    ensures var params, body := Get(st, env, name).value.params, Get(st, env, name).value.body;
            var o := Eval(List([Symbol(name)] + args), st, env, fuel);
            && (Bind(params, args).Err? ==> o == Outcome(Err(Bind(params, args).error), st))
            && (Bind(params, args).Ok? ==>
                  o == Eval(body, st + [Frame(Bind(params, args).value, Some(env))], |st|, fuel - 1))
  {
    assert ([Symbol(name)] + args)[1..] == args;
    assert Eval(List([Symbol(name)] + args), st, env, fuel) == ApplyForm(Symbol(name), args, st, env, fuel - 1);
    assert EvalAst(Symbol(name), st, env, fuel - 1) == Outcome(Get(st, env, name), st);
    assert ApplyForm(Symbol(name), args, st, env, fuel - 1) == Invoke(Get(st, env, name).value, args, st, env, fuel - 1);
  }

  /** A `fn*` value of no parameters whose body is a symbol answers, when
      called, with that symbol's binding as seen from the CALLER's frame:
      step 4 resolves a free variable dynamically. */
  lemma LambdaFreeVariable(name: string, x: string, st: seq<Frame>, env: nat, fuel: nat)
    requires Linked(st) && env < |st| && fuel >= 3
    requires name != "def!" && name != "let*" && name != "do" && name != "if" && name != "fn*"
    requires Get(st, env, name) == Ok(Lambda([], Symbol(x)))
    ensures Eval(List([Symbol(name)]), st, env, fuel) == Outcome(Get(st, env, x), st + [Frame(map[], Some(env))])
  {
    LambdaCall(name, [], st, env, fuel);
    assert [Symbol(name)] + [] == [Symbol(name)];
    assert Bind([], []) == Ok(map[]);
    var st' := st + [Frame(map[], Some(env))];
    GetAfterPush(st, Frame(map[], Some(env)), env, x);
    GetDelegates(st', |st|, x);
  }

  /** The empty list cannot be applied. */
  lemma EmptyApplicationFails(st: seq<Frame>, env: nat, fuel: nat)
    requires Linked(st) && env < |st| && fuel >= 1
    ensures Eval(List([]), st, env, fuel) == Outcome(Err(EmptyApplication), st)
  {
  }
}

/** The step-4 evaluator as the source writes it: recursive, with the
    loops of `eval_ast`, `set_bindings` and `do` updating the arena in
    place. */
module Step4 {
  import opened Types
  import opened Env
  import Core
  import Spec = Step4Spec

  method EvalAst(store: Store, ast: Value, env: nat, fuel: nat) returns (r: Result<Value>)
    requires store.Valid() && env < |store.frames|
    modifies store
    ensures store.Valid()
    ensures Outcome(r, store.frames) == Spec.EvalAst(ast, old(store.frames), env, fuel)
    decreases fuel, 2, 0
  {
    match ast
    case Symbol(s) =>
      r := Get(store.frames, env, s);
    case List(values) =>
      var evalues := EvalList(store, values, env, fuel);
      r := if evalues.Ok? then Ok(List(evalues.value)) else Err(evalues.error);
    case _ =>
      r := Ok(ast);
  }

  method EvalList(store: Store, values: seq<Value>, env: nat, fuel: nat) returns (r: Result<seq<Value>>)
    requires store.Valid() && env < |store.frames|
    modifies store
    ensures store.Valid()
    ensures Outcome(r, store.frames) == Spec.EvalList(values, old(store.frames), env, fuel)
    decreases fuel, 1, |values|
  {
    ghost var st0 := store.frames;
    var evalues: seq<Value> := [];
    for i := 0 to |values|
      invariant store.Valid() && env < |store.frames|
      invariant Spec.EvalList(values[..i], st0, env, fuel) == Outcome(Ok(evalues), store.frames)
    {
      assert values[..i + 1][..i] == values[..i];
      var v := Eval(store, values[i], env, fuel);
      if v.Err? {
        EvalListErrorStays(values, i + 1, st0, env, fuel);
        return Err(v.error);
      }
      evalues := evalues + [v.value];
    }
    assert values[..|values|] == values;
    r := Ok(evalues);
  }

  lemma {:induction false} EvalListErrorStays(vs: seq<Value>, i: nat, st: seq<Frame>, env: nat, fuel: nat)
    requires Linked(st) && env < |st| && i <= |vs|
    requires Spec.EvalList(vs[..i], st, env, fuel).result.Err?
    ensures Spec.EvalList(vs, st, env, fuel) == Spec.EvalList(vs[..i], st, env, fuel)
    decreases |vs| - i
  {
    if i < |vs| {
      assert vs[..i + 1][..i] == vs[..i];
      EvalListErrorStays(vs, i + 1, st, env, fuel);
    } else {
      assert vs[..i] == vs;
    }
  }

  method SetBindings(store: Store, bindings: seq<Value>, env: nat, fuel: nat) returns (r: Result<Value>)
    requires store.Valid() && env < |store.frames|
    modifies store
    ensures store.Valid()
    ensures Outcome(r, store.frames) == Spec.SetBindings(bindings, old(store.frames), env, fuel)
    decreases fuel, 1, |bindings|
  {
    var i := 0;
    while true
      invariant i <= |bindings|
      invariant store.Valid() && env < |store.frames|
      invariant Spec.SetBindings(bindings[i..], store.frames, env, fuel)
                == Spec.SetBindings(bindings, old(store.frames), env, fuel)
      decreases |bindings| - i
    {
      var rest := bindings[i..];
      if rest == [] {
        return Ok(Nil);
      } else if |rest| == 1 {
        return Err(OddBindings);
      } else if !rest[0].Symbol? {
        return Err(BindingKeyNotSymbol);
      }
      var val := Eval(store, rest[1], env, fuel);
      if val.Err? {
        return Err(val.error);
      }
      store.Set(env, rest[0].name, val.value);
      assert rest[2..] == bindings[i + 2..];
      i := i + 2;
    }
  }

  /** The loop of `do`, keeping the last value. */
  method DoForm(store: Store, args: seq<Value>, env: nat, fuel: nat) returns (r: Result<Value>)
    requires store.Valid() && env < |store.frames|
    modifies store
    ensures store.Valid()
    ensures Outcome(r, store.frames) == Spec.DoForm(args, old(store.frames), env, fuel)
    decreases fuel, 3, 0
  {
    ghost var st0 := store.frames;
    ghost var values: seq<Value> := [];
    var ret := Nil;
    for i := 0 to |args|
      invariant store.Valid() && env < |store.frames|
      invariant Spec.EvalList(args[..i], st0, env, fuel) == Outcome(Ok(values), store.frames)
      invariant ret == if i == 0 then Nil else values[i - 1]
    {
      assert args[..i + 1][..i] == args[..i];
      var v := Eval(store, args[i], env, fuel);
      if v.Err? {
        EvalListErrorStays(args, i + 1, st0, env, fuel);
        return Err(v.error);
      }
      values := values + [v.value];
      ret := v.value;
    }
    assert args[..|args|] == args;
    r := Ok(ret);
  }

  method DefForm(store: Store, args: seq<Value>, env: nat, fuel: nat) returns (r: Result<Value>)
    requires store.Valid() && env < |store.frames|
    modifies store
    ensures store.Valid()
    ensures Outcome(r, store.frames) == Spec.DefForm(args, old(store.frames), env, fuel)
    decreases fuel, 3, 0
  {
    if |args| == 2 && args[0].Symbol? {
      var val := Eval(store, args[1], env, fuel);
      if val.Err? {
        return val;
      }
      store.Set(env, args[0].name, val.value);
      r := val;
    } else {
      r := Err(MalformedDef);
    }
  }

  method LetForm(store: Store, args: seq<Value>, env: nat, fuel: nat) returns (r: Result<Value>)
    requires store.Valid() && env < |store.frames|
    modifies store
    ensures store.Valid()
    ensures Outcome(r, store.frames) == Spec.LetForm(args, old(store.frames), env, fuel)
    decreases fuel, 3, 0
  {
    if |args| == 2 && IsSequence(args[0]) {
      var letEnv := store.New(Some(env));
      var bound := SetBindings(store, args[0].elems, letEnv, fuel);
      if bound.Err? {
        return bound;
      }
      r := Eval(store, args[1], letEnv, fuel);
    } else {
      r := Err(MalformedLet);
    }
  }

  method IfForm(store: Store, args: seq<Value>, env: nat, fuel: nat) returns (r: Result<Value>)
    requires store.Valid() && env < |store.frames|
    modifies store
    ensures store.Valid()
    ensures Outcome(r, store.frames) == Spec.IfForm(args, old(store.frames), env, fuel)
    decreases fuel, 3, 0
  {
    if args == [] {
      return Err(MalformedIf);
    }
    var cond := Eval(store, args[0], env, fuel);
    if cond.Err? {
      return cond;
    }
    if IsFalsy(cond.value) {
      if |args| >= 3 {
        r := Eval(store, args[2], env, fuel);
      } else {
        r := Ok(Nil);
      }
    } else if |args| >= 2 {
      r := Eval(store, args[1], env, fuel);
    } else {
      r := Err(MalformedIf);
    }
  }

  method ListHeadForm(store: Store, arg0: Value, args: seq<Value>, env: nat, fuel: nat) returns (r: Result<Value>)
    requires store.Valid() && env < |store.frames|
    modifies store
    ensures store.Valid()
    ensures Outcome(r, store.frames) == Spec.ListHeadForm(arg0, args, old(store.frames), env, fuel)
    decreases fuel, 3, 0
  {
    var head := Eval(store, arg0, env, fuel);
    if head.Err? {
      return head;
    }
    r := Eval(store, List([head.value] + args), env, fuel);
  }

  method ApplyForm(store: Store, arg0: Value, args: seq<Value>, env: nat, fuel: nat) returns (r: Result<Value>)
    requires store.Valid() && env < |store.frames|
    modifies store
    ensures store.Valid()
    ensures Outcome(r, store.frames) == Spec.ApplyForm(arg0, args, old(store.frames), env, fuel)
    decreases fuel, 3, 0
  {
    var head := EvalAst(store, arg0, env, fuel);
    if head.Err? {
      return head;
    }
    r := Invoke(store, head.value, args, env, fuel);
  }

  method Invoke(store: Store, callee: Value, args: seq<Value>, env: nat, fuel: nat) returns (r: Result<Value>)
    requires store.Valid() && env < |store.frames|
    modifies store
    ensures store.Valid()
    ensures Outcome(r, store.frames) == Spec.Invoke(callee, args, old(store.frames), env, fuel)
    decreases fuel, 2, 1
  {
    match callee
    case Func(p) =>
      var evaluated := EvalList(store, args, env, fuel);
      if evaluated.Err? {
        return Err(evaluated.error);
      }
      r := Core.Call(p, evaluated.value);
    case Lambda(params, body) =>
      var callEnv := store.WithBindings(Some(env), params, args);
      if callEnv.Err? {
        return Err(callEnv.error);
      }
      r := Eval(store, body, callEnv.value, fuel);
    case _ =>
      r := Err(NotAFunction(callee));
  }

  method Eval(store: Store, ast: Value, env: nat, fuel: nat) returns (r: Result<Value>)
    requires store.Valid() && env < |store.frames|
    modifies store
    ensures store.Valid()
    ensures Outcome(r, store.frames) == Spec.Eval(ast, old(store.frames), env, fuel)
    decreases fuel, 0, 0
  {
    if fuel == 0 {
      return Err(OutOfFuel);
    }
    var f := fuel - 1;
    if !ast.List? {
      r := EvalAst(store, ast, env, f);
      return;
    }
    var values := ast.elems;
    if values == [] {
      return Err(EmptyApplication);
    }
    var arg0, args := values[0], values[1..];
    if arg0 == Symbol("def!") {
      r := DefForm(store, args, env, f);
    } else if arg0 == Symbol("let*") {
      r := LetForm(store, args, env, f);
    } else if arg0 == Symbol("do") {
      r := DoForm(store, args, env, f);
    } else if arg0 == Symbol("if") {
      r := IfForm(store, args, env, f);
    } else if arg0 == Symbol("fn*") {
      if |args| == 2 && IsSequence(args[0]) {
        r := Ok(Lambda(args[0].elems, args[1]));
      } else {
        r := Err(MalformedFn);
      }
    } else if arg0.List? {
      r := ListHeadForm(store, arg0, args, env, f);
    } else {
      r := ApplyForm(store, arg0, args, env, f);
    }
  }
}
