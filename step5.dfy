/** The step-5 evaluator as pure functions over the arena. It is the
    step-4 language with two changes: `fn*` captures the frame it is
    evaluated in, and a closure's arguments are evaluated and bound in a
    new child of that captured frame; and the forms in tail position
    (`let*` body, last `do` argument, `if` branch, closure body) do not
    nest a new evaluation but replace the expression and frame of the
    running loop. `Step` is one turn of that loop. */
module Step5Spec {
  import opened Types
  import opened Env
  import Core

  /** What one turn of the loop ends with: a final result, or the
      expression and frame to go on with. */
  datatype Next = Done(result: Result<Value>) | Continue(ast: Value, env: nat)

  datatype Stepped = Stepped(next: Next, frames: seq<Frame>)

  /** What evaluation of `ast` in `env` over `st` may assume. */
  predicate Pre(ast: Value, st: seq<Frame>, env: nat) {
    ScopedFrames(st) && env < |st| && Scoped(ast, |st|)
  }

  /** What every evaluation guarantees: the arena stays well formed, only
      grows, changes no existing frame other than `env`, and a value it
      answers with refers only to frames that exist. */
  predicate Post(st: seq<Frame>, env: nat, o: Outcome<Value>) {
    && ScopedFrames(o.frames)
    && Confined(st, o.frames, env)
    && (o.result.Ok? ==> Scoped(o.result.value, |o.frames|))
  }

  /** As `Post`, where the loop may go on in `env` or in a frame created
      by this turn, with an expression that refers only to existing
      frames. */
  predicate StepPost(st: seq<Frame>, env: nat, s: Stepped) {
    && ScopedFrames(s.frames)
    && Confined(st, s.frames, env)
    && match s.next
       case Done(r) => r.Ok? ==> Scoped(r.value, |s.frames|)
       case Continue(a, e) => (e == env || |st| <= e) && e < |s.frames| && Scoped(a, |s.frames|)
  }

  lemma ScopedArgs(elems: seq<Value>, n: nat, m: nat)
    requires AllScoped(elems, n) && n <= m && elems != []
    ensures AllScoped(elems[1..], m)
  {
    AllScopedMono(elems, n, m);
  }

  /** `eval_ast`. */
  function EvalAst(ast: Value, st: seq<Frame>, env: nat, fuel: nat): (o: Outcome<Value>)
    requires Pre(ast, st, env)
    ensures Post(st, env, o)
    ensures ast.List? && o.result.Ok? ==> o.result.value.List? && |o.result.value.elems| == |ast.elems|
    decreases fuel, 2, 0
  {
    match ast
    case Symbol(s) =>
      ScopedGet(st, env, s);
      Outcome(Get(st, env, s), st)
    case List(vs) =>
      var o := EvalList(vs, st, env, fuel);
      Outcome(if o.result.Ok? then Ok(List(o.result.value)) else Err(o.result.error), o.frames)
    case _ => Outcome(Ok(ast), st)
  }

  /** The elements evaluated in order, each in the arena the previous one
      left, stopping at the first error. */
  function EvalList(vs: seq<Value>, st: seq<Frame>, env: nat, fuel: nat): (o: Outcome<seq<Value>>)
    requires ScopedFrames(st) && env < |st| && AllScoped(vs, |st|)
    ensures ScopedFrames(o.frames) && Confined(st, o.frames, env)
    ensures o.result.Ok? ==> |o.result.value| == |vs| && AllScoped(o.result.value, |o.frames|)
    decreases fuel, 1, |vs|
  {
    if vs == [] then Outcome(Ok([]), st)
    else
      var n := |vs| - 1;
      assert AllScoped(vs[..n], |st|);
      var p := EvalList(vs[..n], st, env, fuel);
      if p.result.Err? then p
      else
        ScopedMono(vs[n], |st|, |p.frames|);
        var q := Eval(vs[n], p.frames, env, fuel);
        ConfinedThen(st, p.frames, q.frames, env, env);
        if q.result.Err? then Outcome(Err(q.result.error), q.frames)
        else
          AllScopedMono(p.result.value, |p.frames|, |q.frames|);
          Outcome(Ok(p.result.value + [q.result.value]), q.frames)
  }

  /** `set_bindings`. */
  function SetBindings(bs: seq<Value>, st: seq<Frame>, env: nat, fuel: nat): (o: Outcome<Value>)
    requires ScopedFrames(st) && env < |st| && AllScoped(bs, |st|)
    ensures Post(st, env, o)
    ensures o.result.Ok? ==> o.result.value == Nil
    decreases fuel, 1, |bs|
  {
    if bs == [] then Outcome(Ok(Nil), st)
    else if |bs| == 1 then Outcome(Err(OddBindings), st)
    else if !bs[0].Symbol? then Outcome(Err(BindingKeyNotSymbol), st)
    else
      var o := Eval(bs[1], st, env, fuel);
      if o.result.Err? then o
      else
        var st1 := SetIn(o.frames, env, bs[0].name, o.result.value);
        ScopedSet(o.frames, env, bs[0].name, o.result.value);
        ConfinedSet(o.frames, env, bs[0].name, o.result.value);
        ConfinedThen(st, o.frames, st1, env, env);
        assert AllScoped(bs[2..], |st|);
        AllScopedMono(bs[2..], |st|, |st1|);
        var r := SetBindings(bs[2..], st1, env, fuel);
        ConfinedThen(st, st1, r.frames, env, env);
        r
  }

  /** `def!`: evaluates the value and binds it in the current frame. */
  function DefForm(args: seq<Value>, st: seq<Frame>, env: nat, fuel: nat): (s: Stepped)
    requires ScopedFrames(st) && env < |st| && AllScoped(args, |st|)
    ensures StepPost(st, env, s) && s.next.Done?
    decreases fuel, 3, 0
  {
    if |args| == 2 && args[0].Symbol? then
      var o := Eval(args[1], st, env, fuel);
      if o.result.Err? then Stepped(Done(o.result), o.frames)
      else
        ScopedSet(o.frames, env, args[0].name, o.result.value);
        ConfinedSet(o.frames, env, args[0].name, o.result.value);
        ConfinedThen(st, o.frames, SetIn(o.frames, env, args[0].name, o.result.value), env, env);
        Stepped(Done(o.result), SetIn(o.frames, env, args[0].name, o.result.value))
    else Stepped(Done(Err(MalformedDef)), st)
  }

  /** `let*`: fills a new child of the current frame and goes on with the
      body in it. */
  function LetForm(args: seq<Value>, st: seq<Frame>, env: nat, fuel: nat): (s: Stepped)
    requires ScopedFrames(st) && env < |st| && AllScoped(args, |st|)
    ensures StepPost(st, env, s)
    decreases fuel, 3, 0
  {
    if |args| == 2 && IsSequence(args[0]) then
      var child := |st|;
      var st1 := st + [Frame(map[], Some(env))];
      ScopedPush(st, Frame(map[], Some(env)));
      ConfinedPush(st, Frame(map[], Some(env)), env);
      AllScopedMono(args[0].elems, |st|, |st1|);
      var o := SetBindings(args[0].elems, st1, child, fuel);
      ConfinedThen(st, st1, o.frames, env, child);
      if o.result.Err? then Stepped(Done(o.result), o.frames)
      else
        ScopedMono(args[1], |st|, |o.frames|);
        Stepped(Continue(args[1], child), o.frames)
    else Stepped(Done(Err(MalformedLet)), st)
  }

  /** `do`: evaluates, for effect, Nil and then every argument but the
      last, and goes on with the last (Nil when there are none). */
  function DoForm(args: seq<Value>, st: seq<Frame>, env: nat, fuel: nat): (s: Stepped)
    requires ScopedFrames(st) && env < |st| && AllScoped(args, |st|)
    ensures StepPost(st, env, s)
    decreases fuel, 3, 0
  {
    var all := [Nil] + args;
    assert AllScoped(all, |st|);
    assert AllScoped(all[..|args|], |st|);
    var o := EvalList(all[..|args|], st, env, fuel);
    if o.result.Err? then Stepped(Done(Err(o.result.error)), o.frames)
    else
      ScopedMono(all[|args|], |st|, |o.frames|);
      Stepped(Continue(all[|args|], env), o.frames)
  }

  /** `if`: evaluates the condition and goes on with the chosen branch. */
  function IfForm(args: seq<Value>, st: seq<Frame>, env: nat, fuel: nat): (s: Stepped)
    requires ScopedFrames(st) && env < |st| && AllScoped(args, |st|)
    ensures StepPost(st, env, s)
    decreases fuel, 3, 0
  {
    if args == [] then Stepped(Done(Err(MalformedIf)), st)
    else
      var c := Eval(args[0], st, env, fuel);
      AllScopedMono(args, |st|, |c.frames|);
      if c.result.Err? then Stepped(Done(c.result), c.frames)
      else if IsFalsy(c.result.value) then
        if |args| >= 3 then Stepped(Continue(args[2], env), c.frames)
        else Stepped(Done(Ok(Nil)), c.frames)
      else if |args| >= 2 then Stepped(Continue(args[1], env), c.frames)
      else Stepped(Done(Err(MalformedIf)), c.frames)
  }

  /** `fn*`: a closure over the current frame. */
  function FnForm(args: seq<Value>, st: seq<Frame>, env: nat): (s: Stepped)
    requires ScopedFrames(st) && env < |st| && AllScoped(args, |st|)
    ensures StepPost(st, env, s) && s.next.Done?
  {
    if |args| == 2 && IsSequence(args[0]) then Stepped(Done(Ok(Closure(args[0].elems, args[1], env))), st)
    else Stepped(Done(Err(MalformedFn)), st)
  }

  /** Application: the head is evaluated, and a primitive or a closure
      is invoked on the arguments; anything else is not a function. */
  function ApplyForm(head: Value, args: seq<Value>, st: seq<Frame>, env: nat, fuel: nat): (s: Stepped)
    requires ScopedFrames(st) && env < |st| && Scoped(head, |st|) && AllScoped(args, |st|)
    ensures StepPost(st, env, s)
    decreases fuel, 3, 0
  {
    var h := Eval(head, st, env, fuel);
    if h.result.Err? then Stepped(Done(h.result), h.frames)
    else if h.result.value.Func? || h.result.value.Closure? then
      AllScopedMono(args, |st|, |h.frames|);
      var s := Invoke(h.result.value, args, h.frames, env, fuel);
      ConfinedThen(st, h.frames, s.frames, env, env);
      s
    else Stepped(Done(Err(NotAFunction(h.result.value))), h.frames)
  }

  /** The arguments are evaluated; a primitive is applied to their values,
      and a closure goes on with its body in a new child of the frame it
      captured, holding the parameters bound to the values. */
  function Invoke(callee: Value, args: seq<Value>, st: seq<Frame>, env: nat, fuel: nat): (s: Stepped)
    requires ScopedFrames(st) && env < |st| && Scoped(callee, |st|) && AllScoped(args, |st|)
    requires callee.Func? || callee.Closure?
    ensures StepPost(st, env, s)
    decreases fuel, 2, 1
  {
    var a := EvalList(args, st, env, fuel);
    if a.result.Err? then Stepped(Done(Err(a.result.error)), a.frames)
    else match callee
      case Func(p) => Stepped(Done(Core.Apply(p, a.result.value)), a.frames)
      case Closure(params, body, captured) =>
        (match Bind(params, a.result.value)
         case Err(e) => Stepped(Done(Err(e)), a.frames)
         case Ok(m) =>
           var f := Frame(m, Some(captured));
           ScopedBind(params, a.result.value, |a.frames|);
           ScopedPush(a.frames, f);
           ConfinedPush(a.frames, f, env);
           ConfinedThen(st, a.frames, a.frames + [f], env, env);
           ScopedMono(body, |st|, |a.frames| + 1);
           Stepped(Continue(body, |a.frames|), a.frames + [f]))
  }

  /** One turn of the loop of `eval`. */
  function Step(ast: Value, st: seq<Frame>, env: nat, fuel: nat): (s: Stepped)
    requires Pre(ast, st, env)
    ensures StepPost(st, env, s)
    decreases fuel, 4, 0
  {
    if !ast.List? then
      var o := EvalAst(ast, st, env, fuel);
      Stepped(Done(o.result), o.frames)
    else if ast.elems == [] then Stepped(Done(Err(EmptyApplication)), st)
    else
      var head, args := ast.elems[0], ast.elems[1..];
      assert AllScoped(args, |st|);
      if head == Symbol("def!") then DefForm(args, st, env, fuel)
      else if head == Symbol("let*") then LetForm(args, st, env, fuel)
      else if head == Symbol("do") then DoForm(args, st, env, fuel)
      else if head == Symbol("if") then IfForm(args, st, env, fuel)
      else if head == Symbol("fn*") then FnForm(args, st, env)
      else ApplyForm(head, args, st, env, fuel)
  }

  /** `eval`: turns of the loop until one is done, each costing one unit
      of fuel. */
  function Eval(ast: Value, st: seq<Frame>, env: nat, fuel: nat): (o: Outcome<Value>)
    requires Pre(ast, st, env)
    ensures Post(st, env, o)
    decreases fuel, 0, 0
  {
    if fuel == 0 then Outcome(Err(OutOfFuel), st)
    else
      var s := Step(ast, st, env, fuel - 1);
      match s.next
      case Done(r) => Outcome(r, s.frames)
      case Continue(a, e) =>
        var o := Eval(a, s.frames, e, fuel - 1);
        ConfinedThen(st, s.frames, o.frames, env, e);
        o
  }

  // ---------------------------------------------------------------------
  // Properties

  function Form(head: string, args: seq<Value>): Value {
    List([Symbol(head)] + args)
  }

  /** A form's arguments refer only to existing frames, and so does the
      form (see `FormScoped`). */
  predicate FormPre(head: string, args: seq<Value>, st: seq<Frame>, env: nat) {
    ScopedFrames(st) && env < |st| && AllScoped(args, |st|) && Scoped(Form(head, args), |st|)
  }

  lemma FormScoped(head: string, args: seq<Value>, n: nat)
    requires AllScoped(args, n)
    ensures Scoped(Form(head, args), n)
  {
    var elems := [Symbol(head)] + args;
    forall i | 0 <= i < |elems| ensures Scoped(elems[i], n) {
      if i > 0 {
        assert elems[i] == args[i - 1];
      }
    }
  }

  /** `(def! s e)` evaluates `e`, answers with its value and binds it in
      the current frame; any other shape binds nothing and fails. */
  lemma Def(args: seq<Value>, st: seq<Frame>, env: nat, fuel: nat)
    requires FormPre("def!", args, st, env) && fuel >= 1
    ensures var o := Eval(Form("def!", args), st, env, fuel);
            if |args| == 2 && args[0].Symbol? then
              var e := Eval(args[1], st, env, fuel - 1);
              o.result == e.result
              && (e.result.Ok? ==> o.frames == SetIn(e.frames, env, args[0].name, e.result.value)
                                   && Get(o.frames, env, args[0].name) == e.result)
            else o == Outcome(Err(MalformedDef), st)
  {
    assert Form("def!", args).elems[1..] == args;
    assert Step(Form("def!", args), st, env, fuel - 1) == DefForm(args, st, env, fuel - 1);
    if |args| == 2 && args[0].Symbol? {
      var e := Eval(args[1], st, env, fuel - 1);
      if e.result.Ok? {
        SetThenGet(e.frames, env, args[0].name, e.result.value, args[0].name);
      }
    }
  }

  /** A `let*` that has not exactly a List or Vector of bindings and a
      body fails, changing nothing. */
  lemma LetMalformed(args: seq<Value>, st: seq<Frame>, env: nat, fuel: nat)
    requires FormPre("let*", args, st, env) && fuel >= 1
    requires !(|args| == 2 && IsSequence(args[0]))
    ensures Eval(Form("let*", args), st, env, fuel) == Outcome(Err(MalformedLet), st)
  {
    assert Form("let*", args).elems[1..] == args;
    assert Step(Form("let*", args), st, env, fuel - 1) == LetForm(args, st, env, fuel - 1);
  }

  /** A well-formed `let*`: the body is the loop's next expression,
      evaluated in the new child of the current frame once `set_bindings`
      has filled it. */
  lemma Let(args: seq<Value>, st: seq<Frame>, env: nat, fuel: nat)
    requires FormPre("let*", args, st, env) && fuel >= 1
    requires |args| == 2 && IsSequence(args[0])
    ensures ScopedFrames(st + [Frame(map[], Some(env))]) && AllScoped(args[0].elems, |st| + 1)
    ensures var o := Eval(Form("let*", args), st, env, fuel);
            var s := SetBindings(args[0].elems, st + [Frame(map[], Some(env))], |st|, fuel - 1);
            && (s.result.Err? ==> o == s)
            && (s.result.Ok? ==> Scoped(args[1], |s.frames|) && o == Eval(args[1], s.frames, |st|, fuel - 1))
  {
    var f := Form("let*", args);
    assert f.elems[1..] == args;
    assert Step(f, st, env, fuel - 1) == LetForm(args, st, env, fuel - 1);
    EvalTurn(f, st, env, fuel);
    LetTurn(args, st, env, fuel - 1);
  }

  /** The turn of a well-formed `let*`: `set_bindings` fills a new child of
      the current frame, every frame that existed before, the current one
      included, is left as it was, and the loop goes on with the body in
      the child. */
  lemma LetTurn(args: seq<Value>, st: seq<Frame>, env: nat, fuel: nat)
    requires ScopedFrames(st) && env < |st| && AllScoped(args, |st|) && |args| == 2 && IsSequence(args[0])
    ensures ScopedFrames(st + [Frame(map[], Some(env))]) && AllScoped(args[0].elems, |st| + 1)
    ensures var b := SetBindings(args[0].elems, st + [Frame(map[], Some(env))], |st|, fuel);
            var s := LetForm(args, st, env, fuel);
            && s.frames == b.frames
            && |b.frames| > |st| && b.frames[..|st|] == st && b.frames[|st|].outer == Some(env)
            && (b.result.Err? ==> s.next == Done(b.result))
            && (b.result.Ok? ==> Scoped(args[1], |b.frames|) && s.next == Continue(args[1], |st|))
  {
    var child := Frame(map[], Some(env));
    ScopedPush(st, child);
    AllScopedMono(args[0].elems, |st|, |st| + 1);
    var b := SetBindings(args[0].elems, st + [child], |st|, fuel);
    ChildKept(st, child, b.frames);
    ScopedMono(args[1], |st|, |b.frames|);
  }

  /** Evaluating in a new child frame keeps the frames below it and the
      child's outer link. */
  lemma ChildKept(st: seq<Frame>, child: Frame, st': seq<Frame>)
    requires Confined(st + [child], st', |st|)
    ensures |st'| > |st| && st'[..|st|] == st && st'[|st|].outer == child.outer
  {
    assert forall j | 0 <= j < |st| :: st'[j] == (st + [child])[j];
  }

  /** `do` evaluates its arguments in order and answers with the value of
      the last, evaluated as the loop's next expression; `(do)` is Nil. */
  lemma Do(args: seq<Value>, st: seq<Frame>, env: nat, fuel: nat)
    requires FormPre("do", args, st, env) && fuel >= 2
    ensures args != [] ==> AllScoped([Nil] + args[..|args| - 1], |st|)
    ensures args == [] ==> Eval(Form("do", args), st, env, fuel) == Outcome(Ok(Nil), st)
    ensures args != [] ==>
              var n := |args| - 1;
              var l := EvalList([Nil] + args[..n], st, env, fuel - 1);
              var o := Eval(Form("do", args), st, env, fuel);
              && (l.result.Err? ==> o == Outcome(Err(l.result.error), l.frames))
              && (l.result.Ok? ==> Scoped(args[n], |l.frames|) && o == Eval(args[n], l.frames, env, fuel - 1))
  {
    assert Form("do", args).elems[1..] == args;
    assert Step(Form("do", args), st, env, fuel - 1) == DoForm(args, st, env, fuel - 1);
    assert ([Nil] + args)[..|args|] == if args == [] then [] else [Nil] + args[..|args| - 1];
    if args == [] {
      assert ([Nil] + args)[..0] == [];
      assert DoForm(args, st, env, fuel - 1) == Stepped(Continue(Nil, env), st);
      assert Step(Nil, st, env, fuel - 2) == Stepped(Done(Ok(Nil)), st);
      assert Eval(Nil, st, env, fuel - 1) == Outcome(Ok(Nil), st);
    } else {
      var l := EvalList([Nil] + args[..|args| - 1], st, env, fuel - 1);
      ScopedMono(args[|args| - 1], |st|, |l.frames|);
    }
  }

  /** `if`: only Nil and False are false; a false condition goes on with
      the third argument or yields Nil without one, a true condition goes
      on with the second argument and fails without one, and a missing
      condition fails. */
  lemma If(args: seq<Value>, st: seq<Frame>, env: nat, fuel: nat)
    requires FormPre("if", args, st, env) && fuel >= 1
    ensures var o := Eval(Form("if", args), st, env, fuel);
            && (args == [] ==> o == Outcome(Err(MalformedIf), st))
            && (args != [] ==>
                  var c := Eval(args[0], st, env, fuel - 1);
                  && (c.result.Err? ==> o == c)
                  && (c.result.Ok? && IsFalsy(c.result.value) && |args| < 3 ==> o == Outcome(Ok(Nil), c.frames))
                  && (c.result.Ok? && !IsFalsy(c.result.value) && |args| < 2 ==>
                        o == Outcome(Err(MalformedIf), c.frames))
                  && (c.result.Ok? && IsFalsy(c.result.value) && |args| >= 3 ==>
                        Scoped(args[2], |c.frames|) && o == Eval(args[2], c.frames, env, fuel - 1))
                  && (c.result.Ok? && !IsFalsy(c.result.value) && |args| >= 2 ==>
                        Scoped(args[1], |c.frames|) && o == Eval(args[1], c.frames, env, fuel - 1)))
  {
    assert Form("if", args).elems[1..] == args;
    assert Step(Form("if", args), st, env, fuel - 1) == IfForm(args, st, env, fuel - 1);
    if args != [] {
      var c := Eval(args[0], st, env, fuel - 1);
      AllScopedMono(args, |st|, |c.frames|);
    }
  }

  /** `fn*` with a List or Vector of parameters and a body makes a closure
      over the frame it is evaluated in, changing nothing. */
  lemma Fn(args: seq<Value>, st: seq<Frame>, env: nat, fuel: nat)
    requires FormPre("fn*", args, st, env) && fuel >= 1
    ensures var o := Eval(Form("fn*", args), st, env, fuel);
            && o.frames == st
            && (|args| == 2 && IsSequence(args[0]) ==> o.result == Ok(Closure(args[0].elems, args[1], env)))
            && (!(|args| == 2 && IsSequence(args[0])) ==> o.result == Err(MalformedFn))
  {
    assert Form("fn*", args).elems[1..] == args;
    assert Step(Form("fn*", args), st, env, fuel - 1) == FnForm(args, st, env);
  }

  /** An expression that is not a list is done in one turn, changing
      nothing: a symbol evaluates to its binding and anything else to
      itself. */
  lemma EvalNonList(ast: Value, st: seq<Frame>, env: nat, fuel: nat)
    requires Pre(ast, st, env) && fuel >= 1 && !ast.List?
    ensures Step(ast, st, env, fuel - 1) == Stepped(Done(Eval(ast, st, env, fuel).result), st)
    ensures ast.Symbol? ==> Eval(ast, st, env, fuel) == Outcome(Get(st, env, ast.name), st)
    ensures !ast.Symbol? ==> Eval(ast, st, env, fuel) == Outcome(Ok(ast), st)
  {
  }

  /** `set_bindings` evaluates a pair's expression in the frame being
      filled and binds its value there before it reads the next pair, so
      a later pair sees an earlier one; a non-symbol key and an unpaired
      trailing element fail, binding nothing for that pair. */
  lemma SetBindingsRules(bs: seq<Value>, st: seq<Frame>, env: nat, fuel: nat)
    requires ScopedFrames(st) && env < |st| && AllScoped(bs, |st|)
    ensures |bs| == 1 ==> SetBindings(bs, st, env, fuel) == Outcome(Err(OddBindings), st)
    ensures |bs| >= 2 && !bs[0].Symbol? ==> SetBindings(bs, st, env, fuel) == Outcome(Err(BindingKeyNotSymbol), st)
    ensures |bs| >= 2 && bs[0].Symbol? ==>
              var o := Eval(bs[1], st, env, fuel);
              && (o.result.Err? ==> SetBindings(bs, st, env, fuel) == o)
              && (o.result.Ok? ==>
                    var st1 := SetIn(o.frames, env, bs[0].name, o.result.value);
                    && ScopedFrames(st1) && AllScoped(bs[2..], |st1|)
                    && Get(st1, env, bs[0].name) == o.result
                    && SetBindings(bs, st, env, fuel) == SetBindings(bs[2..], st1, env, fuel))
  {
    if |bs| >= 2 && bs[0].Symbol? {
      var o := Eval(bs[1], st, env, fuel);
      if o.result.Ok? {
        ScopedSet(o.frames, env, bs[0].name, o.result.value);
        assert AllScoped(bs[2..], |st|);
        AllScopedMono(bs[2..], |st|, |o.frames|);
        SetThenGet(o.frames, env, bs[0].name, o.result.value, bs[0].name);
      }
    }
  }

  predicate SpecialForm(name: string) {
    name in {"def!", "let*", "do", "if", "fn*"}
  }

  /** A list headed by any other symbol is an application. */
  lemma StepCall(name: string, args: seq<Value>, st: seq<Frame>, env: nat, fuel: nat)
    requires FormPre(name, args, st, env) && !SpecialForm(name)
    ensures Step(Form(name, args), st, env, fuel) == ApplyForm(Symbol(name), args, st, env, fuel)
  {
    assert Form(name, args).elems[0] == Symbol(name) && Form(name, args).elems[1..] == args;
  }

  /** A head that evaluates, changing nothing, to a primitive or a
      closure is invoked. */
  lemma ApplyHead(head: Value, args: seq<Value>, st: seq<Frame>, env: nat, fuel: nat)
    requires ScopedFrames(st) && env < |st| && Scoped(head, |st|) && AllScoped(args, |st|)
    requires Eval(head, st, env, fuel).frames == st && Eval(head, st, env, fuel).result.Ok?
    requires Eval(head, st, env, fuel).result.value.Func? || Eval(head, st, env, fuel).result.value.Closure?
    ensures ApplyForm(head, args, st, env, fuel) == Invoke(Eval(head, st, env, fuel).result.value, args, st, env, fuel)
  {
  }

  /** A turn on a list whose head names a primitive or a closure
      invokes it. */
  lemma CallTurn(name: string, c: Value, args: seq<Value>, st: seq<Frame>, env: nat, fuel: nat)
    requires FormPre(name, args, st, env) && fuel >= 1 && !SpecialForm(name)
    requires Get(st, env, name) == Ok(c) && (c.Func? || c.Closure?)
    ensures Scoped(c, |st|)
    ensures Step(Form(name, args), st, env, fuel) == Invoke(c, args, st, env, fuel)
  {
    StepCall(name, args, st, env, fuel);
    EvalNonList(Symbol(name), st, env, fuel);
    ScopedGet(st, env, name);
    ApplyHead(Symbol(name), args, st, env, fuel);
  }

  /** A loop turn that is done ends `eval`; one that goes on costs one
      unit of fuel. */
  lemma EvalTurn(ast: Value, st: seq<Frame>, env: nat, fuel: nat)
    requires Pre(ast, st, env) && fuel >= 1
    ensures var s := Step(ast, st, env, fuel - 1);
            && (s.next.Done? ==> Eval(ast, st, env, fuel) == Outcome(s.next.result, s.frames))
            && (s.next.Continue? ==> Eval(ast, st, env, fuel) == Eval(s.next.ast, s.frames, s.next.env, fuel - 1))
  {
  }

  /** Invoking a closure evaluates the arguments, then binds them in a
      new child of the captured frame where the body goes on. */
  lemma InvokeClosure(c: Value, args: seq<Value>, st: seq<Frame>, env: nat, fuel: nat)
    requires ScopedFrames(st) && env < |st| && Scoped(c, |st|) && AllScoped(args, |st|) && c.Closure?
    ensures var a := EvalList(args, st, env, fuel);
            var s := Invoke(c, args, st, env, fuel);
            && (a.result.Err? ==> s == Stepped(Done(Err(a.result.error)), a.frames))
            && (a.result.Ok? && Bind(c.params, a.result.value).Err? ==>
                  s == Stepped(Done(Err(Bind(c.params, a.result.value).error)), a.frames))
            && (a.result.Ok? && Bind(c.params, a.result.value).Ok? ==>
                  var f := Frame(Bind(c.params, a.result.value).value, Some(c.env));
                  Pre(c.body, a.frames + [f], |a.frames|)
                  && s == Stepped(Continue(c.body, |a.frames|), a.frames + [f]))
  {
    var a := EvalList(args, st, env, fuel);
    if a.result.Ok? && Bind(c.params, a.result.value).Ok? {
      var f := Frame(Bind(c.params, a.result.value).value, Some(c.env));
      ScopedBind(c.params, a.result.value, |a.frames|);
      ScopedPush(a.frames, f);
      ScopedMono(c.body, |st|, |a.frames| + 1);
    }
  }

  /** A turn on a call of a closure of no parameters goes on with the
      closure's body in a new, empty child of the frame it captured. */
  lemma ClosureTurnNoArgs(name: string, c: Value, st: seq<Frame>, env: nat, fuel: nat)
    requires FormPre(name, [], st, env) && fuel >= 1 && !SpecialForm(name)
    requires Get(st, env, name) == Ok(c) && c.Closure? && c.params == []
    ensures Pre(c.body, st + [Frame(map[], Some(c.env))], |st|)
    ensures Step(Form(name, []), st, env, fuel) == Stepped(Continue(c.body, |st|), st + [Frame(map[], Some(c.env))])
  {
    CallTurn(name, c, [], st, env, fuel);
    InvokeClosure(c, [], st, env, fuel);
    assert EvalList([], st, env, fuel) == Outcome(Ok([]), st);
    assert Bind([], []) == Ok(map[]);
  }

  /** A turn that goes on hands the rest of `eval` to the next turn. */
  lemma TurnGoesOn(ast: Value, st: seq<Frame>, env: nat, fuel: nat, next: Value, st': seq<Frame>, env': nat)
    requires Pre(ast, st, env) && fuel >= 1
    requires Step(ast, st, env, fuel - 1) == Stepped(Continue(next, env'), st')
    ensures Pre(next, st', env')
    ensures Eval(ast, st, env, fuel) == Eval(next, st', env', fuel - 1)
  {
  }

  /** A closure of no parameters whose body is a symbol goes on, when
      called, with that symbol in a frame whose lookups are those of the
      frame the closure captured, whatever the caller's frame binds: step
      5 resolves a free variable lexically. */
  lemma ClosureFreeVariable(name: string, x: string, captured: nat, st: seq<Frame>, env: nat, fuel: nat)
    requires FormPre(name, [], st, env) && fuel >= 1 && !SpecialForm(name)
    requires Get(st, env, name) == Ok(Closure([], Symbol(x), captured))
    ensures captured < |st|
    ensures var st' := st + [Frame(map[], Some(captured))];
            && Step(Form(name, []), st, env, fuel) == Stepped(Continue(Symbol(x), |st|), st')
            && Get(st', |st|, x) == Get(st, captured, x)
  {
    var f := Frame(map[], Some(captured));
    var st' := st + [f];
    ScopedGet(st, env, name);
    ClosureTurnNoArgs(name, Closure([], Symbol(x), captured), st, env, fuel);
    assert st'[|st|] == f;
    GetDelegates(st', |st|, x);
    GetAfterPush(st, f, captured, x);
  }

  /** Invoking a primitive evaluates the arguments and applies the
      primitive to their values; the loop is then done. */
  lemma InvokePrimitive(p: Prim, args: seq<Value>, st: seq<Frame>, env: nat, fuel: nat)
    requires ScopedFrames(st) && env < |st| && AllScoped(args, |st|)
    ensures var a := EvalList(args, st, env, fuel);
            Invoke(Func(p), args, st, env, fuel)
            == Stepped(Done(if a.result.Ok? then Core.Apply(p, a.result.value) else Err(a.result.error)), a.frames)
  {
  }

  /** A head that evaluates to anything but a function is reported before
      any argument is evaluated. */
  lemma NotAFunctionFirst(name: string, args: seq<Value>, st: seq<Frame>, env: nat, fuel: nat)
    requires FormPre(name, args, st, env) && fuel >= 1 && !SpecialForm(name)
    requires Get(st, env, name).Ok?
    requires !Get(st, env, name).value.Func? && !Get(st, env, name).value.Closure?
    ensures Step(Form(name, args), st, env, fuel)
            == Stepped(Done(Err(NotAFunction(Get(st, env, name).value))), st)
  {
    StepCall(name, args, st, env, fuel);
    EvalNonList(Symbol(name), st, env, fuel);
  }

  /** The empty list cannot be applied. */
  lemma EmptyApplicationFails(st: seq<Frame>, env: nat, fuel: nat)
    requires ScopedFrames(st) && env < |st| && fuel >= 1
    ensures Eval(List([]), st, env, fuel) == Outcome(Err(EmptyApplication), st)
  {
  }
}

/** The step-5 evaluator as the source writes it: `eval` is one loop that
    reassigns its expression and frame for every form in tail position. */
module Step5 {
  import opened Types
  import opened Env
  import Core
  import Spec = Step5Spec

  method EvalAst(store: Store, ast: Value, env: nat, fuel: nat) returns (r: Result<Value>)
    requires store.Valid() && Spec.Pre(ast, store.frames, env)
    modifies store
    ensures store.Valid()
    ensures Outcome(r, store.frames) == Spec.EvalAst(ast, old(store.frames), env, fuel)
    decreases fuel, 2, 0
  {
    match ast
    case Symbol(s) =>
      r := Get(store.frames, env, s);
    case List(values) =>
      var evalues := EvalList(store, values, env, fuel);
      r := if evalues.Ok? then Ok(List(evalues.value)) else Err(evalues.error);
    case _ =>
      r := Ok(ast);
  }

  method EvalList(store: Store, values: seq<Value>, env: nat, fuel: nat) returns (r: Result<seq<Value>>)
    requires store.Valid() && ScopedFrames(store.frames) && env < |store.frames| && AllScoped(values, |store.frames|)
    modifies store
    ensures store.Valid()
    ensures Outcome(r, store.frames) == Spec.EvalList(values, old(store.frames), env, fuel)
    decreases fuel, 1, |values|
  {
    ghost var st0 := store.frames;
    var evalues: seq<Value> := [];
    for i := 0 to |values|
      invariant store.Valid() && ScopedFrames(store.frames) && env < |store.frames| && |st0| <= |store.frames|
      invariant Spec.EvalList(values[..i], st0, env, fuel) == Outcome(Ok(evalues), store.frames)
    {
      EvalListSnoc(values, i, st0, env, fuel);
      var v := Eval(store, values[i], env, fuel);
      if v.Err? {
        EvalListErrorStays(values, i + 1, st0, env, fuel);
        return Err(v.error);
      }
      evalues := evalues + [v.value];
    }
    assert values[..|values|] == values;
    r := Ok(evalues);
  }

  /** Evaluating one element more, after a prefix that succeeded. */
  lemma EvalListSnoc(vs: seq<Value>, i: nat, st: seq<Frame>, env: nat, fuel: nat)
    requires ScopedFrames(st) && env < |st| && AllScoped(vs, |st|) && i < |vs|
    requires Spec.EvalList(vs[..i], st, env, fuel).result.Ok?
    ensures var p := Spec.EvalList(vs[..i], st, env, fuel);
            && Scoped(vs[i], |p.frames|)
            && Spec.EvalList(vs[..i + 1], st, env, fuel)
               == var q := Spec.Eval(vs[i], p.frames, env, fuel);
                  Outcome(if q.result.Ok? then Ok(p.result.value + [q.result.value]) else Err(q.result.error), q.frames)
  {
    assert vs[..i + 1][..i] == vs[..i];
    ScopedMono(vs[i], |st|, |Spec.EvalList(vs[..i], st, env, fuel).frames|);
  }

  lemma {:induction false} EvalListErrorStays(vs: seq<Value>, i: nat, st: seq<Frame>, env: nat, fuel: nat)
    requires ScopedFrames(st) && env < |st| && AllScoped(vs, |st|) && i <= |vs|
    requires Spec.EvalList(vs[..i], st, env, fuel).result.Err?
    ensures Spec.EvalList(vs, st, env, fuel) == Spec.EvalList(vs[..i], st, env, fuel)
    decreases |vs| - i
  {
    if i < |vs| {
      assert vs[..i + 1][..i] == vs[..i];
      EvalListErrorStays(vs, i + 1, st, env, fuel);
    } else {
      assert vs[..i] == vs;
    }
  }

  method SetBindings(store: Store, bindings: seq<Value>, env: nat, fuel: nat) returns (r: Result<Value>)
    requires store.Valid() && ScopedFrames(store.frames) && env < |store.frames| && AllScoped(bindings, |store.frames|)
    modifies store
    ensures store.Valid()
    ensures Outcome(r, store.frames) == Spec.SetBindings(bindings, old(store.frames), env, fuel)
    decreases fuel, 1, |bindings|
  {
    var i := 0;
    while true
      invariant i <= |bindings|
      invariant store.Valid() && ScopedFrames(store.frames) && env < |store.frames|
      invariant AllScoped(bindings[i..], |store.frames|)
      invariant Spec.SetBindings(bindings[i..], store.frames, env, fuel)
                == Spec.SetBindings(bindings, old(store.frames), env, fuel)
      decreases |bindings| - i
    {
      var rest := bindings[i..];
      if rest == [] {
        return Ok(Nil);
      } else if |rest| == 1 {
        return Err(OddBindings);
      } else if !rest[0].Symbol? {
        return Err(BindingKeyNotSymbol);
      }
      ghost var top := store.frames;
      var val := Eval(store, rest[1], env, fuel);
      if val.Err? {
        return Err(val.error);
      }
      store.Set(env, rest[0].name, val.value);
      assert rest[2..] == bindings[i + 2..];
      assert AllScoped(rest[2..], |top|);
      AllScopedMono(rest[2..], |top|, |store.frames|);
      i := i + 2;
    }
  }

  method DefForm(store: Store, args: seq<Value>, env: nat, fuel: nat) returns (next: Spec.Next)
    requires store.Valid() && ScopedFrames(store.frames) && env < |store.frames| && AllScoped(args, |store.frames|)
    modifies store
    ensures store.Valid()
    ensures Spec.Stepped(next, store.frames) == Spec.DefForm(args, old(store.frames), env, fuel)
    decreases fuel, 3, 0
  {
    if |args| == 2 && args[0].Symbol? {
      var val := Eval(store, args[1], env, fuel);
      if val.Err? {
        return Spec.Done(val);
      }
      store.Set(env, args[0].name, val.value);
      next := Spec.Done(val);
    } else {
      next := Spec.Done(Err(MalformedDef));
    }
  }

  method LetForm(store: Store, args: seq<Value>, env: nat, fuel: nat) returns (next: Spec.Next)
    requires store.Valid() && ScopedFrames(store.frames) && env < |store.frames| && AllScoped(args, |store.frames|)
    modifies store
    ensures store.Valid()
    ensures Spec.Stepped(next, store.frames) == Spec.LetForm(args, old(store.frames), env, fuel)
    decreases fuel, 3, 0
  {
    if |args| == 2 && IsSequence(args[0]) {
      ScopedPush(store.frames, Frame(map[], Some(env)));
      var letEnv := store.New(Some(env));
      AllScopedMono(args[0].elems, |old(store.frames)|, |store.frames|);
      var bound := SetBindings(store, args[0].elems, letEnv, fuel);
      if bound.Err? {
        return Spec.Done(bound);
      }
      next := Spec.Continue(args[1], letEnv);
    } else {
      next := Spec.Done(Err(MalformedLet));
    }
  }

  /** The loop of `do`: each turn evaluates the previous argument (Nil at
      first) and keeps the current one for the next turn. */
  method DoForm(store: Store, args: seq<Value>, env: nat, fuel: nat) returns (next: Spec.Next)
    requires store.Valid() && ScopedFrames(store.frames) && env < |store.frames| && AllScoped(args, |store.frames|)
    modifies store
    ensures store.Valid()
    ensures Spec.Stepped(next, store.frames) == Spec.DoForm(args, old(store.frames), env, fuel)
    decreases fuel, 3, 0
  {
    ghost var st0 := store.frames;
    ghost var all := [Nil] + args;
    ghost var values: seq<Value> := [];
    assert AllScoped(all, |st0|);
    var lastArg := Nil;
    for i := 0 to |args|
      invariant store.Valid() && ScopedFrames(store.frames) && env < |store.frames| && |st0| <= |store.frames|
      invariant Spec.EvalList(all[..i], st0, env, fuel) == Outcome(Ok(values), store.frames)
      invariant lastArg == all[i]
    {
      assert all[..i + 1][..i] == all[..i];
      ScopedMono(lastArg, |st0|, |store.frames|);
      var v := Eval(store, lastArg, env, fuel);
      if v.Err? {
        assert AllScoped(all[..|args|], |st0|);
        assert all[..|args|][..i + 1] == all[..i + 1];
        EvalListErrorStays(all[..|args|], i + 1, st0, env, fuel);
        return Spec.Done(Err(v.error));
      }
      values := values + [v.value];
      lastArg := args[i];
    }
    next := Spec.Continue(lastArg, env);
  }

  method IfForm(store: Store, args: seq<Value>, env: nat, fuel: nat) returns (next: Spec.Next)
    requires store.Valid() && ScopedFrames(store.frames) && env < |store.frames| && AllScoped(args, |store.frames|)
    modifies store
    ensures store.Valid()
    ensures Spec.Stepped(next, store.frames) == Spec.IfForm(args, old(store.frames), env, fuel)
    decreases fuel, 3, 0
  {
    if args == [] {
      return Spec.Done(Err(MalformedIf));
    }
    var cond := Eval(store, args[0], env, fuel);
    if cond.Err? {
      return Spec.Done(cond);
    }
    if IsFalsy(cond.value) {
      if |args| >= 3 {
        next := Spec.Continue(args[2], env);
      } else {
        next := Spec.Done(Ok(Nil));
      }
    } else if |args| >= 2 {
      next := Spec.Continue(args[1], env);
    } else {
      next := Spec.Done(Err(MalformedIf));
    }
  }

  method ApplyForm(store: Store, head: Value, args: seq<Value>, env: nat, fuel: nat) returns (next: Spec.Next)
    requires store.Valid() && ScopedFrames(store.frames) && env < |store.frames|
    requires Scoped(head, |store.frames|) && AllScoped(args, |store.frames|)
    modifies store
    ensures store.Valid()
    ensures Spec.Stepped(next, store.frames) == Spec.ApplyForm(head, args, old(store.frames), env, fuel)
    decreases fuel, 3, 0
  {
    var f := Eval(store, head, env, fuel);
    if f.Err? {
      return Spec.Done(f);
    }
    if f.value.Func? || f.value.Closure? {
      AllScopedMono(args, |old(store.frames)|, |store.frames|);
      next := Invoke(store, f.value, args, env, fuel);
    } else {
      next := Spec.Done(Err(NotAFunction(f.value)));
    }
  }

  method Invoke(store: Store, callee: Value, args: seq<Value>, env: nat, fuel: nat) returns (next: Spec.Next)
    requires store.Valid() && ScopedFrames(store.frames) && env < |store.frames|
    requires Scoped(callee, |store.frames|) && AllScoped(args, |store.frames|)
    requires callee.Func? || callee.Closure?
    modifies store
    ensures store.Valid()
    ensures Spec.Stepped(next, store.frames) == Spec.Invoke(callee, args, old(store.frames), env, fuel)
    decreases fuel, 2, 1
  {
    var evaluated := EvalList(store, args, env, fuel);
    if evaluated.Err? {
      return Spec.Done(Err(evaluated.error));
    }
    match callee
    case Func(p) =>
      var r := Core.Call(p, evaluated.value);
      next := Spec.Done(r);
    case Closure(params, body, captured) =>
      var closureEnv := store.WithBindings(Some(captured), params, evaluated.value);
      if closureEnv.Err? {
        return Spec.Done(Err(closureEnv.error));
      }
      next := Spec.Continue(body, closureEnv.value);
  }

  /** One turn of the loop of `eval`. */
  method Step(store: Store, ast: Value, env: nat, fuel: nat) returns (next: Spec.Next)
    requires store.Valid() && Spec.Pre(ast, store.frames, env)
    modifies store
    ensures store.Valid()
    ensures Spec.Stepped(next, store.frames) == Spec.Step(ast, old(store.frames), env, fuel)
    decreases fuel, 4, 0
  {
    if !ast.List? {
      var r := EvalAst(store, ast, env, fuel);
      return Spec.Done(r);
    }
    var values := ast.elems;
    if values == [] {
      return Spec.Done(Err(EmptyApplication));
    }
    var arg0, args := values[0], values[1..];
    assert AllScoped(args, |store.frames|);
    if arg0 == Symbol("def!") {
      next := DefForm(store, args, env, fuel);
    } else if arg0 == Symbol("let*") {
      next := LetForm(store, args, env, fuel);
    } else if arg0 == Symbol("do") {
      next := DoForm(store, args, env, fuel);
    } else if arg0 == Symbol("if") {
      next := IfForm(store, args, env, fuel);
    } else if arg0 == Symbol("fn*") {
      if |args| == 2 && IsSequence(args[0]) {
        next := Spec.Done(Ok(Closure(args[0].elems, args[1], env)));
      } else {
        next := Spec.Done(Err(MalformedFn));
      }
    } else {
      next := ApplyForm(store, arg0, args, env, fuel);
    }
  }

  /** `eval`: its loop reassigns the expression and the frame until a turn
      is done; every turn spends one unit of fuel. */
  method Eval(store: Store, ast0: Value, env0: nat, fuel0: nat) returns (r: Result<Value>)
    requires store.Valid() && Spec.Pre(ast0, store.frames, env0)
    modifies store
    ensures store.Valid()
    ensures Outcome(r, store.frames) == Spec.Eval(ast0, old(store.frames), env0, fuel0)
    decreases fuel0, 0, 0
  {
    var ast, env, fuel: nat := ast0, env0, fuel0;
    while true
      invariant fuel <= fuel0
      invariant store.Valid() && Spec.Pre(ast, store.frames, env)
      invariant Spec.Eval(ast, store.frames, env, fuel) == Spec.Eval(ast0, old(store.frames), env0, fuel0)
      decreases fuel
    {
      if fuel == 0 {
        return Err(OutOfFuel);
      }
      var next := Step(store, ast, env, fuel - 1);
      match next
      case Done(result) =>
        return result;
      case Continue(a, e) =>
        ast, env, fuel := a, e, fuel - 1;
    }
  }
}
