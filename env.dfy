/** Environment frames. Every frame the interpreter creates lives in one
    arena, a sequence of frames addressed by index; a frame's outer link is
    the index of its parent, which is always smaller than its own index, so
    the chain of outer links is finite and acyclic. Frames are shared by
    index: two closures that captured the same frame see each other's
    `def!`s. */
module Env {
  import opened Types

  datatype Frame = Frame(symbols: map<string, Value>, outer: Option<nat>)

  /** Every outer link points to an earlier frame. */
  predicate Linked(st: seq<Frame>) {
    forall i | 0 <= i < |st| :: st[i].outer.Some? ==> st[i].outer.value < i
  }

  /** `st'` is a later state of `st`: frames are only added, no frame's
      outer link changes, and no frame loses a key. */
  predicate Grows(st: seq<Frame>, st': seq<Frame>) {
    && |st| <= |st'|
    && forall i | 0 <= i < |st| ::
         st'[i].outer == st[i].outer && st[i].symbols.Keys <= st'[i].symbols.Keys
  }

  lemma GrowsTrans(a: seq<Frame>, b: seq<Frame>, c: seq<Frame>)
    requires Grows(a, b) && Grows(b, c)
    ensures Grows(a, c)
  {
  }

  /** `get`: the value bound to `s` in frame `id` or, failing that, in the
      nearest outer frame that binds it. */
  function Get(st: seq<Frame>, id: nat, s: string): (r: Result<Value>)
    requires Linked(st) && id < |st|
    decreases id
  {
    if s in st[id].symbols then Ok(st[id].symbols[s])
    else match st[id].outer
      case Some(p) => Get(st, p, s)
      case None => Err(NotFound(s))
  }

  /** The frames met by walking outer links from `id`, `id` included. */
  function Chain(st: seq<Frame>, id: nat): (c: set<nat>)
    requires Linked(st) && id < |st|
    ensures id in c && forall a | a in c :: a <= id
    decreases id
  {
    match st[id].outer
    case Some(p) => {id} + Chain(st, p)
    case None => {id}
  }

  /** The state after `set(s, v)` on frame `id`. */
  function SetIn(st: seq<Frame>, id: nat, s: string, v: Value): (st': seq<Frame>)
    requires id < |st|
    ensures |st'| == |st|
    ensures st'[id].symbols == st[id].symbols[s := v] && st'[id].outer == st[id].outer
    ensures forall j | 0 <= j < |st| && j != id :: st'[j] == st[j]
  {
    st[id := Frame(st[id].symbols[s := v], st[id].outer)]
  }

  /** The symbol map that `with_bindings` builds: parameters and arguments
      must have the same length, every parameter must be a symbol, and the
      i-th parameter's name is bound to the i-th argument, a later
      parameter of the same name overriding an earlier one. */
  function Bind(binds: seq<Value>, exprs: seq<Value>): Result<map<string, Value>> {
    if |binds| != |exprs| then Err(ArityMismatch) else BindPairs(binds, exprs)
  }

  function BindPairs(binds: seq<Value>, exprs: seq<Value>): (r: Result<map<string, Value>>)
    requires |binds| == |exprs|
    ensures r.Err? ==> r.error == ParamNotSymbol
    decreases |binds|
  {
    if binds == [] then Ok(map[])
    else
      var n := |binds| - 1;
      match BindPairs(binds[..n], exprs[..n])
      case Err(e) => Err(e)
      case Ok(m) =>
        if binds[n].Symbol? then Ok(m[binds[n].name := exprs[n]]) else Err(ParamNotSymbol)
  }

  predicate AllSymbols(vs: seq<Value>) {
    forall i | 0 <= i < |vs| :: vs[i].Symbol?
  }

  // ---------------------------------------------------------------------
  // Properties of `get`

  /** A local binding shadows every outer one. */
  lemma GetShadows(st: seq<Frame>, id: nat, s: string)
    requires Linked(st) && id < |st| && s in st[id].symbols
    ensures Get(st, id, s) == Ok(st[id].symbols[s])
  {
  }

  /** On a local miss `get` is exactly the outer frame's `get`, or fails
      with "not found" when there is no outer frame. */
  lemma GetDelegates(st: seq<Frame>, id: nat, s: string)
    requires Linked(st) && id < |st| && s !in st[id].symbols
    ensures st[id].outer.Some? ==> Get(st, id, s) == Get(st, st[id].outer.value, s)
    ensures st[id].outer.None? ==> Get(st, id, s) == Err(NotFound(s))
  {
  }

  /** `get` succeeds exactly when some frame of the chain binds `s`, and
      it answers with the binding of the nearest such frame; when it fails
      the error names `s`. */
  lemma {:induction false} GetFindsChain(st: seq<Frame>, id: nat, s: string)
    requires Linked(st) && id < |st|
    ensures Get(st, id, s).Ok? <==> exists a | a in Chain(st, id) :: s in st[a].symbols
    ensures Get(st, id, s).Ok? ==>
              exists a | a in Chain(st, id) :: s in st[a].symbols && Get(st, id, s).value == st[a].symbols[s]
    ensures Get(st, id, s).Err? ==> Get(st, id, s).error == NotFound(s)
    decreases id
  {
    if s in st[id].symbols {
      assert id in Chain(st, id);
    } else if st[id].outer.Some? {
      var p := st[id].outer.value;
      GetFindsChain(st, p, s);
      assert Chain(st, id) == {id} + Chain(st, p);
    }
  }

  /** Setting a key in frame `id` is invisible from every frame below `id`
      in the arena, in particular from every ancestor of `id`: a frame can
      shadow its ancestors' bindings but never rebind them. */
  lemma {:induction false} SetInvisibleBelow(st: seq<Frame>, id: nat, s: string, v: Value, j: nat, t: string)
    requires Linked(st) && id < |st| && j < id
    ensures Linked(SetIn(st, id, s, v))
    ensures Get(SetIn(st, id, s, v), j, t) == Get(st, j, t)
    decreases j
  {
    var st' := SetIn(st, id, s, v);
    assert st'[j] == st[j];
    if t !in st[j].symbols && st[j].outer.Some? {
      SetInvisibleBelow(st, id, s, v, st[j].outer.value, t);
    }
  }

  /** After `set(s, v)` on frame `id`, `get(s)` there yields `v`, and
      `get` of any other name is as before. */
  lemma SetThenGet(st: seq<Frame>, id: nat, s: string, v: Value, t: string)
    requires Linked(st) && id < |st|
    ensures Linked(SetIn(st, id, s, v))
    ensures Get(SetIn(st, id, s, v), id, s) == Ok(v)
    ensures t != s ==> Get(SetIn(st, id, s, v), id, t) == Get(st, id, t)
  {
    var st' := SetIn(st, id, s, v);
    if t != s && t !in st[id].symbols && st[id].outer.Some? {
      SetInvisibleBelow(st, id, s, v, st[id].outer.value, t);
    }
  }

  /** Adding a frame changes no existing frame's lookups. */
  lemma {:induction false} GetAfterPush(st: seq<Frame>, f: Frame, j: nat, t: string)
    requires Linked(st) && j < |st|
    requires f.outer.Some? ==> f.outer.value < |st|
    ensures Linked(st + [f])
    ensures Get(st + [f], j, t) == Get(st, j, t)
    decreases j
  {
    assert (st + [f])[j] == st[j];
    if t !in st[j].symbols && st[j].outer.Some? {
      GetAfterPush(st, f, st[j].outer.value, t);
    }
  }

  // ---------------------------------------------------------------------
  // Properties of `with_bindings`

  lemma BindArity(binds: seq<Value>, exprs: seq<Value>)
    requires |binds| != |exprs|
    ensures Bind(binds, exprs) == Err(ArityMismatch)
  {
  }

  /** On well-sized input, binding succeeds exactly when every parameter
      is a symbol; otherwise it fails with "not a symbol". */
  lemma {:induction false} BindOkIff(binds: seq<Value>, exprs: seq<Value>)
    requires |binds| == |exprs|
    ensures Bind(binds, exprs).Ok? <==> AllSymbols(binds)
    ensures Bind(binds, exprs).Err? ==> Bind(binds, exprs) == Err(ParamNotSymbol)
    decreases |binds|
  {
    if binds != [] {
      var n := |binds| - 1;
      BindOkIff(binds[..n], exprs[..n]);
      if AllSymbols(binds) {
        assert AllSymbols(binds[..n]);
      } else if AllSymbols(binds[..n]) {
        assert !binds[n].Symbol?;
      }
    }
  }

  /** The keys of a successful binding are exactly the parameter names. */
  lemma {:induction false} BindKeys(binds: seq<Value>, exprs: seq<Value>)
    requires Bind(binds, exprs).Ok?
    ensures |binds| == |exprs| && AllSymbols(binds)
    ensures Bind(binds, exprs).value.Keys == set i | 0 <= i < |binds| :: binds[i].name
    decreases |binds|
  {
    BindOkIff(binds, exprs);
    if binds != [] {
      var n := |binds| - 1;
      BindKeys(binds[..n], exprs[..n]);
      var m := Bind(binds[..n], exprs[..n]).value;
      var names := set i | 0 <= i < |binds| :: binds[i].name;
      var prefix := set i | 0 <= i < n :: binds[..n][i].name;
      assert names == prefix + {binds[n].name} by {
        forall x | x in names ensures x in prefix + {binds[n].name} {
          var i :| 0 <= i < |binds| && binds[i].name == x;
          if i < n { assert binds[..n][i] == binds[i]; }
        }
        forall x | x in prefix ensures x in names {
          var i :| 0 <= i < n && binds[..n][i].name == x;
          assert binds[i] == binds[..n][i];
        }
      }
    }
  }

  /** In a successful binding the name of the i-th parameter maps to the
      i-th argument, unless a later parameter has the same name: the last
      occurrence of a name wins. */
  lemma {:induction false} BindLastWins(binds: seq<Value>, exprs: seq<Value>, i: nat)
    requires Bind(binds, exprs).Ok? && i < |binds|
    requires forall j | i < j < |binds| :: binds[j] != binds[i]
    ensures |exprs| == |binds| && binds[i].Symbol?
    ensures binds[i].name in Bind(binds, exprs).value
    ensures Bind(binds, exprs).value[binds[i].name] == exprs[i]
    decreases |binds|
  {
    BindOkIff(binds, exprs);
    var n := |binds| - 1;
    if i < n {
      assert binds[..n][i] == binds[i];
      BindOkIff(binds[..n], exprs[..n]);
      assert AllSymbols(binds[..n]);
      BindLastWins(binds[..n], exprs[..n], i);
      assert binds[n] != binds[i];
    }
  }

  /** Every value a successful binding stores is one of the arguments. */
  lemma {:induction false} BindValuesFromArgs(binds: seq<Value>, exprs: seq<Value>, k: string)
    requires Bind(binds, exprs).Ok? && k in Bind(binds, exprs).value
    ensures |binds| == |exprs|
    ensures exists i | 0 <= i < |exprs| :: Bind(binds, exprs).value[k] == exprs[i]
    decreases |binds|
  {
    var n := |binds| - 1;
    var m := Bind(binds[..n], exprs[..n]).value;
    if k != binds[n].name {
      BindValuesFromArgs(binds[..n], exprs[..n], k);
      var i :| 0 <= i < n && m[k] == exprs[..n][i];
      assert exprs[..n][i] == exprs[i];
    }
  }

  // ---------------------------------------------------------------------
  // What evaluation may do to the arena

  /** A result together with the arena after computing it. */
  datatype Outcome<T> = Outcome(result: Result<T>, frames: seq<Frame>)

  /** Evaluating in frame `env` took the arena from `st` to `st'`: it only
      added frames and bindings, and every frame that already existed,
      other than `env` itself, is exactly as it was. */
  predicate Confined(st: seq<Frame>, st': seq<Frame>, env: nat) {
    && Grows(st, st')
    && forall j | 0 <= j < |st| && j != env :: st'[j] == st[j]
  }

  /** Evaluating in `env` and then in `env'`, which is `env` or a frame
      created by the first evaluation, is confined to `env`. */
  lemma ConfinedThen(a: seq<Frame>, b: seq<Frame>, c: seq<Frame>, env: nat, env': nat)
    requires Confined(a, b, env) && Confined(b, c, env')
    requires env' == env || env' >= |a|
    ensures Confined(a, c, env)
  {
  }

  lemma ConfinedSet(st: seq<Frame>, id: nat, s: string, v: Value)
    requires id < |st|
    ensures Confined(st, SetIn(st, id, s, v), id)
  {
  }

  lemma ConfinedPush(st: seq<Frame>, f: Frame, env: nat)
    ensures Confined(st, st + [f], env)
  {
  }

  // ---------------------------------------------------------------------
  // Closures refer only to existing frames

  /** Every frame index held by a closure inside `v` is below `n`. */
  predicate Scoped(v: Value, n: nat)
    decreases v
  {
    match v
    case List(es) => forall i | 0 <= i < |es| :: Scoped(es[i], n)
    case Vector(es) => forall i | 0 <= i < |es| :: Scoped(es[i], n)
    case Lambda(ps, body) => (forall i | 0 <= i < |ps| :: Scoped(ps[i], n)) && Scoped(body, n)
    case Closure(ps, body, env) =>
      env < n && (forall i | 0 <= i < |ps| :: Scoped(ps[i], n)) && Scoped(body, n)
    case _ => true
  }

  predicate AllScoped(vs: seq<Value>, n: nat) {
    forall i | 0 <= i < |vs| :: Scoped(vs[i], n)
  }

  /** The arena is linked and every value stored in it is scoped by it. */
  predicate ScopedFrames(st: seq<Frame>) {
    && Linked(st)
    && forall i, k | 0 <= i < |st| && k in st[i].symbols :: Scoped(st[i].symbols[k], |st|)
  }

  lemma {:induction false} ScopedMono(v: Value, n: nat, m: nat)
    requires Scoped(v, n) && n <= m
    ensures Scoped(v, m)
    decreases v
  {
    match v
    case List(es) =>
      forall i | 0 <= i < |es| ensures Scoped(es[i], m) { ScopedMono(es[i], n, m); }
    case Vector(es) =>
      forall i | 0 <= i < |es| ensures Scoped(es[i], m) { ScopedMono(es[i], n, m); }
    case Lambda(ps, body) =>
      forall i | 0 <= i < |ps| ensures Scoped(ps[i], m) { ScopedMono(ps[i], n, m); }
      ScopedMono(body, n, m);
    case Closure(ps, body, env) =>
      forall i | 0 <= i < |ps| ensures Scoped(ps[i], m) { ScopedMono(ps[i], n, m); }
      ScopedMono(body, n, m);
    case _ =>
  }

  lemma AllScopedMono(vs: seq<Value>, n: nat, m: nat)
    requires AllScoped(vs, n) && n <= m
    ensures AllScoped(vs, m)
  {
    forall i | 0 <= i < |vs| ensures Scoped(vs[i], m) { ScopedMono(vs[i], n, m); }
  }

  lemma ScopedSet(st: seq<Frame>, id: nat, s: string, v: Value)
    requires ScopedFrames(st) && id < |st| && Scoped(v, |st|)
    ensures ScopedFrames(SetIn(st, id, s, v))
  {
  }

  lemma ScopedPush(st: seq<Frame>, f: Frame)
    requires ScopedFrames(st)
    requires f.outer.Some? ==> f.outer.value < |st|
    requires forall k | k in f.symbols :: Scoped(f.symbols[k], |st|)
    ensures ScopedFrames(st + [f])
  {
    var st' := st + [f];
    forall i, k | 0 <= i < |st'| && k in st'[i].symbols
      ensures Scoped(st'[i].symbols[k], |st'|)
    {
      ScopedMono(st'[i].symbols[k], |st|, |st'|);
    }
  }

  lemma {:induction false} ScopedGet(st: seq<Frame>, id: nat, s: string)
    requires ScopedFrames(st) && id < |st|
    ensures Get(st, id, s).Ok? ==> Scoped(Get(st, id, s).value, |st|)
    decreases id
  {
    if s !in st[id].symbols && st[id].outer.Some? {
      ScopedGet(st, st[id].outer.value, s);
    }
  }

  lemma ScopedBind(binds: seq<Value>, exprs: seq<Value>, n: nat)
    requires AllScoped(exprs, n)
    requires Bind(binds, exprs).Ok?
    ensures forall k | k in Bind(binds, exprs).value :: Scoped(Bind(binds, exprs).value[k], n)
  {
    forall k | k in Bind(binds, exprs).value ensures Scoped(Bind(binds, exprs).value[k], n) {
      BindValuesFromArgs(binds, exprs, k);
    }
  }

  // ---------------------------------------------------------------------
  // The arena itself, updated in place

  class Store {
    var frames: seq<Frame>

    ghost predicate Valid()
      reads this
    {
      Linked(frames)
    }

    constructor ()
      ensures Valid() && frames == []
    {
      frames := [];
    }

    /** `Environment::new(outer)`: a frame with no local symbols and
        exactly the given outer link; its index is returned. */
    method New(outer: Option<nat>) returns (id: nat)
      requires Valid() && (outer.Some? ==> outer.value < |frames|)
      modifies this
      ensures Valid()
      ensures id == |old(frames)| && frames == old(frames) + [Frame(map[], outer)]
    {
      id := |frames|;
      frames := frames + [Frame(map[], outer)];
    }

    /** `set(s, v)`: frame `id` maps `s` to `v`; every other key, the
        outer link and every other frame are unchanged. */
    method Set(id: nat, s: string, v: Value)
      requires Valid() && id < |frames|
      modifies this
      ensures Valid()
      ensures frames == SetIn(old(frames), id, s, v)
    {
      frames := frames[id := Frame(frames[id].symbols[s := v], frames[id].outer)];
    }

    /** `with_bindings(outer, binds, exprs)`: checks the counts, then fills
        a fresh symbol map pair by pair, failing at the first parameter
        that is not a symbol. Only on success is a frame added. */
    method WithBindings(outer: Option<nat>, binds: seq<Value>, exprs: seq<Value>) returns (r: Result<nat>)
      requires Valid() && (outer.Some? ==> outer.value < |frames|)
      modifies this
      ensures Valid()
      ensures Bind(binds, exprs).Err? ==> r == Err(Bind(binds, exprs).error) && frames == old(frames)
      ensures Bind(binds, exprs).Ok? ==>
                r == Ok(|old(frames)|) && frames == old(frames) + [Frame(Bind(binds, exprs).value, outer)]
    {
      if |binds| != |exprs| {
        return Err(ArityMismatch);
      }
      var symbols: map<string, Value> := map[];
      var i := 0;
      while i < |binds|
        invariant 0 <= i <= |binds|
        invariant BindPairs(binds[..i], exprs[..i]) == Ok(symbols)
      {
        if binds[i].Symbol? {
          assert binds[..i + 1][..i] == binds[..i] && exprs[..i + 1][..i] == exprs[..i];
          symbols := symbols[binds[i].name := exprs[i]];
        } else {
          BindOkIff(binds, exprs);
          return Err(ParamNotSymbol);
        }
        i := i + 1;
      }
      assert binds[..i] == binds && exprs[..i] == exprs;
      r := Ok(|frames|);
      frames := frames + [Frame(symbols, outer)];
    }
  }
}
