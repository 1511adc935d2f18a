/** The primitive library: total functions from an argument sequence to a
    value or an error, and the root frame that binds them. */
module Core {
  import opened Types
  import Env

  // ---------------------------------------------------------------------
  // i64 arithmetic

  /** The result of Rust's `i64` arithmetic: the exact value when it fits,
      otherwise the overflow panic. */
  function Checked(n: int): (r: Result<Int64>)
    ensures r.Ok? <==> I64_MIN <= n <= I64_MAX
    ensures r.Ok? ==> r.value == n
    ensures r.Err? ==> r.error == Overflow
  {
    if I64_MIN <= n <= I64_MAX then Ok(n) else Err(Overflow)
  }

  function Abs(n: int): nat {
    if n < 0 then -n else n
  }

  /** Rust's `/` on integers, which rounds toward zero (Dafny's `/` is
      Euclidean). */
  function TruncDiv(a: int, b: int): int
    requires b != 0
  {
    if (a < 0) == (b < 0) then Abs(a) / Abs(b) else -(Abs(a) / Abs(b))
  }

  lemma NatDivMod(x: nat, y: nat)
    requires y > 0
    ensures x == (x / y) * y + x % y && 0 <= x % y < y && x / y >= 0
  {
  }

  lemma MulMonotone(q: nat, y: nat, z: nat)
    requires y <= z
    ensures q * y <= q * z
  {
  }

  lemma NegMul(x: int, y: int)
    ensures (-x) * y == -(x * y) && x * (-y) == -(x * y)
  {
  }

  lemma DivAtMost(x: nat, y: nat)
    requires y > 0
    ensures x / y <= x
    ensures y >= 2 ==> 2 * (x / y) <= x
  {
    NatDivMod(x, y);
    MulMonotone(x / y, 1, y);
    if y >= 2 { MulMonotone(x / y, 2, y); }
  }

  /** Rounding toward zero: the quotient's magnitude is the quotient of the
      magnitudes, and the remainder `a - q * b` is smaller than the divisor
      in magnitude and is zero or has the sign of the dividend. */
  lemma TruncDivRounding(a: int, b: int)
    requires b != 0
    ensures Abs(TruncDiv(a, b)) == Abs(a) / Abs(b)
    ensures var r := a - TruncDiv(a, b) * b;
            Abs(r) < Abs(b) && (r == 0 || (r < 0) == (a < 0))
  {
    var q0, r0 := Abs(a) / Abs(b), Abs(a) % Abs(b);
    NatDivMod(Abs(a), Abs(b));
    var q := TruncDiv(a, b);
    assert q == if (a < 0) == (b < 0) then q0 else -q0;
    assert Abs(q) == q0 by { assert q0 >= 0; }
    TruncRemainder(a, b, q, q0, r0);
  }

  /** The remainder of rounding toward zero, from the Euclidean division of
      the magnitudes. */
  lemma TruncRemainder(a: int, b: int, q: int, q0: int, r0: int)
    requires b != 0 && Abs(a) == q0 * Abs(b) + r0 && 0 <= r0 < Abs(b)
    requires q == if (a < 0) == (b < 0) then q0 else -q0
    ensures a - q * b == if a < 0 then -r0 else r0
    ensures var r := a - q * b;
            Abs(r) < Abs(b) && (r == 0 || (r < 0) == (a < 0))
  {
    NegMul(q0, Abs(b));
    if a >= 0 && b < 0 {
      NegMul(-q0, Abs(b));
    }
  }

  /** A quotient is never below `i64::MIN`, and the only one above
      `i64::MAX` is `i64::MIN / -1`. */
  lemma DivOverflowOnlyAtMin(a: Int64, b: Int64)
    requires b != 0
    ensures TruncDiv(a, b) >= I64_MIN
    ensures TruncDiv(a, b) > I64_MAX <==> a == I64_MIN && b == -1
  {
    DivAtMost(Abs(a), Abs(b));
  }

  function AddOp(a: Int64, b: Int64): Result<Int64> { Checked(a + b) }
  function SubOp(a: Int64, b: Int64): Result<Int64> { Checked(a - b) }
  function MulOp(a: Int64, b: Int64): Result<Int64> { Checked(a * b) }
  function DivOp(a: Int64, b: Int64): Result<Int64> {
    if b == 0 then Err(DivideByZero) else Checked(TruncDiv(a, b))
  }

  // ---------------------------------------------------------------------
  // The shared checks of the binary integer operations

  /** The two checks exactly as `binary_int_op` and `binary_bool_op` write
      them: both "not an integer" branches format `args[1]`. */
  function IntegerArgsAsWritten(args: seq<Value>): Result<(Int64, Int64)> {
    if |args| != 2 then Err(BinaryArity(|args|))
    else if !args[0].Integer? then Err(NotAnInteger(args[1]))
    else if !args[1].Integer? then Err(NotAnInteger(args[1]))
    else Ok((args[0].n, args[1].n))
  }

  /** With a non-integer first argument and an integer second one, the
      message as written names the integer. */
  lemma IntegerArgsAsWrittenNamesWrongArgument()
    ensures IntegerArgsAsWritten([Nil, Integer(1)]) == Err(NotAnInteger(Integer(1)))
    ensures Integer(1).Integer?
  {
  }

  /** The two checks as evidently intended, and as this model uses them:
      exactly two arguments, both integers, and the message names the first
      argument that is not an integer. */
  function IntegerArgs(args: seq<Value>): (r: Result<(Int64, Int64)>)
    ensures r.Ok? <==> |args| == 2 && args[0].Integer? && args[1].Integer?
    ensures r.Ok? ==> r.value == (args[0].n, args[1].n)
    ensures |args| != 2 ==> r == Err(BinaryArity(|args|))
    ensures |args| == 2 && r.Err? ==>
              exists i | 0 <= i < 2 :: r == Err(NotAnInteger(args[i])) && !args[i].Integer?
                                       && forall j | 0 <= j < i :: args[j].Integer?
  {
    if |args| != 2 then Err(BinaryArity(|args|))
    else if !args[0].Integer? then Err(NotAnInteger(args[0]))
    else if !args[1].Integer? then Err(NotAnInteger(args[1]))
    else Ok((args[0].n, args[1].n))
  }

  /** `binary_int_op(f, args)`. */
  function BinaryIntOp(f: (Int64, Int64) -> Result<Int64>, args: seq<Value>): Result<Value> {
    match IntegerArgs(args)
    case Err(e) => Err(e)
    case Ok((a, b)) =>
      match f(a, b)
      case Ok(n) => Ok(Integer(n))
      case Err(e) => Err(e)
  }

  /** `binary_bool_op(f, args)`. */
  function BinaryBoolOp(f: (Int64, Int64) -> bool, args: seq<Value>): Result<Value> {
    match IntegerArgs(args)
    case Err(e) => Err(e)
    case Ok((a, b)) => Ok(FromBool(f(a, b)))
  }

  /** `+`, `-` and `*` are i64 addition, subtraction and multiplication
      when the result fits, and panic otherwise. */
  lemma AddOnIntegers(a: Int64, b: Int64)
    ensures Apply(Plus, [Integer(a), Integer(b)]) ==
              (if I64_MIN <= a + b <= I64_MAX then Ok(Integer(a + b)) else Err(Overflow))
  {
  }

  lemma SubOnIntegers(a: Int64, b: Int64)
    ensures Apply(Minus, [Integer(a), Integer(b)]) ==
              (if I64_MIN <= a - b <= I64_MAX then Ok(Integer(a - b)) else Err(Overflow))
  {
  }

  lemma MulOnIntegers(a: Int64, b: Int64)
    ensures Apply(Times, [Integer(a), Integer(b)]) ==
              (if I64_MIN <= a * b <= I64_MAX then Ok(Integer(a * b)) else Err(Overflow))
  {
  }

  /** `/` panics on a zero divisor and otherwise divides rounding toward
      zero; its one overflow is `i64::MIN / -1`. */
  lemma DivOnIntegers(a: Int64, b: Int64)
    ensures b == 0 ==> Apply(Divide, [Integer(a), Integer(b)]) == Err(DivideByZero)
    ensures b != 0 && !(a == I64_MIN && b == -1) ==>
              Apply(Divide, [Integer(a), Integer(b)]) == Ok(Integer(TruncDiv(a, b)))
    ensures a == I64_MIN && b == -1 ==> Apply(Divide, [Integer(a), Integer(b)]) == Err(Overflow)
  {
    if b != 0 {
      DivOverflowOnlyAtMin(a, b);
    }
  }

  /** The comparisons share the checks of the arithmetic operations and
      answer with the i64 comparison. */
  lemma ComparisonsOnIntegers(a: Int64, b: Int64)
    ensures Apply(Less, [Integer(a), Integer(b)]) == Ok(FromBool(a < b))
    ensures Apply(LessEq, [Integer(a), Integer(b)]) == Ok(FromBool(a <= b))
    ensures Apply(Greater, [Integer(a), Integer(b)]) == Ok(FromBool(a > b))
    ensures Apply(GreaterEq, [Integer(a), Integer(b)]) == Ok(FromBool(a >= b))
  {
  }

  /** Every binary integer primitive fails, with the argument validation's error, unless
      given exactly two integers. */
  lemma BinaryChecksFirst(p: Prim, args: seq<Value>)
    requires p in {Plus, Minus, Times, Divide, Less, LessEq, Greater, GreaterEq}
    requires IntegerArgs(args).Err?
    ensures Apply(p, args) == Err(IntegerArgs(args).error)
  {
  }

  // ---------------------------------------------------------------------
  // Equality and the list predicates

  predicate AllEqualFirst(args: seq<Value>) {
    forall i | 0 <= i < |args| :: args[i] == args[0]
  }

  /** `=`: true exactly when every argument equals the first. */
  method Eq(args: seq<Value>) returns (r: Result<Value>)
    ensures r == Ok(FromBool(AllEqualFirst(args)))
  {
    if |args| == 0 {
      return Ok(True);
    }
    var arg0 := args[0];
    for i := 1 to |args|
      invariant forall j | 0 <= j < i :: args[j] == arg0
    {
      if args[i] != arg0 {
        return Ok(False);
      }
    }
    return Ok(True);
  }

  predicate AllLists(args: seq<Value>) {
    forall i | 0 <= i < |args| :: args[i].List?
  }

  /** `list?`: true exactly when every argument is a List; a Vector does
      not count. */
  method IsList(args: seq<Value>) returns (r: Result<Value>)
    ensures r == Ok(FromBool(AllLists(args)))
  {
    for i := 0 to |args|
      invariant forall j | 0 <= j < i :: args[j].List?
    {
      if !args[i].List? {
        return Ok(False);
      }
    }
    return Ok(True);
  }

  predicate IsEmptySequence(v: Value) {
    IsSequence(v) && v.elems == []
  }

  /** The index of the first argument that is not an empty List or
      Vector, or the argument count when there is none. */
  function FirstNotEmpty(args: seq<Value>): (k: nat)
    ensures k <= |args|
    ensures forall j | 0 <= j < k :: IsEmptySequence(args[j])
    ensures k < |args| ==> !IsEmptySequence(args[k])
    decreases |args|
  {
    if args == [] then 0
    else if IsEmptySequence(args[0]) then 1 + FirstNotEmpty(args[1..])
    else 0
  }

  /** What `empty?` answers: scanning left to right, a non-empty List or
      Vector gives false and anything else that is not a List or Vector
      gives an error, whichever comes first; true if neither occurs. */
  function EmptyResult(args: seq<Value>): Result<Value> {
    var k := FirstNotEmpty(args);
    if k == |args| then Ok(True)
    else if IsSequence(args[k]) then Ok(False)
    else Err(NotAList(args[k]))
  }

  /** `empty?`. */
  method IsEmpty(args: seq<Value>) returns (r: Result<Value>)
    ensures r == EmptyResult(args)
  {
    for i := 0 to |args|
      invariant forall j | 0 <= j < i :: IsEmptySequence(args[j])
    {
      match args[i]
      case List(elems) =>
        if elems != [] { FirstNotEmptyIs(args, i); return Ok(False); }
      case Vector(elems) =>
        if elems != [] { FirstNotEmptyIs(args, i); return Ok(False); }
      case _ =>
        FirstNotEmptyIs(args, i);
        return Err(NotAList(args[i]));
    }
    FirstNotEmptyIs(args, |args|);
    return Ok(True);
  }

  lemma {:induction false} FirstNotEmptyIs(args: seq<Value>, k: nat)
    requires k <= |args|
    requires forall j | 0 <= j < k :: IsEmptySequence(args[j])
    requires k < |args| ==> !IsEmptySequence(args[k])
    ensures FirstNotEmpty(args) == k
    decreases k
  {
    if k > 0 {
      FirstNotEmptyIs(args[1..], k - 1);
    }
  }

  /** `empty?` is true exactly when every argument is an empty List or
      Vector (so with no arguments it is true). */
  lemma EmptyTrueIff(args: seq<Value>)
    ensures EmptyResult(args) == Ok(True) <==> forall i | 0 <= i < |args| :: IsEmptySequence(args[i])
  {
  }

  predicate Countable(v: Value) {
    v.Nil? || IsSequence(v)
  }

  function Length(v: Value): nat
    requires Countable(v)
  {
    if v.Nil? then 0 else |v.elems|
  }

  /** The sum of the lengths of countable arguments, Nil counting 0. */
  function TotalLength(args: seq<Value>): nat
    requires forall i | 0 <= i < |args| :: Countable(args[i])
    decreases |args|
  {
    if args == [] then 0 else TotalLength(args[..|args| - 1]) + Length(args[|args| - 1])
  }

  lemma {:induction false} TotalLengthMonotone(args: seq<Value>, i: nat, j: nat)
    requires i <= j <= |args|
    requires forall k | 0 <= k < j :: Countable(args[k])
    ensures TotalLength(args[..i]) <= TotalLength(args[..j])
    decreases j - i
  {
    if i < j {
      TotalLengthMonotone(args, i, j - 1);
      assert args[..j][..j - 1] == args[..j - 1];
    }
  }

  /** The index of the first argument that is neither Nil, a List nor a
      Vector, or the argument count when there is none. */
  function FirstUncountable(args: seq<Value>): (k: nat)
    ensures k <= |args|
    ensures forall j | 0 <= j < k :: Countable(args[j])
    ensures k < |args| ==> !Countable(args[k])
    decreases |args|
  {
    if args == [] then 0
    else if Countable(args[0]) then 1 + FirstUncountable(args[1..])
    else 0
  }

  /** What `count` answers: the i64 sum of the lengths of its arguments,
      Nil counting 0. The first argument that is not countable is an
      error, unless the running sum has already overflowed before it. */
  function CountResult(args: seq<Value>): Result<Value> {
    var k := FirstUncountable(args);
    var total := TotalLength(args[..k]);
    if total > I64_MAX then Err(Overflow)
    else if k < |args| then Err(NotAList(args[k]))
    else Ok(Integer(total))
  }

  /** `count`: a loop that accumulates the lengths in an i64 counter. */
  method CountArgs(args: seq<Value>) returns (r: Result<Value>)
    ensures r == CountResult(args)
  {
    var count: Int64 := 0;
    var i := 0;
    while i < |args|
      invariant 0 <= i <= |args|
      invariant forall j | 0 <= j < i :: Countable(args[j])
      invariant count == TotalLength(args[..i])
    {
      var arg := args[i];
      if !Countable(arg) {
        FirstUncountableIs(args, i);
        return Err(NotAList(arg));
      }
      assert args[..i + 1][..i] == args[..i];
      var sum := count + Length(arg);
      if sum > I64_MAX {
        FirstUncountableAtLeast(args, i + 1);
        TotalLengthMonotone(args, i + 1, FirstUncountable(args));
        return Err(Overflow);
      }
      count := sum;
      i := i + 1;
    }
    FirstUncountableIs(args, |args|);
    assert args[..|args|] == args;
    return Ok(Integer(count));
  }

  lemma {:induction false} FirstUncountableIs(args: seq<Value>, k: nat)
    requires k <= |args|
    requires forall j | 0 <= j < k :: Countable(args[j])
    requires k < |args| ==> !Countable(args[k])
    ensures FirstUncountable(args) == k
    decreases k
  {
    if k > 0 {
      FirstUncountableIs(args[1..], k - 1);
    }
  }

  lemma {:induction false} FirstUncountableAtLeast(args: seq<Value>, k: nat)
    requires k <= |args|
    requires forall j | 0 <= j < k :: Countable(args[j])
    ensures FirstUncountable(args) >= k
    decreases k
  {
    if k > 0 {
      FirstUncountableAtLeast(args[1..], k - 1);
    }
  }

  /** `count` succeeds exactly when every argument is Nil, a List or a
      Vector and the total fits in an i64, and then answers with that
      non-negative total. */
  lemma CountOkIff(args: seq<Value>)
    ensures CountResult(args).Ok? <==>
              (forall i | 0 <= i < |args| :: Countable(args[i])) && TotalLength(args) <= I64_MAX
    ensures CountResult(args).Ok? ==>
              CountResult(args) == Ok(Integer(TotalLength(args))) && TotalLength(args) >= 0
  {
    var k := FirstUncountable(args);
    if k == |args| {
      assert args[..k] == args;
    }
  }

  // ---------------------------------------------------------------------
  // Dispatch and the root frame

  /** Applying a primitive to evaluated arguments. The printing primitives
      render through a function the repository does not contain; here
      `prn` and `println` answer Nil (their output is left out), and
      `pr-str` and `str` answer the empty string when there is nothing to
      render and fail with `NoRenderer` otherwise. */
  function Apply(p: Prim, args: seq<Value>): (r: Result<Value>)
    ensures r.Ok? ==> r.value == List(args) || r.value.Nil? || r.value.True? || r.value.False? || r.value.Integer?
                      || (p in {PrStr, ToStr} && args == [] && r.value == Str(""))
    ensures p in {PrStr, ToStr} ==> (r.Ok? <==> args == [])
  {
    match p
    case Plus => BinaryIntOp(AddOp, args)
    case Minus => BinaryIntOp(SubOp, args)
    case Times => BinaryIntOp(MulOp, args)
    case Divide => BinaryIntOp(DivOp, args)
    case MakeList => Ok(List(args))
    case ListP => Ok(FromBool(AllLists(args)))
    case EmptyP => EmptyResult(args)
    case Count => CountResult(args)
    case Equal => Ok(FromBool(AllEqualFirst(args)))
    case Less => BinaryBoolOp((a, b) => a < b, args)
    case LessEq => BinaryBoolOp((a, b) => a <= b, args)
    case Greater => BinaryBoolOp((a, b) => a > b, args)
    case GreaterEq => BinaryBoolOp((a, b) => a >= b, args)
    case PrStr => if args == [] then Ok(Str("")) else Err(NoRenderer(PrStr))
    case ToStr => if args == [] then Ok(Str("")) else Err(NoRenderer(ToStr))
    case Prn => Ok(Nil)
    case Println => Ok(Nil)
  }

  /** `func(args)` for a `Func` value: runs the primitive's own code. */
  method Call(p: Prim, args: seq<Value>) returns (r: Result<Value>)
    ensures r == Apply(p, args)
  {
    match p
    case Equal => r := Eq(args);
    case ListP => r := IsList(args);
    case EmptyP => r := IsEmpty(args);
    case Count => r := CountArgs(args);
    case _ => r := Apply(p, args);
  }

  /** `list` returns its arguments as a List, unchanged. */
  lemma MakeListIdentity(args: seq<Value>)
    ensures Apply(MakeList, args) == Ok(List(args)) && Apply(MakeList, args).value.elems == args
  {
  }

  /** The bindings of the root frame: seventeen names, each bound to a
      primitive. */
  function RootBindings(): (m: map<string, Value>)
    ensures forall k | k in m :: m[k].Func?
  {
    map["+" := Func(Plus), "-" := Func(Minus), "*" := Func(Times), "/" := Func(Divide),
        "list" := Func(MakeList), "list?" := Func(ListP), "empty?" := Func(EmptyP), "count" := Func(Count),
        "=" := Func(Equal),
        "<" := Func(Less), "<=" := Func(LessEq), ">" := Func(Greater), ">=" := Func(GreaterEq),
        "pr-str" := Func(PrStr), "str" := Func(ToStr), "prn" := Func(Prn), "println" := Func(Println)]
  }

  /** The root frame binds exactly the seventeen primitive names. */
  lemma RootNames()
    ensures RootBindings().Keys == {"+", "-", "*", "/", "list", "list?", "empty?", "count", "=",
                                    "<", "<=", ">", ">=", "pr-str", "str", "prn", "println"}
  {
  }

  /** `default_environment`: a new frame with no outer link, filled by
      seventeen `set` calls. */
  method DefaultEnvironment(store: Env.Store) returns (id: nat)
    requires store.Valid()
    modifies store
    ensures store.Valid()
    ensures id == |old(store.frames)|
    ensures store.frames == old(store.frames) + [Env.Frame(RootBindings(), None)]
  {
    id := store.New(None);
    store.Set(id, "+", Func(Plus));
    store.Set(id, "-", Func(Minus));
    store.Set(id, "*", Func(Times));
    store.Set(id, "/", Func(Divide));
    store.Set(id, "list", Func(MakeList));
    store.Set(id, "list?", Func(ListP));
    store.Set(id, "empty?", Func(EmptyP));
    store.Set(id, "count", Func(Count));
    store.Set(id, "=", Func(Equal));
    store.Set(id, "<", Func(Less));
    store.Set(id, "<=", Func(LessEq));
    store.Set(id, ">", Func(Greater));
    store.Set(id, ">=", Func(GreaterEq));
    store.Set(id, "pr-str", Func(PrStr));
    store.Set(id, "str", Func(ToStr));
    store.Set(id, "prn", Func(Prn));
    store.Set(id, "println", Func(Println));
  }

  /** In a fresh root frame every primitive's name is bound and any other
      name is reported as not found. */
  lemma RootLookups(s: string)
    ensures Env.Linked([Env.Frame(RootBindings(), None)])
    ensures s in RootBindings() ==> Env.Get([Env.Frame(RootBindings(), None)], 0, s).Ok?
                                    && Env.Get([Env.Frame(RootBindings(), None)], 0, s).value.Func?
    ensures s !in RootBindings() ==> Env.Get([Env.Frame(RootBindings(), None)], 0, s) == Err(NotFound(s))
  {
  }
}
