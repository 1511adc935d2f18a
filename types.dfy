/** The value model shared by the reader, the primitives, the printer and
    every evaluator stage: a tagged union of runtime data, the error kinds
    the interpreter reports, and a Result type carrying one or the other. */
module Types {

  const I64_MIN: int := -0x8000_0000_0000_0000
  const I64_MAX: int := 0x7FFF_FFFF_FFFF_FFFF

  /** Rust's `i64`. */
  type Int64 = n: int | I64_MIN <= n <= I64_MAX

  datatype Option<T> = None | Some(value: T)

  /** The native functions of the primitive library, by name. A `Func`
      value carries one of these tags; applying it dispatches to the
      corresponding function of module Core. */
  datatype Prim =
    | Plus | Minus | Times | Divide
    | MakeList | ListP | EmptyP | Count
    | Equal
    | Less | LessEq | Greater | GreaterEq
    | PrStr | ToStr | Prn | Println

  /** Every runtime datum. `Lambda` is the closure of the non-tail-calling
      evaluator, which carries no environment; `Closure` is the closure of
      the tail-calling evaluator, which carries the index of the frame it
      captured. */
  datatype Value =
    | Nil
    | True
    | False
    | Integer(n: Int64)
    | Symbol(name: string)
    | Str(text: string)
    | Keyword(text: string)
    | List(elems: seq<Value>)
    | Vector(elems: seq<Value>)
    | Func(prim: Prim)
    | Lambda(params: seq<Value>, body: Value)
    | Closure(params: seq<Value>, body: Value, env: nat)

  /** The error kinds. The interpreter reports every failure as a string;
      each kind here stands for one message of the source. `Overflow` and
      `DivideByZero` stand for the panics of Rust's checked `i64`
      arithmetic, `DanglingEscape` for the reader's `unreachable!()`, and
      `OutOfFuel` for the bound this model puts on evaluation depth. */
  datatype Error =
    | NotFound(symbol: string)
    | ArityMismatch
    | ParamNotSymbol
    | BinaryArity(count: nat)
    | NotAnInteger(shown: Value)
    | NotAList(arg: Value)
    | Overflow
    | DivideByZero
    | NoRenderer(prim: Prim)
    | EmptyApplication
    | MalformedDef
    | BindingKeyNotSymbol
    | OddBindings
    | MalformedLet
    | LetBindingsNotList
    | LetMissingBody
    | MalformedIf
    | MalformedFn
    | NotAFunction(head: Value)
    | UnexpectedEof
    | DanglingEscape
    | OutOfFuel

  datatype Result<T> = Ok(value: T) | Err(error: Error) {
    predicate IsFailure() { Err? }
    function PropagateFailure<U>(): Result<U> requires Err? { Err(error) }
    function Extract(): T requires Ok? { value }
  }

  function FromBool(b: bool): (v: Value)
    ensures v == True || v == False
    ensures (v == True) == b
  {
    if b then True else False
  }

  /** `Nil` and `False` are the only false values. */
  predicate IsFalsy(v: Value) {
    v == Nil || v == False
  }

  predicate IsDigit(c: char) {
    '0' <= c <= '9'
  }

  predicate IsSequence(v: Value) {
    v.List? || v.Vector?
  }
}
