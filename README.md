# A verified model of the greg_rust mal interpreter

This project models the core of a staged Lisp interpreter written in Rust.
Each stage adds to the language of the one before it. The model covers:

- the environment frames (`env.rs`);
- the primitive library and the root frame (`core.rs`);
- the token-level reader (`reader.rs`);
- the printer (`types.rs`);
- four evaluators:
  - step 2: evaluate every element, then apply;
  - step 3: `def!` and `let*`;
  - step 4: a recursive evaluator with `do`, `if` and `fn*`;
  - step 5: the tail-call loop.

**Frames.** Frames live in an arena: a `seq<Frame>` where each frame has a symbol map and an optional index of its outer frame. An outer index is always less than the frame's own index (`Env.Linked`). The class `Env.Store` holds the arena and updates it in place:
- `New` appends a frame;
- `Set` inserts into one frame;
- `WithBindings` builds a frame from parameters and arguments.

`Env.Get` walks the outer chain. It is pure, as `get` is in the source.

**The evaluators.** Each evaluator comes in two modules:
- `StepNSpec` defines it as pure functions from an expression, an arena and a frame index to an `Outcome` (a result and the new arena);
- `StepN` is the same code as methods over a `Store`, with the source's loops. Each method's `ensures` ties its result and the store's new arena to the specification function applied to the old arena.

**Fuel.** Steps 4 and 5 can diverge, so their functions take a fuel argument. Running out of fuel is the error `OutOfFuel`.

**Step 5.** Its specification has one more layer. `Step5Spec.Step` is one turn of the `loop`. A turn ends with `Done(result)`, or with `Continue(ast, env)`: the expression and frame that the source reassigns before `continue`. `Step5Spec.Eval` runs turns until one is done. A step-5 closure records the index of the frame it captured. Several invariants are proved for every evaluation:
- `Env.ScopedFrames` and `Env.Scoped`: every index held by a value or a frame refers to an existing frame;
- `Env.Confined`: evaluation only adds frames and bindings, and changes no existing frame except the current one.

**Scoping.** The module `Scoping` runs the program `(let* (x a f (fn* () x)) (let* (x b) (f)))` through steps 4 and 5:
- step 4, for `a = 1` and `b = 2`, answers 2, because its closures see the caller's frame;
- step 5, for every pair of i64 values `a` and `b`, answers `a` from the root frame. Its four turns are proved one by one: the call of `f` goes on in a child of the frame `f` was defined in, where `x` is `a`.

**Reader and printer.** The reader works on a given sequence of tokens. The class `Reader.Reader` is the token cursor, and the recursive-descent methods are proved equal to the pure parser `Reader.ParseForm`. The module `ReadPrint` proves two round trips:
- a list of integers and symbols reads back from its tokens as that list. The tokens (`ReadPrint.Lexemes`) are the printed text `Printer.Display(v)` cut at its spaces and its parentheses: `ReadPrint.DisplayIsGlue` proves that the printed text is the tokens glued with the printer's spacing. The symbols covered are those the tokenizer's pattern takes as one token (no whitespace, comma, semicolon, quote, backquote, bracket, brace or parenthesis, and no leading `~`, `^` or `@`) and that the reader reads back as symbols;
- the printed form of every i64 reads back as that integer.

## Model

| member | source | states |
|---|---|---|
| Env.GetShadows | greg_rust/src/env.rs:18-19 | a symbol bound in the frame itself is found there, whatever outer frames bind |
| Env.GetDelegates | greg_rust/src/env.rs:20-24 | on a local miss, `get` answers exactly what the outer frame's `get` answers; without an outer frame it fails with `NotFound(s)` |
| Env.GetFindsChain | greg_rust/src/env.rs:17-25 | `get` succeeds iff some frame on the outer chain binds the symbol, the nearest such frame's value is returned, and the only failure is `NotFound(s)` |
| Env.Chain | greg_rust/src/env.rs:20-21 | the frames reached through outer links start at the frame itself and have no larger index |
| Env.SetIn | greg_rust/src/env.rs:13-15 | after `set`, the frame maps `s` to `v` and keeps every other key and its outer link; every other frame is unchanged |
| Env.SetThenGet | greg_rust/src/env.rs:13-25 | after `set(s, v)`, `get(s)` in that frame answers `v`, and every other name looks up as before |
| Env.SetInvisibleBelow | greg_rust/src/env.rs:13-25 | a `set` on a frame does not change any lookup from a frame with a smaller index, such as its outer frames |
| Env.GetAfterPush | greg_rust/src/env.rs:17-29 | adding a frame does not change any lookup from the existing frames; `get` modifies nothing |
| Env.Store.constructor | greg_rust/src/env.rs:8-11 | an empty arena |
| Env.Store.New | greg_rust/src/env.rs:27-29 | appends a frame with no symbols and exactly the given outer link, and returns its index |
| Env.Store.Set | greg_rust/src/env.rs:13-15 | the arena becomes `SetIn(old arena, id, s, v)`, and stays linked |
| Env.Store.WithBindings | greg_rust/src/env.rs:31-45 | on failure, returns the error of `Bind` and adds nothing; on success, appends one frame holding `Bind`'s map and the given outer link, and returns its index |
| Env.BindPairs | greg_rust/src/env.rs:36-42 | the only error of the binding loop is a parameter that is not a symbol |
| Env.BindArity | greg_rust/src/env.rs:33-35 | different numbers of parameters and arguments fail with `ArityMismatch` |
| Env.BindOkIff | greg_rust/src/env.rs:36-42 | with equal counts, binding succeeds iff every parameter is a symbol, and otherwise fails with `ParamNotSymbol` |
| Env.BindKeys | greg_rust/src/env.rs:36-44 | the keys of a successful binding are exactly the parameter names |
| Env.BindLastWins | greg_rust/src/env.rs:36-42 | each name maps to the argument at its last occurrence among the parameters |
| Env.BindValuesFromArgs | greg_rust/src/env.rs:36-42 | every bound value is one of the arguments |
| Core.TruncDivRounding | greg_rust/src/core.rs:52 | the `/` of the model rounds toward zero as Rust's does: `abs(q) = abs(a) / abs(b)`, and the remainder has the sign of `a` with magnitude below `abs(b)` |
| Core.DivOverflowOnlyAtMin | greg_rust/src/core.rs:52 | i64 division overflows only for `i64::MIN / -1` |
| Core.IntegerArgs | greg_rust/src/core.rs:33-47 | the argument check of `binary_int_op` and `binary_bool_op`: it succeeds iff there are exactly two integer arguments; a wrong count reports the count, and a non-integer is reported by the first offending argument (corrected; see Findings) |
| Core.AddOnIntegers | greg_rust/src/core.rs:49 | `+` on two integers is their sum, or `Overflow` when the sum falls outside i64 |
| Core.SubOnIntegers | greg_rust/src/core.rs:50 | `-` on two integers is their difference, or `Overflow` |
| Core.MulOnIntegers | greg_rust/src/core.rs:51 | `*` on two integers is their product, or `Overflow` |
| Core.DivOnIntegers | greg_rust/src/core.rs:52 | `/` is truncating division; a zero divisor gives `DivideByZero`, and `i64::MIN / -1` gives `Overflow` |
| Core.ComparisonsOnIntegers | greg_rust/src/core.rs:98-121 | `<`, `<=`, `>` and `>=` on two integers answer True or False by the integer comparison |
| Core.BinaryChecksFirst | greg_rust/src/core.rs:33-116 | the eight binary primitives all fail with the argument validation's error when validation fails |
| Core.Eq | greg_rust/src/core.rs:54-63 | the loop answers True iff every argument equals the first, so no arguments or one argument gives True |
| Core.MakeListIdentity | greg_rust/src/core.rs:65 | `list` returns its arguments unchanged as a List |
| Core.IsList | greg_rust/src/core.rs:66-74 | the loop answers True iff every argument is a List (a Vector is not), including with no arguments |
| Core.FirstNotEmpty | greg_rust/src/core.rs:77-81 | the position where the scan of `empty?` stops: every earlier argument is an empty List or Vector, and the argument there is not |
| Core.IsEmpty | greg_rust/src/core.rs:76-84 | the loop answers as `EmptyResult`: False at the first non-empty List or Vector, an error at the first argument that is neither, and True otherwise |
| Core.EmptyTrueIff | greg_rust/src/core.rs:76-84 | `empty?` is True iff every argument is an empty List or Vector |
| Core.FirstUncountable | greg_rust/src/core.rs:88-93 | the position where the scan of `count` stops: every earlier argument is Nil, a List or a Vector, and the argument there is not |
| Core.CountArgs | greg_rust/src/core.rs:86-96 | the accumulating loop answers as `CountResult` |
| Core.CountOkIff | greg_rust/src/core.rs:86-96 | `count` succeeds iff every argument is Nil, a List or a Vector and the total fits in i64; its value is then the non-negative sum of the lengths |
| Core.TotalLengthMonotone | greg_rust/src/core.rs:87-91 | the running count never decreases along the arguments |
| Core.Apply | greg_rust/src/core.rs:49-140 | dispatch from a primitive to its function; a successful result is the argument list, Nil, True, False, an Integer, or the empty string of `pr-str` and `str` with no arguments, and those two succeed exactly when they have no arguments |
| Core.Call | greg_rust/src/core.rs:49-121 | running a primitive's own code, loops included, gives `Apply`'s answer |
| Core.RootBindings | greg_rust/src/core.rs:6-31 | every binding of the root frame is a primitive |
| Core.RootNames | greg_rust/src/core.rs:6-31 | the root frame binds exactly the 17 names `+ - * / list list? empty? count = < <= > >= pr-str str prn println` |
| Core.DefaultEnvironment | greg_rust/src/core.rs:6-31 | appends one frame with no outer link that holds exactly `RootBindings`, and returns its index |
| Core.RootLookups | greg_rust/src/core.rs:6-31 | in the root frame, every primitive's name looks up as a primitive, and any other name fails with `NotFound` |
| Printer.NatToString | greg_rust/src/types.rs:12 | the decimal digits of a natural number, with no leading zero |
| Printer.IntToString | greg_rust/src/types.rs:12 | an integer renders as an optional `-`, present iff it is negative, followed by decimal digits |
| Printer.DisplayAtoms | greg_rust/src/types.rs:12-13 | an Integer renders as its decimal form, and a Symbol as its name verbatim |
| Printer.DisplayShortLists | greg_rust/src/types.rs:14-23 | the empty list renders as `()`, and a one-element list as `(`, the element, `)` |
| Printer.DisplayAppend | greg_rust/src/types.rs:14-23 | one more element renders after a single space before the closing `)` |
| Printer.DisplayAllAt | greg_rust/src/types.rs:20 | the i-th rendered element is the rendering of the i-th element |
| Printer.ListSeparators | greg_rust/src/types.rs:16-19 | a list of n ≥ 1 elements renders with exactly n−1 separating spaces beyond those inside its elements |
| Printer.JoinSeparators | greg_rust/src/types.rs:16-19 | joining n ≥ 1 parts with a one-character separator adds exactly n−1 of it |
| Printer.JoinCons | greg_rust/src/types.rs:16-19 | two or more parts join as the first part, one separator, and the remaining parts joined |
| Printer.DisplayAllCons | greg_rust/src/types.rs:16-21 | the renderings of the elements are the first element's rendering followed by the renderings of the rest |
| Reader.Reader.constructor | greg_rust/src/reader.rs:16-18 | a cursor over the tokens at position 0 |
| Reader.Reader.Peek | greg_rust/src/reader.rs:20-26 | answers the token at the position iff one is left, and otherwise `UnexpectedEof`; the position does not move |
| Reader.Reader.Next | greg_rust/src/reader.rs:28-36 | answers what `peek` would, and advances the position by exactly one if it succeeds; the position never passes the end |
| Reader.ParseForm | greg_rust/src/reader.rs:56-88 | the parser never moves backwards or past the end, a successful form consumes at least one token, and no tokens left is `UnexpectedEof` |
| Reader.ParseElems | greg_rust/src/reader.rs:64-88 | the element loop stops only after consuming the closer |
| Reader.ReadForm | greg_rust/src/reader.rs:56-62 | the cursor's result and new position are those of `ParseForm` from the old position |
| Reader.ReadList | greg_rust/src/reader.rs:64-75 | at a `(`, the cursor's result and new position are `ParseForm`'s |
| Reader.ReadVector | greg_rust/src/reader.rs:77-88 | at a `[`, the cursor's result and new position are `ParseForm`'s |
| Reader.ReadSequence | greg_rust/src/reader.rs:64-88 | the `while` loop of `read_list`/`read_vector` skips the opener and then reads as `ParseElems` does |
| Reader.ReadAtom | greg_rust/src/reader.rs:90-126 | the cursor's result and new position are `ParseForm`'s for an atom token |
| Reader.ReadStr | greg_rust/src/reader.rs:50-54 | a fresh cursor at position 0 answers `ParseForm`'s result |
| Reader.ReadStrIgnoresRest | greg_rust/src/reader.rs:50-54 | `read_str` returns the first complete form: tokens after it do not matter, and the tokens it consumed alone give the same result |
| Reader.ParseFormLocal | greg_rust/src/reader.rs:56-88 | a successful parse depends only on the tokens it consumed |
| Reader.MissingCloserFails | greg_rust/src/reader.rs:64-88 | without the closer in the remaining tokens, reading the elements fails with an end-of-input error (or a dangling escape met on the way) |
| Reader.FormErrors | greg_rust/src/reader.rs:56-126 | the only parse errors are `UnexpectedEof` and `DanglingEscape` |
| Reader.ElemsErrors | greg_rust/src/reader.rs:64-88 | the same holds for a sequence of elements |
| Reader.Atom | greg_rust/src/reader.rs:90-126 | a Keyword holds the whole token, a Symbol is named by the token, and the only error is a dangling escape in a string |
| Reader.AtomClasses | greg_rust/src/reader.rs:92-124 | the classification in order: `nil`, `true` and `false` are the literals, even though one of them could also parse as an integer; an i64 token is an Integer; a token starting with `"` is a string; one starting with `:` is a Keyword; anything else is a Symbol (each case an iff) |
| Reader.Unescaped | greg_rust/src/reader.rs:104-118 | the only failure of the unescaping loop is a backslash with nothing after it |
| Reader.Unescape | greg_rust/src/reader.rs:101-119 | the character loop whose `buf` grows one push at a time answers as `Unescaped` |
| Reader.UnescapeEscape | greg_rust/src/reader.rs:106-115 | unescaping inverts escaping of `"`, `\`, CR, LF and TAB |
| Reader.UnescapeChar | greg_rust/src/reader.rs:106-115 | an escaped character unescapes to itself before any tail |
| Reader.UnescapeOther | greg_rust/src/reader.rs:113 | a backslash followed by any character other than `"`, `\`, `r`, `n` and `t` is kept, together with that character, before whatever the tail unescapes to |
| Reader.UnescapePlain | greg_rust/src/reader.rs:115 | a text without backslashes is kept as it is |
| Reader.ReadEscapedString | greg_rust/src/reader.rs:100-120 | a quoted, escaped string token reads as exactly that string: the quotes are dropped and the escapes translated |
| ReadPrint.IntRoundTrip | greg_rust/src/types.rs:12 | the reader parses the printer's rendering of every i64 back to that Integer |
| ReadPrint.NatDigits | greg_rust/src/types.rs:12 | the decimal rendering of a natural number is all digits, and its value is that number |
| ReadPrint.ReadLexemes | greg_rust/src/reader.rs:56-75 | wherever the tokens of a printed value occur, `read_form` reads exactly those tokens and answers with that value |
| ReadPrint.ReadLexemesAll | greg_rust/src/reader.rs:67-74 | the element loop reads the tokens of printed elements back as those elements, up to and including the closer |
| ReadPrint.ReadStrLexemes | greg_rust/src/reader.rs:56-60 | `read_form` from the first of a printed value's tokens, whatever tokens follow them, is the value |
| ReadPrint.DisplayIsGlue | greg_rust/src/types.rs:11-24 | the printed text of a value the round trip covers is exactly its tokens, with nothing between `(` and the next token or between a token and `)`, and one space between any other two adjacent tokens |
| ReadPrint.DisplayAllIsGlue | greg_rust/src/types.rs:16-21 | the elements' renderings joined with spaces are the elements' tokens glued with that spacing |
| ReadPrint.GlueAppend | greg_rust/src/types.rs:16-21 | gluing two token runs is gluing each, with the printer's spacing between the last token of the first and the first of the second |
| ReadPrint.GlueList | greg_rust/src/types.rs:15-22 | parentheses around a run of tokens that neither starts with `)` nor ends with `(` are glued on with no space inside them |
| ReadPrint.LexemesAreTokens | greg_rust/src/reader.rs:40 | every token of such a value is `(`, `)` or a non-empty run of characters outside the tokenizer's delimiters, so the printed text has delimiters only where the printer's spacing and parentheses put them |
| ReadPrint.LexemesAllAreTokens | greg_rust/src/reader.rs:40 | the same for the tokens of a sequence of elements |
| ReadPrint.ClosersInsideLexemes | greg_rust/src/types.rs:11-24 | a value's tokens never start with `)` and never end with `(` |
| ReadPrint.ClosersInsideLexemesAll | greg_rust/src/types.rs:16-21 | the tokens of a non-empty sequence of elements are non-empty and never start with `)` or end with `(` |
| ReadPrint.ReadableIsPrintable | greg_rust/src/types.rs:11-24 | every value covered by the round trip can be printed |
| Step2Spec.EvalAst | greg_rust/src/step2_eval.rs:18-30 | a list evaluates to a list of the same length |
| Step2Spec.EvalNonList | greg_rust/src/step2_eval.rs:18-30 | a Symbol evaluates to its lookup, and any other value that is not a list evaluates to itself |
| Step2Spec.EvalListOrder | greg_rust/src/step2_eval.rs:21-27 | the elements succeed together iff each one does, giving their values in order; otherwise the error is that of the first failing element |
| Step2Spec.Application | greg_rust/src/step2_eval.rs:32-46 | every element, head included, is evaluated before anything else; the empty list fails; a primitive head is applied to the other values; any other head is `NotAFunction` |
| Step2Spec.ArgumentErrorsComeFirst | greg_rust/src/step2_eval.rs:33-44 | an argument that fails is reported even when the head is not a function |
| Step2.EvalAst | greg_rust/src/step2_eval.rs:18-30 | the push loop answers as `Step2Spec.EvalAst` |
| Step2.Eval | greg_rust/src/step2_eval.rs:32-51 | answers as `Step2Spec.Eval` |
| Step3Spec.Eval | greg_rust/src/step3_env.rs:49-94 | the arena stays linked, and only the current frame's bindings and new frames change |
| Step3Spec.Def | greg_rust/src/step3_env.rs:57-66 | `(def! s e)` answers `e`'s result and on success binds it in the current frame only, where `s` then looks up to it; any other shape fails with `MalformedDef` and changes nothing |
| Step3Spec.Let | greg_rust/src/step3_env.rs:67-78 | a first argument that is not a List fails, a Vector included; otherwise `set_bindings` fills one new child of the current frame, the old frames stay as they were, a missing body is an error, and the body is evaluated in the child |
| Step3Spec.SetBindingsPair | greg_rust/src/step3_env.rs:33-47 | a pair's expression is evaluated in the frame being filled, and the frame is bound before the next pair is read; the first error stops the loop |
| Step3Spec.SetBindingsErrors | greg_rust/src/step3_env.rs:41-42 | a non-symbol key fails with `BindingKeyNotSymbol`, and an unpaired last element fails with `OddBindings` |
| Step3Spec.LaterBindingsSeeEarlier | greg_rust/src/step3_env.rs:33-47 | `(let* (a 1 b a) b)` is 1 |
| Step3Spec.Application | greg_rust/src/step3_env.rs:79-90 | the head must evaluate to a primitive, which is applied to the arguments evaluated left to right in the arena the head left; any other head is `NotAFunction` |
| Step3Spec.EmptyApplicationFails | greg_rust/src/step3_env.rs:51-53 | the empty list fails and changes nothing |
| Step3.EvalAst | greg_rust/src/step3_env.rs:19-31 | the result and new arena are those of `Step3Spec.EvalAst` |
| Step3.EvalList | greg_rust/src/step3_env.rs:23-29 | the push loop answers as `Step3Spec.EvalList` |
| Step3.SetBindings | greg_rust/src/step3_env.rs:33-47 | the loop that takes bindings two at a time and calls `set` gives `Step3Spec.SetBindings`'s result and arena |
| Step3.Eval | greg_rust/src/step3_env.rs:49-94 | the result and new arena are those of `Step3Spec.Eval` |
| Step4Spec.Eval | greg_rust/src/step4_if_fn_do.rs:49-137 | the arena stays linked, and only the current frame's bindings and new frames change |
| Step4Spec.Def | greg_rust/src/step4_if_fn_do.rs:57-66 | `(def! s e)` answers `e`'s result and on success binds it in the current frame only; any other shape fails and changes nothing |
| Step4Spec.Let | greg_rust/src/step4_if_fn_do.rs:67-76 | exactly a List or Vector of bindings and a body, else `MalformedLet`; a new child of the current frame is filled by `set_bindings`, the old frames stay as they were, and the body is evaluated in the child |
| Step4Spec.Do | greg_rust/src/step4_if_fn_do.rs:77-82 | the arguments are evaluated in order; the answer is the last value, Nil for `(do)`, or the first error |
| Step4Spec.If | greg_rust/src/step4_if_fn_do.rs:83-101 | only Nil and False are false; a false condition evaluates the third argument or gives Nil without one; a true condition evaluates the second or fails without one; no condition fails |
| Step4Spec.Fn | greg_rust/src/step4_if_fn_do.rs:102-109 | a List or Vector of parameters and a body make `Lambda(params, body)`, which holds no frame; any other shape fails |
| Step4Spec.ListHead | greg_rust/src/step4_if_fn_do.rs:110-117 | a list head is evaluated first, and the call is evaluated again with its value in place and the same arguments, still unevaluated |
| Step4Spec.LambdaCall | greg_rust/src/step4_if_fn_do.rs:118-130 | calling a `fn*` value binds its parameters to the argument expressions as written, in a new child of the caller's frame, and evaluates the body there |
| Step4Spec.LambdaFreeVariable | greg_rust/src/step4_if_fn_do.rs:127-130 | a free variable in a `fn*` body is looked up from the caller's frame |
| Step4Spec.EmptyApplicationFails | greg_rust/src/step4_if_fn_do.rs:51-53 | the empty list fails and changes nothing |
| Step4.EvalAst | greg_rust/src/step4_if_fn_do.rs:19-31 | the result and new arena are those of `Step4Spec.EvalAst` |
| Step4.EvalList | greg_rust/src/step4_if_fn_do.rs:23-29 | the push loop answers as `Step4Spec.EvalList` |
| Step4.SetBindings | greg_rust/src/step4_if_fn_do.rs:33-47 | the binding loop gives `Step4Spec.SetBindings`'s result and arena |
| Step4.DefForm | greg_rust/src/step4_if_fn_do.rs:57-66 | as `Step4Spec.DefForm` |
| Step4.LetForm | greg_rust/src/step4_if_fn_do.rs:67-76 | as `Step4Spec.LetForm` |
| Step4.DoForm | greg_rust/src/step4_if_fn_do.rs:77-82 | the loop that keeps the last value answers as `Step4Spec.DoForm` |
| Step4.IfForm | greg_rust/src/step4_if_fn_do.rs:83-101 | as `Step4Spec.IfForm` |
| Step4.ListHeadForm | greg_rust/src/step4_if_fn_do.rs:110-117 | as `Step4Spec.ListHeadForm` |
| Step4.ApplyForm | greg_rust/src/step4_if_fn_do.rs:118-133 | as `Step4Spec.ApplyForm` |
| Step4.Invoke | greg_rust/src/step4_if_fn_do.rs:120-130 | as `Step4Spec.Invoke` |
| Step4.Eval | greg_rust/src/step4_if_fn_do.rs:49-137 | the result and new arena are those of `Step4Spec.Eval` |
| Step5Spec.Eval | greg_rust/src/step5_tco.rs:53-151 | every evaluation keeps the arena well formed, only grows it, and changes no existing frame except the current one; a value it answers with refers only to existing frames |
| Step5Spec.Step | greg_rust/src/step5_tco.rs:55-149 | one turn keeps those invariants; a turn that goes on does so in the current frame or in one it created, with an expression that refers only to existing frames |
| Step5Spec.EvalTurn | greg_rust/src/step5_tco.rs:53-151 | a turn that is done ends `eval` with its result; one that goes on hands `eval` its expression and frame |
| Step5Spec.TurnGoesOn | greg_rust/src/step5_tco.rs:53-151 | after a turn that goes on, evaluation continues in the new state, and the loop invariant holds there |
| Step5Spec.EvalNonList | greg_rust/src/step5_tco.rs:147-149 | an expression that is not a list is done in one turn and changes nothing: a Symbol gives its lookup, and anything else gives itself |
| Step5Spec.EmptyApplicationFails | greg_rust/src/step5_tco.rs:56-58 | the empty list fails and changes nothing |
| Step5Spec.Def | greg_rust/src/step5_tco.rs:62-71 | `(def! s e)` answers `e`'s result and on success binds it in the current frame only, where `s` then looks up to it; any other shape fails with `MalformedDef` and changes nothing |
| Step5Spec.LetMalformed | greg_rust/src/step5_tco.rs:82 | a `let*` without exactly a List or Vector of bindings and a body fails with `MalformedLet` and changes nothing |
| Step5Spec.Let | greg_rust/src/step5_tco.rs:72-83 | a well-formed `let*` fills a new child of the current frame with `set_bindings`; its error is the answer, and otherwise the loop continues with the body in the child |
| Step5Spec.LetTurn | greg_rust/src/step5_tco.rs:73-80 | the `let*` turn creates exactly one child, whose outer frame is the current frame, and leaves every older frame, the current one included, as it was |
| Step5Spec.SetBindingsRules | greg_rust/src/step5_tco.rs:37-51 | a pair's expression is evaluated in the frame being filled and bound there before the next pair, so later pairs see earlier ones; a non-symbol key or an unpaired element fails and binds nothing; the first error stops the loop |
| Step5Spec.Do | greg_rust/src/step5_tco.rs:84-91 | Nil and then every argument but the last are evaluated in order for effect; the loop continues with the last argument in the same frame; the first error stops; `(do)` is Nil |
| Step5Spec.If | greg_rust/src/step5_tco.rs:92-116 | only Nil and False are false; a false condition continues with the third argument or gives Nil without one; a true condition continues with the second or fails without one; no condition fails |
| Step5Spec.Fn | greg_rust/src/step5_tco.rs:117-124 | a List or Vector of parameters and a body make a closure over the current frame, changing nothing; any other shape fails |
| Step5Spec.StepCall | greg_rust/src/step5_tco.rs:125-146 | a list headed by a symbol that names no special form is an application |
| Step5Spec.ApplyHead | greg_rust/src/step5_tco.rs:126-143 | a head that evaluates to a primitive or a closure is invoked on the arguments |
| Step5Spec.CallTurn | greg_rust/src/step5_tco.rs:126-143 | a turn on a call of a bound primitive or closure invokes it |
| Step5Spec.InvokePrimitive | greg_rust/src/step5_tco.rs:127-133 | a primitive receives the arguments evaluated left to right in the caller's frame, and its result ends the loop |
| Step5Spec.InvokeClosure | greg_rust/src/step5_tco.rs:134-143 | a closure call evaluates the arguments, binds them with `with_bindings` in a new child of the captured frame (not the caller's), and continues with the body there; an evaluation or binding error ends the loop |
| Step5Spec.ClosureTurnNoArgs | greg_rust/src/step5_tco.rs:134-143 | a call with no arguments of a closure with no parameters continues with its body in a new, empty child of the captured frame |
| Step5Spec.ClosureFreeVariable | greg_rust/src/step5_tco.rs:134-143 | a free variable in a closure body is looked up from the frame the closure captured, whatever the caller's frame binds |
| Step5Spec.NotAFunctionFirst | greg_rust/src/step5_tco.rs:126-144 | a head that is neither a primitive nor a closure fails with `NotAFunction` before any argument is evaluated |
| Step5.EvalAst | greg_rust/src/step5_tco.rs:23-35 | the result and new arena are those of `Step5Spec.EvalAst` |
| Step5.EvalList | greg_rust/src/step5_tco.rs:27-31 | the push loop answers as `Step5Spec.EvalList` |
| Step5.SetBindings | greg_rust/src/step5_tco.rs:37-51 | the loop that calls `set` on the shared frame gives `Step5Spec.SetBindings`'s result and arena |
| Step5.DefForm | greg_rust/src/step5_tco.rs:62-71 | as `Step5Spec.DefForm` |
| Step5.LetForm | greg_rust/src/step5_tco.rs:72-83 | as `Step5Spec.LetForm` |
| Step5.DoForm | greg_rust/src/step5_tco.rs:84-91 | the loop that evaluates the previous argument and keeps the current one gives `Step5Spec.DoForm`'s turn |
| Step5.IfForm | greg_rust/src/step5_tco.rs:92-116 | as `Step5Spec.IfForm` |
| Step5.ApplyForm | greg_rust/src/step5_tco.rs:125-146 | as `Step5Spec.ApplyForm` |
| Step5.Invoke | greg_rust/src/step5_tco.rs:127-143 | as `Step5Spec.Invoke` |
| Step5.Step | greg_rust/src/step5_tco.rs:55-149 | one pass of the loop body gives `Step5Spec.Step`'s turn and arena |
| Step5.Eval | greg_rust/src/step5_tco.rs:53-151 | the `loop` that reassigns the expression and frame gives the result and arena of `Step5Spec.Eval` |
| Scoping.DynamicScopeInStep4 | greg_rust/src/step4_if_fn_do.rs:102-130 | in step 4, `(let* (x 1 f (fn* () x)) (let* (x 2) (f)))` is 2 |
| Scoping.LexicalScopeInStep5Program | greg_rust/src/step5_tco.rs:53-151 | in step 5, `(let* (x a f (fn* () x)) (let* (x b) (f)))` evaluated in the root frame is `a`, for all `a` and `b` and all fuel of at least 4 |
| Scoping.OuterLet5 | greg_rust/src/step5_tco.rs:72-81 | the outer `let*` goes on with the inner one in a new child of the root frame that binds `x` to `a` and `f` to a closure over that frame |
| Scoping.InnerLet5 | greg_rust/src/step5_tco.rs:72-81 | the inner `let*` goes on with `(f)` in a new child of the outer frame that binds `x` to `b` |
| Scoping.Call5 | greg_rust/src/step5_tco.rs:134-143 | the call `(f)` in the inner frame answers `a`, the `x` of the frame `f` captured |
| Scoping.LexicalScopeInStep5 | greg_rust/src/step5_tco.rs:117-143 | at that call, the caller's frame binds `x` to `b`, but the call continues with `x` in a frame where `x` is `a` |
| Scoping.BindAtom | greg_rust/src/step5_tco.rs:37-47 | a binding pair whose expression is neither a list nor a symbol sets that expression in the frame, and `set_bindings` goes on with the remaining pairs |
| Scoping.BindFn | greg_rust/src/step5_tco.rs:37-47 | a binding pair whose expression is `(fn* ps body)` sets a closure over the frame being filled, and `set_bindings` goes on with the remaining pairs |
| Scoping.LetGoesOn | greg_rust/src/step5_tco.rs:72-81 | a `let*` whose bindings succeed has the value of its body in the arena the bindings leave, in the new child frame, with one turn less of fuel |
| Scoping.ClosureCallAnswers | greg_rust/src/step5_tco.rs:134-148 | calling a closure of no parameters whose body is a symbol answers that symbol's binding as seen from the frame the closure captured |
| Scoping.CallClo | greg_rust/src/step5_tco.rs:134-143 | calling the step-5 `f` continues with `x` in a new child of the frame of the outer `let*` |

## Left out

- Tokenizing (`tokenize`) is a call into a regular-expression library. The reader takes a given sequence of tokens. So the read-back of printed values starts from the tokens: that the tokenizer cuts `Printer.Display(v)` into exactly `ReadPrint.Lexemes(v)` is argued by `ReadPrint.DisplayIsGlue` and `ReadPrint.LexemesAreTokens`, but not proved against the pattern's own matching.
- Each step's `main`, `rep`, `read` and `print` are left out: line input, history and output are I/O. So are `step0_repl.rs`, `step1_read_print.rs` and the readline binding.
- The `not` definition that the step-5 driver evaluates at start-up belongs to the driver.
- `prn` and `println` write to standard output. The output is left out, and both answer Nil.
- `pr-str` and `str` need a `pr_str` function that the repository's `types.rs` does not define. `pr_str` is not part of this model. With no arguments neither calls it, and both answer the empty string as the source does; with any argument both answer the error `NoRenderer`.
- Rust panics become error results that propagate, and the process abort is left out:
  - i64 overflow in `+ - * /`, and in the running total of `count`, gives `Overflow`;
  - division by zero gives `DivideByZero`;
  - the `unreachable!()` after a backslash that ends a string token gives `DanglingEscape`.
- Integer parsing (`Reader.ParseI64`) follows Rust's i64 `FromStr`: an optional `+` or `-`, then at least one decimal digit, within range.
- Equality: `=` uses datatype equality on values. Nothing is claimed about the equality of primitives or closures, or of a List with a Vector.
- Divergence: steps 4 and 5 take fuel, and running out of fuel is the error `OutOfFuel`. A program that needs more fuel than given is not modelled past that point.
- The "constant stack" of tail calls is a property of the native stack, so it is not stated. The tail positions are modelled as the loop that reassigns the expression and frame.
- Reference counting and freeing of frames are left out. Frames live in an arena that only grows.
- Variadic `&` parameters are left out, as in the source.
- `let*` frame allocation in steps 3, 4 and 5:
  - the source allocates the child frame before it checks the form's shape;
  - the model allocates it only for a well-formed `let*`;
  - the frame the source allocates for a malformed `let*` is never referred to again.
- Version skew:
  - the source shows three versions of its value model, and the model uses one `Value` datatype with the variants the evaluators, core and reader use;
  - step 4's two-field closure is `Lambda(params, body)`, and step 5's three-field one is `Closure(params, body, env)`;
  - each evaluator treats the other's closure as not a function;
  - step 2 uses an environment interface that `env.rs` does not provide, so it is modelled over the same arena, read-only.
- Where the code differs from the behaviour that the mal process guide (`process/guide.md` of the mal project) describes, the model follows the code:
  - `let*` in steps 4 and 5 takes exactly two arguments;
  - `(do)` is Nil;
  - step-4 closures receive their arguments unevaluated;
  - step 3 rejects a Vector of bindings.
- Core.RootBindings: its own contract states only that every binding is a primitive. The exact set of 17 names is stated by `Core.RootNames`.

## Findings

| source | as written | input that shows it | evidently intended | confidence | as-written member | corrected member |
|---|---|---|---|---|---|---|
| greg_rust/src/core.rs:45 | when the first argument of a binary integer primitive is not an integer, the error message formats `args[1]` (the same at core.rs:114 for the comparisons) | `(+ nil 1)` reports `1` as the illegal argument | report the argument that is not an integer, `args[0]` | not executed | Core.IntegerArgsAsWrittenNamesWrongArgument | Core.IntegerArgs |
