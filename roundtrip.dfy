/** How the printer and the reader fit together: the decimal rendering of
    an integer reads back as that integer, and the tokens of a printed
    value read back as the value. */
module ReadPrint {
  import opened Types
  import Printer
  import Reader

  lemma {:induction false} NatDigits(m: nat)
    ensures Reader.AllDigits(Printer.NatToString(m))
    ensures Reader.DigitsValue(Printer.NatToString(m)) == m
    decreases m
  {
    var s := Printer.NatToString(m);
    if m >= 10 {
      var q, d := m / 10, m % 10;
      NatDigits(q);
      assert s[..|s| - 1] == Printer.NatToString(q);
      assert Reader.DigitValue(s[|s| - 1]) == d;
      assert m == q * 10 + d;
    } else {
      assert Reader.DigitValue(s[0]) == m;
    }
  }

  /** The reader parses the printer's rendering of every i64 back to the
      same integer. */
  lemma IntRoundTrip(n: Int64)
    ensures Reader.ParseI64(Printer.IntToString(n)) == Some(n)
    ensures Reader.Atom(Printer.IntToString(n)) == Ok(Integer(n))
  {
    var s := Printer.IntToString(n);
    if n < 0 {
      NatDigits(-(n as int));
      assert Reader.Unsigned(s) == Printer.NatToString(-(n as int));
    } else {
      NatDigits(n);
      assert Reader.Unsigned(s) == s;
    }
    assert s != "nil" && s != "true" && s != "false" by {
      assert IsDigit(s[|s| - 1]);
    }
  }

  /** The characters that end a symbol token of the tokenizer's pattern
      (`greg_rust/src/reader.rs` line 40): whitespace, brackets, braces,
      parentheses, quotes, the backquote, the comma and the semicolon. */
  const Delimiters: set<char> :=
    {'\t', '\n', '\U{0B}', '\U{0C}', '\r', ' ', '[', ']', '{', '}', '(', ')', '\'', '"', '`', ',', ';'}

  /** A symbol that is one token of the tokenizer and that the reader
      reads back as itself: a non-empty run of characters that are not
      delimiters, not starting with one of the one-character tokens
      `~ ^ @`, and not a literal, an integer, a string or a keyword. */
  predicate ReadableSymbol(name: string) {
    && |name| >= 1
    && (forall i | 0 <= i < |name| :: name[i] !in Delimiters)
    && name[0] !in "~^@"
    && Reader.Atom(name) == Ok(Symbol(name))
  }

  predicate Readable(v: Value) {
    match v
    case Integer(_) => true
    case Symbol(name) => ReadableSymbol(name)
    case List(es) => forall i | 0 <= i < |es| :: Readable(es[i])
    case _ => false
  }

  lemma {:induction false} ReadableIsPrintable(v: Value)
    requires Readable(v)
    ensures Printer.Printable(v)
    decreases v
  {
    if v.List? {
      forall i | 0 <= i < |v.elems| ensures Printer.Printable(v.elems[i]) {
        ReadableIsPrintable(v.elems[i]);
      }
    }
  }

  /** The tokens of a value's rendering: an atom is one token, a list is
      its elements' tokens between `(` and `)`; the variants the printer
      does not render are one placeholder token. */
  function Lexemes(v: Value): (ts: seq<string>)
    ensures |ts| >= 1
    decreases v, 1
  {
    match v
    case Integer(n) => [Printer.IntToString(n)]
    case Symbol(name) => [name]
    case List(es) => ["("] + (LexemesAll(es) + [")"])
    case _ => ["?"]
  }

  function LexemesAll(es: seq<Value>): seq<string>
    decreases es, 0
  {
    if es == [] then [] else Lexemes(es[0]) + LexemesAll(es[1..])
  }

  /** Tokens `ts` occur in `toks` from position `pos` on. */
  predicate At(toks: seq<string>, pos: nat, ts: seq<string>) {
    pos + |ts| <= |toks| && toks[pos..pos + |ts|] == ts
  }

  lemma AtFirst(toks: seq<string>, pos: nat, ts: seq<string>)
    requires At(toks, pos, ts) && ts != []
    ensures pos < |toks| && toks[pos] == ts[0]
  {
    assert toks[pos..pos + |ts|][0] == toks[pos];
  }

  /** Wherever a value's tokens occur, `read_form` reads exactly those
      tokens and answers with the value. */
  lemma {:induction false} ReadLexemes(v: Value, toks: seq<string>, pos: nat)
    requires Readable(v)
    requires At(toks, pos, Lexemes(v))
    ensures Reader.ParseForm(toks, pos) == Reader.Parsed(Ok(v), pos + |Lexemes(v)|)
    decreases v, 1
  {
    var ts := Lexemes(v);
    AtFirst(toks, pos, ts);
    match v
    case Integer(n) =>
      IntRoundTrip(n);
      assert Printer.IntToString(n) != "(" && Printer.IntToString(n) != "[" by {
        var s := Printer.IntToString(n);
        assert IsDigit(s[|s| - 1]);
      }
    case Symbol(name) =>
      assert name != "(" && name != "[" by {
        assert name[0] !in Delimiters;
      }
    case List(es) =>
      var inner := LexemesAll(es);
      assert ts == ["("] + (inner + [")"]);
      AtSplit(toks, pos, ["("], inner + [")"]);
      ReadLexemesAll(es, toks, pos + 1);
  }

  lemma {:induction false} ReadLexemesAll(es: seq<Value>, toks: seq<string>, pos: nat)
    requires forall i | 0 <= i < |es| :: Readable(es[i])
    requires At(toks, pos, LexemesAll(es) + [")"])
    ensures Reader.ParseElems(toks, pos, ")") == Reader.Parsed(Ok(es), pos + |LexemesAll(es)| + 1)
    decreases es, 0
  {
    var ts := LexemesAll(es) + [")"];
    if es == [] {
      AtFirst(toks, pos, ts);
    } else {
      var head := Lexemes(es[0]);
      var tail := LexemesAll(es[1..]);
      assert ts == head + (tail + [")"]);
      AtSplit(toks, pos, head, tail + [")"]);
      assert toks[pos] != ")" by {
        AtFirst(toks, pos, head);
        ClosersInsideLexemes(es[0]);
      }
      assert Reader.ParseForm(toks, pos) == Reader.Parsed(Ok(es[0]), pos + |head|) by {
        ReadLexemes(es[0], toks, pos);
      }
      var p1 := pos + |head|;
      ReadLexemesAll(es[1..], toks, p1);
      var r := Reader.ParseElems(toks, p1, ")");
      assert r == Reader.Parsed(Ok(es[1..]), p1 + |tail| + 1);
      ElemsCons(toks, pos, es[0], p1, es[1..], p1 + |tail| + 1);
      assert [es[0]] + es[1..] == es;
    }
  }

  lemma AtSplit(toks: seq<string>, pos: nat, a: seq<string>, b: seq<string>)
    requires At(toks, pos, a + b)
    ensures At(toks, pos, a) && At(toks, pos + |a|, b)
  {
    var whole := toks[pos..pos + |a| + |b|];
    assert toks[pos..pos + |a|] == whole[..|a|];
    assert toks[pos + |a|..pos + |a| + |b|] == whole[|a|..];
  }

  /** One more element before the rest of a list. */
  lemma ElemsCons(toks: seq<string>, pos: nat, v: Value, p1: nat, vs: seq<Value>, p2: nat)
    requires pos < |toks| && toks[pos] != ")"
    requires Reader.ParseForm(toks, pos) == Reader.Parsed(Ok(v), p1)
    requires p1 <= |toks| && Reader.ParseElems(toks, p1, ")") == Reader.Parsed(Ok(vs), p2)
    ensures Reader.ParseElems(toks, pos, ")") == Reader.Parsed(Ok([v] + vs), p2)
  {
  }

  /** A value's tokens never start with `)` and never end with `(`. */
  lemma ClosersInsideLexemes(v: Value)
    requires Readable(v)
    ensures Lexemes(v)[0] != ")" && Lexemes(v)[|Lexemes(v)| - 1] != "("
  {
    match v
    case Integer(n) =>
      var s := Printer.IntToString(n);
      assert IsDigit(s[|s| - 1]);
    case Symbol(name) =>
      assert name[0] !in Delimiters;
    case List(es) =>
  }

  /** The tokens of a non-empty sequence of elements never start with `)`
      and never end with `(`. */
  lemma {:induction false} ClosersInsideLexemesAll(es: seq<Value>)
    requires |es| >= 1 && forall i | 0 <= i < |es| :: Readable(es[i])
    ensures var ts := LexemesAll(es); |ts| >= 1 && ts[0] != ")" && ts[|ts| - 1] != "("
    decreases |es|
  {
    var head := Lexemes(es[0]);
    var tail := LexemesAll(es[1..]);
    ClosersInsideLexemes(es[0]);
    assert LexemesAll(es) == head + tail;
    if |es| > 1 {
      ClosersInsideLexemesAll(es[1..]);
    } else {
      assert tail == [];
    }
  }

  /** `read_str` over the tokens of a readable value gives the value back,
      whatever tokens follow. */
  lemma ReadStrLexemes(v: Value, rest: seq<string>)
    requires Readable(v)
    ensures Reader.ParseForm(Lexemes(v) + rest, 0).result == Ok(v)
  {
    var toks := Lexemes(v) + rest;
    assert At(toks, 0, Lexemes(v)) by {
      assert toks[0..|Lexemes(v)|] == Lexemes(v);
    }
    ReadLexemes(v, toks, 0);
  }

  // ---------------------------------------------------------------------
  // The tokens and the printed text

  /** What the printer puts between two adjacent tokens: nothing after an
      opening parenthesis or before a closing one, one space otherwise. */
  function Spacing(a: string, b: string): string {
    if a == "(" || b == ")" then "" else " "
  }

  /** Tokens glued together with the printer's spacing. */
  function Glue(ts: seq<string>): string
    decreases |ts|
  {
    if ts == [] then ""
    else if |ts| == 1 then ts[0]
    else ts[0] + Spacing(ts[0], ts[1]) + Glue(ts[1..])
  }

  lemma {:induction false} GlueAppend(a: seq<string>, b: seq<string>)
    requires |a| >= 1 && |b| >= 1
    ensures Glue(a + b) == Glue(a) + Spacing(a[|a| - 1], b[0]) + Glue(b)
    decreases |a|
  {
    var ab := a + b;
    if |a| == 1 {
      assert ab[1..] == b;
    } else {
      assert ab[0] == a[0] && ab[1] == a[1];
      assert ab[1..] == a[1..] + b;
      GlueAppend(a[1..], b);
    }
  }

  /** What the printer renders for a readable value is exactly its tokens,
      glued with the printer's spacing: the tokens are the printed text cut
      at its spaces and around its parentheses. */
  lemma {:induction false} DisplayIsGlue(v: Value)
    requires Readable(v)
    ensures Printer.Printable(v) && Printer.Display(v) == Glue(Lexemes(v))
    decreases v, 1
  {
    ReadableIsPrintable(v);
    match v
    case Integer(_) =>
    case Symbol(_) =>
    case List(es) =>
      if es == [] {
        GlueEmptyList();
      } else {
        DisplayAllIsGlue(es);
        ClosersInsideLexemesAll(es);
        GlueList(LexemesAll(es));
      }
  }

  lemma GlueEmptyList()
    ensures Glue(["("] + ([] + [")"])) == "()"
  {
    assert ["("] + ([] + [")"]) == ["(", ")"];
    assert ["(", ")"][1..] == [")"];
  }

  /** One token before a non-empty run: the token, the spacing, and the
      run glued. */
  lemma GlueCons(a: string, t: seq<string>)
    requires |t| >= 1
    ensures Glue([a] + t) == a + Spacing(a, t[0]) + Glue(t)
  {
    var u := [a] + t;
    assert u[0] == a && u[1] == t[0] && u[1..] == t;
  }

  /** A non-empty run before one more token: the run glued, the spacing,
      and the token. */
  lemma GlueSnoc(t: seq<string>, b: string)
    requires |t| >= 1
    ensures Glue(t + [b]) == Glue(t) + Spacing(t[|t| - 1], b) + b
  {
    GlueAppend(t, [b]);
  }

  /** Parentheses around tokens that neither start with `)` nor end with
      `(` are glued on without spaces. */
  lemma GlueList(inner: seq<string>)
    requires |inner| >= 1 && inner[0] != ")" && inner[|inner| - 1] != "("
    ensures Glue(["("] + (inner + [")"])) == "(" + Glue(inner) + ")"
  {
    GlueSnoc(inner, ")");
    assert Spacing(inner[|inner| - 1], ")") == "";
    GlueCons("(", inner + [")"]);
    assert Spacing("(", inner[0]) == "";
    Enclose(Glue(inner));
  }

  lemma Enclose(g: string)
    ensures "(" + "" + (g + "" + ")") == "(" + g + ")"
  {
  }

  /** The elements of a non-empty list, rendered and joined with spaces,
      are their tokens glued with the printer's spacing. */
  lemma {:induction false} DisplayAllIsGlue(es: seq<Value>)
    requires |es| >= 1 && forall i | 0 <= i < |es| :: Readable(es[i])
    ensures forall i | 0 <= i < |es| :: Printer.Printable(es[i])
    ensures Printer.Join(Printer.DisplayAll(es), " ") == Glue(LexemesAll(es))
    decreases es, 0
  {
    forall i | 0 <= i < |es| ensures Printer.Printable(es[i]) {
      ReadableIsPrintable(es[i]);
    }
    DisplayIsGlue(es[0]);
    Printer.DisplayAllCons(es);
    var rest := es[1..];
    if |es| == 1 {
      assert LexemesAll(es) == Lexemes(es[0]) by {
        assert LexemesAll(rest) == [];
      }
    } else {
      DisplayAllIsGlue(rest);
      Printer.JoinCons(Printer.DisplayAll(es), " ");
      ClosersInsideLexemes(es[0]);
      ClosersInsideLexemesAll(rest);
      GlueAppend(Lexemes(es[0]), LexemesAll(rest));
    }
  }

  /** A token the tokenizer's pattern takes whole: a parenthesis, or a
      non-empty run of characters that are not delimiters. */
  predicate Lexeme(t: string) {
    t == "(" || t == ")" || (|t| >= 1 && forall i | 0 <= i < |t| :: t[i] !in Delimiters)
  }

  /** Every token of a readable value is a parenthesis or a run of
      non-delimiters, so the glued text has delimiters only at the spaces
      and parentheses `Glue` puts there. */
  lemma {:induction false} LexemesAreTokens(v: Value)
    requires Readable(v)
    ensures forall i | 0 <= i < |Lexemes(v)| :: Lexeme(Lexemes(v)[i])
    decreases v, 1
  {
    match v
    case Integer(n) =>
      var s := Printer.IntToString(n);
      forall i | 0 <= i < |s| ensures s[i] !in Delimiters {
        if i > 0 || n >= 0 { assert IsDigit(s[i]); }
      }
    case Symbol(_) =>
    case List(es) =>
      LexemesAllAreTokens(es);
      var ts := Lexemes(v);
      forall i | 0 <= i < |ts| ensures Lexeme(ts[i]) {
        if 0 < i < |ts| - 1 { assert ts[i] == LexemesAll(es)[i - 1]; }
      }
  }

  lemma {:induction false} LexemesAllAreTokens(es: seq<Value>)
    requires forall i | 0 <= i < |es| :: Readable(es[i])
    ensures forall i | 0 <= i < |LexemesAll(es)| :: Lexeme(LexemesAll(es)[i])
    decreases es, 0
  {
    if es != [] {
      var head := Lexemes(es[0]);
      var tail := LexemesAll(es[1..]);
      LexemesAreTokens(es[0]);
      LexemesAllAreTokens(es[1..]);
      var ts := LexemesAll(es);
      assert ts == head + tail;
      forall i | 0 <= i < |ts| ensures Lexeme(ts[i]) {
        if i >= |head| { assert ts[i] == tail[i - |head|]; }
      }
    }
  }
}
