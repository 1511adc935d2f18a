/** The reader's parser over a given token sequence: the `Reader` cursor,
    recursive descent over lists and vectors, and atom classification. The
    pure functions `ParseForm` and `ParseElems` are the grammar; the methods
    of the same names' imperative counterparts are proved to compute them. */
module Reader {
  import opened Types

  // ---------------------------------------------------------------------
  // Integers as Rust's `str::parse::<i64>` reads them

  predicate AllDigits(s: string) {
    forall i | 0 <= i < |s| :: IsDigit(s[i])
  }

  function DigitValue(c: char): nat
    requires IsDigit(c)
  {
    (c as int) - ('0' as int)
  }

  /** The value of a string of decimal digits, most significant first. */
  function DigitsValue(s: string): nat
    requires AllDigits(s)
    decreases |s|
  {
    if s == [] then 0 else DigitsValue(s[..|s| - 1]) * 10 + DigitValue(s[|s| - 1])
  }

  /** The token without its leading sign, if it has one. */
  function Unsigned(token: string): string {
    if |token| >= 1 && token[0] in "+-" then token[1..] else token
  }

  /** An optional `+` or `-`, then one or more ASCII digits, and a value
      that fits in an i64; anything else is not an integer. */
  function ParseI64(token: string): (r: Option<Int64>)
  {
    var digits := Unsigned(token);
    if digits == [] || !AllDigits(digits) then None
    else
      var n := if token[0] == '-' then -(DigitsValue(digits) as int) else DigitsValue(digits);
      if I64_MIN <= n <= I64_MAX then Some(n) else None
  }

  // ---------------------------------------------------------------------
  // Strings

  /** What one escape `\c` of a string token stands for. */
  function Escaped(c: char): string {
    if c == '"' then "\""
    else if c == '\\' then "\\"
    else if c == 'r' then "\r"
    else if c == 'n' then "\n"
    else if c == 't' then "\t"
    else ['\\', c]
  }

  /** The characters of a string token after its opening quote, with the
      escapes translated. A backslash with nothing after it is the
      reader's unreachable case. */
  function Unescaped(cs: string): (r: Result<string>)
    ensures r.Err? ==> r.error == DanglingEscape
    decreases |cs|
  {
    if cs == [] then Ok([])
    else if cs[0] == '\\' then
      if |cs| == 1 then Err(DanglingEscape)
      else match Unescaped(cs[2..])
        case Ok(rest) => Ok(Escaped(cs[1]) + rest)
        case Err(e) => Err(e)
    else
      match Unescaped(cs[1..])
      case Ok(rest) => Ok([cs[0]] + rest)
      case Err(e) => Err(e)
  }

  function Prepend(buf: string, r: Result<string>): Result<string> {
    match r
    case Ok(s) => Ok(buf + s)
    case Err(e) => Err(e)
  }

  lemma PrependAssoc(a: string, b: string, r: Result<string>)
    ensures Prepend(a, Prepend(b, r)) == Prepend(a + b, r)
    ensures Prepend([], r) == r
  {
    match r
    case Ok(t) =>
      assert a + (b + t) == (a + b) + t;
      assert [] + t == t;
    case Err(_) =>
  }

  /** The loop of `read_atom` that runs through the characters after the
      opening quote, pushing each character or translated escape. */
  method Unescape(cs: string) returns (r: Result<string>)
    ensures r == Unescaped(cs)
  {
    var buf := "";
    var i := 0;
    assert cs[0..] == cs;
    PrependAssoc(buf, buf, Unescaped(cs));
    while i < |cs|
      invariant 0 <= i <= |cs|
      invariant Unescaped(cs) == Prepend(buf, Unescaped(cs[i..]))
      decreases |cs| - i
    {
      if cs[i] == '\\' {
        if i + 1 == |cs| {
          return Err(DanglingEscape);
        }
        assert cs[i..][2..] == cs[i + 2..];
        assert Unescaped(cs[i..]) == Prepend(Escaped(cs[i + 1]), Unescaped(cs[i + 2..]));
        PrependAssoc(buf, Escaped(cs[i + 1]), Unescaped(cs[i + 2..]));
        buf := buf + Escaped(cs[i + 1]);
        i := i + 2;
      } else {
        assert cs[i..][1..] == cs[i + 1..];
        assert Unescaped(cs[i..]) == Prepend([cs[i]], Unescaped(cs[i + 1..]));
        PrependAssoc(buf, [cs[i]], Unescaped(cs[i + 1..]));
        buf := buf + [cs[i]];
        i := i + 1;
      }
    }
    assert cs[i..] == [];
    assert buf + [] == buf;
    return Ok(buf);
  }

  /** `buf.pop()`: drops the final character, if any. */
  function DropLast(s: string): string {
    if s == [] then s else s[..|s| - 1]
  }

  /** `read_atom`'s classification of one token, in the order the source
      tests: the three literals, an i64, a string, a keyword, and
      otherwise a symbol. */
  function Atom(token: string): (r: Result<Value>)
    ensures r.Err? ==> r.error == DanglingEscape && |token| >= 1 && token[0] == '"'
    ensures r.Ok? && r.value.Keyword? ==> r.value.text == token
    ensures r.Ok? && r.value.Symbol? ==> r.value.name == token
  {
    if token == "nil" then Ok(Nil)
    else if token == "true" then Ok(True)
    else if token == "false" then Ok(False)
    else if ParseI64(token).Some? then Ok(Integer(ParseI64(token).value))
    else if |token| >= 1 && token[0] == '"' then
      match Unescaped(token[1..])
      case Ok(buf) => Ok(Str(DropLast(buf)))
      case Err(e) => Err(e)
    else if |token| >= 1 && token[0] == ':' then Ok(Keyword(token))
    else Ok(Symbol(token))
  }

  // ---------------------------------------------------------------------
  // The grammar

  /** A parse outcome together with the cursor position after it. */
  datatype Parsed<T> = Parsed(result: Result<T>, pos: nat)

  /** `read_form` at position `pos`. */
  function ParseForm(toks: seq<string>, pos: nat): (p: Parsed<Value>)
    requires pos <= |toks|
    ensures pos <= p.pos <= |toks|
    ensures p.result.Ok? ==> pos < p.pos
    ensures pos == |toks| ==> p == Parsed(Err(UnexpectedEof), pos)
    decreases |toks| - pos, 0
  {
    if pos == |toks| then Parsed(Err(UnexpectedEof), pos)
    else if toks[pos] == "(" then
      var q := ParseElems(toks, pos + 1, ")");
      Parsed(if q.result.Ok? then Ok(List(q.result.value)) else Err(q.result.error), q.pos)
    else if toks[pos] == "[" then
      var q := ParseElems(toks, pos + 1, "]");
      Parsed(if q.result.Ok? then Ok(Vector(q.result.value)) else Err(q.result.error), q.pos)
    else Parsed(Atom(toks[pos]), pos + 1)
  }

  /** The loop of `read_list` and `read_vector` after the opener: forms up
      to the closer, which is consumed too. */
  function ParseElems(toks: seq<string>, pos: nat, closer: string): (p: Parsed<seq<Value>>)
    requires pos <= |toks|
    ensures pos <= p.pos <= |toks|
    ensures p.result.Ok? ==> pos < p.pos && toks[p.pos - 1] == closer
    decreases |toks| - pos, 1
  {
    if pos == |toks| then Parsed(Err(UnexpectedEof), pos)
    else if toks[pos] == closer then Parsed(Ok([]), pos + 1)
    else
      var f := ParseForm(toks, pos);
      if f.result.Err? then Parsed(Err(f.result.error), f.pos)
      else
        var rest := ParseElems(toks, f.pos, closer);
        Parsed(if rest.result.Ok? then Ok([f.result.value] + rest.result.value) else rest.result, rest.pos)
  }

  function PrependElems(elems: seq<Value>, p: Parsed<seq<Value>>): Parsed<seq<Value>> {
    Parsed(if p.result.Ok? then Ok(elems + p.result.value) else p.result, p.pos)
  }

  lemma PrependElemsAssoc(a: seq<Value>, b: seq<Value>, p: Parsed<seq<Value>>)
    ensures PrependElems(a, PrependElems(b, p)) == PrependElems(a + b, p)
    ensures PrependElems([], p) == p
  {
    if p.result.Ok? {
      assert a + (b + p.result.value) == (a + b) + p.result.value;
      assert [] + p.result.value == p.result.value;
    }
  }

  // ---------------------------------------------------------------------
  // The cursor and the imperative parser

  class Reader {
    const tokens: seq<string>
    var position: nat

    ghost predicate Valid()
      reads this
    {
      position <= |tokens|
    }

    /** `Reader::new`: the cursor starts at the first token. */
    constructor(tokens: seq<string>)
      ensures Valid()
      ensures this.tokens == tokens && position == 0
    {
      this.tokens := tokens;
      position := 0;
    }

    /** `peek`: the token under the cursor. */
    function Peek(): (r: Result<string>)
      reads this
      requires Valid()
      ensures r.Ok? <==> position < |tokens|
      ensures r.Ok? ==> r.value == tokens[position]
      ensures r.Err? ==> r.error == UnexpectedEof
    {
      if position < |tokens| then Ok(tokens[position]) else Err(UnexpectedEof)
    }

    /** `next`: the token under the cursor, which then advances by one. */
    method Next() returns (r: Result<string>)
      requires Valid()
      modifies this
      ensures Valid()
      ensures r == old(Peek())
      ensures position == old(position) + (if r.Ok? then 1 else 0)
    {
      if position < |tokens| {
        r := Ok(tokens[position]);
        position := position + 1;
      } else {
        r := Err(UnexpectedEof);
      }
    }
  }

  /** `read_form`. */
  method ReadForm(reader: Reader) returns (r: Result<Value>)
    requires reader.Valid()
    modifies reader
    ensures reader.Valid()
    ensures Parsed(r, reader.position) == ParseForm(reader.tokens, old(reader.position))
    decreases |reader.tokens| - reader.position, 2
  {
    var tok := reader.Peek();
    if tok.Err? {
      return Err(tok.error);
    }
    if tok.value == "(" {
      r := ReadList(reader);
    } else if tok.value == "[" {
      r := ReadVector(reader);
    } else {
      r := ReadAtom(reader);
    }
  }

  /** `read_list`, called by `read_form` with the cursor on `(`. */
  method ReadList(reader: Reader) returns (r: Result<Value>)
    requires reader.Valid()
    requires reader.position < |reader.tokens| && reader.tokens[reader.position] == "("
    modifies reader
    ensures reader.Valid()
    ensures Parsed(r, reader.position) == ParseForm(reader.tokens, old(reader.position))
    decreases |reader.tokens| - reader.position, 1
  {
    var elems := ReadSequence(reader, ")");
    r := if elems.Ok? then Ok(List(elems.value)) else Err(elems.error);
  }

  /** `read_vector`, called by `read_form` with the cursor on `[`. */
  method ReadVector(reader: Reader) returns (r: Result<Value>)
    requires reader.Valid()
    requires reader.position < |reader.tokens| && reader.tokens[reader.position] == "["
    modifies reader
    ensures reader.Valid()
    ensures Parsed(r, reader.position) == ParseForm(reader.tokens, old(reader.position))
    decreases |reader.tokens| - reader.position, 1
  {
    var elems := ReadSequence(reader, "]");
    r := if elems.Ok? then Ok(Vector(elems.value)) else Err(elems.error);
  }

  /** The shared body of `read_list` and `read_vector`: skip the opener,
      read forms while the next token is not the closer, skip the closer. */
  method ReadSequence(reader: Reader, closer: string) returns (r: Result<seq<Value>>)
    requires reader.Valid() && reader.position < |reader.tokens|
    modifies reader
    ensures reader.Valid()
    ensures Parsed(r, reader.position) == ParseElems(reader.tokens, old(reader.position) + 1, closer)
    decreases |reader.tokens| - reader.position, 0
  {
    var opener := reader.Next();
    ghost var start := reader.position;
    var elems: seq<Value> := [];
    PrependElemsAssoc(elems, elems, ParseElems(reader.tokens, start, closer));
    while true
      invariant reader.Valid() && start <= reader.position
      invariant PrependElems(elems, ParseElems(reader.tokens, reader.position, closer))
                == ParseElems(reader.tokens, start, closer)
      decreases |reader.tokens| - reader.position
    {
      var tok := reader.Peek();
      if tok.Err? {
        assert ParseElems(reader.tokens, reader.position, closer) == Parsed(Err(UnexpectedEof), reader.position);
        return Err(tok.error);
      }
      if tok.value == closer {
        break;
      }
      ghost var before := reader.position;
      var form := ReadForm(reader);
      if form.Err? {
        assert ParseElems(reader.tokens, before, closer) == Parsed(Err(form.error), reader.position);
        return Err(form.error);
      }
      assert PrependElems([form.value], ParseElems(reader.tokens, reader.position, closer))
             == ParseElems(reader.tokens, before, closer);
      PrependElemsAssoc(elems, [form.value], ParseElems(reader.tokens, reader.position, closer));
      elems := elems + [form.value];
    }
    assert ParseElems(reader.tokens, reader.position, closer) == Parsed(Ok([]), reader.position + 1);
    assert elems + [] == elems;
    var closing := reader.Next();
    return Ok(elems);
  }

  /** `read_atom`. */
  method ReadAtom(reader: Reader) returns (r: Result<Value>)
    requires reader.Valid() && reader.position < |reader.tokens|
    requires reader.tokens[reader.position] != "(" && reader.tokens[reader.position] != "["
    modifies reader
    ensures reader.Valid()
    ensures Parsed(r, reader.position) == ParseForm(reader.tokens, old(reader.position))
  {
    var tok := reader.Next();
    var token := tok.value;
    if token == "nil" {
      r := Ok(Nil);
    } else if token == "true" {
      r := Ok(True);
    } else if token == "false" {
      r := Ok(False);
    } else if ParseI64(token).Some? {
      r := Ok(Integer(ParseI64(token).value));
    } else if |token| >= 1 && token[0] == '"' {
      var buf := Unescape(token[1..]);
      r := if buf.Ok? then Ok(Str(DropLast(buf.value))) else Err(buf.error);
    } else if |token| >= 1 && token[0] == ':' {
      r := Ok(Keyword(token));
    } else {
      r := Ok(Symbol(token));
    }
  }

  /** `read_str` over an already tokenized input: the first complete form;
      any tokens after it are ignored. */
  method ReadStr(tokens: seq<string>) returns (r: Result<Value>)
    ensures r == ParseForm(tokens, 0).result
  {
    var reader := new Reader(tokens);
    r := ReadForm(reader);
  }

  // ---------------------------------------------------------------------
  // Properties of the grammar

  /** A successful parse looks only at the tokens it consumes: any token
      sequence that agrees on them parses to the same form, ending at the
      same position. */
  lemma {:induction false} ParseFormLocal(toks: seq<string>, other: seq<string>, pos: nat)
    requires pos <= |toks| && pos <= |other|
    requires ParseForm(toks, pos).result.Ok?
    requires ParseForm(toks, pos).pos <= |other|
    requires forall i | pos <= i < ParseForm(toks, pos).pos :: other[i] == toks[i]
    ensures ParseForm(other, pos) == ParseForm(toks, pos)
    decreases |toks| - pos, 0
  {
    assert other[pos] == toks[pos];
    if toks[pos] == "(" {
      ParseElemsLocal(toks, other, pos + 1, ")");
    } else if toks[pos] == "[" {
      ParseElemsLocal(toks, other, pos + 1, "]");
    }
  }

  lemma {:induction false} ParseElemsLocal(toks: seq<string>, other: seq<string>, pos: nat, closer: string)
    requires pos <= |toks| && pos <= |other|
    requires ParseElems(toks, pos, closer).result.Ok?
    requires ParseElems(toks, pos, closer).pos <= |other|
    requires forall i | pos <= i < ParseElems(toks, pos, closer).pos :: other[i] == toks[i]
    ensures ParseElems(other, pos, closer) == ParseElems(toks, pos, closer)
    decreases |toks| - pos, 1
  {
    assert other[pos] == toks[pos];
    if toks[pos] != closer {
      var f := ParseForm(toks, pos);
      ParseFormLocal(toks, other, pos);
      ParseElemsLocal(toks, other, f.pos, closer);
    }
  }

  /** `read_str` answers with the first complete form and ignores the
      tokens after it, whatever they are. */
  lemma ReadStrIgnoresRest(toks: seq<string>, rest: seq<string>)
    requires ParseForm(toks, 0).result.Ok?
    ensures ParseForm(toks + rest, 0) == ParseForm(toks, 0)
    ensures ParseForm(toks[..ParseForm(toks, 0).pos], 0) == ParseForm(toks, 0)
  {
    ParseFormLocal(toks, toks + rest, 0);
    ParseFormLocal(toks, toks[..ParseForm(toks, 0).pos], 0);
  }

  /** An unbalanced list runs out of input: a list whose closer never
      appears fails, and the error is the end of input unless an atom
      inside failed first. */
  lemma {:induction false} MissingCloserFails(toks: seq<string>, pos: nat, closer: string)
    requires pos <= |toks|
    requires forall i | pos <= i < |toks| :: toks[i] != closer
    ensures ParseElems(toks, pos, closer).result.Err?
    ensures ParseElems(toks, pos, closer).result.error in {UnexpectedEof, DanglingEscape}
    decreases |toks| - pos
  {
    if pos < |toks| {
      var f := ParseForm(toks, pos);
      FormErrors(toks, pos);
      if f.result.Ok? {
        MissingCloserFails(toks, f.pos, closer);
      }
    }
  }

  /** The only errors the parser reports are the end of input and a
      dangling escape in a string. */
  lemma {:induction false} FormErrors(toks: seq<string>, pos: nat)
    requires pos <= |toks|
    ensures ParseForm(toks, pos).result.Err? ==>
              ParseForm(toks, pos).result.error in {UnexpectedEof, DanglingEscape}
    decreases |toks| - pos, 0
  {
    if pos < |toks| {
      if toks[pos] == "(" {
        ElemsErrors(toks, pos + 1, ")");
      } else if toks[pos] == "[" {
        ElemsErrors(toks, pos + 1, "]");
      }
    }
  }

  lemma {:induction false} ElemsErrors(toks: seq<string>, pos: nat, closer: string)
    requires pos <= |toks|
    ensures ParseElems(toks, pos, closer).result.Err? ==>
              ParseElems(toks, pos, closer).result.error in {UnexpectedEof, DanglingEscape}
    decreases |toks| - pos, 1
  {
    if pos < |toks| && toks[pos] != closer {
      var f := ParseForm(toks, pos);
      FormErrors(toks, pos);
      if f.result.Ok? {
        ElemsErrors(toks, f.pos, closer);
      }
    }
  }

  predicate IsLiteral(token: string) {
    token == "nil" || token == "true" || token == "false"
  }

  /** The classes of `read_atom`, each stated by what the token looks
      like rather than by the order of the tests. */
  lemma AtomClasses(token: string)
    ensures Atom(token) == Ok(Nil) <==> token == "nil"
    ensures Atom(token) == Ok(True) <==> token == "true"
    ensures Atom(token) == Ok(False) <==> token == "false"
    ensures (Atom(token).Ok? && Atom(token).value.Integer?) <==> ParseI64(token).Some?
    ensures ParseI64(token).Some? ==> Atom(token) == Ok(Integer(ParseI64(token).value))
    ensures (Atom(token).Ok? && Atom(token).value.Keyword?) <==> |token| >= 1 && token[0] == ':'
    ensures (Atom(token).Ok? && Atom(token).value.Symbol?) <==>
              !IsLiteral(token) && ParseI64(token).None? && (|token| == 0 || token[0] !in "\":")
    ensures ((Atom(token).Ok? && Atom(token).value.Str?) || Atom(token).Err?) <==> |token| >= 1 && token[0] == '"'
  {
  }

  /** The escaping a printer would apply to one character. */
  function EscapeChar(c: char): (e: string)
    ensures 1 <= |e| <= 2
  {
    if c == '"' then "\\\""
    else if c == '\\' then "\\\\"
    else if c == '\r' then "\\r"
    else if c == '\n' then "\\n"
    else if c == '\t' then "\\t"
    else [c]
  }

  /** The escaping a printer would apply to a string's characters. */
  function Escape(s: string): (e: string)
    ensures |e| >= |s|
    decreases |s|
  {
    if s == [] then [] else EscapeChar(s[0]) + Escape(s[1..])
  }

  /** Unescaping reads one escaped character back, whatever follows. */
  lemma UnescapeChar(c: char, tail: string, rest: string)
    requires Unescaped(tail) == Ok(rest)
    ensures Unescaped(EscapeChar(c) + tail) == Ok([c] + rest)
  {
    var e := EscapeChar(c) + tail;
    if |EscapeChar(c)| == 2 {
      assert e[0] == '\\' && e[2..] == tail;
      assert Escaped(e[1]) == [c];
    } else {
      assert e[0] == c && c != '\\' && e[1..] == tail;
    }
  }

  /** A backslash before any character other than `"`, `\`, `r`, `n` and
      `t` is kept, together with that character. */
  lemma UnescapeOther(c: char, tail: string, rest: string)
    requires c !in "\"\\rnt" && Unescaped(tail) == Ok(rest)
    ensures Unescaped(['\\', c] + tail) == Ok(['\\', c] + rest)
  {
    var e := ['\\', c] + tail;
    assert e[0] == '\\' && e[1] == c && e[2..] == tail;
  }

  /** Unescaping undoes escaping, and a following suffix is kept as is. */
  lemma {:induction false} UnescapeEscape(s: string, suffix: string)
    requires forall i | 0 <= i < |suffix| :: suffix[i] != '\\'
    ensures Unescaped(Escape(s) + suffix) == Ok(s + suffix)
    decreases |s|
  {
    if s == [] {
      assert Escape(s) + suffix == suffix;
      UnescapePlain(suffix);
    } else {
      var c := s[0];
      var tail := Escape(s[1..]) + suffix;
      UnescapeEscape(s[1..], suffix);
      assert Escape(s) + suffix == EscapeChar(c) + tail;
      UnescapeChar(c, tail, s[1..] + suffix);
      FirstThenRest(s, suffix);
    }
  }

  lemma FirstThenRest(s: string, t: string)
    requires s != []
    ensures s + t == [s[0]] + (s[1..] + t)
  {
    assert s == [s[0]] + s[1..];
  }

  lemma {:induction false} UnescapePlain(s: string)
    requires forall i | 0 <= i < |s| :: s[i] != '\\'
    ensures Unescaped(s) == Ok(s)
    decreases |s|
  {
    if s != [] {
      UnescapePlain(s[1..]);
      assert s == [s[0]] + s[1..];
    }
  }

  /** Reading a string token built by quoting the escaped characters gives
      back the string. */
  lemma ReadEscapedString(s: string)
    ensures Atom("\"" + Escape(s) + "\"") == Ok(Str(s))
  {
    var token := "\"" + Escape(s) + "\"";
    QuotedToken(Escape(s));
    assert Unescaped(token[1..]) == Ok(s + "\"") by {
      UnescapeEscape(s, "\"");
    }
    assert DropLast(s + "\"") == s;
  }

  /** A token in double quotes is none of the literals and no integer, and
      what follows its opening quote is the rest of it. */
  lemma QuotedToken(mid: string)
    ensures var token := "\"" + mid + "\"";
            && token[0] == '"' && token[1..] == mid + "\""
            && token != "nil" && token != "true" && token != "false"
            && ParseI64(token).None?
  {
    var token := "\"" + mid + "\"";
    assert token[0] == '"';
    assert ParseI64(token).None? by {
      assert Unsigned(token) == token;
      assert !IsDigit(token[0]);
    }
  }

}
