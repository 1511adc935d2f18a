/** The printer: `Display` for the three variants the type declaration
    names, Integer, Symbol and List. */
module Printer {
  import opened Types

  /** The values `Display` is defined on. */
  predicate Printable(v: Value) {
    match v
    case Integer(_) => true
    case Symbol(_) => true
    case List(es) => forall i | 0 <= i < |es| :: Printable(es[i])
    case _ => false
  }

  function DigitChar(d: nat): (c: char)
    requires d < 10
    ensures IsDigit(c)
  {
    ('0' as int + d) as char
  }

  /** The decimal digits of `n`, most significant first, no leading zero. */
  function NatToString(n: nat): (s: string)
    ensures |s| >= 1
    ensures forall i | 0 <= i < |s| :: IsDigit(s[i])
    ensures |s| > 1 ==> s[0] != '0'
    decreases n
  {
    if n < 10 then [DigitChar(n)] else NatToString(n / 10) + [DigitChar(n % 10)]
  }

  /** Rust's decimal rendering of an integer: a minus sign for negative
      values, followed by the digits of the magnitude. */
  function IntToString(n: int): (s: string)
    ensures |s| >= 1
    ensures s[0] == '-' <==> n < 0
    ensures forall i | (if n < 0 then 1 else 0) <= i < |s| :: IsDigit(s[i])
  {
    if n < 0 then "-" + NatToString(-n) else NatToString(n)
  }

  /** The parts separated by `sep`. */
  function Join(parts: seq<string>, sep: string): string
    decreases |parts|
  {
    if parts == [] then ""
    else if |parts| == 1 then parts[0]
    else Join(parts[..|parts| - 1], sep) + sep + parts[|parts| - 1]
  }

  function Display(v: Value): string
    requires Printable(v)
    decreases v, 1
  {
    match v
    case Integer(n) => IntToString(n)
    case Symbol(name) => name
    case List(es) => "(" + Join(DisplayAll(es), " ") + ")"
  }

  function DisplayAll(es: seq<Value>): (ds: seq<string>)
    requires forall i | 0 <= i < |es| :: Printable(es[i])
    ensures |ds| == |es|
    decreases es, 0
  {
    if es == [] then [] else DisplayAll(es[..|es| - 1]) + [Display(es[|es| - 1])]
  }

  lemma {:induction false} DisplayAllAt(es: seq<Value>, i: nat)
    requires forall j | 0 <= j < |es| :: Printable(es[j])
    requires i < |es|
    ensures DisplayAll(es)[i] == Display(es[i])
    decreases |es|
  {
    if i < |es| - 1 {
      DisplayAllAt(es[..|es| - 1], i);
    }
  }

  /** Joining at least two parts: the first part, a separator, and the
      rest joined. */
  lemma {:induction false} JoinCons(parts: seq<string>, sep: string)
    requires |parts| >= 2
    ensures Join(parts, sep) == parts[0] + sep + Join(parts[1..], sep)
    decreases |parts|
  {
    var init := parts[..|parts| - 1];
    if |parts| == 2 {
      assert init == [parts[0]];
      assert parts[1..] == [parts[1]];
    } else {
      JoinCons(init, sep);
      assert init[1..] == parts[1..][..|parts| - 2];
      assert parts[1..][|parts| - 2] == parts[|parts| - 1];
    }
  }

  /** The renderings of a non-empty sequence: the first element's, then
      the rest's. */
  lemma {:induction false} DisplayAllCons(es: seq<Value>)
    requires |es| >= 1 && forall i | 0 <= i < |es| :: Printable(es[i])
    ensures DisplayAll(es) == [Display(es[0])] + DisplayAll(es[1..])
    decreases |es|
  {
    if |es| == 1 {
      assert es[..0] == [] && es[1..] == [];
    } else {
      var init := es[..|es| - 1];
      DisplayAllCons(init);
      assert init[1..] == es[1..][..|es| - 2];
      assert es[1..][|es| - 2] == es[|es| - 1];
    }
  }

  /** An Integer renders as its decimal digits and a Symbol as its name. */
  lemma DisplayAtoms(n: Int64, name: string)
    ensures Display(Integer(n)) == IntToString(n)
    ensures Display(Symbol(name)) == name
  {
  }

  /** The empty list renders as `()` and a one-element list as its
      element in parentheses. */
  lemma DisplayShortLists(x: Value)
    requires Printable(x)
    ensures Display(List([])) == "()"
    ensures Display(List([x])) == "(" + Display(x) + ")"
  {
    assert DisplayAll([x]) == DisplayAll([x][..0]) + [Display(x)];
  }

  /** Appending an element to a non-empty list inserts one space and the
      element's rendering before the closing parenthesis. */
  lemma DisplayAppend(es: seq<Value>, x: Value)
    requires Printable(List(es)) && Printable(x)
    requires |es| >= 1
    ensures Printable(List(es + [x]))
    ensures var d := Display(List(es));
            Display(List(es + [x])) == d[..|d| - 1] + " " + Display(x) + ")"
  {
    var all := es + [x];
    assert forall i | 0 <= i < |all| :: Printable(all[i]) by {
      forall i | 0 <= i < |all| ensures Printable(all[i]) {
        if i < |es| { assert all[i] == es[i]; }
      }
    }
    var parts := DisplayAll(all);
    assert parts == DisplayAll(es) + [Display(x)] by {
      assert all[..|all| - 1] == es;
    }
    var j := Join(DisplayAll(es), " ");
    assert Join(parts, " ") == j + " " + Display(x) by {
      assert parts[..|parts| - 1] == DisplayAll(es);
    }
    var d := Display(List(es));
    assert d == "(" + j + ")";
    ClosingParen(j, Display(x));
  }

  lemma ClosingParen(j: string, t: string)
    ensures var d := "(" + j + ")"; d[..|d| - 1] + " " + t + ")" == "(" + (j + " " + t) + ")"
  {
    var d := "(" + j + ")";
    assert d[..|d| - 1] == "(" + j;
  }

  function CountChar(s: string, c: char): nat
    decreases |s|
  {
    if s == [] then 0 else CountChar(s[..|s| - 1], c) + (if s[|s| - 1] == c then 1 else 0)
  }

  lemma {:induction false} CountCharAppend(s: string, t: string, c: char)
    ensures CountChar(s + t, c) == CountChar(s, c) + CountChar(t, c)
    decreases |t|
  {
    if t == [] {
      assert s + t == s;
    } else {
      assert (s + t)[..|s + t| - 1] == s + t[..|t| - 1];
      CountCharAppend(s, t[..|t| - 1], c);
    }
  }

  function CountCharAll(parts: seq<string>, c: char): nat
    decreases |parts|
  {
    if parts == [] then 0 else CountCharAll(parts[..|parts| - 1], c) + CountChar(parts[|parts| - 1], c)
  }

  /** Joining n >= 1 parts adds exactly n - 1 separators to the
      characters the parts already contain. */
  lemma {:induction false} JoinSeparators(parts: seq<string>, c: char)
    requires |parts| >= 1
    ensures CountChar(Join(parts, [c]), c) == CountCharAll(parts, c) + |parts| - 1
    decreases |parts|
  {
    if |parts| > 1 {
      var init := parts[..|parts| - 1];
      JoinSeparators(init, c);
      CountCharAppend(Join(init, [c]), [c], c);
      CountCharAppend(Join(init, [c]) + [c], parts[|parts| - 1], c);
      assert CountChar([c], c) == 1 by {
        assert [c][..0] == [];
      }
    } else {
      assert CountCharAll(parts, c) == CountChar(parts[0], c) by {
        assert parts[..0] == [];
      }
    }
  }

  /** A list of n >= 1 elements gets exactly n - 1 spaces between the
      renderings of its elements, beyond the spaces those renderings
      contain themselves. */
  lemma ListSeparators(es: seq<Value>)
    requires Printable(List(es))
    requires |es| >= 1
    ensures CountChar(Display(List(es)), ' ') == CountCharAll(DisplayAll(es), ' ') + |es| - 1
  {
    var j := Join(DisplayAll(es), " ");
    JoinSeparators(DisplayAll(es), ' ');
    CountCharAppend("(", j, ' ');
    CountCharAppend("(" + j, ")", ' ');
    assert CountChar("(", ' ') == 0 by { assert "("[..0] == []; }
    assert CountChar(")", ' ') == 0 by { assert ")"[..0] == []; }
  }
}
