/**
 * The expression values of the query language (tokenize.go): the atoms, the
 * list, the printer `ExprToStr` and the token classifier `atom`.
 *
 * Go's `Number` is a float64; it is kept here as its IEEE-754 bit pattern,
 * and the two float routines the source calls (strconv.ParseFloat and
 * strconv.FormatFloat) are passed in as functions, because floating point
 * text conversion is not part of this model.
 */
module Expressions {

  import opened Wrappers

  datatype Expression =
    | Nil
    | Bool(b: bool)
    | Number(bits: bv64)
    | String(text: string)
    | Error(message: string)
    | Symbol(name: string)
    | List(items: seq<Expression>)

  /** strconv.ParseFloat: Some(bits) when the token is a float literal. */
  type NumberParser = string -> Option<bv64>

  /** strconv.FormatFloat(f, 'g', -1, 64). */
  type NumberFormat = bv64 -> string

  /** The float64 1.0, which the aggregate placeholder returns. */
  const One: bv64 := 0x3FF0_0000_0000_0000

  /** IsNil: only the nil literal is nil. */
  predicate IsNil(e: Expression) {
    e == Nil
  }

  /** strings.Join(parts, sep). */
  function Join(parts: seq<string>, sep: string): (r: string)
    ensures parts == [] ==> r == ""
    ensures |parts| == 1 ==> r == parts[0]
  {
    if parts == [] then ""
    else if |parts| == 1 then parts[0]
    else parts[0] + sep + Join(parts[1..], sep)
  }

  /** strings.ReplaceAll(s, `"`, `\"`). */
  function Escape(s: string): (r: string)
    ensures |r| >= |s|
  {
    if s == [] then []
    else (if s[0] == '"' then ['\\', '"'] else [s[0]]) + Escape(s[1..])
  }

  /** strings.ReplaceAll(s, `\"`, `"`), which scans left to right. */
  function Unescape(s: string): (r: string)
    ensures |r| <= |s|
  {
    if s == [] then []
    else if |s| >= 2 && s[0] == '\\' && s[1] == '"' then ['"'] + Unescape(s[2..])
    else [s[0]] + Unescape(s[1..])
  }

  /** The leading half of strings.Trim(s, `"`): drops every leading quote. */
  function TrimLeadingQuotes(s: string): (r: string)
    ensures |r| <= |s| && (r == [] || r[0] != '"')
  {
    if s != [] && s[0] == '"' then TrimLeadingQuotes(s[1..]) else s
  }

  /** The trailing half of strings.Trim(s, `"`): drops every trailing quote. */
  function TrimTrailingQuotes(s: string): (r: string)
    ensures |r| <= |s| && (r == [] || r[|r| - 1] != '"')
  {
    if s != [] && s[|s| - 1] == '"' then TrimTrailingQuotes(s[..|s| - 1]) else s
  }

  /** strings.Trim(s, `"`). */
  function TrimQuotes(s: string): string {
    TrimTrailingQuotes(TrimLeadingQuotes(s))
  }

  /** Expression.ExprToStr: the printed form of an expression. */
  function ExprToStr(e: Expression, format: NumberFormat): string
    decreases e
  {
    match e
    case Nil => "nil"
    case Bool(b) => if b then "#t" else "#f"
    case Number(f) => format(f)
    case String(s) => "\"" + Escape(s) + "\""
    case Error(m) => "!{" + m + "}"
    case Symbol(name) => name
    case List(xs) =>
      "(" + Join(seq(|xs|, i requires 0 <= i < |xs| => ExprToStr(xs[i], format)), " ") + ")"
  }

  /** atom: classifies one token; the tokenizer never yields an empty token. */
  function Atom(token: string, parse: NumberParser): Expression
    requires token != ""
  {
    if token == "#t" then Bool(true)
    else if token == "#f" then Bool(false)
    else if token == "nil" then Nil
    else if token[0] == '"' then String(Unescape(TrimQuotes(token)))
    else match parse(token)
      case Some(f) => Number(f)
      case None => Symbol(token)
  }

  /** Unescaping undoes escaping for every string, backslashes included. */
  lemma {:induction false} UnescapeEscape(s: string)
    ensures Unescape(Escape(s)) == s
  {
    if s != [] {
      UnescapeEscape(s[1..]);
      var rest := Escape(s[1..]);
      if s[0] == '"' {
        assert Escape(s) == ['\\', '"'] + rest;
        assert (['\\', '"'] + rest)[2..] == rest;
      } else {
        assert Escape(s) == [s[0]] + rest;
        assert ([s[0]] + rest)[1..] == rest;
        if s[0] == '\\' && rest != [] {
          EscapeHead(s[1..]);
        }
      }
    }
  }

  /** An escaped string never starts with a bare quote: a quote is preceded by a backslash. */
  lemma {:induction false} EscapeHead(s: string)
    requires s != []
    ensures Escape(s) != [] && Escape(s)[0] != '"'
  {
  }

  /** An escaped string ends with a quote exactly when the original does. */
  lemma {:induction false} EscapeLast(s: string)
    requires s != []
    ensures Escape(s) != [] && (Escape(s)[|Escape(s)| - 1] == '"' <==> s[|s| - 1] == '"')
  {
    if |s| == 1 {
    } else {
      EscapeLast(s[1..]);
      var head := if s[0] == '"' then ['\\', '"'] else [s[0]];
      assert Escape(s) == head + Escape(s[1..]);
    }
  }

  /** Trimming a string wrapped in one pair of quotes gives the inside back
      when the inside neither starts nor ends with a quote. */
  lemma TrimWrapped(inner: string)
    requires inner == [] || (inner[0] != '"' && inner[|inner| - 1] != '"')
    ensures TrimQuotes("\"" + inner + "\"") == inner
  {
    var w := "\"" + inner + "\"";
    var tail := inner + "\"";
    assert w[1..] == tail;
    if inner != [] {
      assert TrimLeadingQuotes(w) == tail;
      assert tail[..|tail| - 1] == inner;
      assert TrimTrailingQuotes(tail) == TrimTrailingQuotes(inner) == inner;
    } else {
      assert tail[1..] == [];
      assert TrimLeadingQuotes(w) == [];
    }
  }

  /** Reading back a printed string: `atom(ExprToStr(String(s)))` is `String(s)`
      for every s whose last character is not a double quote. */
  lemma AtomReadsBackString(s: string, parse: NumberParser, format: NumberFormat)
    requires s == [] || s[|s| - 1] != '"'
    ensures Atom(ExprToStr(String(s), format), parse) == String(s)
  {
    var inner := Escape(s);
    if s != [] {
      EscapeHead(s);
      EscapeLast(s);
    }
    TrimWrapped(inner);
    UnescapeEscape(s);
  }

  /** A string ending in a quote does not survive the round trip: strings.Trim
      strips the escaped quote's quote together with the closing one. */
  lemma AtomLosesTrailingQuote(parse: NumberParser, format: NumberFormat)
    ensures ExprToStr(String("a\""), format) == "\"a\\\"\""
    ensures Atom(ExprToStr(String("a\""), format), parse) == String("a\\")
  {
    var printed := "\"a\\\"\"";
    assert Escape("a\"") == "a\\\"";
    assert TrimLeadingQuotes(printed) == "a\\\"\"";
    assert TrimTrailingQuotes("a\\\"\"") == TrimTrailingQuotes("a\\\"");
    assert TrimTrailingQuotes("a\\\"") == TrimTrailingQuotes("a\\");
    assert Unescape("a\\") == "a\\";
  }

  /** The boolean and nil literals read back as themselves. */
  lemma AtomReadsBackLiterals(b: bool, parse: NumberParser, format: NumberFormat)
    ensures Atom(ExprToStr(Bool(b), format), parse) == Bool(b)
    ensures Atom(ExprToStr(Nil, format), parse) == Nil
  {
  }

  /** An Error does not survive printing and reading: `!{m}` reads back as a
      symbol of that spelling (unless it happens to parse as a float). */
  lemma AtomReadsErrorAsSymbol(m: string, parse: NumberParser, format: NumberFormat)
    requires parse("!{" + m + "}").None?
    ensures ExprToStr(Error(m), format) == "!{" + m + "}"
    ensures Atom(ExprToStr(Error(m), format), parse) == Symbol("!{" + m + "}")
  {
    var t := "!{" + m + "}";
    assert t[0] == '!';
    assert t != "#t" && t != "#f" && t != "nil" by {
      assert "#t"[0] == '#' && "#f"[0] == '#' && "nil"[0] == 'n';
    }
  }

  /** A token that is no literal, does not start with a quote and is not a
      float reads back as the symbol of that name, which prints as the token. */
  lemma AtomReadsBackSymbol(name: string, parse: NumberParser, format: NumberFormat)
    requires name != "" && name != "#t" && name != "#f" && name != "nil"
    requires name[0] != '"' && parse(name).None?
    ensures Atom(name, parse) == Symbol(name)
    ensures ExprToStr(Symbol(name), format) == name
  {
  }
}
