/**
 * The recursive-descent reader `readFromTokens` (tokenize.go). It takes the
 * token list the regular-expression tokenizer produced and consumes it in
 * place through `pop`, one expression at a time.
 */
module Reader {

  import opened Expressions

  /** The three errors the reader reports. */
  datatype SyntaxError = EndOfInput | MissingClose | UnexpectedClose

  /** The message text of each error, as the source spells it. */
  function Message(err: SyntaxError): string {
    match err
    case EndOfInput => "unexpected end of input"
    case MissingClose => "unexpected end of input; missing `)`?"
    case UnexpectedClose => "unexpected `)`"
  }

  datatype Outcome = Parsed(expr: Expression) | Failed(error: SyntaxError)

  /** The outcome of one read together with the tokens it left unconsumed. */
  datatype Reading = Reading(outcome: Outcome, rest: seq<string>)

  /** The tokenizer never produces an empty token. */
  ghost predicate NonEmptyTokens(tokens: seq<string>) {
    forall i | 0 <= i < |tokens| :: tokens[i] != ""
  }

  /** `b` is what remains of `a` after its first few tokens were popped. */
  ghost predicate Suffix(b: seq<string>, a: seq<string>) {
    |b| <= |a| && b == a[|a| - |b|..]
  }

  lemma SuffixTransitive(c: seq<string>, b: seq<string>, a: seq<string>)
    requires Suffix(c, b) && Suffix(b, a)
    ensures Suffix(c, a)
  {
    assert a[|a| - |b|..][|b| - |c|..] == a[|a| - |c|..];
  }

  /** What readFromTokens returns on `tokens`, and what it leaves of them. */
  function Read(tokens: seq<string>, parse: NumberParser): (r: Reading)
    requires NonEmptyTokens(tokens)
    ensures Suffix(r.rest, tokens)
    ensures r.outcome.Parsed? ==> |r.rest| < |tokens|
    decreases |tokens|, 0
  {
    if |tokens| == 0 then Reading(Failed(EndOfInput), tokens)
    else if tokens[0] == "(" then
      if |tokens| == 1 then Reading(Failed(MissingClose), [])
      else
        var r := ReadItems(tokens[1..], [], parse);
        SuffixTransitive(r.rest, tokens[1..], tokens);
        r
    else if tokens[0] == ")" then Reading(Failed(UnexpectedClose), tokens[1..])
    else Reading(Parsed(Atom(tokens[0], parse)), tokens[1..])
  }

  /** The loop of readFromTokens after an opening parenthesis: `items` have
      been read so far and `tokens` is not empty. */
  function ReadItems(tokens: seq<string>, items: seq<Expression>, parse: NumberParser): (r: Reading)
    requires |tokens| > 0 && NonEmptyTokens(tokens)
    ensures Suffix(r.rest, tokens)
    ensures r.outcome.Parsed? ==> |r.rest| < |tokens|
    decreases |tokens|, 1
  {
    if tokens[0] == ")" then Reading(Parsed(List(items)), tokens[1..])
    else
      var r := Read(tokens, parse);
      match r.outcome
      case Failed(_) => r
      case Parsed(x) =>
        if |r.rest| == 0 then Reading(Failed(MissingClose), [])
        else
          var r' := ReadItems(r.rest, items + [x], parse);
          SuffixTransitive(r'.rest, r.rest, tokens);
          r'
  }

  /** The token slice that readFromTokens consumes in place. */
  class TokenStream {
    var tokens: seq<string>

    constructor (tokens: seq<string>)
      ensures this.tokens == tokens
    {
      this.tokens := tokens;
    }

    /** pop: removes and returns the first token; callers check for emptiness. */
    method Pop() returns (token: string)
      requires |tokens| > 0
      modifies this
      ensures token == old(tokens)[0] && tokens == old(tokens)[1..]
    {
      token := tokens[0];
      tokens := tokens[1..];
    }
  }

  /** readFromTokens: reads one expression from the front of the stream. */
  method ReadFromTokens(ts: TokenStream, parse: NumberParser) returns (r: Outcome)
    requires NonEmptyTokens(ts.tokens)
    modifies ts
    ensures Read(old(ts.tokens), parse) == Reading(r, ts.tokens)
    decreases |ts.tokens|, 0
  {
    if |ts.tokens| == 0 {
      return Failed(EndOfInput);
    }
    var token := ts.Pop();
    if token == "(" {
      if |ts.tokens| == 0 {
        return Failed(MissingClose);
      }
      r := ReadListItems(ts, parse);
    } else if token == ")" {
      return Failed(UnexpectedClose);
    } else {
      return Parsed(Atom(token, parse));
    }
  }

  /** The list loop of readFromTokens after its `(`, up to and including the
      `)` it pops. */
  method ReadListItems(ts: TokenStream, parse: NumberParser) returns (r: Outcome)
    requires |ts.tokens| > 0 && NonEmptyTokens(ts.tokens)
    modifies ts
    ensures ReadItems(old(ts.tokens), [], parse) == Reading(r, ts.tokens)
    decreases |ts.tokens|, 1
  {
    ghost var body := ts.tokens;
    var list: seq<Expression> := [];
    while ts.tokens[0] != ")"
      invariant |ts.tokens| > 0 && Suffix(ts.tokens, body) && NonEmptyTokens(ts.tokens)
      invariant ReadItems(ts.tokens, list, parse) == ReadItems(body, [], parse)
      decreases |ts.tokens|
    {
      ghost var before := ts.tokens;
      var expr := ReadFromTokens(ts, parse);
      if expr.Failed? {
        return expr;
      }
      SuffixTransitive(ts.tokens, before, body);
      list := list + [expr.expr];
      if |ts.tokens| == 0 {
        return Failed(MissingClose);
      }
    }
    var _ := ts.Pop();
    return Parsed(List(list));
  }

  /** The reader's error cases on a stream that is empty or starts with `)`. */
  lemma ReadErrors(tokens: seq<string>, parse: NumberParser)
    requires NonEmptyTokens(tokens)
    ensures tokens == [] ==> Read(tokens, parse) == Reading(Failed(EndOfInput), [])
    ensures tokens == ["("] ==> Read(tokens, parse) == Reading(Failed(MissingClose), [])
    ensures tokens != [] && tokens[0] == ")" ==> Read(tokens, parse) == Reading(Failed(UnexpectedClose), tokens[1..])
  {
  }

  /** Any other first token is an atom and is the only token consumed. */
  lemma ReadAtom(tokens: seq<string>, parse: NumberParser)
    requires NonEmptyTokens(tokens) && tokens != [] && tokens[0] != "(" && tokens[0] != ")"
    ensures Read(tokens, parse) == Reading(Parsed(Atom(tokens[0], parse)), tokens[1..])
  {
  }

  /** Trailing tokens are neither rejected nor touched: a successful read of
      `tokens` reads the same expression from `tokens + more` and leaves
      exactly the same remainder followed by `more`. */
  lemma {:induction false} ReadAppend(tokens: seq<string>, more: seq<string>, parse: NumberParser)
    requires NonEmptyTokens(tokens) && NonEmptyTokens(more)
    requires Read(tokens, parse).outcome.Parsed?
    ensures NonEmptyTokens(tokens + more)
    ensures Read(tokens + more, parse) == Reading(Read(tokens, parse).outcome, Read(tokens, parse).rest + more)
    decreases |tokens|, 0
  {
    assert (tokens + more)[1..] == tokens[1..] + more;
    if tokens[0] == "(" {
      ReadItemsAppend(tokens[1..], [], more, parse);
    }
  }

  lemma {:induction false} ReadItemsAppend(tokens: seq<string>, items: seq<Expression>, more: seq<string>, parse: NumberParser)
    requires |tokens| > 0 && NonEmptyTokens(tokens) && NonEmptyTokens(more)
    requires ReadItems(tokens, items, parse).outcome.Parsed?
    ensures NonEmptyTokens(tokens + more)
    ensures ReadItems(tokens + more, items, parse)
         == Reading(ReadItems(tokens, items, parse).outcome, ReadItems(tokens, items, parse).rest + more)
    decreases |tokens|, 1
  {
    var t := tokens + more;
    assert t[0] == tokens[0];
    if tokens[0] == ")" {
      assert t[1..] == tokens[1..] + more;
    } else {
      var r := Read(tokens, parse);
      ReadAppend(tokens, more, parse);
      assert r.outcome.Parsed? && |r.rest| > 0;
      var x := r.outcome.expr;
      ReadItemsAppend(r.rest, items + [x], more, parse);
    }
  }

  /** Concatenation of a sequence of token lists. */
  function Concat(parts: seq<seq<string>>): (r: seq<string>)
    ensures parts == [] ==> r == []
  {
    if parts == [] then [] else parts[0] + Concat(parts[1..])
  }

  /** The printed form of `e` split at parentheses: a list is bracketed by
      `(` and `)`, and an atom is its printed text. */
  function Tokens(e: Expression, format: NumberFormat): seq<string>
    decreases e
  {
    match e
    case List(xs) => ["("] + Concat(seq(|xs|, i requires 0 <= i < |xs| => Tokens(xs[i], format))) + [")"]
    case _ => [ExprToStr(e, format)]
  }

  /** Every atom of `e` prints as a single token that `atom` classifies back
      into the same atom. */
  ghost predicate ReadsBack(e: Expression, parse: NumberParser, format: NumberFormat)
    decreases e
  {
    match e
    case List(xs) => forall i | 0 <= i < |xs| :: ReadsBack(xs[i], parse, format)
    case _ =>
      var t := ExprToStr(e, format);
      t != "" && t != "(" && t != ")" && Atom(t, parse) == e
  }

  lemma {:induction false} ConcatNonEmpty(parts: seq<seq<string>>)
    requires forall i | 0 <= i < |parts| :: NonEmptyTokens(parts[i])
    ensures NonEmptyTokens(Concat(parts))
  {
    if parts != [] {
      ConcatNonEmpty(parts[1..]);
    }
  }

  lemma {:induction false} TokensNonEmpty(e: Expression, parse: NumberParser, format: NumberFormat)
    requires ReadsBack(e, parse, format)
    ensures NonEmptyTokens(Tokens(e, format)) && |Tokens(e, format)| > 0
    ensures Tokens(e, format)[0] != ")"
    decreases e
  {
    if e.List? {
      var xs := e.items;
      var parts := seq(|xs|, i requires 0 <= i < |xs| => Tokens(xs[i], format));
      forall i | 0 <= i < |xs| ensures NonEmptyTokens(parts[i]) {
        TokensNonEmpty(xs[i], parse, format);
      }
      ConcatNonEmpty(parts);
    }
  }

  /** Round trip: reading the tokens of any expression whose atoms read back,
      followed by any further tokens, gives the expression and exactly those
      further tokens. */
  lemma {:induction false} ReadTokens(e: Expression, rest: seq<string>, parse: NumberParser, format: NumberFormat)
    requires ReadsBack(e, parse, format) && NonEmptyTokens(rest)
    ensures NonEmptyTokens(Tokens(e, format) + rest)
    ensures Read(Tokens(e, format) + rest, parse) == Reading(Parsed(e), rest)
    decreases e, 1
  {
    TokensNonEmpty(e, parse, format);
    var t := Tokens(e, format) + rest;
    if e.List? {
      var xs := e.items;
      var parts := seq(|xs|, i requires 0 <= i < |xs| => Tokens(xs[i], format));
      assert t == ["("] + (Concat(parts) + [")"] + rest);
      assert t[1..] == Concat(parts) + [")"] + rest;
      assert parts[0..] == parts && xs[..0] == [];
      ReadItemsTokens(e, 0, rest, parse, format);
    } else {
      assert t[0] == ExprToStr(e, format) && t[1..] == rest;
    }
  }

  lemma {:induction false} ReadItemsTokens(e: Expression, k: nat, rest: seq<string>, parse: NumberParser, format: NumberFormat)
    requires e.List? && k <= |e.items| && ReadsBack(e, parse, format) && NonEmptyTokens(rest)
    ensures var parts := seq(|e.items|, i requires 0 <= i < |e.items| => Tokens(e.items[i], format));
      var t := Concat(parts[k..]) + [")"] + rest;
      NonEmptyTokens(t) && ReadItems(t, e.items[..k], parse) == Reading(Parsed(e), rest)
    decreases e, 0, |e.items| - k
  {
    var xs := e.items;
    var parts := seq(|xs|, i requires 0 <= i < |xs| => Tokens(xs[i], format));
    var t := Concat(parts[k..]) + [")"] + rest;
    forall i | k <= i < |xs| ensures NonEmptyTokens(parts[i]) {
      TokensNonEmpty(xs[i], parse, format);
    }
    ConcatNonEmpty(parts[k..]);
    if k == |xs| {
      assert parts[k..] == [];
      assert t == [")"] + rest;
      assert xs[..k] == xs;
    } else {
      var tail := Concat(parts[k + 1..]) + [")"] + rest;
      assert parts[k..][1..] == parts[k + 1..];
      assert t == parts[k] + tail;
      ConcatNonEmpty(parts[k + 1..]);
      TokensNonEmpty(xs[k], parse, format);
      ReadTokens(xs[k], tail, parse, format);
      assert xs[..k] + [xs[k]] == xs[..k + 1];
      ReadItemsTokens(e, k + 1, rest, parse, format);
    }
  }

  /** A list whose closing parenthesis is missing fails with the "missing `)`"
      error once the tokens run out. */
  lemma ReadUnclosed(e: Expression, parse: NumberParser, format: NumberFormat)
    requires e.List? && ReadsBack(e, parse, format)
    ensures var t := Tokens(e, format)[..|Tokens(e, format)| - 1];
      NonEmptyTokens(t) && Read(t, parse) == Reading(Failed(MissingClose), [])
  {
    var xs := e.items;
    var parts := seq(|xs|, i requires 0 <= i < |xs| => Tokens(xs[i], format));
    var t := Tokens(e, format)[..|Tokens(e, format)| - 1];
    assert t == ["("] + Concat(parts);
    TokensNonEmpty(e, parse, format);
    if xs == [] {
      assert t == ["("];
    } else {
      assert t[1..] == Concat(parts);
      ReadItemsUnclosed(e, 0, parse, format);
    }
  }

  lemma {:induction false} ReadItemsUnclosed(e: Expression, k: nat, parse: NumberParser, format: NumberFormat)
    requires e.List? && k < |e.items| && ReadsBack(e, parse, format)
    ensures var parts := seq(|e.items|, i requires 0 <= i < |e.items| => Tokens(e.items[i], format));
      var t := Concat(parts[k..]);
      |t| > 0 && NonEmptyTokens(t) && ReadItems(t, e.items[..k], parse) == Reading(Failed(MissingClose), [])
    decreases |e.items| - k
  {
    var xs := e.items;
    var parts := seq(|xs|, i requires 0 <= i < |xs| => Tokens(xs[i], format));
    var t := Concat(parts[k..]);
    var tail := Concat(parts[k + 1..]);
    assert parts[k..][1..] == parts[k + 1..];
    assert t == parts[k] + tail;
    forall i | k < i < |xs| ensures NonEmptyTokens(parts[i]) {
      TokensNonEmpty(xs[i], parse, format);
    }
    ConcatNonEmpty(parts[k + 1..]);
    TokensNonEmpty(xs[k], parse, format);
    ReadTokens(xs[k], tail, parse, format);
    if k + 1 < |xs| {
      assert xs[..k] + [xs[k]] == xs[..k + 1];
      ReadItemsUnclosed(e, k + 1, parse, format);
    } else {
      assert parts[k + 1..] == [];
    }
  }

  /** Tokens that open a list and hold no `)` at all fail with the "missing
      `)`" error, however deeply the lists nest, and nothing is left. */
  lemma {:induction false} ReadWithoutClose(t: seq<string>, parse: NumberParser)
    requires NonEmptyTokens(t) && t != [] && t[0] == "(" && ")" !in t
    ensures Read(t, parse) == Reading(Failed(MissingClose), [])
    decreases |t|, 0
  {
    if |t| > 1 {
      ReadItemsWithoutClose(t[1..], [], parse);
    }
  }

  /** The loop of a list, on tokens with no `)`, runs out of tokens: either
      inside a nested list, whose error passes up, or after an element. */
  lemma {:induction false} ReadItemsWithoutClose(t: seq<string>, items: seq<Expression>, parse: NumberParser)
    requires |t| > 0 && NonEmptyTokens(t) && ")" !in t
    ensures ReadItems(t, items, parse) == Reading(Failed(MissingClose), [])
    decreases |t|, 1
  {
    if t[0] == "(" {
      ReadWithoutClose(t, parse);
    } else if |t| > 1 {
      ReadItemsWithoutClose(t[1..], items + [Atom(t[0], parse)], parse);
    }
  }

  /** An element that fails to read makes the whole enclosing list fail with
      the same error and the same remainder. */
  lemma ReadListPassesError(t: seq<string>, parse: NumberParser)
    requires NonEmptyTokens(t) && t != [] && t[0] != ")" && Read(t, parse).outcome.Failed?
    ensures NonEmptyTokens(["("] + t) && Read(["("] + t, parse) == Read(t, parse)
  {
    assert (["("] + t)[1..] == t;
  }

  /** `( )` is the empty list, and whatever follows it is left unread. */
  lemma ReadEmptyList(parse: NumberParser)
    ensures Read(["(", ")"], parse) == Reading(Parsed(List([])), [])
    ensures Read(["(", ")", "x"], parse) == Reading(Parsed(List([])), ["x"])
  {
  }
}
