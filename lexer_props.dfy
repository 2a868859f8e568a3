/**
 * Properties of the lexer model: what each rule does to the input it sees,
 * the numeric literals it reads back, how block comments are consumed, and
 * what every run of the lexer keeps true (token order, line accounting, the
 * only way it can get stuck).
 */
module LexerProperties {
  import opened Wrappers
  import opened Numerals
  import opened Lexer

  /** The characters that begin some rule of the INITIAL state, stated independently of the scanner. */
  predicate StartsRule(data: string, pos: nat)
    requires pos < |data|
  {
    var c := data[pos];
    c == ' ' || c == '\t' || c == '\n' || c == '#'
    || c == '+' || c == '-' || c == '*' || c == '/'
    || IsDecimalDigit(c) || QuotesAt(data, pos)
    || At3(data, pos, 'n', 'e', 'g') || At3(data, pos, 'e', 'x', 'p') || At3(data, pos, 'l', 'o', 'g')
    || At3(data, pos, 's', 'i', 'n') || At3(data, pos, 'c', 'o', 's')
  }

  /**
   * In the INITIAL state t_error fires exactly at a character that begins no
   * rule, and then the lexer skips that one character and nothing else.
   */
  lemma IllegalCharacter(data: string, pos: nat, lineno: nat)
    requires pos < |data|
    ensures NextStep(data, pos, Initial, lineno).Step?
    ensures NextStep(data, pos, Initial, lineno).illegal <==> !StartsRule(data, pos)
    ensures !StartsRule(data, pos) ==> NextStep(data, pos, Initial, lineno) == Step(pos + 1, Initial, lineno, None, true)
  {
  }

  /** t_ignore: a space or a tab is skipped with no token, no change of state and no change of line. */
  lemma IgnoreRule(data: string, pos: nat, lineno: nat)
    requires pos < |data| && (data[pos] == ' ' || data[pos] == '\t')
    ensures NextStep(data, pos, Initial, lineno) == Step(pos + 1, Initial, lineno, None, false)
  {
  }

  /** A run of characters that all satisfy `p` up to the end of the input spans to the end. */
  lemma {:induction false} SpanToEnd(data: string, i: nat, p: char -> bool)
    requires i <= |data|
    requires forall k :: i <= k < |data| ==> p(data[k])
    ensures Span(data, i, p) == |data|
    decreases |data| - i
  {
    if i < |data| {
      SpanToEnd(data, i + 1, p);
    }
  }

  /**
   * t_HEXADECIMAL: `0x` and an upper-case hexadecimal digit begin a
   * HEXADECIMAL token that takes the whole run of such digits, whose value
   * is those digits read in base 16.
   */
  lemma HexadecimalRule(data: string, pos: nat, lineno: nat)
    requires At2(data, pos, '0', 'x') && pos + 2 < |data| && IsHexDigit(data[pos + 2])
    ensures var s := NextStep(data, pos, Initial, lineno);
      s.Step? && s.state == Initial && s.lineno == lineno && !s.illegal && pos + 2 < s.next
      && (forall k :: pos + 2 <= k < s.next ==> IsHexDigit(data[k]))
      && (s.next == |data| || !IsHexDigit(data[s.next]))
      && AllDigits(16, data[pos + 2..s.next])
      && s.token == Some(Token(Hexadecimal, Number(ValueOf(16, data[pos + 2..s.next])), lineno, pos))
  {
    var e := Span(data, pos + 2, IsHexDigit);
    SpanFacts(data, pos + 2, IsHexDigit);
    assert ScanInitial(data, pos) == Match(Emit(Hexadecimal, Number(ValueOf(16, data[pos + 2..e]))), e);
  }

  /**
   * t_BINARIO: `0b` and a binary digit begin a BINARIO token that takes the
   * whole run of binary digits, whose value is those digits read in base 2.
   */
  lemma BinaryRule(data: string, pos: nat, lineno: nat)
    requires At2(data, pos, '0', 'b') && pos + 2 < |data| && IsBinaryDigit(data[pos + 2])
    ensures var s := NextStep(data, pos, Initial, lineno);
      s.Step? && s.state == Initial && s.lineno == lineno && !s.illegal && pos + 2 < s.next
      && (forall k :: pos + 2 <= k < s.next ==> IsBinaryDigit(data[k]))
      && (s.next == |data| || !IsBinaryDigit(data[s.next]))
      && AllDigits(2, data[pos + 2..s.next])
      && s.token == Some(Token(Binario, Number(ValueOf(2, data[pos + 2..s.next])), lineno, pos))
  {
    var e := Span(data, pos + 2, IsBinaryDigit);
    SpanFacts(data, pos + 2, IsBinaryDigit);
    assert !At2(data, pos, '0', 'x');
    assert ScanInitial(data, pos) == Match(Emit(Binario, Number(ValueOf(2, data[pos + 2..e]))), e);
  }

  /** The single token a numeric literal produces, at line 1 and position 0. */
  function Literal(kind: Kind, n: nat): LexResult
  {
    LexResult([Token(kind, Number(n), 1, 0)], [], Initial, 1, Finished)
  }

  /** An input that the first step reads as one token, from line 1, lexes to that token alone. */
  lemma LexOneToken(data: string, tok: Token)
    requires |data| > 0 && NextStep(data, 0, Initial, 1) == Step(|data|, Initial, 1, Some(tok), false)
    ensures Tokens(data) == LexResult([tok], [], Initial, 1, Finished)
  {
    calc {
      Tokens(data);
    ==
      Lex(data, 0, Initial, 1, [], []);
    == { LexAdvance(data, 0, Initial, 1, [], [], |data|, Initial, 1, Some(tok), false); }
      Lex(data, |data|, Initial, 1, [] + [tok], [] + []);
    ==
      LexResult([tok], [], Initial, 1, Finished);
    }
  }

  /** A step in the INITIAL state that returns a token and stays on the same line appends that token to the run. */
  lemma LexToken(data: string, pos: nat, lineno: nat, tokens: seq<Token>, illegal: seq<nat>, next: nat, tok: Token)
    requires pos < |data| && NextStep(data, pos, Initial, lineno) == Step(next, Initial, lineno, Some(tok), false)
    ensures Lex(data, pos, Initial, lineno, tokens, illegal) == Lex(data, next, Initial, lineno, tokens + [tok], illegal)
  {
    assert illegal + [] == illegal;
    LexAdvance(data, pos, Initial, lineno, tokens, illegal, next, Initial, lineno, Some(tok), false);
  }

  /** A step that returns no token, is no illegal character and changes neither state nor line leaves the run's results alone. */
  lemma LexQuiet(data: string, pos: nat, st: LexState, lineno: nat, tokens: seq<Token>, illegal: seq<nat>, next: nat)
    requires pos < |data| && NextStep(data, pos, st, lineno) == Step(next, st, lineno, None, false)
    ensures Lex(data, pos, st, lineno, tokens, illegal) == Lex(data, next, st, lineno, tokens, illegal)
  {
    assert tokens + [] == tokens && illegal + [] == illegal;
    LexAdvance(data, pos, st, lineno, tokens, illegal, next, st, lineno, None, false);
  }

  /** The decimal numeral of `n` lexes to one ENTERO token whose value is `n`. */
  lemma DecimalRoundTrip(n: nat)
    ensures Tokens(Numeral(10, n)) == Literal(Entero, n)
  {
    var data := Numeral(10, n);
    SpanToEnd(data, 0, IsDecimalDigit);
    assert RealEnd(data, 0).None?;
    if n != 0 {
      SpanToEnd(data, 1, IsDecimalDigit);
      assert data[0..|data|] == data;
      ValueOfNumeral(10, n);
      EnteroMaximalMunch(data, 0, 1);
    } else {
      assert data == "0";
    }
    LexOneToken(data, Token(Entero, Number(n), 1, 0));
  }

  /** `0x` followed by the upper-case hexadecimal numeral of `n` lexes to one HEXADECIMAL token whose value is `n`. */
  lemma HexadecimalRoundTrip(n: nat)
    ensures Tokens("0x" + Numeral(16, n)) == Literal(Hexadecimal, n)
  {
    var data := "0x" + Numeral(16, n);
    SpanToEnd(data, 2, IsHexDigit);
    assert data[2..|data|] == Numeral(16, n);
    ValueOfNumeral(16, n);
    HexadecimalRule(data, 0, 1);
    LexOneToken(data, Token(Hexadecimal, Number(n), 1, 0));
  }

  /** `0b` followed by the binary numeral of `n` lexes to one BINARIO token whose value is `n`. */
  lemma BinaryRoundTrip(n: nat)
    ensures Tokens("0b" + Numeral(2, n)) == Literal(Binario, n)
  {
    var data := "0b" + Numeral(2, n);
    assert IsBinaryDigit(data[2]);
    SpanToEnd(data, 2, IsBinaryDigit);
    assert data[2..|data|] == Numeral(2, n);
    ValueOfNumeral(2, n);
    BinaryRule(data, 0, 1);
    LexOneToken(data, Token(Binario, Number(n), 1, 0));
  }

  /**
   * An ENTERO literal that starts with 1-9 and is not the integer part of a
   * REAL takes the whole run of decimal digits (maximal munch), and its
   * value is those digits read in base 10.
   */
  lemma EnteroMaximalMunch(data: string, pos: nat, lineno: nat)
    requires pos < |data| && '1' <= data[pos] <= '9'
    requires RealEnd(data, pos).None?
    ensures var s := NextStep(data, pos, Initial, lineno);
      s.Step? && s.state == Initial && s.lineno == lineno && !s.illegal
      && (forall k :: pos <= k < s.next ==> IsDecimalDigit(data[k]))
      && (s.next == |data| || !IsDecimalDigit(data[s.next]))
      && AllDigits(10, data[pos..s.next])
      && s.token == Some(Token(Entero, Number(ValueOf(10, data[pos..s.next])), lineno, pos))
  {
    SpanFacts(data, pos + 1, IsDecimalDigit);
  }

  /** A `0` that begins neither a HEXADECIMAL, a BINARIO nor a REAL literal is an ENTERO 0 on its own, whatever digits follow. */
  lemma LeadingZero(data: string, pos: nat, lineno: nat)
    requires pos + 1 < |data| && data[pos] == '0' && IsDecimalDigit(data[pos + 1])
    requires RealEnd(data, pos).None?
    ensures NextStep(data, pos, Initial, lineno) == Step(pos + 1, Initial, lineno, Some(Token(Entero, Number(0), lineno, pos)), false)
  {
  }

  /** A `#` discards everything up to, and not including, the next line feed, and returns no token. */
  lemma LineCommentRule(data: string, pos: nat, lineno: nat)
    requires pos < |data| && data[pos] == '#'
    ensures var s := NextStep(data, pos, Initial, lineno);
      s.Step? && s.state == Initial && s.lineno == lineno && s.token.None? && !s.illegal
      && (forall k :: pos < k < s.next ==> data[k] != '\n')
      && (s.next == |data| || data[s.next] == '\n')
  {
    SpanFacts(data, pos + 1, NotNewline);
  }

  /** A line feed in the INITIAL state is a NEWLINE token; t_NEWLINE leaves the line counter alone. */
  lemma NewlineRule(data: string, pos: nat, lineno: nat)
    requires pos < |data| && data[pos] == '\n'
    ensures NextStep(data, pos, Initial, lineno) == Step(pos + 1, Initial, lineno, Some(Token(Newline, Lexeme("\n"), lineno, pos)), false)
  {
  }

  /** `\'\'\'` in the INITIAL state is returned as a COMMLinit token and switches to the `comment` state. */
  lemma OpenerRule(data: string, pos: nat, lineno: nat)
    requires pos < |data| && QuotesAt(data, pos)
    ensures NextStep(data, pos, Initial, lineno) == Step(pos + 3, Comment, lineno, Some(Token(CommlInit, Lexeme(Quotes), lineno, pos)), false)
  {
    assert Span(data, pos, IsDecimalDigit) == pos;
    assert RealEnd(data, pos).None?;
    assert ScanInitial(data, pos) == Match(Emit(CommlInit, Lexeme(Quotes)), pos + 3);
  }

  /** `\'\'\'` in the `comment` state closes the comment: back to INITIAL, no token. */
  lemma CloserRule(data: string, pos: nat, lineno: nat)
    requires pos < |data| && QuotesAt(data, pos)
    ensures NextStep(data, pos, Comment, lineno) == Step(pos + 3, Initial, lineno, None, false)
  {
  }

  /**
   * Inside a comment, text that does not start with the closing quotes is
   * consumed up to the next `\'\'\'`; the line counter grows by the line feeds
   * in it. With no closing quotes ahead, no rule matches and the lexer halts.
   */
  lemma CommentBodyRule(data: string, pos: nat, lineno: nat)
    requires pos < |data| && !QuotesAt(data, pos)
    ensures FindQuotes(data, pos).Some? ==>
      NextStep(data, pos, Comment, lineno) == Step(FindQuotes(data, pos).value, Comment, lineno + Newlines(data[pos..FindQuotes(data, pos).value]), None, false)
    ensures FindQuotes(data, pos).None? ==> NextStep(data, pos, Comment, lineno) == Halt
  {
    assert FindQuotes(data, pos) == FindQuotes(data, pos + 1);
  }

  /** Inside a comment, the run goes on after the first closing quotes, with the line feeds before them counted. */
  lemma CommentToCloser(data: string, pos: nat, lineno: nat, tokens: seq<Token>, illegal: seq<nat>, close: nat)
    requires pos <= |data| && FindQuotes(data, pos) == Some(close)
    ensures close + 3 <= |data|
    ensures Lex(data, pos, Comment, lineno, tokens, illegal)
         == Lex(data, close + 3, Initial, lineno + Newlines(data[pos..close]), tokens, illegal)
  {
    if close == pos {
      LexCloser(data, close, lineno, tokens, illegal);
    } else {
      LexBodyAndCloser(data, pos, lineno, tokens, illegal, close);
    }
  }

  lemma LexBodyAndCloser(data: string, pos: nat, lineno: nat, tokens: seq<Token>, illegal: seq<nat>, close: nat)
    requires pos < close <= |data| && FindQuotes(data, pos) == Some(close)
    ensures Lex(data, pos, Comment, lineno, tokens, illegal)
         == Lex(data, close + 3, Initial, lineno + Newlines(data[pos..close]), tokens, illegal)
  {
    var lineno' := lineno + Newlines(data[pos..close]);
    calc {
      Lex(data, pos, Comment, lineno, tokens, illegal);
    == { LexCommentBody(data, pos, lineno, tokens, illegal, close); }
      Lex(data, close, Comment, lineno', tokens, illegal);
    == { LexCloser(data, close, lineno', tokens, illegal); }
      Lex(data, close + 3, Initial, lineno', tokens, illegal);
    }
  }

  lemma LexCloser(data: string, pos: nat, lineno: nat, tokens: seq<Token>, illegal: seq<nat>)
    requires QuotesAt(data, pos)
    ensures Lex(data, pos, Comment, lineno, tokens, illegal) == Lex(data, pos + 3, Initial, lineno, tokens, illegal)
    ensures Lex(data, pos, Comment, lineno, tokens, illegal)
         == Lex(data, pos + 3, Initial, lineno + Newlines(data[pos..pos]), tokens, illegal)
  {
    assert tokens + [] == tokens && illegal + [] == illegal;
    assert data[pos..pos] == [];
    CloserRule(data, pos, lineno);
    LexAdvance(data, pos, Comment, lineno, tokens, illegal, pos + 3, Initial, lineno, None, false);
  }

  lemma LexCommentBody(data: string, pos: nat, lineno: nat, tokens: seq<Token>, illegal: seq<nat>, close: nat)
    requires pos < close <= |data| && FindQuotes(data, pos) == Some(close)
    ensures Lex(data, pos, Comment, lineno, tokens, illegal)
         == Lex(data, close, Comment, lineno + Newlines(data[pos..close]), tokens, illegal)
  {
    assert tokens + [] == tokens && illegal + [] == illegal;
    CommentBodyRule(data, pos, lineno);
    LexAdvance(data, pos, Comment, lineno, tokens, illegal, close, Comment, lineno + Newlines(data[pos..close]), None, false);
  }

  /**
   * A block comment that is closed: the opening quotes are returned as a
   * COMMLinit token, everything up to the first closing quotes is consumed,
   * the line counter grows by the line feeds inside, and the lexer is back
   * in the INITIAL state after the closing quotes.
   */
  lemma ClosedBlockComment(data: string, pos: nat, lineno: nat, tokens: seq<Token>, illegal: seq<nat>, close: nat)
    requires pos < |data| && QuotesAt(data, pos)
    requires FindQuotes(data, pos + 3) == Some(close)
    ensures close + 3 <= |data|
    ensures Lex(data, pos, Initial, lineno, tokens, illegal)
         == Lex(data, close + 3, Initial, lineno + Newlines(data[pos + 3..close]),
                tokens + [Token(CommlInit, Lexeme(Quotes), lineno, pos)], illegal)
  {
    var opener := Token(CommlInit, Lexeme(Quotes), lineno, pos);
    assert pos + 3 <= close && close + 3 <= |data|;
    calc {
      Lex(data, pos, Initial, lineno, tokens, illegal);
    == { LexOpener(data, pos, lineno, tokens, illegal); }
      Lex(data, pos + 3, Comment, lineno, tokens + [opener], illegal);
    == { CommentToCloser(data, pos + 3, lineno, tokens + [opener], illegal, close); }
      Lex(data, close + 3, Initial, lineno + Newlines(data[pos + 3..close]), tokens + [opener], illegal);
    }
  }

  /**
   * A block comment that is never closed and has text after its opening
   * quotes: the opener is returned, and then PLY's exception stops the run
   * right after the opener.
   */
  lemma UnclosedBlockComment(data: string, pos: nat, lineno: nat, tokens: seq<Token>, illegal: seq<nat>)
    requires pos + 3 < |data| && QuotesAt(data, pos)
    requires FindQuotes(data, pos + 3).None?
    ensures Lex(data, pos, Initial, lineno, tokens, illegal)
         == LexResult(tokens + [Token(CommlInit, Lexeme(Quotes), lineno, pos)], illegal, Comment, lineno, Stuck(pos + 3))
  {
    var opener := Token(CommlInit, Lexeme(Quotes), lineno, pos);
    calc {
      Lex(data, pos, Initial, lineno, tokens, illegal);
    == { LexOpener(data, pos, lineno, tokens, illegal); }
      Lex(data, pos + 3, Comment, lineno, tokens + [opener], illegal);
    == { assert !QuotesAt(data, pos + 3); CommentBodyRule(data, pos + 3, lineno); }
      LexResult(tokens + [opener], illegal, Comment, lineno, Stuck(pos + 3));
    }
  }

  /**
   * An opener that ends the input: it is returned as a COMMLinit token and
   * the input is used up with the lexer in the `comment` state, so PLY's
   * lexer returns None without raising.
   */
  lemma OpenerAtEnd(data: string, pos: nat, lineno: nat, tokens: seq<Token>, illegal: seq<nat>)
    requires pos + 3 == |data| && QuotesAt(data, pos)
    ensures Lex(data, pos, Initial, lineno, tokens, illegal)
         == LexResult(tokens + [Token(CommlInit, Lexeme(Quotes), lineno, pos)], illegal, Comment, lineno, Finished)
  {
    LexOpener(data, pos, lineno, tokens, illegal);
  }

  lemma LexOpener(data: string, pos: nat, lineno: nat, tokens: seq<Token>, illegal: seq<nat>)
    requires pos < |data| && QuotesAt(data, pos)
    ensures Lex(data, pos, Initial, lineno, tokens, illegal)
         == Lex(data, pos + 3, Comment, lineno, tokens + [Token(CommlInit, Lexeme(Quotes), lineno, pos)], illegal)
  {
    assert illegal + [] == illegal;
    OpenerRule(data, pos, lineno);
    LexAdvance(data, pos, Initial, lineno, tokens, illegal, pos + 3, Comment, lineno, Some(Token(CommlInit, Lexeme(Quotes), lineno, pos)), false);
  }

  /** Line feeds are additive over concatenation. */
  lemma {:induction false} NewlinesAppend(a: string, b: string)
    ensures Newlines(a + b) == Newlines(a) + Newlines(b)
    decreases |a|
  {
    if a != [] {
      assert (a + b)[1..] == a[1..] + b;
      NewlinesAppend(a[1..], b);
    } else {
      assert a + b == b;
    }
  }

  /** Line feeds in consecutive stretches of the input add up. */
  lemma NewlinesSplit(data: string, i: nat, j: nat, k: nat)
    requires i <= j <= k <= |data|
    ensures Newlines(data[i..k]) == Newlines(data[i..j]) + Newlines(data[j..k])
  {
    assert data[i..k] == data[i..j] + data[j..k];
    NewlinesAppend(data[i..j], data[j..k]);
  }

  lemma NewlinesOne(data: string, i: nat)
    requires i < |data|
    ensures Newlines(data[i..i + 1]) == if data[i] == '\n' then 1 else 0
  {
    assert data[i..i + 1][1..] == [];
  }

  /** A stretch of `n` characters, none of them a line feed, holds no line feed. */
  lemma NewlinesShort(data: string, i: nat, n: nat)
    requires 1 <= n <= 3 && i + n <= |data|
    requires data[i] != '\n'
    requires n >= 2 ==> data[i + 1] != '\n'
    requires n == 3 ==> data[i + 2] != '\n'
    ensures Newlines(data[i..i + n]) == 0
  {
    NewlinesOne(data, i);
    if n >= 2 {
      NewlinesSplit(data, i, i + 1, i + n);
      NewlinesOne(data, i + 1);
      if n == 3 {
        NewlinesSplit(data, i + 1, i + 2, i + 3);
        NewlinesOne(data, i + 2);
      }
    }
  }

  /** A span of characters of a class that excludes the line feed holds no line feed. */
  lemma {:induction false} SpanLineFree(data: string, i: nat, p: char -> bool)
    requires i <= |data|
    requires !p('\n')
    ensures Newlines(data[i..Span(data, i, p)]) == 0
    decreases |data| - i
  {
    var e := Span(data, i, p);
    if i < |data| && p(data[i]) {
      SpanLineFree(data, i + 1, p);
      NewlinesSplit(data, i, i + 1, e);
      NewlinesOne(data, i);
    }
  }

  /** A prefix of one or two characters that are no line feed, then a span of a class without the line feed: no line feed. */
  lemma PrefixSpanLineFree(data: string, pos: nat, n: nat, p: char -> bool)
    requires 1 <= n <= 2 && pos + n <= |data|
    requires data[pos] != '\n' && (n == 2 ==> data[pos + 1] != '\n')
    requires !p('\n')
    ensures Newlines(data[pos..Span(data, pos + n, p)]) == 0
  {
    NewlinesShort(data, pos, n);
    SpanLineFree(data, pos + n, p);
    NewlinesSplit(data, pos, pos + n, Span(data, pos + n, p));
  }

  /** A REAL literal holds no line feed. */
  lemma RealLineFree(data: string, pos: nat)
    requires pos <= |data| && RealEnd(data, pos).Some?
    ensures Newlines(data[pos..RealEnd(data, pos).value]) == 0
  {
    var k := Span(data, pos, IsDecimalDigit);
    var e := Span(data, k + 1, IsDecimalDigit);
    SpanLineFree(data, pos, IsDecimalDigit);
    NewlinesOne(data, k);
    SpanLineFree(data, k + 1, IsDecimalDigit);
    NewlinesSplit(data, pos, k, k + 1);
    NewlinesSplit(data, pos, k + 1, e);
  }

  /**
   * The line feeds in the text a rule of the INITIAL state matches: one for a
   * NEWLINE token, none for every other rule; and a line feed is never an
   * illegal character there.
   */
  lemma InitialLines(data: string, pos: nat)
    requires pos < |data|
    ensures var m := ScanInitial(data, pos);
      m.Match? ==> Newlines(data[pos..m.end]) == if m.rule.Emit? && m.rule.kind == Newline then 1 else 0
    ensures ScanInitial(data, pos).NoMatch? ==> data[pos] != '\n'
  {
    var c := data[pos];
    if c == ' ' || c == '\t' {
      NewlinesOne(data, pos);
    } else if At2(data, pos, '0', 'x') && pos + 2 < |data| && IsHexDigit(data[pos + 2]) {
      PrefixSpanLineFree(data, pos, 2, IsHexDigit);
    } else if At2(data, pos, '0', 'b') && pos + 2 < |data| && IsBinaryDigit(data[pos + 2]) {
      PrefixSpanLineFree(data, pos, 2, IsBinaryDigit);
    } else if RealEnd(data, pos).Some? {
      RealLineFree(data, pos);
    } else if c == '0' {
      NewlinesOne(data, pos);
    } else if '1' <= c <= '9' {
      PrefixSpanLineFree(data, pos, 1, IsDecimalDigit);
    } else if c == '#' {
      PrefixSpanLineFree(data, pos, 1, NotNewline);
    } else if QuotesAt(data, pos) || At3(data, pos, 'n', 'e', 'g') || At3(data, pos, 'e', 'x', 'p')
           || At3(data, pos, 'l', 'o', 'g') || At3(data, pos, 's', 'i', 'n') || At3(data, pos, 'c', 'o', 's') {
      if c != '\n' {
        NewlinesShort(data, pos, 3);
      }
    } else {
      NewlinesOne(data, pos);
    }
  }

  /** The number of NEWLINE tokens in `ts`. */
  function NewlineTokens(ts: seq<Token>): nat
  {
    if ts == [] then 0
    else NewlineTokens(ts[..|ts| - 1]) + (if ts[|ts| - 1].kind == Newline then 1 else 0)
  }

  /** Appending a step's token, if any, adds one NEWLINE token exactly when that token is one. */
  lemma NewlineTokensPush(tokens: seq<Token>, t: Option<Token>)
    ensures NewlineTokens(tokens + (if t.Some? then [t.value] else []))
         == NewlineTokens(tokens) + (if t.Some? && t.value.kind == Newline then 1 else 0)
  {
    var ts := tokens + (if t.Some? then [t.value] else []);
    if t.Some? {
      assert ts[..|ts| - 1] == tokens;
    } else {
      assert ts == tokens;
    }
  }

  /** What one step does to the two line counts: every line feed it consumes is either a NEWLINE token or counted into `lineno`. */
  lemma StepLines(data: string, pos: nat, st: LexState, lineno: nat)
    requires pos < |data|
    ensures var s := NextStep(data, pos, st, lineno);
      s.Step? ==> s.lineno + (if s.token.Some? && s.token.value.kind == Newline then 1 else 0)
                  == lineno + Newlines(data[pos..s.next])
  {
    if st == Initial {
      InitialLines(data, pos);
      if ScanInitial(data, pos).NoMatch? {
        NewlinesOne(data, pos);
      }
    } else if QuotesAt(data, pos) {
      NewlinesShort(data, pos, 3);
    }
  }

  /** Where a run stopped reading: the end of the input, or the position at which it got stuck. */
  function Reached(data: string, r: LexResult): nat
  {
    if r.outcome.Stuck? then r.outcome.at else |data|
  }

  /**
   * Line accounting over a run: the line feeds read, from `pos` to where the
   * run stopped, are exactly the NEWLINE tokens added plus the growth of the
   * line counter (which only block comments make).
   */
  lemma {:induction false} LineAccounting(data: string, pos: nat, st: LexState, lineno: nat, tokens: seq<Token>, illegal: seq<nat>)
    requires pos <= |data|
    ensures var r := Lex(data, pos, st, lineno, tokens, illegal);
      pos <= Reached(data, r) <= |data|
      && r.lineno + NewlineTokens(r.tokens) == lineno + NewlineTokens(tokens) + Newlines(data[pos..Reached(data, r)])
    decreases |data| - pos
  {
    var r := Lex(data, pos, st, lineno, tokens, illegal);
    if pos == |data| {
      assert data[pos..pos] == [];
    } else {
      var s := NextStep(data, pos, st, lineno);
      if s.Halt? {
        assert data[pos..pos] == [];
      } else {
        var tokens' := tokens + (if s.token.Some? then [s.token.value] else []);
        var illegal' := illegal + (if s.illegal then [pos] else []);
        LexAdvance(data, pos, st, lineno, tokens, illegal, s.next, s.state, s.lineno, s.token, s.illegal);
        LineAccounting(data, s.next, s.state, s.lineno, tokens', illegal');
        StepLines(data, pos, st, lineno);
        NewlinesSplit(data, pos, s.next, Reached(data, r));
        NewlineTokensPush(tokens, s.token);
      }
    }
  }

  /**
   * Over a whole input that lexes to the end, the line counter finishes at 1
   * plus the line feeds that are not NEWLINE tokens: those inside block
   * comments, because t_NEWLINE does not count lines.
   */
  lemma LinesOfInput(data: string)
    ensures Tokens(data).outcome == Finished ==>
      Tokens(data).lineno + NewlineTokens(Tokens(data).tokens) == 1 + Newlines(data)
  {
    LineAccounting(data, 0, Initial, 1, [], []);
    assert data[0..|data|] == data;
  }

  /**
   * The positions recorded by a run up to `upto`: token positions strictly
   * increasing and below `upto`, and illegal positions strictly increasing,
   * below `upto`, each at a character that begins no rule.
   */
  predicate WellPlaced(data: string, tokens: seq<Token>, illegal: seq<nat>, upto: nat)
  {
    upto <= |data|
    && (forall i, j :: 0 <= i < j < |tokens| ==> tokens[i].lexpos < tokens[j].lexpos)
    && (forall i :: 0 <= i < |tokens| ==> tokens[i].lexpos < upto)
    && (forall i, j :: 0 <= i < j < |illegal| ==> illegal[i] < illegal[j])
    && (forall i :: 0 <= i < |illegal| ==> illegal[i] < upto && !StartsRule(data, illegal[i]))
  }

  /** A step's token is placed where the step started; an illegal step is t_error's; a halt is an unclosed comment. */
  lemma StepShape(data: string, pos: nat, st: LexState, lineno: nat)
    requires pos < |data|
    ensures var s := NextStep(data, pos, st, lineno);
      s.Step? && s.token.Some? ==> s.token.value.lexpos == pos && s.token.value.lineno == lineno
    ensures var s := NextStep(data, pos, st, lineno);
      s.Step? && s.illegal ==> st == Initial && !StartsRule(data, pos) && s.next == pos + 1 && s.token.None?
    ensures NextStep(data, pos, st, lineno).Halt? ==> st == Comment && FindQuotes(data, pos).None?
  {
    if st == Initial {
      IllegalCharacter(data, pos, lineno);
    } else if !QuotesAt(data, pos) {
      CommentBodyRule(data, pos, lineno);
    }
  }

  /**
   * What every run keeps: it only appends to what it was given, it keeps
   * the recorded positions well placed, and it gets stuck only inside a
   * block comment with no closing quotes anywhere after the stuck position.
   */
  lemma {:induction false} RunShape(data: string, pos: nat, st: LexState, lineno: nat, tokens: seq<Token>, illegal: seq<nat>)
    requires pos <= |data| && WellPlaced(data, tokens, illegal, pos)
    ensures var r := Lex(data, pos, st, lineno, tokens, illegal);
      pos <= Reached(data, r) && WellPlaced(data, r.tokens, r.illegal, Reached(data, r))
    ensures var r := Lex(data, pos, st, lineno, tokens, illegal);
      |tokens| <= |r.tokens| && r.tokens[..|tokens|] == tokens
      && |illegal| <= |r.illegal| && r.illegal[..|illegal|] == illegal
    ensures var r := Lex(data, pos, st, lineno, tokens, illegal);
      r.outcome.Stuck? ==> r.state == Comment && r.outcome.at < |data| && FindQuotes(data, r.outcome.at).None?
    decreases |data| - pos
  {
    if pos < |data| {
      var s := NextStep(data, pos, st, lineno);
      StepShape(data, pos, st, lineno);
      if s.Step? {
        var tokens' := tokens + (if s.token.Some? then [s.token.value] else []);
        var illegal' := illegal + (if s.illegal then [pos] else []);
        LexAdvance(data, pos, st, lineno, tokens, illegal, s.next, s.state, s.lineno, s.token, s.illegal);
        assert WellPlaced(data, tokens', illegal', s.next);
        RunShape(data, s.next, s.state, s.lineno, tokens', illegal');
        var r := Lex(data, pos, st, lineno, tokens, illegal);
        assert r.tokens[..|tokens|] == r.tokens[..|tokens'|][..|tokens|];
        assert r.illegal[..|illegal|] == r.illegal[..|illegal'|][..|illegal|];
      }
    }
  }

  /** Over a whole input: tokens in input order, illegal characters in order, and a stuck run is an unclosed comment. */
  lemma TokensShape(data: string)
    ensures WellPlaced(data, Tokens(data).tokens, Tokens(data).illegal, Reached(data, Tokens(data)))
    ensures Tokens(data).outcome.Stuck? ==>
      Tokens(data).state == Comment && FindQuotes(data, Tokens(data).outcome.at).None?
  {
    RunShape(data, 0, Initial, 1, [], []);
  }

  // Worked inputs.

  /** Lower-case hexadecimal digits are not part of the rule: `0x1f` is HEXADECIMAL 1 and an illegal `f`. */
  lemma LowerCaseHexExample()
    ensures Tokens("0x1f") == LexResult([Token(Hexadecimal, Number(1), 1, 0)], [3], Initial, 1, Finished)
  {
    var data := "0x1f";
    var hex := Token(Hexadecimal, Number(1), 1, 0);
    HexadecimalRule(data, 0, 1);
    assert data[2..3] == "1" && ValueOf(16, "1") == 1 by { assert "1"[..0] == ""; }
    LexAdvance(data, 0, Initial, 1, [], [], 3, Initial, 1, Some(hex), false);
    IllegalCharacter(data, 3, 1);
    LexAdvance(data, 3, Initial, 1, [hex], [], 4, Initial, 1, None, true);
  }

  /** `0x` with no digit after it is ENTERO 0 followed by an illegal `x`. */
  lemma BareHexPrefixExample()
    ensures Tokens("0x") == LexResult([Token(Entero, Number(0), 1, 0)], [1], Initial, 1, Finished)
  {
  }

  /** A REAL literal keeps its text. */
  lemma RealExample()
    ensures Tokens("3.14") == LexResult([Token(Real, RealText("3.14"), 1, 0)], [], Initial, 1, Finished)
  {
    var data := "3.14";
    assert Span(data, 0, IsDecimalDigit) == 1;
    assert Span(data, 2, IsDecimalDigit) == 4;
    assert data[0..4] == data;
    LexAdvance(data, 0, Initial, 1, [], [], 4, Initial, 1, Some(Token(Real, RealText("3.14"), 1, 0)), false);
  }

  /** A trailing dot is not part of a REAL: `12.` is ENTERO 12 and an illegal `.`. */
  lemma TrailingDotExample()
    ensures Tokens("12.") == LexResult([Token(Entero, Number(12), 1, 0)], [2], Initial, 1, Finished)
  {
    var data := "12.";
    assert Span(data, 0, IsDecimalDigit) == 2;
    assert RealEnd(data, 0).None?;
    assert Span(data, 1, IsDecimalDigit) == 2;
    assert data[0..2] == "12";
    assert ValueOf(10, "12") == 12 by {
      assert "12"[..1] == "1";
      assert ValueOf(10, "1") == 1 by { assert "1"[..0] == ""; }
    }
    LexAdvance(data, 0, Initial, 1, [], [], 2, Initial, 1, Some(Token(Entero, Number(12), 1, 0)), false);
  }

  /** Leading zeros split a numeral: `007` is ENTERO 0, ENTERO 0, ENTERO 7. */
  lemma LeadingZerosExample(data: string)
    requires data == "007"
    ensures Tokens(data).tokens == [Token(Entero, Number(0), 1, 0), Token(Entero, Number(0), 1, 1), Token(Entero, Number(7), 1, 2)]
  {
    var zero0, zero1, seven := Token(Entero, Number(0), 1, 0), Token(Entero, Number(0), 1, 1), Token(Entero, Number(7), 1, 2);
    calc {
      Tokens(data);
    ==
      Lex(data, 0, Initial, 1, [], []);
    == { SpanToEnd(data, 0, IsDecimalDigit); LeadingZero(data, 0, 1); LexToken(data, 0, 1, [], [], 1, zero0); }
      Lex(data, 1, Initial, 1, [] + [zero0], []);
    == { SpanToEnd(data, 1, IsDecimalDigit); LeadingZero(data, 1, 1); LexToken(data, 1, 1, [] + [zero0], [], 2, zero1); }
      Lex(data, 2, Initial, 1, [] + [zero0] + [zero1], []);
    == { SevenAtEnd(data); LexToken(data, 2, 1, [] + [zero0] + [zero1], [], 3, seven); }
      Lex(data, 3, Initial, 1, [] + [zero0] + [zero1] + [seven], []);
    ==
      LexResult([] + [zero0] + [zero1] + [seven], [], Initial, 1, Finished);
    }
    assert [] + [zero0] + [zero1] + [seven] == [zero0, zero1, seven];
  }

  lemma SevenAtEnd(data: string)
    requires data == "007"
    ensures NextStep(data, 2, Initial, 1) == Step(3, Initial, 1, Some(Token(Entero, Number(7), 1, 2)), false)
  {
    SpanToEnd(data, 2, IsDecimalDigit);
    EnteroMaximalMunch(data, 2, 1);
    assert data[2..3] == "7" && ValueOf(10, "7") == 7 by { assert "7"[..0] == ""; }
  }

  /**
   * A block comment over two lines followed by a line feed: the line feed
   * inside the comment is counted, so the NEWLINE after it is at line 2.
   */
  lemma BlockCommentExample(data: string)
    requires data == "\'\'\'a\nb\'\'\'\n"
    ensures Tokens(data)
         == LexResult([Token(CommlInit, Lexeme(Quotes), 1, 0), Token(Newline, Lexeme("\n"), 2, 9)], [], Initial, 2, Finished)
  {
    var opener := Token(CommlInit, Lexeme(Quotes), 1, 0);
    var newline := Token(Newline, Lexeme("\n"), 2, 9);
    calc {
      Tokens(data);
    ==
      Lex(data, 0, Initial, 1, [], []);
    == { LexOpener(data, 0, 1, [], []); assert [] + [opener] == [opener]; }
      Lex(data, 3, Comment, 1, [opener], []);
    == { CommentInputBody(data); LexCommentBody(data, 3, 1, [opener], [], 6); }
      Lex(data, 6, Comment, 2, [opener], []);
    == { LexCloser(data, 6, 2, [opener], []); }
      Lex(data, 9, Initial, 2, [opener], []);
    == { NewlineRule(data, 9, 2);
         LexAdvance(data, 9, Initial, 2, [opener], [], 10, Initial, 2, Some(newline), false); }
      Lex(data, 10, Initial, 2, [opener] + [newline], [] + []);
    ==
      LexResult([opener, newline], [], Initial, 2, Finished);
    }
  }

  /** The body of the comment in `BlockCommentExample` runs up to position 6 and holds one line feed. */
  lemma CommentInputBody(data: string)
    requires data == "\'\'\'a\nb\'\'\'\n"
    ensures FindQuotes(data, 3) == Some(6) && Newlines(data[3..6]) == 1
  {
    assert FindQuotes(data, 6) == Some(6);
    assert FindQuotes(data, 5) == Some(6);
    assert FindQuotes(data, 4) == Some(6);
    assert data[3..6] == "a\nb";
    assert data[3..6][1..] == "\nb" && data[3..6][1..][1..] == "b";
    assert Newlines("b") == 0;
  }

  /**
   * An unclosed block comment with text after the opener stops the run: `1 '''x`
   * is ENTERO 1 and the opener, and then PLY's exception at the `x`.
   */
  lemma UnclosedCommentExample(data: string)
    requires data == "1 \'\'\'x"
    ensures Tokens(data)
         == LexResult([Token(Entero, Number(1), 1, 0), Token(CommlInit, Lexeme(Quotes), 1, 2)], [], Comment, 1, Stuck(5))
  {
    var one, opener := Token(Entero, Number(1), 1, 0), Token(CommlInit, Lexeme(Quotes), 1, 2);
    calc {
      Tokens(data);
    ==
      Lex(data, 0, Initial, 1, [], []);
    == { OneBeforeSpace(data); LexToken(data, 0, 1, [], [], 1, one); }
      Lex(data, 1, Initial, 1, [] + [one], []);
    == { LexQuiet(data, 1, Initial, 1, [] + [one], [], 2); }
      Lex(data, 2, Initial, 1, [] + [one], []);
    == { UnclosedBlockComment(data, 2, 1, [] + [one], []); }
      LexResult([] + [one] + [opener], [], Comment, 1, Stuck(5));
    }
    assert [] + [one] + [opener] == [one, opener];
  }

  lemma OneBeforeSpace(data: string)
    requires data == "1 \'\'\'x"
    ensures NextStep(data, 0, Initial, 1) == Step(1, Initial, 1, Some(Token(Entero, Number(1), 1, 0)), false)
  {
    assert Span(data, 0, IsDecimalDigit) == 1;
    EnteroMaximalMunch(data, 0, 1);
    assert data[0..1] == "1" && ValueOf(10, "1") == 1 by { assert "1"[..0] == ""; }
  }
}
