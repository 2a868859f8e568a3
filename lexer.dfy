/**
 * The rules of the lexer (lexer.py) as the PLY engine applies them.
 *
 * In the INITIAL state PLY first skips a character of `t_ignore` (space or
 * tab), then tries the function rules in the order they are defined
 * (t_HEXADECIMAL, t_BINARIO, t_REAL, t_ENTERO, t_COM, t_COMMLinit,
 * t_NEWLINE), then the string rules; the first rule that matches wins, and
 * each rule's regular expression matches as much as it can. When nothing
 * matches, t_error reports the character and skips exactly one character.
 *
 * The exclusive state `comment` has only t_comment_COMMLfin and
 * t_comment_COMMLcont, no ignored characters and no error rule: when neither
 * matches (an opened block comment that is never closed) PLY raises an
 * exception, which the model returns as the outcome `Stuck`.
 *
 * Numeric literal values are the mathematical integers that the rules wrap
 * in `float`; a REAL literal keeps its text.
 */
module Lexer {
  import opened Wrappers
  import opened Numerals

  /** PLY's lexer states: 'INITIAL' and the exclusive state 'comment'. */
  datatype LexState = Initial | Comment

  /** The token kinds the rules can produce (COM, COMMLcont and COMMLfin never produce one). */
  datatype Kind =
    | Hexadecimal | Binario | Real | Entero
    | Sum | Res | Mul | Div | Neg | Exp | Log | Sen | Cos
    | CommlInit | Newline

  datatype TokenValue = Number(n: nat) | RealText(text: string) | Lexeme(text: string)

  datatype Token = Token(kind: Kind, value: TokenValue, lineno: nat, lexpos: nat)

  /** What a rule does with the text it matched. */
  datatype Rule =
    | Ignore                                 // t_ignore
    | Emit(kind: Kind, value: TokenValue)    // a rule that returns its token
    | LineComment                            // t_COM
    | CommentEnd                             // t_comment_COMMLfin
    | CommentBody                            // t_comment_COMMLcont

  datatype Match = NoMatch | Match(rule: Rule, end: nat)

  const Quotes: string := "'''"

  /** The characters `a`, `b` follow one another in `data` from position `pos`. */
  predicate At2(data: string, pos: nat, a: char, b: char)
  {
    pos + 2 <= |data| && data[pos] == a && data[pos + 1] == b
  }

  /** The characters `a`, `b`, `c` follow one another in `data` from position `pos`. */
  predicate At3(data: string, pos: nat, a: char, b: char, c: char)
  {
    pos + 3 <= |data| && data[pos] == a && data[pos + 1] == b && data[pos + 2] == c
  }

  /** Three single quotes start at `pos`. */
  predicate QuotesAt(data: string, pos: nat)
  {
    At3(data, pos, '\'', '\'', '\'')
  }

  predicate NotNewline(c: char) { c != '\n' }

  /** The end of the longest run of characters satisfying `p` that starts at `i`. */
  function Span(data: string, i: nat, p: char -> bool): (j: nat)
    requires i <= |data|
    ensures i <= j <= |data|
    decreases |data| - i
  {
    if i < |data| && p(data[i]) then Span(data, i + 1, p) else i
  }

  /** Every character of the span satisfies `p`, and the one after it does not. */
  lemma {:induction false} SpanFacts(data: string, i: nat, p: char -> bool)
    requires i <= |data|
    ensures forall k :: i <= k < Span(data, i, p) ==> p(data[k])
    ensures Span(data, i, p) == |data| || !p(data[Span(data, i, p)])
    decreases |data| - i
  {
    if i < |data| && p(data[i]) {
      SpanFacts(data, i + 1, p);
    }
  }

  /** The first position at or after `i` where `'''` starts. */
  function FindQuotes(data: string, i: nat): (r: Option<nat>)
    requires i <= |data|
    ensures r.Some? ==> i <= r.value && QuotesAt(data, r.value)
    decreases |data| - i
  {
    if |data| < i + 3 then None
    else if QuotesAt(data, i) then Some(i)
    else FindQuotes(data, i + 1)
  }

  /** `FindQuotes` finds the first closing quotes, and reports none only when there are none. */
  lemma {:induction false} FindQuotesFacts(data: string, i: nat)
    requires i <= |data|
    ensures FindQuotes(data, i).Some? ==> forall k :: i <= k < FindQuotes(data, i).value ==> !QuotesAt(data, k)
    ensures FindQuotes(data, i).None? ==> forall k :: i <= k <= |data| ==> !QuotesAt(data, k)
    decreases |data| - i
  {
    if |data| >= i + 3 && !QuotesAt(data, i) {
      FindQuotesFacts(data, i + 1);
    }
  }

  /** The end of a `\d+\.\d+` match at `pos`, if there is one. */
  function RealEnd(data: string, pos: nat): Option<nat>
    requires pos <= |data|
  {
    var k := Span(data, pos, IsDecimalDigit);
    if pos < k && k + 1 < |data| && data[k] == '.' && IsDecimalDigit(data[k + 1])
    then Some(Span(data, k + 1, IsDecimalDigit))
    else None
  }

  /** Which rule of the INITIAL state matches at `pos`, and where its match ends. */
  function ScanInitial(data: string, pos: nat): (m: Match)
    requires pos < |data|
  {
    var c := data[pos];
    if c == ' ' || c == '\t' then Match(Ignore, pos + 1)
    else if At2(data, pos, '0', 'x') && pos + 2 < |data| && IsHexDigit(data[pos + 2]) then
      var e := Span(data, pos + 2, IsHexDigit);
      Match(Emit(Hexadecimal, Number(ValueOf(16, data[pos + 2..e]))), e)
    else if At2(data, pos, '0', 'b') && pos + 2 < |data| && IsBinaryDigit(data[pos + 2]) then
      var e := Span(data, pos + 2, IsBinaryDigit);
      Match(Emit(Binario, Number(ValueOf(2, data[pos + 2..e]))), e)
    else if RealEnd(data, pos).Some? then
      var e := RealEnd(data, pos).value;
      Match(Emit(Real, RealText(data[pos..e])), e)
    else if c == '0' then Match(Emit(Entero, Number(0)), pos + 1)
    else if '1' <= c <= '9' then
      var e := Span(data, pos + 1, IsDecimalDigit);
      Match(Emit(Entero, Number(ValueOf(10, data[pos..e]))), e)
    else if c == '#' then Match(LineComment, Span(data, pos + 1, NotNewline))
    else if QuotesAt(data, pos) then Match(Emit(CommlInit, Lexeme(Quotes)), pos + 3)
    else if c == '\n' then Match(Emit(Newline, Lexeme("\n")), pos + 1)
    else if At3(data, pos, 'n', 'e', 'g') then Match(Emit(Neg, Lexeme("neg")), pos + 3)
    else if At3(data, pos, 'e', 'x', 'p') then Match(Emit(Exp, Lexeme("exp")), pos + 3)
    else if At3(data, pos, 'l', 'o', 'g') then Match(Emit(Log, Lexeme("log")), pos + 3)
    else if At3(data, pos, 's', 'i', 'n') then Match(Emit(Sen, Lexeme("sin")), pos + 3)
    else if At3(data, pos, 'c', 'o', 's') then Match(Emit(Cos, Lexeme("cos")), pos + 3)
    else if c == '+' then Match(Emit(Sum, Lexeme("+")), pos + 1)
    else if c == '-' then Match(Emit(Res, Lexeme("-")), pos + 1)
    else if c == '*' then Match(Emit(Mul, Lexeme("*")), pos + 1)
    else if c == '/' then Match(Emit(Div, Lexeme("/")), pos + 1)
    else NoMatch
  }

  /** Which rule of the `comment` state matches at `pos`: the closing quotes, or the text up to them. */
  function ScanComment(data: string, pos: nat): (m: Match)
    requires pos < |data|
  {
    if QuotesAt(data, pos) then Match(CommentEnd, pos + 3)
    else match FindQuotes(data, pos + 1)
      case Some(j) => Match(CommentBody, j)
      case None => NoMatch
  }

  function Scan(data: string, pos: nat, st: LexState): (m: Match)
    requires pos < |data|
    ensures m.Match? ==> pos < m.end <= |data|
  {
    if st == Initial then ScanInitial(data, pos) else ScanComment(data, pos)
  }

  /** The number of line feeds in `s`. */
  function Newlines(s: string): nat
  {
    if s == [] then 0 else (if s[0] == '\n' then 1 else 0) + Newlines(s[1..])
  }

  /** One step of the lexer: the next position, state and line number, the token returned if any, and whether the character was illegal. */
  datatype Step =
    | Step(next: nat, state: LexState, lineno: nat, token: Option<Token>, illegal: bool)
    | Halt

  /** What the rule `m`, matched at `pos`, does to the lexer. */
  function Perform(data: string, pos: nat, st: LexState, lineno: nat, m: Match): (s: Step)
    requires pos < |data|
    requires m.Match? ==> pos < m.end <= |data|
    ensures s.Halt? <==> m.NoMatch? && st.Comment?
    ensures s.Step? ==> (s.illegal <==> m.NoMatch?) && (s.token.Some? ==> s.token.value.lexpos == pos)
  {
    match m
    case NoMatch =>
      if st == Initial then Step(pos + 1, st, lineno, None, true) else Halt
    case Match(rule, e) =>
      match rule
      case Ignore => Step(e, st, lineno, None, false)
      case Emit(k, v) =>
        Step(e, if k == CommlInit then Comment else st, lineno, Some(Token(k, v, lineno, pos)), false)
      case LineComment => Step(e, st, lineno, None, false)
      case CommentEnd => Step(e, Initial, lineno, None, false)
      case CommentBody => Step(e, st, lineno + Newlines(data[pos..e]), None, false)
  }

  function NextStep(data: string, pos: nat, st: LexState, lineno: nat): (s: Step)
    requires pos < |data|
    ensures s.Step? ==> pos < s.next <= |data|
  {
    Perform(data, pos, st, lineno, Scan(data, pos, st))
  }

  /** `Finished` when the input is used up; `Stuck(at)` when PLY raises its "Illegal character" exception at `at`. */
  datatype Outcome = Finished | Stuck(at: nat)

  datatype LexResult = LexResult(tokens: seq<Token>, illegal: seq<nat>, state: LexState, lineno: nat, outcome: Outcome)

  /** The whole run from `pos` on, with the tokens and illegal positions seen so far. */
  function Lex(data: string, pos: nat, st: LexState, lineno: nat, tokens: seq<Token>, illegal: seq<nat>): LexResult
    requires pos <= |data|
    decreases |data| - pos, 1
  {
    if pos == |data| then LexResult(tokens, illegal, st, lineno, Finished)
    else LexRound(data, pos, st, lineno, tokens, illegal)
  }

  /** A run from a position inside the input: one round of the lexer, then the run from where it ends. */
  function LexRound(data: string, pos: nat, st: LexState, lineno: nat, tokens: seq<Token>, illegal: seq<nat>): LexResult
    requires pos < |data|
    decreases |data| - pos, 0
  {
    match NextStep(data, pos, st, lineno)
    case Halt => LexResult(tokens, illegal, st, lineno, Stuck(pos))
    case Step(next, st', lineno', tok, bad) =>
      Lex(data, next, st', lineno',
          tokens + (if tok.Some? then [tok.value] else []),
          illegal + (if bad then [pos] else []))
  }

  /** One round of the lexer takes the run from `pos` to `next`. */
  lemma LexAdvance(data: string, pos: nat, st: LexState, lineno: nat, tokens: seq<Token>, illegal: seq<nat>,
                   next: nat, st': LexState, lineno': nat, tok: Option<Token>, bad: bool)
    requires pos < |data| && NextStep(data, pos, st, lineno) == Step(next, st', lineno', tok, bad)
    ensures next <= |data|
    ensures Lex(data, pos, st, lineno, tokens, illegal)
            == Lex(data, next, st', lineno', tokens + (if tok.Some? then [tok.value] else []),
                   illegal + (if bad then [pos] else []))
  {
  }

  /** Lexing a whole input from PLY's start: state INITIAL, line 1. */
  function Tokens(data: string): LexResult
  {
    Lex(data, 0, Initial, 1, [], [])
  }

  /**
   * PLY's lexer object: the input, the current position, the current state,
   * the line counter, and what the run has produced so far.
   */
  class LexerObject {
    const data: string
    var pos: nat
    var state: LexState
    var lineno: nat
    var tokens: seq<Token>
    var illegal: seq<nat>

    constructor (data: string)
      ensures this.data == data && pos == 0 && state == Initial && lineno == 1
      ensures tokens == [] && illegal == []
    {
      this.data := data;
      pos, state, lineno := 0, Initial, 1;
      tokens, illegal := [], [];
    }

    /** `lexer.begin(s)`. */
    method Begin(s: LexState)
      modifies this
      ensures state == s
      ensures pos == old(pos) && lineno == old(lineno) && tokens == old(tokens) && illegal == old(illegal)
    {
      state := s;
    }

    /** `lexer.skip(n)`. */
    method Skip(n: nat)
      modifies this
      ensures pos == old(pos) + n
      ensures state == old(state) && lineno == old(lineno) && tokens == old(tokens) && illegal == old(illegal)
    {
      pos := pos + n;
    }

    /**
     * One round of the lexer: match a rule at the current position and run
     * its action. `halted` reports the exception PLY raises when nothing
     * matches in the `comment` state, where there is no t_error.
     */
    method Round() returns (halted: bool)
      requires pos < |data|
      modifies this
      ensures var s := NextStep(data, old(pos), old(state), old(lineno));
        if s.Halt? then
          halted && pos == old(pos) && state == old(state) && lineno == old(lineno)
          && tokens == old(tokens) && illegal == old(illegal)
        else
          !halted && pos == s.next && state == s.state && lineno == s.lineno
          && tokens == old(tokens) + (if s.token.Some? then [s.token.value] else [])
          && illegal == old(illegal) + (if s.illegal then [old(pos)] else [])
    {
      var m := Scan(data, pos, state);
      match m {
        case NoMatch =>
          if state == Comment {
            return true;
          }
          // t_error: report the character, then skip(1)
          illegal := illegal + [pos];
          Skip(1);
        case Match(rule, e) =>
          match rule {
            case Ignore =>
            case Emit(k, v) =>
              tokens := tokens + [Token(k, v, lineno, pos)];
              if k == CommlInit {
                Begin(Comment);  // t_COMMLinit
              }
            case LineComment =>
            case CommentEnd =>
              Begin(Initial);  // t_comment_COMMLfin
            case CommentBody =>
              lineno := lineno + Newlines(data[pos..e]);  // t_comment_COMMLcont
          }
          pos := e;
      }
      halted := false;
    }
  }

  /** The lexer's loop: run rounds until the input is used up or the lexer halts. */
  method Tokenize(data: string) returns (r: LexResult)
    ensures r == Tokens(data)
  {
    var lexer := new LexerObject(data);
    while lexer.pos < |data|
      invariant lexer.data == data && lexer.pos <= |data|
      invariant Lex(data, lexer.pos, lexer.state, lexer.lineno, lexer.tokens, lexer.illegal) == Tokens(data)
      decreases |data| - lexer.pos
    {
      ghost var pos, state, lineno, tokens, illegal := lexer.pos, lexer.state, lexer.lineno, lexer.tokens, lexer.illegal;
      var halted := lexer.Round();
      if halted {
        return LexResult(lexer.tokens, lexer.illegal, lexer.state, lexer.lineno, Stuck(lexer.pos));
      }
      var s := NextStep(data, pos, state, lineno);
      LexAdvance(data, pos, state, lineno, tokens, illegal, s.next, s.state, s.lineno, s.token, s.illegal);
    }
    r := LexResult(lexer.tokens, lexer.illegal, lexer.state, lexer.lineno, Finished);
  }
}
