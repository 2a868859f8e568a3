# A verified model of a small calculator language's lexer and environment

The repository is an interpreter for a small expression language, built on
PLY (Python Lex-Yacc). This project models two of its pieces, each on its own,
because as shipped they are not wired together: the parser reads its token list
from a lexer class that `lexer.py` does not define.

- **The lexer rules (`lexer.py`)**, as PLY applies them:
  - the INITIAL state and the exclusive `comment` state;
  - skipping spaces and tabs (`t_ignore`);
  - the function rules in the order they are defined, then the string rules;
  - `t_error`, which skips exactly one character;
  - the block-comment machine, which counts the line feeds inside a comment
    into `lineno`.

  The model has two parts. `Lexer.Scan`, `Lexer.NextStep` and `Lexer.Lex` give
  the behaviour as functions. `Lexer.LexerObject` and `Lexer.Tokenize` are the
  same thing as a lexer object with mutable position, state and line counter,
  driven by a loop. Hexadecimal and binary literals are read with
  `int(text, 16)` and `int(text, 2)`, and decimal integer literals with
  `float(text)` (lexer.py:50). All three are modelled by `Numerals.ValueOf` in
  the literal's base, as exact integers; the float wrapping is listed under
  "Left out".
- **The parser's environment actions (`parser.py`)**:
  - the dictionary `entorno`, with its three shapes: raw value, `{type, value}`
    and `{type: vector, size, values}`;
  - declarations, with the carried `ultimo_valor` and the Python `isinstance`
    tests;
  - vector declaration, element read, element assignment and `.len`;
  - plain assignment, with its type inferred from the stored value;
  - identifier reads;
  - the per-line result log and line counter.

  `Parser.ParserState` is the parser object, and its methods change its fields.
  The pure functions `Parser.DeclRun`, `Parser.ElementAssignment` and
  `Parser.VarAssignment` state what the actions do. The lemmas in
  `ParserProperties` state what follows from that.

`t_COMMLinit` (lexer.py:69-72) calls `begin('comment')` and returns the
opening `'''` of a block comment as a `COMMLinit` token; the model does the
same.

Files:
- `wrappers.dfy`: Option.
- `numerals.dfy`: digit strings and their values.
- `values.dfy`: Python values, `isinstance`, and `str`.
- `lexer.dfy` and `lexer_props.dfy`: the lexer and its properties.
- `parser.dfy` and `parser_props.dfy`: the parser's environment and its properties.

## Model

| member | source | states |
|---|---|---|
| Numerals.Numeral | lexer.py:30-51 | the numeral of `n` in a base from 2 to 16 is a non-empty digit string; it starts with 0 exactly when `n` is 0 |
| Numerals.ValueOf | lexer.py:32-50 | the value of a digit string read most significant digit first, as `int(text, 16)`, `int(text, 2)` and, for a decimal literal, `float(text)` compute it; characterised by `ValueOfNumeral` and `NumeralOfValue` |
| Numerals.ValueOfNumeral | lexer.py:30-51 | reading the numeral of `n` back (`int(text, 16)`, `int(text, 2)`, or `float(text)` for a decimal literal) gives `n` |
| Numerals.NumeralOfValue | lexer.py:48-51 | a digit string without a leading zero is the numeral of its own value, so reading is injective on such strings |
| Numerals.LeadingDigitPositive | lexer.py:49-50 | a digit string whose first digit is not 0 has a positive value |
| Values.Show | parser.py:45 | Python's `str` of a value, with the `repr` a list shows for its elements; on integers it is characterised by `IntTextDigits` |
| Values.Text | parser.py:45 | `str(value)`, as the result log and the messages use it; on integers it is characterised by `IntTextDigits` |
| Values.IntTextDigits | parser.py:100 | `str` of an integer is an optional minus sign and the canonical decimal numeral of its magnitude, whose value is that magnitude |
| Values.LowerChar | parser.py:278 | an upper-case ASCII letter maps to the letter 32 code points above it, and every other character to itself; the result is never upper-case |
| Values.Lower | parser.py:278 | `lower()` keeps the length and lower-cases each ASCII letter |
| Values.LowerIdempotent | parser.py:278 | lower-casing twice is lower-casing once |
| Values.ParseTipo | parser.py:273-278 | a recognised type keyword lower-cases to that type's name |
| Values.ParseTipoNames | parser.py:273-278 | a keyword gives a type exactly when it lower-cases to that type's name, and gives none exactly when it lower-cases to no type name |
| Values.BooleanLiteral | parser.py:340-343 | the boolean keyword gives True exactly for a four-letter word whose letters lower-case to `true`, and False otherwise |
| Values.BooleanKeywords | parser.py:340-343 | `true`, `TRUE` and `True` give True; `false`, `FALSE` and `False` give False |
| Values.BooleanCaseInsensitive | parser.py:340-343 | the boolean keyword's value ignores letter case |
| Lexer.SpanFacts | lexer.py:31 | a regular-expression run of a character class takes every character of the class, and stops at the end or at a character outside it |
| Lexer.FindQuotesFacts | lexer.py:79 | the lookahead `(?=''')` finds the first `'''` at or after a position, and finds nothing only when there is none |
| Lexer.ScanInitial | lexer.py:29-93 | which INITIAL rule matches, in PLY's order (ignored characters, the function rules as defined, then the string rules), and where its match ends; characterised rule by rule by `IgnoreRule`, `HexadecimalRule`, `BinaryRule`, `EnteroMaximalMunch`, `LeadingZero`, `LineCommentRule`, `OpenerRule`, `NewlineRule` and `IllegalCharacter` |
| Lexer.ScanComment | lexer.py:74-80 | the `comment` state tries COMMLfin, then COMMLcont up to the next `'''`; characterised by `CloserRule`, `CommentBodyRule` and `OpenerAtEnd` |
| Lexer.Perform | lexer.py:65-93 | a matched rule's action: the lexer halts exactly when nothing matches in the `comment` state, a round is illegal exactly when nothing matches, and its token is placed where the round started |
| Lexer.NextStep | lexer.py:84-86 | every round that does not raise consumes at least one character and stays inside the input |
| Lexer.Lex | lexer.py:29-93 | PLY's token loop from a position, round after round until the input is used up or the lexer raises; characterised by `LineAccounting`, `RunShape` and the rule lemmas |
| Lexer.Tokens | lexer.py:2-4 | the run over a whole input, from INITIAL at line 1; characterised by `TokensShape`, `LinesOfInput` and the round trips |
| Lexer.LexerObject.constructor | parser.py:413 | a lexer object fed with `input(data)`: position 0, state INITIAL, `lineno` 1, no tokens and no illegal positions recorded |
| Lexer.LexerObject.Begin | lexer.py:71 | `lexer.begin(s)` changes only the state |
| Lexer.LexerObject.Skip | lexer.py:86 | `lexer.skip(n)` moves the position by `n` and changes nothing else |
| Lexer.LexerObject.Round | lexer.py:65-93 | one round of the lexer object does what `NextStep` says: a halt in the `comment` state leaves everything unchanged; otherwise position, state, line and record are updated as the step says |
| Lexer.Tokenize | lexer.py:29-93 | the lexer loop over the object returns the result of `Tokens` |
| LexerProperties.IllegalCharacter | lexer.py:84-86 | in INITIAL, t_error fires exactly at a character that starts no rule; it skips exactly that character, with no token and no change of line |
| LexerProperties.IgnoreRule | lexer.py:89 | a space or a tab is skipped with no token, no change of state and no change of line |
| LexerProperties.HexadecimalRule | lexer.py:30-33 | `0x` and an upper-case hex digit give a HEXADECIMAL token; it takes the longest run of such digits, and its value is their base-16 value |
| LexerProperties.BinaryRule | lexer.py:36-39 | `0b` and a binary digit give a BINARIO token; it takes the longest run of binary digits, and its value is their base-2 value |
| LexerProperties.DecimalRoundTrip | lexer.py:48-51 | the decimal numeral of any `n` lexes to exactly one ENTERO token, whose value is `n` as an exact integer (the float conversion is under "Left out") |
| LexerProperties.HexadecimalRoundTrip | lexer.py:30-33 | `0x` and the upper-case hex numeral of any `n` lex to exactly one HEXADECIMAL token, whose value is `n` as an exact integer (the float conversion and its overflow are under "Left out") |
| LexerProperties.BinaryRoundTrip | lexer.py:36-39 | `0b` and the binary numeral of any `n` lex to exactly one BINARIO token, whose value is `n` as an exact integer (the float conversion and its overflow are under "Left out") |
| LexerProperties.EnteroMaximalMunch | lexer.py:47-51 | an integer literal starting with 1-9 that is not the integer part of a REAL takes the whole digit run, and its value is that run in base 10 |
| LexerProperties.LeadingZero | lexer.py:49 | a `0` followed by a digit, and not starting a REAL, is an ENTERO 0 on its own |
| LexerProperties.LineCommentRule | lexer.py:65-66 | `#` discards everything up to, but not including, the next line feed, and returns no token |
| LexerProperties.NewlineRule | lexer.py:91-93 | a line feed in INITIAL is a NEWLINE token and leaves `lineno` unchanged |
| LexerProperties.OpenerRule | lexer.py:69-72 | `'''` in INITIAL returns a COMMLinit token and switches to `comment` |
| LexerProperties.CloserRule | lexer.py:74-76 | `'''` in `comment` returns to INITIAL with no token |
| LexerProperties.CommentBodyRule | lexer.py:78-80 | inside a comment, the text before the next `'''` is consumed with no token, and `lineno` grows by its line feeds; with no `'''` ahead the lexer raises |
| LexerProperties.OpenerAtEnd | lexer.py:69-72 | an opener that ends the input is returned as COMMLinit, and the run finishes in `comment` without raising |
| LexerProperties.ClosedBlockComment | lexer.py:69-80 | a closed block comment: one COMMLinit token, then back in INITIAL after the first closing `'''`, with the line feeds inside counted |
| LexerProperties.UnclosedBlockComment | lexer.py:74-86 | an unclosed block comment with text after the opener returns the opener, then stops the run right after it, still in `comment` |
| LexerProperties.InitialLines | lexer.py:89-93 | the only INITIAL rule whose match holds a line feed is NEWLINE, with exactly one; a line feed is never illegal in INITIAL |
| LexerProperties.StepLines | lexer.py:78-93 | in each round, the line feeds consumed equal the growth of `lineno` plus the NEWLINE token returned, if any |
| LexerProperties.LineAccounting | lexer.py:78-93 | over any run, the line feeds read up to where it stopped equal the NEWLINE tokens added plus the growth of `lineno` |
| LexerProperties.LinesOfInput | lexer.py:80 | for a whole input lexed to the end, `lineno` ends at 1 plus the line feeds that are not NEWLINE tokens, that is, those inside block comments |
| LexerProperties.StepShape | lexer.py:74-86 | a round's token is placed where the round started; an illegal round is t_error's; a halt happens only in `comment` with no `'''` ahead |
| LexerProperties.RunShape | lexer.py:74-86 | every run only appends to what it was given; its token and illegal positions stay strictly increasing; it gets stuck only inside a comment with no `'''` after the stuck position |
| LexerProperties.TokensShape | lexer.py:84-86 | over a whole input, tokens come in input order, each illegal position is at a character that starts no rule, and a stuck run is an unclosed comment |
| LexerProperties.LowerCaseHexExample | lexer.py:31 | `0x1f` is HEXADECIMAL 1 and an illegal `f` |
| LexerProperties.BareHexPrefixExample | lexer.py:30-51 | `0x` is ENTERO 0 and an illegal `x` |
| LexerProperties.RealExample | lexer.py:42-45 | `3.14` is one REAL token holding its text |
| LexerProperties.TrailingDotExample | lexer.py:42-51 | `12.` is ENTERO 12 and an illegal `.` |
| LexerProperties.LeadingZerosExample | lexer.py:49 | `007` is ENTERO 0, ENTERO 0, ENTERO 7 |
| LexerProperties.BlockCommentExample | lexer.py:69-93 | after a two-line block comment, the NEWLINE that follows is on line 2 |
| LexerProperties.UnclosedCommentExample | lexer.py:69-80 | `1 '''x` is ENTERO 1 and COMMLinit, and then the run is stuck at the `x` |
| Parser.Default | parser.py:70-87 | the value a scalar declared without one gets: 0, 0.0, False or `''` by type; `DeclLeftmostWins` shows it is stored as `{type, value}` |
| Parser.Passes | parser.py:89-99 | the declaration's type test; `DeclUntouched` and `DeclLeftmostWins` show that a failing value leaves the entry alone and a passing one is stored raw |
| Parser.Read | parser.py:366-370 | the value an identifier read sees in an entry: the `value` of a `{type, value}` dictionary, otherwise the entry itself; characterised by `ReadBind` and `ReadIdent` |
| Parser.ElementAssignment | parser.py:159-173 | the element assignment as a function of the environment; characterised by `ElementAssignmentEffect` and `ElementReadAfterWrite` |
| Parser.VarAssignment | parser.py:176-207 | the plain assignment as a function of the environment; characterised by `VarAssignmentEffect`, `VarReadAfterWrite`, `BoolBeforeInt` and `UntypedTargetsAcceptAnything` |
| Parser.Bind | parser.py:206 | storing a value gives a well-shaped entry; a vector dictionary stays a vector |
| Parser.ReadBind | parser.py:367-370 | reading an identifier back after storing a value gives that value |
| Parser.Zeros | parser.py:128 | `[0]*size` has `size` elements, all 0 |
| Parser.ReadIdent | parser.py:363-373 | a declared name reads as its stored value (the `value` of a `{type, value}` entry); an undeclared one gives None and an error |
| Parser.ReadElement | parser.py:142-157 | the read succeeds exactly for a declared vector and `0 <= index < size`, and then gives `values[index]`; otherwise it gives None and an error |
| Parser.LenOf | parser.py:132-140 | `.len` is the size of a vector, and otherwise the not-declared or not-a-vector error |
| Parser.DeclarationList | parser.py:105-111 | the list is the first declaration followed by the rest; `DeclarationListRun` connects it to the declaration run |
| ParserProperties.DeclarationListRun | parser.py:54-111 | running a list built by `p_lista_declaraciones` gives its first item's message first, settled on its own initializer or the one carried from the rest, and applies that item to what the rest leaves |
| Parser.DeclRun | parser.py:48-102 | a declaration yields one message per item |
| Parser.VarKind | parser.py:186-194 | the stored value's type is bool exactly for a stored bool, int exactly for a stored non-bool int, and none for a dictionary entry or None |
| Parser.LineEntries | parser.py:44-45 | a line adds exactly one entry `(line, str(value))` when the value is neither None nor the string `"\n"`, and none otherwise |
| Parser.ParserState.constructor | parser.py:9-12 | the environment and the log start empty, and the line counter starts at 1 |
| Parser.ParserState.ReduceLine | parser.py:41-46 | `p_linea` appends the line's entries, increments the counter by one, and keeps the log ordered |
| Parser.ParserState.DeclareVector | parser.py:122-130 | declaring `v[n]` binds `v` to a vector of `n` zeros, whatever was there before |
| Parser.ParserState.Declare | parser.py:48-102 | the reversed-walk loop leaves the environment that `DeclRun` describes, and replies with its messages joined in source order |
| Parser.ParserState.DeclareItem | parser.py:57-100 | one pass of the loop carries the last initializer seen, settles the item's value, and binds or rejects it as `ItemEnv` describes |
| Parser.ParserState.AssignElement | parser.py:159-173 | the element assignment method does what `ElementAssignment` describes, keeping the environment well shaped |
| Parser.ParserState.AssignVariable | parser.py:176-207 | the plain assignment method does what `VarAssignment` describes, keeping the environment well shaped |
| ParserProperties.CarriedIsNearest | parser.py:54-68 | the carried value is None exactly when no item to the right has an initializer, and is otherwise the initializer of the nearest such item; vector items carry nothing |
| ParserProperties.DeclMessageAt | parser.py:56-102 | message `k` is the message of item `k` with the value it settles on |
| ParserProperties.DeclMessagesInOrder | parser.py:102 | the messages come in the source order of the items |
| ParserProperties.DeclUntouched | parser.py:89-97 | a name that no item writes keeps its entry, or stays absent; so a failing type test leaves `entorno[name]` untouched |
| ParserProperties.DeclLeftmostWins | parser.py:65-100 | a name that some item writes ends with what its leftmost writing item writes: `{type, default}` when it has no value, otherwise the raw value |
| ParserProperties.DeclKeepsValid | parser.py:84-99 | a declaration keeps every entry well shaped |
| ParserProperties.CarriedExample | parser.py:65-68 | `int a, b = 5` binds both names to 5 |
| ParserProperties.VectorSkippedExample | parser.py:58-61 | in `int a, v[2], b`, the vector carries nothing, so `a` and `b` get the default 0 |
| ParserProperties.DeclaredVector | parser.py:122-157 | after `v[n]`: `.len` is `n`; every index below `n` reads 0; `n` and -1 are out of range; no other name changes |
| ParserProperties.ReadElementErrors | parser.py:147-155 | the element read reports not-declared, then not-a-vector, then out-of-range, in that order |
| ParserProperties.ElementAssignmentEffect | parser.py:159-173 | an element assignment with a declared vector and an index in range changes only `values[index]` and keeps the size; any other one returns its error and leaves the environment as it was |
| ParserProperties.ElementReadAfterWrite | parser.py:142-173 | after an element assignment, the written index reads the new value, and other indices and `.len` read as before |
| ParserProperties.VarAssignmentEffect | parser.py:176-207 | an undeclared target changes nothing; a declared one is overwritten exactly when its stored value accepts the new value, and otherwise gets the type error; no other name changes |
| ParserProperties.VarReadAfterWrite | parser.py:206 | after an accepted assignment, the name reads as the assigned value |
| ParserProperties.UntypedTargetsAcceptAnything | parser.py:186-205 | float, non-character string, `{type, value}`, vector and None targets accept any value |
| ParserProperties.BoolBeforeInt | parser.py:187-190 | a stored bool refuses an int, and a stored int takes a bool |
| ParserProperties.IntDeclaredWithTrue | parser.py:92 | `int x = true` passes the int test and stores True, so a later `x = 1` is refused as a bool mismatch |
| ParserProperties.LineKeepsLogOrdered | parser.py:41-46 | one line reduction keeps the log in strictly increasing line order, below the counter |
| ParserProperties.LogOfEntries | parser.py:44-45 | over a run of lines, each entry names one of those lines, a loggable one, and holds the text of its value |
| ParserProperties.LogOfOrdered | parser.py:41-46 | over a run of lines, the entries are in strictly increasing line order, below the line after the run |

## Left out

- The PLY engine: the LALR tables, the precedence table and the driving of the parse (parser.py:15-33). The parser actions are modelled as operations on the values their grammar symbols carry.
- The parser's syntax-error hook (parser.py:401-405): it only prints.
- `run`: file reading, the token dump and printing the results (parser.py:407-438).
- The constructor's file check and `sys.exit` (parser.py:27-30).
- `main.py` is not part of this model. It is command-line glue.
- There is no end-to-end tokenize-then-parse model, because the two files are not connected.
- Float arithmetic, comparison and logic (parser.py:280-338), and `sin`/`cos`/`log`/`exp` (parser.py:386-399), have no exact counterpart without floating point. A float value is kept abstract as the text `str` gives it.
- `if`, `else` and `while` (parser.py:214-240) re-enter the parser on already-evaluated strings, and the `while` never terminates once its condition holds.
- Records, function signatures and scope save and restore: parser.py has none of them, so there is nothing to model.
- Printing: `t_error`'s message (lexer.py:85), the messages the element read and the identifier read print, and the messages plain assignment prints (parser.py:182, 197, 200, 203). The model returns them as values: the recorded illegal positions, the `diagnostic` of a `Lookup`, and the assignment's reply, whose text is the printed one.
- Lexer.Tokenize: PLY's `LexError` exception is returned as the outcome `Stuck` at the position where it is raised. Its message is not modelled.
- LexerProperties.HexadecimalRule: the value is the exact integer, not `float(int(text, 16))` (lexer.py:32). Above 2^53 a float would round it. Once the value rounds to 2^1024 or more, `float()` raises OverflowError inside the rule; the exception leaves PLY's `token()` and ends the lexing, which the model does not capture.
- LexerProperties.HexadecimalRoundTrip: states one HEXADECIMAL token of the exact value `n` for every `n`; the source gives `float(n)`, rounded above 2^53, and raises OverflowError from about 2^1024, as for HexadecimalRule.
- LexerProperties.BinaryRule: the value is the exact integer, not `float(int(text, 2))` (lexer.py:38), with the same rounding above 2^53 and the same OverflowError from about 2^1024.
- LexerProperties.BinaryRoundTrip: states one BINARIO token of the exact value `n` for every `n`; the source gives `float(n)`, and raises OverflowError from about 2^1024.
- LexerProperties.EnteroMaximalMunch: the value is the exact integer, not `float(text)` (lexer.py:50). Above 2^53 a float would round it, and from about 2^1024 on `float(text)` gives `inf` without raising.
- LexerProperties.DecimalRoundTrip: states one ENTERO token of the exact value `n` for every `n`; the source gives `float(text)`, rounded above 2^53 and `inf` from about 2^1024.
- LexerProperties.RealExample: a REAL literal keeps its text, because `float(text)` is floating point.
- `\d` in `t_REAL` is modelled as the ASCII digits. Python's `re` also matches other Unicode decimal digits there.
- Numerals.ValueOf: a character that is no digit counts as 0. The rules only ever pass it digit strings. Python's `int` would raise on such a character.
- Values.Lower: ASCII lower-casing only. `p_tipo` and `p_booleano` receive keyword tokens, and lexer.py defines no rule for INT, FLOAT, BOOL, CHAR, TRUE or FALSE.
- Aliasing: `x = v` on a vector makes `x` share `v`'s dictionary in Python. The model copies the values, so a later element write to `v` is not seen through `x`.
- The `repr` escaping of quotes, backslashes and control characters in strings shown inside a vector's `values` list is not modelled.
- The order of vector bindings within one declaration list: `p_declaracion` (parser.py:122-130) binds a vector while the list is still being parsed, before `p_declaracion_variable` runs. The model has this as separate `DeclareVector` calls before `Declare`, which itself leaves vector items' bindings alone.
- The vector size and index are integers (`nat` for the size, `int` for the index). lexer.py defines no rule for `ENTERO_DECIMAL`.
- The unused `Comentadas` list (parser.py:10) is not modelled.
- The `comment` state has no ignored characters: it defines no `t_comment_ignore`, so PLY uses none there.
