/**
 * The Python values the parser's semantic actions handle, the runtime type
 * tests they apply to them (`isinstance`), and the text Python's `str`
 * gives them in messages and in the result log.
 *
 * A float is kept abstract as the text `str` gives it; a vector dictionary
 * that an identifier read returns is `PyVector` of its element values.
 */
module Values {
  import opened Wrappers
  import opened Numerals

  datatype Value =
    | PyNone
    | PyInt(i: int)
    | PyBool(b: bool)
    | PyFloat(text: string)
    | PyStr(s: string)
    | PyVector(items: seq<Value>)

  /** The declared types the grammar's `tipo` accepts. */
  datatype Tipo = IntType | FloatType | BoolType | CharType
  {
    /** The name `p_tipo` yields for it, lower-cased. */
    function Name(): string
    {
      match this
      case IntType => "int"
      case FloatType => "float"
      case BoolType => "bool"
      case CharType => "char"
    }
  }

  /** `isinstance(v, int)`: true for a bool too, because Python's bool is a subclass of int. */
  predicate IsIntInstance(v: Value)
  {
    v.PyInt? || v.PyBool?
  }

  /** A one-character string, the test for `char`. */
  predicate IsChar(v: Value)
  {
    v.PyStr? && |v.s| == 1
  }

  /** The decimal text of an integer, with a minus sign when negative. */
  function IntText(i: int): (t: string)
    ensures |t| >= 1
    ensures t[0] == '-' <==> i < 0
  {
    if i < 0 then "-" + Numeral(10, -i) else Numeral(10, i)
  }

  /** The digits of `IntText(i)` after any sign are the canonical numeral of `|i|`. */
  lemma IntTextDigits(i: int)
    ensures var digits := if i < 0 then IntText(i)[1..] else IntText(i);
      Canonical(10, digits) && ValueOf(10, digits) == (if i < 0 then -i else i)
  {
    var n := if i < 0 then -i else i;
    var digits := if i < 0 then IntText(i)[1..] else IntText(i);
    assert digits == Numeral(10, n);
    ValueOfNumeral(10, n);
  }

  /** `sep.join(parts)`. */
  function Join(sep: string, parts: seq<string>): string
  {
    if parts == [] then ""
    else if |parts| == 1 then parts[0]
    else parts[0] + sep + Join(sep, parts[1..])
  }

  /**
   * The text of a value: `str(v)` when `nested` is false, and the `repr`
   * that a list shows for its elements when it is true (a string in single
   * quotes). A vector is shown as the dictionary that holds it.
   */
  function Show(v: Value, nested: bool): string
    decreases v
  {
    match v
    case PyNone => "None"
    case PyInt(i) => IntText(i)
    case PyBool(b) => if b then "True" else "False"
    case PyFloat(t) => t
    case PyStr(s) => if nested then "'" + s + "'" else s
    case PyVector(items) =>
      "{'type': 'vector', 'size': " + IntText(|items|) + ", 'values': ["
      + Join(", ", seq(|items|, i requires 0 <= i < |items| => Show(items[i], true)))
      + "]}"
  }

  /** `str(v)`. */
  function Text(v: Value): string
  {
    Show(v, false)
  }

  /** ASCII lower-casing of one character. */
  function LowerChar(c: char): (l: char)
    ensures !('A' <= l <= 'Z')
    ensures 'A' <= c <= 'Z' ==> l as int == c as int + 32
    ensures !('A' <= c <= 'Z') ==> l == c
  {
    if 'A' <= c <= 'Z' then (c as int - 'A' as int + 'a' as int) as char else c
  }

  /** `s.lower()` on ASCII letters. */
  function Lower(s: string): (l: string)
    ensures |l| == |s|
    ensures forall i :: 0 <= i < |s| ==> l[i] == LowerChar(s[i])
  {
    seq(|s|, i requires 0 <= i < |s| => LowerChar(s[i]))
  }

  /** Lower-casing twice is lower-casing once. */
  lemma LowerIdempotent(s: string)
    ensures Lower(Lower(s)) == Lower(s)
  {
  }

  /** `p_tipo`: the type keyword's text, lower-cased. */
  function ParseTipo(text: string): (t: Option<Tipo>)
    ensures t.Some? ==> Lower(text) == t.value.Name()
  {
    var l := Lower(text);
    if l == "int" then Some(IntType)
    else if l == "float" then Some(FloatType)
    else if l == "bool" then Some(BoolType)
    else if l == "char" then Some(CharType)
    else None
  }

  /** A keyword is recognised in any letter case, and only the four type names are. */
  lemma ParseTipoNames(text: string, t: Tipo)
    ensures ParseTipo(text) == Some(t) <==> Lower(text) == t.Name()
    ensures ParseTipo(text).None? <==> forall u: Tipo :: Lower(text) != u.Name()
  {
  }

  /** `p_booleano`: true exactly when the keyword lower-cases to `true`. */
  function BooleanLiteral(text: string): (b: bool)
    ensures b <==> |text| == 4 && forall i :: 0 <= i < 4 ==> LowerChar(text[i]) == "true"[i]
  {
    Lower(text) == "true"
  }

  /** The spellings of the keywords: `true`, `TRUE` and `True` give True; `false`, `FALSE` and `False` give False. */
  lemma BooleanKeywords()
    ensures BooleanLiteral("true") && BooleanLiteral("TRUE") && BooleanLiteral("True")
    ensures !BooleanLiteral("false") && !BooleanLiteral("FALSE") && !BooleanLiteral("False")
  {
    assert Lower("TRUE") == "true" && Lower("True") == "true";
    assert Lower("false") != "true";
  }

  /** The boolean keyword ignores letter case. */
  lemma BooleanCaseInsensitive(text: string)
    ensures BooleanLiteral(Lower(text)) == BooleanLiteral(text)
  {
    LowerIdempotent(text);
  }
}
