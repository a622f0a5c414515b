/**
 * `adder/compiler/inc/compiler/gvm_lexer.h`: the character classifier of the
 * language compiler. `lexer_scan_char_type` gives a single category per
 * listed character; `lexer_scan` adds one of letter, number, space or
 * symbolic. The category values are those of `lexeme_t` in the compiler's
 * `co_types.h`.
 */
module AdderLexer {
  /** `lexeme_t`. */
  type Lexeme = bv32

  const LcatNone: Lexeme := 0x0000_0000
  const LcatNewline: Lexeme := 0x0000_0001
  const LcatSlash: Lexeme := 0x0000_0002
  const LcatDot: Lexeme := 0x0000_0004
  const LcatMinus: Lexeme := 0x0000_0008
  const LcatQuote: Lexeme := 0x0000_0010
  const LcatComma: Lexeme := 0x0000_0020
  const LcatSemiColon: Lexeme := 0x0000_0040
  const LcatUnderscore: Lexeme := 0x0000_0080
  const LcatEqual: Lexeme := 0x0000_0100
  const LcatLessThan: Lexeme := 0x0000_0200
  const LcatOpenParen: Lexeme := 0x0000_0400
  const LcatOpenCurly: Lexeme := 0x0000_0800
  const LcatOpenSbracket: Lexeme := 0x0000_1000
  const LcatGreaterThan: Lexeme := 0x0000_2000
  const LcatCloseParen: Lexeme := 0x0000_4000
  const LcatCloseCurly: Lexeme := 0x0000_8000
  const LcatCloseSbracket: Lexeme := 0x0001_0000
  const LcatNumber: Lexeme := 0x0400_0000
  const LcatLetter: Lexeme := 0x0800_0000
  const LcatSpace: Lexeme := 0x1000_0000
  const LcatSeparator: Lexeme := 0x2000_0000
  const LcatSymbolic: Lexeme := 0x4000_0000

  /** The characters of the switch, each beside its category. */
  const CharTypes: seq<(char, Lexeme)> := [
    ('\n', LcatNewline), ('/', LcatSlash), ('.', LcatDot), ('-', LcatMinus), ('"', LcatQuote),
    (',', LcatComma), (';', LcatSemiColon), ('_', LcatUnderscore), ('=', LcatEqual),
    ('<', LcatLessThan), ('(', LcatOpenParen), ('{', LcatOpenCurly), ('[', LcatOpenSbracket),
    ('>', LcatGreaterThan), (')', LcatCloseParen), ('}', LcatCloseCurly), (']', LcatCloseSbracket)]

  /** All bits `lexer_scan_char_type` can give. */
  const CharTypeMask: Lexeme := 0x0001_FFFF

  predicate IsLetter(c: char) { ('a' <= c <= 'z') || ('A' <= c <= 'Z') }
  predicate IsNumber(c: char) { '0' <= c <= '9' }
  predicate IsWhitespace(c: char) { c == '\n' || c == ' ' || c == '\t' || c == '\r' }
  predicate IsSymbolic(c: char) { 32 < c as int < 127 }

  /** `lexer_scan_char_type`. */
  function ScanCharType(c: char): Lexeme {
    match c
    case '\n' => LcatNewline
    case '/' => LcatSlash
    case '.' => LcatDot
    case '-' => LcatMinus
    case '"' => LcatQuote
    case ',' => LcatComma
    case ';' => LcatSemiColon
    case '_' => LcatUnderscore
    case '=' => LcatEqual
    case '<' => LcatLessThan
    case '(' => LcatOpenParen
    case '{' => LcatOpenCurly
    case '[' => LcatOpenSbracket
    case '>' => LcatGreaterThan
    case ')' => LcatCloseParen
    case '}' => LcatCloseCurly
    case ']' => LcatCloseSbracket
    case _ => LcatNone
  }

  /** `lexer_scan`. */
  function Scan(c: char): Lexeme {
    ScanCharType(c) |
      (if IsLetter(c) then LcatLetter
       else if IsNumber(c) then LcatNumber
       else if IsWhitespace(c) then LcatSpace
       else if IsSymbolic(c) then LcatSymbolic
       else LcatNone)
  }

  /** A listed character gets exactly its own category; every other character gets none. */
  lemma ScanCharTypeTable(c: char, i: nat)
    requires i < |CharTypes|
    ensures c == CharTypes[i].0 ==> ScanCharType(c) == CharTypes[i].1
    ensures (forall j :: 0 <= j < |CharTypes| ==> CharTypes[j].0 != c) ==> ScanCharType(c) == LcatNone
  {
    if forall j :: 0 <= j < |CharTypes| ==> CharTypes[j].0 != c {
      assert CharTypes[0].0 != c && CharTypes[1].0 != c && CharTypes[2].0 != c && CharTypes[3].0 != c;
      assert CharTypes[4].0 != c && CharTypes[5].0 != c && CharTypes[6].0 != c && CharTypes[7].0 != c;
      assert CharTypes[8].0 != c && CharTypes[9].0 != c && CharTypes[10].0 != c && CharTypes[11].0 != c;
      assert CharTypes[12].0 != c && CharTypes[13].0 != c && CharTypes[14].0 != c && CharTypes[15].0 != c;
      assert CharTypes[16].0 != c;
    }
  }

  /** The category of a single character is at most one bit, within the character-type bits. */
  lemma ScanCharTypeSingle(c: char)
    ensures ScanCharType(c) & (ScanCharType(c) - 1) == 0
    ensures ScanCharType(c) & CharTypeMask == ScanCharType(c)
  {
  }

  /**
   * The class bits of `lexer_scan`: letter, number and space exactly for
   * their classes, symbolic exactly for the other characters in 33..126, so
   * never more than one of them; the character type is kept unchanged.
   */
  lemma ScanClasses(c: char)
    ensures Scan(c) & CharTypeMask == ScanCharType(c)
    ensures Scan(c) & LcatLetter != 0 <==> IsLetter(c)
    ensures Scan(c) & LcatNumber != 0 <==> IsNumber(c)
    ensures Scan(c) & LcatSpace != 0 <==> IsWhitespace(c)
    ensures Scan(c) & LcatSymbolic != 0 <==> IsSymbolic(c) && !IsLetter(c) && !IsNumber(c) && !IsWhitespace(c)
    ensures Scan(c) & LcatSeparator == 0
  {
  }

  /** `lex_ptype_t`. */
  datatype PredicateType = LpIs | LpIsNot

  /** `lex_predicate_t`. */
  datatype Predicate = Predicate(lexeme: Lexeme, kind: PredicateType)

  function Is(cat: Lexeme): Predicate { Predicate(cat, LpIs) }

  function IsNot(cat: Lexeme): Predicate { Predicate(cat, LpIsNot) }

  /** The categories two lexemes share. */
  function Common(a: Lexeme, b: Lexeme): Lexeme {
    a & b
  }

  /** `lexer_match`. */
  function Match(p: Predicate, actual: Lexeme): bool {
    match p.kind
    case LpIs => Common(p.lexeme, actual) > 0
    case LpIsNot => Common(p.lexeme, actual) == 0
  }

  lemma UnsignedPositive(w: Lexeme)
    ensures w > 0 <==> w != 0
  {
  }

  /** `LP_IS` is overlap and `LP_IS_NOT` is disjointness. */
  lemma MatchMeaning(cat: Lexeme, actual: Lexeme)
    ensures Match(Is(cat), actual) <==> Common(cat, actual) != 0
    ensures Match(IsNot(cat), actual) <==> Common(cat, actual) == 0
  {
    UnsignedPositive(Common(cat, actual));
  }
}
