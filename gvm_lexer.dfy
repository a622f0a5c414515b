/**
 * `gvm/gvm_lexer.h`: the character classifier of the assembler front end.
 * A category is a 32-bit mask; `lexer_scan` ors the bit of a punctuation
 * character, at most one class bit, and the printable bit.
 */
module GvmLexer {
  /** `lex_category_t`. */
  type Category = bv32

  const LcatNone: Category := 0x0000_0000
  const LcatNewline: Category := 0x0000_0001
  const LcatSlash: Category := 0x0000_0002
  const LcatDot: Category := 0x0000_0004
  const LcatMinus: Category := 0x0000_0008
  const LcatQuote: Category := 0x0000_0010
  const LcatComma: Category := 0x0000_0020
  const LcatSemiColon: Category := 0x0000_0040
  const LcatUnderscore: Category := 0x0000_0080
  const LcatEqual: Category := 0x0000_0100
  const LcatLessThan: Category := 0x0000_0200
  const LcatGreaterThan: Category := 0x0000_0400
  const LcatNumber: Category := 0x0001_0000
  const LcatLetter: Category := 0x0002_0000
  const LcatSpace: Category := 0x0004_0000
  const LcatScopeStart: Category := 0x0008_0000
  const LcatScopeEnd: Category := 0x0010_0000
  const LcatSeparator: Category := 0x0020_0000
  const LcatSymbol: Category := 0x0040_0000

  /** The punctuation characters of the switch, each beside its own category bit. */
  const Punctuation: seq<(char, Category)> := [
    ('\n', LcatNewline), ('/', LcatSlash), ('.', LcatDot), ('-', LcatMinus), ('"', LcatQuote),
    (',', LcatComma), (';', LcatSemiColon), ('_', LcatUnderscore), ('=', LcatEqual),
    ('<', LcatLessThan), ('>', LcatGreaterThan)]

  /** The class bits of which at most one is set. */
  const Classes: seq<Category> := [LcatLetter, LcatNumber, LcatSpace, LcatScopeStart, LcatScopeEnd]

  predicate IsLetter(c: char) { ('a' <= c <= 'z') || ('A' <= c <= 'Z') }
  predicate IsNumber(c: char) { '0' <= c <= '9' }
  predicate IsWhitespace(c: char) { c == '\n' || c == ' ' || c == '\t' || c == '\r' }
  predicate IsScopeStart(c: char) { c == '{' || c == '[' || c == '(' || c == '<' }
  predicate IsScopeEnd(c: char) { c == '}' || c == ']' || c == ')' || c == '>' }

  /** The switch over punctuation characters. */
  function PunctuationBit(c: char): Category {
    match c
    case '\n' => LcatNewline
    case '/' => LcatSlash
    case '.' => LcatDot
    case '-' => LcatMinus
    case '"' => LcatQuote
    case ',' => LcatComma
    case ';' => LcatSemiColon
    case '_' => LcatUnderscore
    case '=' => LcatEqual
    case '<' => LcatLessThan
    case '>' => LcatGreaterThan
    case _ => LcatNone
  }

  /** The class chain, tested in the order letter, number, space, scope start, scope end. */
  function ClassBit(c: char): Category {
    if IsLetter(c) then LcatLetter
    else if IsNumber(c) then LcatNumber
    else if IsWhitespace(c) then LcatSpace
    else if IsScopeStart(c) then LcatScopeStart
    else if IsScopeEnd(c) then LcatScopeEnd
    else LcatNone
  }

  /** `lexer_scan`. */
  function Scan(c: char): Category {
    PunctuationBit(c) | ClassBit(c) | (if 0x20 <= c as int <= 0x7E then LcatSymbol else LcatNone)
  }

  /** Each punctuation character's own bit is set exactly for that character. */
  lemma ScanPunctuation(c: char, i: nat)
    requires i < |Punctuation|
    ensures Scan(c) & Punctuation[i].1 != 0 <==> c == Punctuation[i].0
  {
  }

  /** No bit of the switch is set for a character outside it. */
  lemma ScanNoPunctuation(c: char)
    requires forall i :: 0 <= i < |Punctuation| ==> Punctuation[i].0 != c
    ensures Scan(c) & 0x7FF == 0
  {
    assert Punctuation[0].0 != c && Punctuation[1].0 != c && Punctuation[2].0 != c && Punctuation[3].0 != c;
    assert Punctuation[4].0 != c && Punctuation[5].0 != c && Punctuation[6].0 != c && Punctuation[7].0 != c;
    assert Punctuation[8].0 != c && Punctuation[9].0 != c && Punctuation[10].0 != c;
  }

  /** Each class bit is set exactly when the character is in that class. */
  lemma ScanClasses(c: char)
    ensures Scan(c) & LcatLetter != 0 <==> IsLetter(c)
    ensures Scan(c) & LcatNumber != 0 <==> IsNumber(c)
    ensures Scan(c) & LcatSpace != 0 <==> IsWhitespace(c)
    ensures Scan(c) & LcatScopeStart != 0 <==> IsScopeStart(c)
    ensures Scan(c) & LcatScopeEnd != 0 <==> IsScopeEnd(c)
    ensures Scan(c) & LcatSeparator == 0
  {
  }

  /** At most one class bit is ever set. */
  lemma ScanOneClass(c: char, i: nat, j: nat)
    requires i < j < |Classes|
    ensures Scan(c) & Classes[i] == 0 || Scan(c) & Classes[j] == 0
  {
  }

  /** Every printable ASCII character, and only those, carries the symbol bit. */
  lemma ScanSymbol(c: char)
    ensures Scan(c) & LcatSymbol != 0 <==> 0x20 <= c as int <= 0x7E
  {
  }

  /** `lex_ptype_t`. */
  datatype PredicateType = LpIs | LpIsNot

  /** `lex_predicate_t`. */
  datatype Predicate = Predicate(category: Category, kind: PredicateType)

  function Is(cat: Category): Predicate { Predicate(cat, LpIs) }

  function IsNot(cat: Category): Predicate { Predicate(cat, LpIsNot) }

  /** The categories two category sets share. */
  function Common(a: Category, b: Category): Category {
    a & b
  }

  /** `lexer_match`: overlap for `lp_is`, disjointness for `lp_is_not`. */
  function Match(p: Predicate, actual: Category): bool {
    match p.kind
    case LpIs => Common(p.category, actual) > 0
    case LpIsNot => Common(p.category, actual) == 0
  }

  lemma UnsignedPositive(w: Category)
    ensures w > 0 <==> w != 0
  {
  }

  /** `lp_is(c)` matches exactly the categories sharing a bit with `c`, and `lp_is_not(c)` is its negation. */
  lemma MatchMeaning(cat: Category, actual: Category)
    ensures Match(Is(cat), actual) <==> Common(cat, actual) != 0
    ensures Match(IsNot(cat), actual) <==> !Match(Is(cat), actual)
  {
    UnsignedPositive(Common(cat, actual));
  }
}
