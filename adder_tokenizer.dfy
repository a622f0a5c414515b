/**
 * `adder/gvm_tokenizer.c`: the language tokenizer. A cursor walks the text;
 * at each place the first rule that applies (space, comment, string,
 * number, identifier, symbol) sweeps a run of characters into one token,
 * and the rounds repeat until the end of the text or an error. The rules
 * are specified on plain characters (`InClass`) and the lexer predicates
 * the source writes are proved to mean them (`LexMeaning`). The two
 * keyword maps are the word/kind pairs inserted into them; looking a word
 * up gives the kind of the first pair with that word.
 */
module AdderTokenizer {
  import opened Wrappers
  import opened CoTypes
  import opened AdderLexer
  import ShUtils
  import CoUtils
  import opened CoCres
  import opened TokenList

  // ----- character tests -----

  /** The character classes the rules test and sweep, in plain terms. */
  datatype Class = Whitespace | Slash | Quote | Digit | WordStart | Printable | NotNewline | NotQuote | DigitOrDot | WordChar

  predicate InClass(cl: Class, ch: char) {
    match cl
    case Whitespace => IsWhitespace(ch)
    case Slash => ch == '/'
    case Quote => ch == '"'
    case Digit => IsNumber(ch)
    case WordStart => IsLetter(ch) || ch == '_'
    case Printable => IsSymbolic(ch) && !IsLetter(ch) && !IsNumber(ch) && !IsWhitespace(ch)
    case NotNewline => ch != '\n'
    case NotQuote => ch != '"'
    case DigitOrDot => IsNumber(ch) || ch == '.'
    case WordChar => IsLetter(ch) || ch == '_' || IsNumber(ch)
  }

  /** The lexer predicate the tokenizer writes for each class. */
  function Lex(cl: Class): Predicate {
    match cl
    case Whitespace => Is(LcatSpace)
    case Slash => Is(LcatSlash)
    case Quote => Is(LcatQuote)
    case Digit => Is(LcatNumber)
    case WordStart => Is(LcatLetter | LcatUnderscore)
    case Printable => Is(LcatSymbolic)
    case NotNewline => IsNot(LcatNewline)
    case NotQuote => IsNot(LcatQuote)
    case DigitOrDot => Is(LcatNumber | LcatDot)
    case WordChar => Is(LcatLetter | LcatUnderscore | LcatNumber)
  }

  /** A class bit of the lexer means its character class. */
  lemma ClassBitsMeaning(ch: char)
    ensures Match(Lex(Whitespace), Scan(ch)) <==> InClass(Whitespace, ch)
    ensures Match(Lex(Digit), Scan(ch)) <==> InClass(Digit, ch)
    ensures Match(Lex(Printable), Scan(ch)) <==> InClass(Printable, ch)
  {
    ScanClasses(ch);
    MatchMeaning(LcatSpace, Scan(ch));
    MatchMeaning(LcatNumber, Scan(ch));
    MatchMeaning(LcatSymbolic, Scan(ch));
  }

  /** A single-character bit of the lexer means that character. */
  lemma CharBitsMeaning(ch: char)
    ensures Match(Lex(Slash), Scan(ch)) <==> InClass(Slash, ch)
    ensures Match(Lex(Quote), Scan(ch)) <==> InClass(Quote, ch)
    ensures Match(Lex(NotNewline), Scan(ch)) <==> InClass(NotNewline, ch)
    ensures Match(Lex(NotQuote), Scan(ch)) <==> InClass(NotQuote, ch)
  {
    ScanClasses(ch);
    MatchMeaning(LcatSlash, Scan(ch));
    MatchMeaning(LcatQuote, Scan(ch));
    MatchMeaning(LcatNewline, Scan(ch));
    assert Scan(ch) & LcatSlash == ScanCharType(ch) & LcatSlash;
    assert Scan(ch) & LcatQuote == ScanCharType(ch) & LcatQuote;
    assert Scan(ch) & LcatNewline == ScanCharType(ch) & LcatNewline;
  }

  /** The mixed predicates of the word and number rules mean their classes. */
  lemma MixedBitsMeaning(ch: char)
    ensures Match(Lex(WordStart), Scan(ch)) <==> InClass(WordStart, ch)
    ensures Match(Lex(DigitOrDot), Scan(ch)) <==> InClass(DigitOrDot, ch)
    ensures Match(Lex(WordChar), Scan(ch)) <==> InClass(WordChar, ch)
  {
    ScanClasses(ch);
    MatchMeaning(LcatLetter | LcatUnderscore, Scan(ch));
    MatchMeaning(LcatNumber | LcatDot, Scan(ch));
    MatchMeaning(LcatLetter | LcatUnderscore | LcatNumber, Scan(ch));
    assert Scan(ch) & LcatUnderscore == ScanCharType(ch) & LcatUnderscore;
    assert Scan(ch) & LcatDot == ScanCharType(ch) & LcatDot;
  }

  /** Every predicate of the tokenizer accepts exactly its class. */
  lemma LexMeaning(cl: Class, ch: char)
    ensures Match(Lex(cl), Scan(ch)) <==> InClass(cl, ch)
  {
    match cl
    case Whitespace => ClassBitsMeaning(ch);
    case Digit => ClassBitsMeaning(ch);
    case Printable => ClassBitsMeaning(ch);
    case Slash => CharBitsMeaning(ch);
    case Quote => CharBitsMeaning(ch);
    case NotNewline => CharBitsMeaning(ch);
    case NotQuote => CharBitsMeaning(ch);
    case WordStart => MixedBitsMeaning(ch);
    case DigitOrDot => MixedBitsMeaning(ch);
    case WordChar => MixedBitsMeaning(ch);
  }

  /**
   * Where a sweep stops: the first place from `c` whose character is not
   * in the class, or the end of the text.
   */
  function RunEnd(t: seq<char>, c: nat, cl: Class): (e: nat)
    requires c <= |t|
    ensures c <= e <= |t|
    decreases |t| - c
  {
    if c == |t| || !InClass(cl, t[c]) then c else RunEnd(t, c + 1, cl)
  }

  /** The run holds only characters of the class, and what stops it is not one. */
  lemma {:induction false} RunEndMeaning(t: seq<char>, c: nat, cl: Class)
    requires c <= |t|
    ensures var e := RunEnd(t, c, cl);
      (forall j :: c <= j < e ==> InClass(cl, t[j])) && (e < |t| ==> !InClass(cl, t[e]))
    decreases |t| - c
  {
    if c < |t| && InClass(cl, t[c]) {
      RunEndMeaning(t, c + 1, cl);
    }
  }

  /** `lexer_match(lex, lexer_scan(ch))` for the predicate of a class: the class's test. */
  method LexerMatchClass(cl: Class, ch: char) returns (m: bool)
    ensures m <==> InClass(cl, ch)
  {
    LexMeaning(cl, ch);
    m := Match(Lex(cl), Scan(ch));
  }

  /** A run that goes on at `c` ends where the run from `c + 1` ends. */
  lemma RunEndStep(t: seq<char>, c: nat, cl: Class)
    requires c < |t| && InClass(cl, t[c])
    ensures RunEnd(t, c, cl) == RunEnd(t, c + 1, cl)
  {
  }

  /** `match_cursor`: a character at the cursor, in the class. */
  method MatchCursor(t: seq<char>, c: nat, cl: Class) returns (m: bool)
    ensures m <==> c < |t| && InClass(cl, t[c])
  {
    if c >= |t| {
      return false;
    }
    m := LexerMatchClass(cl, t[c]);
  }

  /** `match_cursor_and_next` on two predicates, as `get_symbolic_token_len` writes them. */
  predicate MatchCursorAndNext(t: seq<char>, c: nat, p0: Predicate, p1: Predicate) {
    c + 1 < |t| && Match(p0, Scan(t[c])) && Match(p1, Scan(t[c + 1]))
  }

  /** `match_cursor_and_next` on the predicates of two classes: two characters from the cursor, in the classes. */
  method MatchCursorAndNextClass(t: seq<char>, c: nat, cl0: Class, cl1: Class) returns (m: bool)
    ensures m <==> c + 1 < |t| && InClass(cl0, t[c]) && InClass(cl1, t[c + 1])
  {
    if c + 1 >= |t| {
      return false;
    }
    var m0 := LexerMatchClass(cl0, t[c]);
    var m1 := LexerMatchClass(cl1, t[c + 1]);
    m := m0 && m1;
  }

  /** The pairs of characters the symbol rule takes as one token: `->`, `==`, `<=` and `>=`. */
  predicate TwoCharacterSymbol(a: char, b: char) {
    (a == '-' && b == '>') || ((a == '=' || a == '<' || a == '>') && b == '=')
  }

  /** The length of a symbol token: two for those pairs, one otherwise. */
  function SymbolicLen(t: seq<char>, c: nat): (n: nat)
    ensures n == 1 || n == 2
  {
    if c + 1 < |t| && TwoCharacterSymbol(t[c], t[c + 1]) then 2 else 1
  }

  lemma MatchIsMinus(c: char)
    ensures Match(Is(LcatMinus), Scan(c)) <==> c == '-'
  {
    ScanClasses(c);
    MatchMeaning(LcatMinus, Scan(c));
    assert Scan(c) & LcatMinus == ScanCharType(c) & LcatMinus;
  }

  lemma MatchIsGreaterThan(c: char)
    ensures Match(Is(LcatGreaterThan), Scan(c)) <==> c == '>'
  {
    ScanClasses(c);
    MatchMeaning(LcatGreaterThan, Scan(c));
    assert Scan(c) & LcatGreaterThan == ScanCharType(c) & LcatGreaterThan;
  }

  lemma MatchIsEqual(c: char)
    ensures Match(Is(LcatEqual), Scan(c)) <==> c == '='
  {
    ScanClasses(c);
    MatchMeaning(LcatEqual, Scan(c));
    assert Scan(c) & LcatEqual == ScanCharType(c) & LcatEqual;
  }

  lemma MatchIsComparison(c: char)
    ensures Match(Is(LcatEqual | LcatLessThan | LcatGreaterThan), Scan(c)) <==> c == '=' || c == '<' || c == '>'
  {
    ScanClasses(c);
    MatchMeaning(LcatEqual | LcatLessThan | LcatGreaterThan, Scan(c));
    assert Scan(c) & (LcatEqual | LcatLessThan | LcatGreaterThan) == ScanCharType(c) & (LcatEqual | LcatLessThan | LcatGreaterThan);
  }

  /** `get_symbolic_token_len`: the arrow test, then the comparison test, else one character. */
  method GetSymbolicTokenLen(t: seq<char>, c: nat) returns (n: nat)
    ensures n == SymbolicLen(t, c)
  {
    if c + 1 < |t| {
      MatchIsMinus(t[c]);
      MatchIsGreaterThan(t[c + 1]);
      MatchIsComparison(t[c]);
      MatchIsEqual(t[c + 1]);
    }
    if MatchCursorAndNext(t, c, Is(LcatMinus), Is(LcatGreaterThan)) {
      n := 2;
    } else if MatchCursorAndNext(t, c, Is(LcatEqual | LcatLessThan | LcatGreaterThan), Is(LcatEqual)) {
      n := 2;
    } else {
      n := 1;
    }
  }

  /**
   * `sweep_while`: from `start` (the cursor plus the offset), the length of
   * the run of the class. The character at the end of the text is read as
   * the terminator, which no class test of a sweep accepts.
   */
  method SweepWhile(t: seq<char>, start: nat, cl: Class) returns (len: nat)
    requires start <= |t|
    ensures start + len == RunEnd(t, start, cl)
  {
    var c := start;
    var m := LexerMatchClass(cl, ShUtils.At(t, c));
    while m && c < |t|
      invariant start <= c <= |t|
      invariant RunEnd(t, start, cl) == RunEnd(t, c, cl)
      invariant m <==> InClass(cl, ShUtils.At(t, c))
      decreases |t| - c
    {
      RunEndStep(t, c, cl);
      c := c + 1;
      m := LexerMatchClass(cl, ShUtils.At(t, c));
    }
    len := c - start;
  }

  // ----- keyword maps -----

  /** The pairs `create_keyword_token_map` inserts: each word maps to the kind at its index. */
  const AlphaWords: seq<string> :=
    ["if", "else", "for", "in", "fun", "return", "break", "true", "false", "not", "and", "or"]
  const AlphaKinds: seq<TokenType> :=
    [TtKwIf, TtKwElse, TtKwFor, TtKwIn, TtKwFunDef, TtKwReturn, TtKwBreak, TtBoolean, TtBoolean, TtUnopNot, TtBinopAnd, TtBinopOr]

  /** The pairs `create_symbolic_token_map` inserts, in the same form. */
  const SymbolicWords: seq<string> :=
    ["->", "==", "<=", ">=", "<", ">", "(", ")", "{", "}", "[", "]", "=", ",", ";", "*", "/", "%", "+", "-"]
  const SymbolicKinds: seq<TokenType> :=
    [TtArrow, TtCmpEq, TtCmpLtEq, TtCmpGtEq, TtCmpLt, TtCmpGt, TtOpenParen, TtCloseParen, TtOpenCurly, TtCloseCurly,
     TtOpenSbracket, TtCloseSbracket, TtAssign, TtSeparator, TtStatementEnd, TtBinopMul, TtBinopDiv, TtBinopMod, TtBinopPlus, TtBinopMinus]

  /** A `srcmap_t` from words to token kinds, as the pairs inserted into it. */
  datatype WordMap = WordMap(words: seq<string>, kinds: seq<TokenType>)

  /** `kw_map_alpha` and `kw_map_symbolic` of the tokenizer state. */
  datatype Maps = Maps(alpha: WordMap, symbolic: WordMap)

  /** The two maps the state is created with. */
  const KeywordMaps: Maps := Maps(WordMap(AlphaWords, AlphaKinds), WordMap(SymbolicWords, SymbolicKinds))

  /** No key is stored twice. */
  ghost predicate DistinctKeys(keys: seq<string>) {
    forall i, j :: 0 <= i < j < |keys| ==> keys[i] != keys[j]
  }

  /** `srcmap_lookup` on a map built from the pairs: the value of the first pair with the key. */
  function Lookup<V>(keys: seq<string>, values: seq<V>, key: string): Option<V> {
    if keys == [] || values == [] then None
    else if keys[0] == key then Some(values[0])
    else Lookup(keys[1..], values[1..], key)
  }

  /** With distinct keys every key finds its own value, and a word that is no key finds nothing. */
  lemma {:induction false} LookupMeaning<V>(keys: seq<string>, values: seq<V>, key: string)
    requires |keys| == |values| && DistinctKeys(keys)
    ensures forall i :: 0 <= i < |keys| && keys[i] == key ==> Lookup(keys, values, key) == Some(values[i])
    ensures (forall i :: 0 <= i < |keys| ==> keys[i] != key) ==> Lookup(keys, values, key) == None
  {
    if keys != [] {
      assert DistinctKeys(keys[1..]) by {
        forall i, j | 0 <= i < j < |keys[1..]| ensures keys[1..][i] != keys[1..][j] {
          assert keys[1..][i] == keys[i + 1] && keys[1..][j] == keys[j + 1];
        }
      }
      LookupMeaning(keys[1..], values[1..], key);
      forall i | 0 <= i < |keys| && keys[i] == key ensures Lookup(keys, values, key) == Some(values[i]) {
        if i > 0 {
          assert keys[0] != keys[i];
          assert keys[1..][i - 1] == keys[i] && values[1..][i - 1] == values[i];
        }
      }
      if forall i :: 0 <= i < |keys| ==> keys[i] != key {
        assert keys[0] != key;
        forall i | 0 <= i < |keys[1..]| ensures keys[1..][i] != key {
          assert keys[1..][i] == keys[i + 1];
        }
      }
    }
  }

  /** A looked-up value is one the map holds. */
  lemma {:induction false} LookupHeld<V>(keys: seq<string>, values: seq<V>, key: string)
    requires |keys| == |values|
    ensures Lookup(keys, values, key).Some? ==> Lookup(keys, values, key).value in values
  {
    if keys != [] && keys[0] != key {
      LookupHeld(keys[1..], values[1..], key);
    }
  }

  /** What a looked-up word becomes: its mapped kind, or a plain symbol. */
  function KindOf(m: WordMap, word: string): TokenType {
    match Lookup(m.words, m.kinds, word)
    case Some(k) => k
    case None => TtSymbol
  }

  lemma AlphaWordsDistinct()
    ensures DistinctKeys(AlphaWords)
  {
  }

  lemma SymbolicWordsDistinct()
    ensures DistinctKeys(SymbolicWords)
  {
    forall i, j | 0 <= i < j < |SymbolicWords| ensures SymbolicWords[i] != SymbolicWords[j] {
      assert |SymbolicWords[i]| != |SymbolicWords[j]| || SymbolicWords[i][0] != SymbolicWords[j][0];
    }
  }

  /**
   * An identifier in the keyword map takes the mapped kind (`true` and
   * `false` are booleans, `not`/`and`/`or` operators, the rest keywords);
   * any other identifier is a symbol.
   */
  lemma AlphaKeywordKinds(word: string)
    ensures forall i :: 0 <= i < |AlphaWords| && AlphaWords[i] == word ==> KindOf(KeywordMaps.alpha, word) == AlphaKinds[i]
    ensures word !in AlphaWords ==> KindOf(KeywordMaps.alpha, word) == TtSymbol
  {
    AlphaWordsDistinct();
    LookupMeaning(AlphaWords, AlphaKinds, word);
  }

  /** A symbol in the symbol map takes the mapped kind; any other symbol is a plain symbol. */
  lemma SymbolicKeywordKinds(word: string)
    ensures forall i :: 0 <= i < |SymbolicWords| && SymbolicWords[i] == word ==> KindOf(KeywordMaps.symbolic, word) == SymbolicKinds[i]
    ensures word !in SymbolicWords ==> KindOf(KeywordMaps.symbolic, word) == TtSymbol
  {
    SymbolicWordsDistinct();
    LookupMeaning(SymbolicWords, SymbolicKinds, word);
  }

  /** A kind the map does not hold, other than a plain symbol, is never what a word becomes. */
  lemma KindOfAvoids(m: WordMap, word: string, kind: TokenType)
    requires |m.words| == |m.kinds| && kind != TtSymbol && kind !in m.kinds
    ensures KindOf(m, word) != kind
  {
    LookupHeld(m.words, m.kinds, word);
  }

  /** The map holds no space and no comment kind, and pairs every word with one kind. */
  predicate NoLayoutMap(m: WordMap) {
    |m.words| == |m.kinds| && TtSpace !in m.kinds && TtComment !in m.kinds
  }

  /** Neither map holds a space or a comment kind. */
  predicate NoLayout(maps: Maps) {
    NoLayoutMap(maps.alpha) && NoLayoutMap(maps.symbolic)
  }

  lemma AlphaNoLayout()
    ensures NoLayoutMap(WordMap(AlphaWords, AlphaKinds))
  {
  }

  lemma SymbolicNoLayout()
    ensures NoLayoutMap(WordMap(SymbolicWords, SymbolicKinds))
  {
  }

  lemma KeywordMapsNoLayout()
    ensures NoLayout(KeywordMaps)
  {
    AlphaNoLayout();
    SymbolicNoLayout();
  }

  // ----- one round of the loop -----

  /** The token of a round, if it makes one, and where the cursor goes. */
  datatype Step = Step(token: Option<Token>, next: nat)

  /** The text of `assert(len > 0 && "unexpected sweep_while progress")`. */
  const SweepAssertion: string := "len > 0 && \"unexpected sweep_while progress\""

  /** A swept token from `c` with the run ending at `e` and `trailing` more characters. */
  function Swept(src: Source, c: nat, e: nat, trailing: nat, kind: TokenType): (s: Step)
    requires c <= e
  {
    Step(Some(Token(kind, CoUtils.MkSrcRef(src, c, e + trailing - c))), e + trailing)
  }

  /**
   * A discarded run: as written `sweep_discard_token` asserts that the run
   * past the `offset` opening characters is not empty, which an empty
   * comment breaks; corrected it only moves the cursor.
   */
  function Discarded(c: nat, offset: nat, e: nat, trailing: nat, reading: Reading): Result<Step, Abort>
    requires c + offset <= e
  {
    if reading == AsWritten && e == c + offset then Err(AssertFailed(SweepAssertion))
    else Ok(Step(None, e + trailing))
  }

  /** The word a symbol token covers (the text ends first only if the symbol does). */
  function SymbolWord(t: seq<char>, c: nat): string
    requires c < |t|
  {
    var len := SymbolicLen(t, c);
    if c + len <= |t| then t[c..c + len] else t[c..]
  }

  /**
   * One round at cursor `c`: the first rule whose test holds: whitespace,
   * `//`, a quote, a digit, a letter or underscore, another printable
   * character.
   */
  function StepAt(src: Source, c: nat, spaces: bool, comments: bool, reading: Reading, maps: Maps): (r: Result<Step, Abort>)
    requires c < |src.text|
  {
    var t := src.text;
    if IsWhitespace(t[c]) then
      var e := RunEnd(t, c, Whitespace);
      if spaces then Ok(Swept(src, c, e, 0, TtSpace)) else Discarded(c, 0, e, 0, reading)
    else if c + 1 < |t| && t[c] == '/' && t[c + 1] == '/' then
      var e := RunEnd(t, c + 2, NotNewline);
      if comments then Ok(Swept(src, c, e, 1, TtComment)) else Discarded(c, 2, e, 1, reading)
    else if t[c] == '"' then
      Ok(Swept(src, c, RunEnd(t, c + 1, NotQuote), 1, TtString))
    else if IsNumber(t[c]) then
      Ok(Swept(src, c, RunEnd(t, c, DigitOrDot), 0, TtNumber))
    else if IsLetter(t[c]) || t[c] == '_' then
      var e := RunEnd(t, c, WordChar);
      Ok(Step(Some(Token(KindOf(maps.alpha, t[c..e]), CoUtils.MkSrcRef(src, c, e - c))), e))
    else if IsSymbolic(t[c]) then
      var len := SymbolicLen(t, c);
      Ok(Step(Some(Token(KindOf(maps.symbolic, SymbolWord(t, c)), CoUtils.MkSrcRef(src, c, len))), c + len))
    else Ok(Step(None, c))
  }

  /**
   * Every round moves the cursor forward, except at a character that is
   * neither whitespace nor printable (33..126), where no rule applies.
   */
  lemma StallMeaning(src: Source, c: nat, spaces: bool, comments: bool, reading: Reading, maps: Maps)
    requires c < |src.text|
    ensures var r := StepAt(src, c, spaces, comments, reading, maps);
      r.Ok? ==> (r.value.next >= c && (r.value.next == c <==> !IsWhitespace(src.text[c]) && !IsSymbolic(src.text[c])) &&
                 (r.value.next == c ==> r.value.token.None?))
  {
  }

  // ----- the whole text -----

  /** What the rounds from a cursor give: the tokens, the cursor at the end, and whether a round stalled or aborted. */
  datatype Scanned = Scanned(tokens: seq<Token>, cursor: nat, stalled: bool, abort: Option<Abort>)

  function TokenOf(s: Step): seq<Token> {
    if s.token.Some? then [s.token.value] else []
  }

  /** The rounds of `tokenizer_analyze` from cursor `c`, with the result still ok. */
  function Analysis(src: Source, c: nat, spaces: bool, comments: bool, reading: Reading, maps: Maps): (s: Scanned)
    decreases |src.text| - c
  {
    if c >= |src.text| then Scanned([], c, false, None)
    else
      match StepAt(src, c, spaces, comments, reading, maps)
      case Err(a) => Scanned([], c, false, Some(a))
      case Ok(st) =>
        if st.next <= c then Scanned([], c, true, None)
        else
          var rest := Analysis(src, st.next, spaces, comments, reading, maps);
          rest.(tokens := TokenOf(st) + rest.tokens)
  }

  /** `get_current_srcref`: from the cursor, as long as the last index of the text. */
  function CurrentRef(src: Source, cursor: nat): SrcRef {
    CoUtils.MkSrcRef(src, cursor, if |src.text| > 0 then |src.text| - 1 else 0)
  }

  /**
   * The reference a stall report names. As written it is
   * `get_current_srcref`, whose length is the last index of the text, so
   * from a cursor past 1 it runs on past the end of the text; corrected it
   * is the rest of the text.
   */
  function StallRef(src: Source, cursor: nat, reading: Reading): (r: SrcRef)
    ensures reading == Corrected && cursor <= |src.text| ==>
      r.start == cursor && r.end == |src.text| && CoUtils.Chars(r) == src.text[cursor..]
  {
    if reading == AsWritten then CurrentRef(src, cursor)
    else if cursor <= |src.text| then RestChars(src, cursor); CoUtils.MkSrcRef(src, cursor, |src.text| - cursor)
    else CoUtils.MkSrcRef(src, cursor, 0)
  }

  lemma RestChars(src: Source, cursor: nat)
    requires cursor <= |src.text|
    ensures CoUtils.Chars(CoUtils.MkSrcRef(src, cursor, |src.text| - cursor)) == src.text[cursor..]
  {
    var r := CoUtils.MkSrcRef(src, cursor, |src.text| - cursor);
    assert CoUtils.Len(r) == |src.text| - cursor;
    forall i | 0 <= i < |src.text| - cursor
      ensures CoUtils.Chars(r)[i] == src.text[cursor..][i]
    {
      assert CoUtils.Chars(r)[i] == ShUtils.At(src.text, cursor + i);
    }
  }

  /**
   * As written, the stall report of `abc` followed by the control
   * character DEL names three characters from the cursor 3: the last of
   * them lies past the terminator, so `cres_msg_add` copies a byte beyond
   * the text. Corrected, the report names the one remaining character.
   */
  lemma StallRefAsWrittenRunsPast(src: Source)
    requires src.text == ['a', 'b', 'c', 127 as char]
    ensures var s := Analysis(src, 0, false, false, AsWritten, KeywordMaps);
      s.stalled && s.cursor == 3 && s.abort.None?
    ensures StallRef(src, 3, AsWritten).start == 3 && CoUtils.Len(StallRef(src, 3, AsWritten)) == 3
    ensures StallRef(src, 3, AsWritten).end > |src.text| + 1
    ensures CoUtils.Chars(StallRef(src, 3, Corrected)) == [127 as char]
  {
    var t := src.text;
    assert !InClass(WordChar, t[3]);
    assert RunEnd(t, 3, WordChar) == 3;
    assert RunEnd(t, 2, WordChar) == 3;
    assert RunEnd(t, 1, WordChar) == 3;
    assert RunEnd(t, 0, WordChar) == 3;
    var s1 := Analysis(src, 3, false, false, AsWritten, KeywordMaps);
    assert StepAt(src, 3, false, false, AsWritten, KeywordMaps).Ok?;
    assert s1.stalled && s1.cursor == 3;
  }

  /** Past the first two places the as-written reference always runs past the terminator. */
  lemma StallRefAsWrittenPastTerminator(src: Source, cursor: nat)
    requires 2 < cursor < |src.text|
    ensures StallRef(src, cursor, AsWritten).end > |src.text| + 1
    ensures StallRef(src, cursor, Corrected).end == |src.text|
  {
  }

  /** The report of a stalled round, before the rest of the text. */
  const StallMessage: string := "unable to make anything useful out of '"

  /** A run that ends without an abort ends at or past the end of the text, or on a stall. */
  lemma {:induction false} AnalysisEnds(src: Source, c: nat, spaces: bool, comments: bool, reading: Reading, maps: Maps)
    ensures var s := Analysis(src, c, spaces, comments, reading, maps);
      s.abort.None? ==> (s.stalled ==> s.cursor < |src.text|) && (!s.stalled ==> s.cursor >= |src.text|)
    decreases |src.text| - c
  {
    if c < |src.text| {
      var r := StepAt(src, c, spaces, comments, reading, maps);
      if r.Ok? && r.value.next > c {
        AnalysisEnds(src, r.value.next, spaces, comments, reading, maps);
      }
    }
  }

  /** A token the flags let through: a space only with `spaces`, a comment only with `comments`. */
  predicate Kept(tok: Token, spaces: bool, comments: bool) {
    (tok.kind == TtSpace ==> spaces) && (tok.kind == TtComment ==> comments)
  }

  /** A round makes a space token only with `spaces` and a comment token only with `comments`. */
  lemma StepLayout(src: Source, c: nat, spaces: bool, comments: bool, reading: Reading, maps: Maps)
    requires c < |src.text| && NoLayout(maps)
    ensures var r := StepAt(src, c, spaces, comments, reading, maps);
      r.Ok? ==> forall k :: 0 <= k < |TokenOf(r.value)| ==> Kept(TokenOf(r.value)[k], spaces, comments)
  {
    var t := src.text;
    if !IsWhitespace(t[c]) && !(c + 1 < |t| && t[c] == '/' && t[c + 1] == '/') && t[c] != '"' && !IsNumber(t[c]) {
      if IsLetter(t[c]) || t[c] == '_' {
        KindOfAvoids(maps.alpha, t[c..RunEnd(t, c, WordChar)], TtSpace);
        KindOfAvoids(maps.alpha, t[c..RunEnd(t, c, WordChar)], TtComment);
      } else if IsSymbolic(t[c]) {
        KindOfAvoids(maps.symbolic, SymbolWord(t, c), TtSpace);
        KindOfAvoids(maps.symbolic, SymbolWord(t, c), TtComment);
      }
    }
  }

  /** Without the flags no space and no comment token is made: those runs are skipped. */
  lemma {:induction false} FlagsKeepOut(src: Source, c: nat, spaces: bool, comments: bool, reading: Reading, maps: Maps)
    requires NoLayout(maps)
    ensures var s := Analysis(src, c, spaces, comments, reading, maps);
      forall i :: 0 <= i < |s.tokens| ==> Kept(s.tokens[i], spaces, comments)
    decreases |src.text| - c
  {
    if c < |src.text| {
      var r := StepAt(src, c, spaces, comments, reading, maps);
      if r.Ok? && r.value.next > c {
        FlagsKeepOut(src, r.value.next, spaces, comments, reading, maps);
        StepLayout(src, c, spaces, comments, reading, maps);
        var first: seq<Token> := TokenOf(r.value);
        var rest: seq<Token> := Analysis(src, r.value.next, spaces, comments, reading, maps).tokens;
        assert var s := Analysis(src, r.value.next, spaces, comments, reading, maps);
          forall i :: 0 <= i < |s.tokens| ==> Kept(s.tokens[i], spaces, comments);
        assert forall j :: 0 <= j < |rest| ==> Kept(rest[j], spaces, comments);
        assert Analysis(src, c, spaces, comments, reading, maps).tokens == first + rest;
        forall i | 0 <= i < |first + rest|
          ensures Kept((first + rest)[i], spaces, comments)
        {
          if i < |first| {
            assert (first + rest)[i] == first[i];
            assert Kept(first[i], spaces, comments);
          } else {
            assert Kept(rest[i - |first|], spaces, comments);
            assert (first + rest)[i] == rest[i - |first|];
          }
        }
      }
    }
  }

  /** With the maps the state is created with, the flags alone decide whether space and comment tokens appear. */
  lemma TokensKeptOut(src: Source, spaces: bool, comments: bool, reading: Reading)
    ensures var s := Analysis(src, 0, spaces, comments, reading, KeywordMaps);
      forall i :: 0 <= i < |s.tokens| ==> Kept(s.tokens[i], spaces, comments)
  {
    KeywordMapsNoLayout();
    FlagsKeepOut(src, 0, spaces, comments, reading, KeywordMaps);
  }

  /** At whitespace the space rule applies: a token of the whole run exactly when spaces are kept. */
  lemma SpaceRule(src: Source, c: nat, spaces: bool, comments: bool, reading: Reading, maps: Maps)
    requires c < |src.text| && IsWhitespace(src.text[c])
    ensures var r := StepAt(src, c, spaces, comments, reading, maps); var e := RunEnd(src.text, c, Whitespace);
      r.Ok? && r.value.next == e > c &&
      (spaces <==> r.value.token == Some(Token(TtSpace, CoUtils.MkSrcRef(src, c, e - c))))
  {
  }

  /**
   * At `//` the comment rule applies: a token up to and one past the end of
   * the line when comments are kept; otherwise the line is skipped, except
   * that as written an empty comment fails the assertion of progress.
   */
  lemma CommentRule(src: Source, c: nat, spaces: bool, comments: bool, reading: Reading, maps: Maps)
    requires c + 1 < |src.text| && src.text[c] == '/' && src.text[c + 1] == '/'
    ensures var r := StepAt(src, c, spaces, comments, reading, maps); var e := RunEnd(src.text, c + 2, NotNewline);
      (comments ==> r == Ok(Step(Some(Token(TtComment, CoUtils.MkSrcRef(src, c, e + 1 - c))), e + 1))) &&
      (!comments && (reading == Corrected || e > c + 2) ==> r == Ok(Step(None, e + 1))) &&
      (!comments && reading == AsWritten && e == c + 2 ==> r == Err(AssertFailed(SweepAssertion)))
  {
  }

  /**
   * An empty comment in a text tokenized without comments: as written the
   * assertion of `sweep_discard_token` fails; corrected the line is skipped.
   */
  lemma EmptyCommentAborts(src: Source, maps: Maps)
    requires src.text == "//\n"
    ensures Analysis(src, 0, false, false, AsWritten, maps).abort == Some(AssertFailed(SweepAssertion))
    ensures Analysis(src, 0, false, false, Corrected, maps) == Scanned([], 3, false, None)
  {
    CommentRule(src, 0, false, false, AsWritten, maps);
    CommentRule(src, 0, false, false, Corrected, maps);
    assert RunEnd(src.text, 2, NotNewline) == 2;
  }

  // ----- the tokenizer state -----

  /** `tokenizer_state_t`: the text and the cursor. */
  class Tokenizer {
    const src: Source
    const maps: Maps
    var cursor: nat

    /** The state `tokenizer_analyze` starts from: the cursor at 0 and the two maps created. */
    constructor (src: Source)
      ensures this.src == src && maps == KeywordMaps && cursor == 0
    {
      this.src := src;
      maps := KeywordMaps;
      cursor := 0;
    }

    /** `sweep_make_token`: the run and `trailing` more characters become one token. */
    method SweepMakeToken(offset: nat, trailing: nat, cl: Class, kind: TokenType) returns (t: Token)
      requires cursor + offset <= |src.text|
      modifies this
      ensures Step(Some(t), cursor) == Swept(src, old(cursor), RunEnd(src.text, old(cursor) + offset, cl), trailing, kind)
    {
      var start := cursor;
      var len := SweepWhile(src.text, cursor + offset, cl);
      len := len + offset + trailing;
      cursor := start + len;
      t := Token(kind, CoUtils.MkSrcRef(src, start, len));
    }

    /** `sweep_discard_token`: the run and `trailing` more characters are skipped. */
    method SweepDiscardToken(offset: nat, trailing: nat, cl: Class, reading: Reading) returns (r: Result<(), Abort>)
      requires cursor + offset <= |src.text|
      modifies this
      ensures match Discarded(old(cursor), offset, RunEnd(src.text, old(cursor) + offset, cl), trailing, reading)
        case Ok(s) => r.Ok? && cursor == s.next
        case Err(a) => r == Err(a) && cursor == old(cursor)
    {
      var start := cursor;
      var len := SweepWhile(src.text, cursor + offset, cl);
      if reading == AsWritten && len == 0 {
        return Err(AssertFailed(SweepAssertion));
      }
      len := len + offset + trailing;
      cursor := start + len;
      r := Ok(());
    }

    /** `lookup_alpha_token`: a word, typed by the keyword map; its assertion of progress always holds. */
    method LookupAlphaToken() returns (t: Token)
      requires cursor < |src.text| && InClass(WordStart, src.text[cursor])
      modifies this
      ensures var e := RunEnd(src.text, old(cursor), WordChar);
        cursor == e && t == Token(KindOf(maps.alpha, src.text[old(cursor)..e]), CoUtils.MkSrcRef(src, old(cursor), e - old(cursor)))
    {
      var start := cursor;
      var len := SweepWhile(src.text, cursor, WordChar);
      assert len > 0;
      cursor := start + len;
      var ref := CoUtils.MkSrcRef(src, start, len);
      t := Token(KindOf(maps.alpha, src.text[start..start + len]), ref);
    }

    /** `lookup_symbolic_token`: one or two characters, typed by the symbol map. */
    method LookupSymbolicToken() returns (t: Token)
      requires cursor < |src.text|
      modifies this
      ensures var len := SymbolicLen(src.text, old(cursor));
        cursor == old(cursor) + len && t == Token(KindOf(maps.symbolic, SymbolWord(src.text, old(cursor))), CoUtils.MkSrcRef(src, old(cursor), len))
    {
      var start := cursor;
      var len := GetSymbolicTokenLen(src.text, cursor);
      cursor := start + len;
      var word := if start + len <= |src.text| then src.text[start..start + len] else src.text[start..];
      t := Token(KindOf(maps.symbolic, word), CoUtils.MkSrcRef(src, start, len));
    }

    /** A round that ended as `step` says, from cursor `c0` and tokens `items0`. */
    ghost predicate Follows(step: Result<Step, Abort>, r: Result<(), Abort>, c0: nat, items0: seq<Token>, items: seq<Token>)
      reads this
    {
      match step
      case Ok(s) => r.Ok? && cursor == s.next && items == items0 + TokenOf(s)
      case Err(a) => r == Err(a) && cursor == c0 && items == items0
    }

    /** One round of the loop of `tokenizer_analyze`: the first rule that applies. */
    method Round(coll: TokenList<Token>, spaces: bool, comments: bool, reading: Reading) returns (r: Result<(), Abort>)
      requires cursor < |src.text|
      modifies this, coll
      ensures Follows(StepAt(src, old(cursor), spaces, comments, reading, maps), r, old(cursor), old(coll.items), coll.items)
    {
      var space := MatchCursor(src.text, cursor, Whitespace);
      var comment := MatchCursorAndNextClass(src.text, cursor, Slash, Slash);
      if space || comment {
        r := LayoutRound(coll, spaces, comments, reading, space);
      } else {
        r := TokenRound(coll, spaces, comments, reading);
      }
    }

    /** The space and comment rules: a token when the flag keeps them, the run skipped otherwise. */
    method LayoutRound(coll: TokenList<Token>, spaces: bool, comments: bool, reading: Reading, space: bool) returns (r: Result<(), Abort>)
      requires cursor < |src.text|
      requires space <==> IsWhitespace(src.text[cursor])
      requires space || (cursor + 1 < |src.text| && src.text[cursor] == '/' && src.text[cursor + 1] == '/')
      modifies this, coll
      ensures Follows(StepAt(src, old(cursor), spaces, comments, reading, maps), r, old(cursor), old(coll.items), coll.items)
    {
      r := Ok(());
      if space {
        if spaces {
          var tok := SweepMakeToken(0, 0, Whitespace, TtSpace);
          coll.Append(tok);
        } else {
          r := SweepDiscardToken(0, 0, Whitespace, reading);
        }
      } else if comments {
        var tok := SweepMakeToken(2, 1, NotNewline, TtComment);
        coll.Append(tok);
      } else {
        r := SweepDiscardToken(2, 1, NotNewline, reading);
      }
    }

    /** The string, number, word and symbol rules, at a character that starts neither a space nor a comment. */
    method TokenRound(coll: TokenList<Token>, spaces: bool, comments: bool, reading: Reading) returns (r: Result<(), Abort>)
      requires cursor < |src.text| && !IsWhitespace(src.text[cursor])
      requires !(cursor + 1 < |src.text| && src.text[cursor] == '/' && src.text[cursor + 1] == '/')
      modifies this, coll
      ensures Follows(StepAt(src, old(cursor), spaces, comments, reading, maps), r, old(cursor), old(coll.items), coll.items)
    {
      r := Ok(());
      var quote := MatchCursor(src.text, cursor, Quote);
      var digit := MatchCursor(src.text, cursor, Digit);
      var word := MatchCursor(src.text, cursor, WordStart);
      var symbol := MatchCursor(src.text, cursor, Printable);
      if quote {
        var tok := SweepMakeToken(1, 1, NotQuote, TtString);
        coll.Append(tok);
      } else if digit {
        var tok := SweepMakeToken(0, 0, DigitOrDot, TtNumber);
        coll.Append(tok);
      } else if word {
        var tok := LookupAlphaToken();
        coll.Append(tok);
      } else if symbol {
        var tok := LookupSymbolicToken();
        coll.Append(tok);
      }
    }
  }

  /** A stalled round: the error, its place, and the message naming the rest of the text. */
  method ReportStall(res: Cres, src: Source, cursor: nat, reading: Reading)
    requires res.Valid() && res.Truncates() && res.IsOk()
    modifies res, res.msg
    ensures res.Valid() && res.Truncates()
    ensures res.code == RErrToken && res.ref == StallRef(src, cursor, reading)
    ensures res.requested == old(res.requested) + StallMessage + CoUtils.Chars(StallRef(src, cursor, reading))
  {
    var accepted := res.SetError(RErrToken);
    var ref := StallRef(src, cursor, reading);
    res.SetSrcLocation(ref);
    var w := res.MsgAdd("unable to make anything useful out of ", 38);
    w := res.MsgAdd("'", 1);
    assert "unable to make anything useful out of " + "'" == StallMessage;
    var m := res.MsgAddSrcRef(ref);
  }

  /**
   * `tokenizer_analyze`: `TT_INITIAL`, the tokens of the rounds, and
   * `TT_FINAL`; the result is ok unless it was in error before or a round
   * stalled, which is reported as `R_ERR_TOKEN` at the cursor.
   */
  method Analyze(coll: TokenList<Token>, src: Source, spaces: bool, comments: bool, res: Cres, reading: Reading)
    returns (r: Result<bool, Abort>)
    requires res.Valid() && res.Truncates()
    modifies coll, res, res.msg
    ensures res.Valid() && res.Truncates()
    ensures var s := if old(res.IsOk()) then Analysis(src, 0, spaces, comments, reading, KeywordMaps) else Scanned([], 0, false, None);
      match s.abort
      case Some(a) => r == Err(a)
      case None =>
        r == Ok(old(res.IsOk()) && !s.stalled) &&
        coll.items == old(coll.items) + [Token(TtInitial, CoUtils.MkSrcRef(src, 0, 0))] + s.tokens + [Token(TtFinal, CurrentRef(src, s.cursor))] &&
        Reported(res, s, src, reading, old(res.code), old(res.ref), old(res.requested))
  {
    coll.Append(Token(TtInitial, CoUtils.MkSrcRef(src, 0, 0)));
    var state := new Tokenizer(src);
    var aborted := Rounds(state, coll, spaces, comments, res, reading);
    if aborted.Some? {
      return Err(aborted.value);
    }
    coll.Append(Token(TtFinal, CurrentRef(src, state.cursor)));
    r := Ok(res.IsOk());
  }

  /** What the result says after the rounds: the stall report, or nothing new. */
  ghost predicate Reported(res: Cres, s: Scanned, src: Source, reading: Reading, code0: CresCode, ref0: SrcRef, req0: seq<char>)
    reads res
  {
    (s.stalled ==> res.code == RErrToken && res.ref == StallRef(src, s.cursor, reading) &&
                   res.requested == req0 + StallMessage + CoUtils.Chars(StallRef(src, s.cursor, reading))) &&
    (!s.stalled ==> res.code == code0 && res.ref == ref0 && res.requested == req0)
  }

  /** The rounds still to come: none after an abort, a stall or an error before the loop. */
  ghost function Remaining(src: Source, cursor: nat, ok: bool, stalled: bool, aborted: Option<Abort>,
                           spaces: bool, comments: bool, reading: Reading, maps: Maps): Scanned
  {
    if aborted.Some? then Scanned([], cursor, false, aborted)
    else if stalled || !ok then Scanned([], cursor, stalled, None)
    else Analysis(src, cursor, spaces, comments, reading, maps)
  }

  /** The loop of `tokenizer_analyze`: rounds while the cursor is inside the text and the result is ok. */
  method Rounds(state: Tokenizer, coll: TokenList<Token>, spaces: bool, comments: bool, res: Cres, reading: Reading)
    returns (aborted: Option<Abort>)
    requires res.Valid() && res.Truncates()
    modifies state, coll, res, res.msg
    ensures res.Valid() && res.Truncates()
    ensures var s := if old(res.IsOk()) then Analysis(state.src, old(state.cursor), spaces, comments, reading, state.maps)
                     else Scanned([], old(state.cursor), false, None);
      aborted == s.abort &&
      (s.abort.None? ==> coll.items == old(coll.items) + s.tokens && state.cursor == s.cursor &&
                         res.IsOk() == (old(res.IsOk()) && !s.stalled) &&
                         Reported(res, s, state.src, reading, old(res.code), old(res.ref), old(res.requested)))
  {
    ghost var src, wasOk, done0 := state.src, res.IsOk(), coll.items;
    ghost var whole := if wasOk then Analysis(src, state.cursor, spaces, comments, reading, state.maps)
                       else Scanned([], state.cursor, false, None);
    ghost var code0, ref0, req0 := res.code, res.ref, res.requested;
    aborted := None;
    var stalled := false;
    while state.cursor < |state.src.text| && res.IsOk() && aborted.None?
      invariant res.Valid() && res.Truncates() && state.src == src
      invariant |done0| <= |coll.items| && coll.items[..|done0|] == done0
      invariant Tracks(whole, coll.items[|done0|..], Remaining(src, state.cursor, wasOk, stalled, aborted, spaces, comments, reading, state.maps))
      invariant wasOk && !stalled && aborted.None? ==> res.IsOk()
      invariant stalled ==> !res.IsOk()
      invariant aborted.None? ==> Reported(res, Scanned([], state.cursor, stalled, None), src, reading, code0, ref0, req0)
      decreases |src.text| - state.cursor, if aborted.None? then 1 else 0, if res.IsOk() then 1 else 0
    {
      aborted, stalled := Turn(state, coll, spaces, comments, res, reading, whole, done0, code0, ref0, req0);
    }
  }

  /**
   * The body of the loop: a round, and the stall report when the cursor
   * did not move.
   */
  method Turn(state: Tokenizer, coll: TokenList<Token>, spaces: bool, comments: bool, res: Cres, reading: Reading,
              ghost whole: Scanned, ghost done0: seq<Token>, ghost code0: CresCode, ghost ref0: SrcRef, ghost req0: seq<char>)
    returns (aborted: Option<Abort>, stalled: bool)
    requires state.cursor < |state.src.text| && res.Valid() && res.Truncates() && res.IsOk()
    requires |done0| <= |coll.items| && coll.items[..|done0|] == done0
    requires Tracks(whole, coll.items[|done0|..], Analysis(state.src, state.cursor, spaces, comments, reading, state.maps))
    requires Reported(res, Scanned([], state.cursor, false, None), state.src, reading, code0, ref0, req0)
    modifies state, coll, res, res.msg
    ensures res.Valid() && res.Truncates()
    ensures |done0| <= |coll.items| && coll.items[..|done0|] == done0
    ensures Tracks(whole, coll.items[|done0|..], Remaining(state.src, state.cursor, true, stalled, aborted, spaces, comments, reading, state.maps))
    ensures state.cursor >= old(state.cursor) && (aborted.Some? || stalled ==> state.cursor == old(state.cursor))
    ensures !stalled && aborted.None? ==> res.IsOk() && state.cursor > old(state.cursor)
    ensures stalled ==> !res.IsOk() && aborted.None?
    ensures aborted.None? ==> Reported(res, Scanned([], state.cursor, stalled, None), state.src, reading, code0, ref0, req0)
  {
    var last := state.cursor;
    ghost var before := coll.items;
    TracksStep(whole, before[|done0|..], state.src, last, spaces, comments, reading, state.maps);
    var step := state.Round(coll, spaces, comments, reading);
    aborted, stalled := None, false;
    if step.Err? {
      aborted := Some(step.error);
    } else if last == state.cursor {
      ReportStall(res, state.src, state.cursor, reading);
      stalled := true;
    } else {
      assert coll.items[|done0|..] == before[|done0|..] + TokenOf(StepAt(state.src, last, spaces, comments, reading, state.maps).value);
    }
  }

  /** The whole run is the tokens so far followed by the run from the cursor. */
  ghost predicate Tracks(whole: Scanned, done: seq<Token>, rest: Scanned) {
    whole == rest.(tokens := done + rest.tokens)
  }

  /** One round keeps the whole run tracked: it aborts, stalls, or adds its token and moves on. */
  lemma TracksStep(whole: Scanned, done: seq<Token>, src: Source, c: nat, spaces: bool, comments: bool, reading: Reading, maps: Maps)
    requires c < |src.text| && Tracks(whole, done, Analysis(src, c, spaces, comments, reading, maps))
    ensures var r := StepAt(src, c, spaces, comments, reading, maps);
      (r.Err? ==> Tracks(whole, done, Scanned([], c, false, Some(r.error)))) &&
      (r.Ok? && r.value.next == c ==> r.value.token.None? && Tracks(whole, done, Scanned([], c, true, None))) &&
      (r.Ok? && r.value.next != c ==> Tracks(whole, done + TokenOf(r.value), Analysis(src, r.value.next, spaces, comments, reading, maps)))
  {
    StallMeaning(src, c, spaces, comments, reading, maps);
    var r := StepAt(src, c, spaces, comments, reading, maps);
    if r.Ok? && r.value.next != c {
      var rest := Analysis(src, r.value.next, spaces, comments, reading, maps);
      assert done + (TokenOf(r.value) + rest.tokens) == done + TokenOf(r.value) + rest.tokens;
    }
  }
}
