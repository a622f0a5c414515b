/**
 * `gvm/gvm_tokenizer.c`: the older revision of the language tokenizer.
 * The rounds are those of `adder/gvm_tokenizer.c` (space, comment,
 * string, number, identifier, symbol), with the token kinds of
 * `gvm/gvm_compiler_types.h`, smaller keyword and symbol maps, an
 * assertion of progress in `sweep_make_token` as well, and a loop that
 * stops at the first round that does not move the cursor. The result
 * says whether the cursor ended exactly at the end of the text.
 */
module GvmTokenizer {
  import opened Wrappers
  import opened AdderLexer
  import AT = AdderTokenizer
  import CoTypes
  import CoUtils
  import opened TokenList

  /** `token_type_t` of `gvm/gvm_compiler_types.h`, in declaration order. */
  datatype TokenType =
    | TtNothing | TtSpace | TtComment | TtSymbol | TtNumber | TtBoolean | TtSeparator | TtStatementEnd
    | TtString | TtArrow | TtAssign | TtKwIf | TtKwElse | TtKwFor | TtKwReturn | TtKwFunDef
    | TtKwAnd | TtKwOr | TtKwNot | TtCmpEq | TtCmpGtEq | TtCmpLtEq | TtLtOrOpenAbracket
    | TtGtOrCloseAbracket | TtOpenParen | TtCloseParen | TtOpenCurly | TtCloseCurly
    | TtOpenSbracket | TtCloseSbracket | TtInitial | TtFinal

  /** `token_t`: a kind and the stretch of the text it covers. */
  datatype Token = Token(kind: TokenType, ref: CoTypes.SrcRef)

  type Source = CoTypes.Source

  // ----- symbols -----

  /**
   * The pairs the symbol rule takes as one token. The arrow `->`; then a
   * comparison character followed, as written, by `>` (so `=>`, `<>` and
   * `>>`), or, corrected, by `=` (so `==`, `<=` and `>=`).
   */
  predicate TwoCharacterSymbol(a: char, b: char, reading: Reading) {
    (a == '-' && b == '>') ||
    ((a == '=' || a == '<' || a == '>') && b == (if reading == AsWritten then '>' else '='))
  }

  /** The length of a symbol token: two for those pairs, one otherwise. */
  function SymbolicLen(t: seq<char>, c: nat, reading: Reading): (n: nat)
    ensures n == 1 || n == 2
    ensures n == 2 ==> c + 1 < |t|
  {
    if c + 1 < |t| && TwoCharacterSymbol(t[c], t[c + 1], reading) then 2 else 1
  }

  /** `get_symbolic_token_len`: the arrow test, then the comparison test, else one character. */
  method GetSymbolicTokenLen(t: seq<char>, c: nat, reading: Reading) returns (n: nat)
    ensures n == SymbolicLen(t, c, reading)
  {
    if c + 1 < |t| {
      AT.MatchIsMinus(t[c]);
      AT.MatchIsGreaterThan(t[c + 1]);
      AT.MatchIsComparison(t[c]);
      AT.MatchIsEqual(t[c + 1]);
    }
    var second := if reading == AsWritten then LcatGreaterThan else LcatEqual;
    if AT.MatchCursorAndNext(t, c, Is(LcatMinus), Is(LcatGreaterThan)) {
      n := 2;
    } else if AT.MatchCursorAndNext(t, c, Is(LcatEqual | LcatLessThan | LcatGreaterThan), Is(second)) {
      n := 2;
    } else {
      n := 1;
    }
  }

  /** The word a symbol token covers. */
  function SymbolWord(t: seq<char>, c: nat, reading: Reading): string
    requires c < |t|
  {
    t[c..c + SymbolicLen(t, c, reading)]
  }

  /**
   * As written no symbol word is `==`, `<=` or `>=`: the three comparison
   * entries of the symbol map are never looked up.
   */
  lemma AsWrittenComparisonsUnreachable(t: seq<char>, c: nat)
    requires c < |t|
    ensures SymbolWord(t, c, AsWritten) != "==" && SymbolWord(t, c, AsWritten) != "<=" && SymbolWord(t, c, AsWritten) != ">="
  {
    var w := SymbolWord(t, c, AsWritten);
    if |w| == 2 {
      assert w[0] == t[c] && w[1] == t[c + 1];
      assert w[1] == '>';
    }
  }

  /** Corrected, a comparison character followed by `=` is one two-character symbol. */
  lemma CorrectedComparisonsReached(t: seq<char>, c: nat)
    requires c + 1 < |t| && (t[c] == '=' || t[c] == '<' || t[c] == '>') && t[c + 1] == '='
    ensures SymbolWord(t, c, Corrected) == [t[c], '=']
    ensures SymbolicLen(t, c, AsWritten) == 1 && SymbolWord(t, c, AsWritten) == [t[c]]
  {
  }

  // ----- keyword maps -----

  /** The pairs `create_keyword_token_map` inserts: each word maps to the kind at its index. */
  const AlphaWords: seq<string> := ["if", "else", "for", "fun", "true", "false", "not", "and", "or"]
  const AlphaKinds: seq<TokenType> := [TtKwIf, TtKwElse, TtKwFor, TtKwFunDef, TtBoolean, TtBoolean, TtKwNot, TtKwAnd, TtKwOr]

  /** The pairs `create_symbolic_token_map` inserts, in the same form. */
  const SymbolicWords: seq<string> :=
    ["->", "==", "<=", ">=", "<", ">", "(", ")", "{", "}", "[", "]", "=", ",", ";"]
  const SymbolicKinds: seq<TokenType> :=
    [TtArrow, TtCmpEq, TtCmpLtEq, TtCmpGtEq, TtLtOrOpenAbracket, TtGtOrCloseAbracket, TtOpenParen, TtCloseParen,
     TtOpenCurly, TtCloseCurly, TtOpenSbracket, TtCloseSbracket, TtAssign, TtSeparator, TtStatementEnd]

  /** A `srcmap_t` from words to token kinds, as the pairs inserted into it. */
  datatype WordMap = WordMap(words: seq<string>, kinds: seq<TokenType>)

  /** `kw_map_alpha` and `kw_map_symbolic` of the tokenizer state. */
  datatype Maps = Maps(alpha: WordMap, symbolic: WordMap)

  /** The two maps the state is created with. */
  const KeywordMaps: Maps := Maps(WordMap(AlphaWords, AlphaKinds), WordMap(SymbolicWords, SymbolicKinds))

  /** What a looked-up word becomes: its mapped kind, or a plain symbol. */
  function KindOf(m: WordMap, word: string): TokenType {
    match AT.Lookup(m.words, m.kinds, word)
    case Some(k) => k
    case None => TtSymbol
  }

  lemma AlphaWordsDistinct()
    ensures AT.DistinctKeys(AlphaWords)
  {
  }

  lemma SymbolicWordsDistinct()
    ensures AT.DistinctKeys(SymbolicWords)
  {
    forall i, j | 0 <= i < j < |SymbolicWords| ensures SymbolicWords[i] != SymbolicWords[j] {
      assert |SymbolicWords[i]| != |SymbolicWords[j]| || SymbolicWords[i][0] != SymbolicWords[j][0];
    }
  }

  /**
   * An identifier in the keyword map takes the mapped kind (`true` and
   * `false` are booleans, `not`/`and`/`or` keywords as well); any other
   * identifier is a symbol.
   */
  lemma AlphaKeywordKinds(word: string)
    ensures forall i :: 0 <= i < |AlphaWords| && AlphaWords[i] == word ==> KindOf(KeywordMaps.alpha, word) == AlphaKinds[i]
    ensures word !in AlphaWords ==> KindOf(KeywordMaps.alpha, word) == TtSymbol
  {
    AlphaWordsDistinct();
    AT.LookupMeaning(AlphaWords, AlphaKinds, word);
  }

  /** A symbol in the symbol map takes the mapped kind; any other symbol is a plain symbol. */
  lemma SymbolicKeywordKinds(word: string)
    ensures forall i :: 0 <= i < |SymbolicWords| && SymbolicWords[i] == word ==> KindOf(KeywordMaps.symbolic, word) == SymbolicKinds[i]
    ensures word !in SymbolicWords ==> KindOf(KeywordMaps.symbolic, word) == TtSymbol
  {
    SymbolicWordsDistinct();
    AT.LookupMeaning(SymbolicWords, SymbolicKinds, word);
  }

  /** A kind the map does not hold, other than a plain symbol, is never what a word becomes. */
  lemma KindOfAvoids(m: WordMap, word: string, kind: TokenType)
    requires |m.words| == |m.kinds| && kind != TtSymbol && kind !in m.kinds
    ensures KindOf(m, word) != kind
  {
    AT.LookupHeld(m.words, m.kinds, word);
  }

  /** The map holds no space and no comment kind, and pairs every word with one kind. */
  predicate NoLayoutMap(m: WordMap) {
    |m.words| == |m.kinds| && TtSpace !in m.kinds && TtComment !in m.kinds
  }

  /** Neither map holds a space or a comment kind. */
  predicate NoLayout(maps: Maps) {
    NoLayoutMap(maps.alpha) && NoLayoutMap(maps.symbolic)
  }

  lemma AlphaNoLayout()
    ensures NoLayoutMap(WordMap(AlphaWords, AlphaKinds))
  {
  }

  lemma SymbolicNoLayout()
    ensures NoLayoutMap(WordMap(SymbolicWords, SymbolicKinds))
  {
  }

  lemma KeywordMapsNoLayout()
    ensures NoLayout(KeywordMaps)
  {
    AlphaNoLayout();
    SymbolicNoLayout();
  }

  // ----- one round of the loop -----

  /** The token of a round, if it makes one, and where the cursor goes. */
  datatype Step = Step(token: Option<Token>, next: nat)

  /** The text of `assert(len > 0 && "unexpected sweep_while progress")`. */
  const SweepAssertion: string := "len > 0 && \"unexpected sweep_while progress\""

  /**
   * A swept run from `c`, past `offset` opening characters up to `e`, and
   * `trailing` more characters: a token of them, or, without `kind`,
   * nothing. As written both `sweep_make_token` and `sweep_discard_token`
   * assert that the run past the opening is not empty, which an empty
   * string or comment breaks; corrected they only move the cursor.
   */
  function Swept(src: Source, c: nat, offset: nat, e: nat, trailing: nat, kind: Option<TokenType>, reading: Reading): Result<Step, Abort>
    requires c + offset <= e
  {
    if reading == AsWritten && e == c + offset then Err(AssertFailed(SweepAssertion))
    else if kind.Some? then Ok(Step(Some(Token(kind.value, CoUtils.MkSrcRef(src, c, e + trailing - c))), e + trailing))
    else Ok(Step(None, e + trailing))
  }

  /** A `kind` token when the flag keeps it, nothing otherwise. */
  function KeptKind(keep: bool, kind: TokenType): Option<TokenType> {
    if keep then Some(kind) else None
  }

  /**
   * One round at cursor `c`: the first rule whose test holds: whitespace,
   * `//`, a quote, a digit, a letter or underscore, another printable
   * character.
   */
  function StepAt(src: Source, c: nat, spaces: bool, comments: bool, reading: Reading, maps: Maps): (r: Result<Step, Abort>)
    requires c < |src.text|
  {
    var t := src.text;
    if IsWhitespace(t[c]) then
      Swept(src, c, 0, AT.RunEnd(t, c, AT.Whitespace), 0, KeptKind(spaces, TtSpace), reading)
    else if c + 1 < |t| && t[c] == '/' && t[c + 1] == '/' then
      Swept(src, c, 2, AT.RunEnd(t, c + 2, AT.NotNewline), 1, KeptKind(comments, TtComment), reading)
    else if t[c] == '"' then
      Swept(src, c, 1, AT.RunEnd(t, c + 1, AT.NotQuote), 1, Some(TtString), reading)
    else if IsNumber(t[c]) then
      Swept(src, c, 0, AT.RunEnd(t, c, AT.DigitOrDot), 0, Some(TtNumber), reading)
    else if IsLetter(t[c]) || t[c] == '_' then
      var e := AT.RunEnd(t, c, AT.WordChar);
      Ok(Step(Some(Token(KindOf(maps.alpha, t[c..e]), CoUtils.MkSrcRef(src, c, e - c))), e))
    else if IsSymbolic(t[c]) then
      var len := SymbolicLen(t, c, reading);
      Ok(Step(Some(Token(KindOf(maps.symbolic, SymbolWord(t, c, reading)), CoUtils.MkSrcRef(src, c, len))), c + len))
    else Ok(Step(None, c))
  }

  /**
   * Every round that does not abort moves the cursor forward, except at a
   * character that is neither whitespace nor printable (33..126), where no
   * rule applies and no token is made.
   */
  lemma StallMeaning(src: Source, c: nat, spaces: bool, comments: bool, reading: Reading, maps: Maps)
    requires c < |src.text|
    ensures var r := StepAt(src, c, spaces, comments, reading, maps);
      r.Ok? ==> (r.value.next >= c && (r.value.next == c <==> !IsWhitespace(src.text[c]) && !IsSymbolic(src.text[c])) &&
                 (r.value.next == c ==> r.value.token.None?))
  {
    AT.RunEndMeaning(src.text, c, AT.Whitespace);
  }

  /**
   * At whitespace the space rule applies: a token of the whole run exactly
   * when spaces are kept, the run skipped otherwise; the run is never
   * empty, so the assertion holds.
   */
  lemma SpaceRule(src: Source, c: nat, spaces: bool, comments: bool, reading: Reading, maps: Maps)
    requires c < |src.text| && IsWhitespace(src.text[c])
    ensures var r := StepAt(src, c, spaces, comments, reading, maps); var e := AT.RunEnd(src.text, c, AT.Whitespace);
      r.Ok? && r.value.next == e > c &&
      (spaces <==> r.value.token == Some(Token(TtSpace, CoUtils.MkSrcRef(src, c, e - c))))
  {
  }

  /**
   * At `//` the comment rule applies: the line up to and one past its end,
   * as a token when comments are kept; as written an empty comment fails
   * the assertion whether or not comments are kept.
   */
  lemma CommentRule(src: Source, c: nat, spaces: bool, comments: bool, reading: Reading, maps: Maps)
    requires c + 1 < |src.text| && src.text[c] == '/' && src.text[c + 1] == '/'
    ensures var r := StepAt(src, c, spaces, comments, reading, maps); var e := AT.RunEnd(src.text, c + 2, AT.NotNewline);
      (reading == AsWritten && e == c + 2 ==> r == Err(AssertFailed(SweepAssertion))) &&
      (reading == Corrected || e > c + 2 ==>
         r == Ok(Step(if comments then Some(Token(TtComment, CoUtils.MkSrcRef(src, c, e + 1 - c))) else None, e + 1)))
  {
  }

  /**
   * At a quote the string rule applies: the text up to the closing quote,
   * both quotes included; as written an empty string fails the assertion.
   */
  lemma StringRule(src: Source, c: nat, spaces: bool, comments: bool, reading: Reading, maps: Maps)
    requires c < |src.text| && src.text[c] == '"'
    ensures var r := StepAt(src, c, spaces, comments, reading, maps); var e := AT.RunEnd(src.text, c + 1, AT.NotQuote);
      (reading == AsWritten && e == c + 1 ==> r == Err(AssertFailed(SweepAssertion))) &&
      (reading == Corrected || e > c + 1 ==> r == Ok(Step(Some(Token(TtString, CoUtils.MkSrcRef(src, c, e + 1 - c))), e + 1)))
  {
  }

  // ----- the whole text -----

  /** What the rounds from a cursor give: the tokens, the cursor at the end, and whether a round stalled or aborted. */
  datatype Scanned = Scanned(tokens: seq<Token>, cursor: nat, stalled: bool, abort: Option<Abort>)

  function TokenOf(s: Step): seq<Token> {
    if s.token.Some? then [s.token.value] else []
  }

  /** The rounds of `tokenizer_analyze` from cursor `c`, up to the end of the text or the first round that stalls. */
  function Analysis(src: Source, c: nat, spaces: bool, comments: bool, reading: Reading, maps: Maps): (s: Scanned)
    decreases |src.text| - c
  {
    if c >= |src.text| then Scanned([], c, false, None)
    else
      match StepAt(src, c, spaces, comments, reading, maps)
      case Err(a) => Scanned([], c, false, Some(a))
      case Ok(st) =>
        if st.next <= c then Scanned([], c, true, None)
        else
          var rest := Analysis(src, st.next, spaces, comments, reading, maps);
          rest.(tokens := TokenOf(st) + rest.tokens)
  }

  /** The `TT_FINAL` token: at the last index of the text, empty. */
  function FinalToken(src: Source): Token {
    Token(TtFinal, CoUtils.MkSrcRef(src, if |src.text| > 0 then |src.text| - 1 else 0, 0))
  }

  /**
   * A run that ends without an abort ends on a stall inside the text, or
   * at or past its end; past it only when the text ends inside a string or
   * a comment, whose closing character is counted all the same.
   */
  lemma {:induction false} AnalysisEnds(src: Source, c: nat, spaces: bool, comments: bool, reading: Reading, maps: Maps)
    requires c <= |src.text|
    ensures var s := Analysis(src, c, spaces, comments, reading, maps);
      s.abort.None? ==> (s.stalled ==> s.cursor < |src.text|) && (!s.stalled ==> |src.text| <= s.cursor <= |src.text| + 1)
    decreases |src.text| - c
  {
    if c < |src.text| {
      var r := StepAt(src, c, spaces, comments, reading, maps);
      if r.Ok? && r.value.next > c {
        NextWithinOne(src, c, spaces, comments, reading, maps);
        if r.value.next <= |src.text| {
          AnalysisEnds(src, r.value.next, spaces, comments, reading, maps);
        }
      }
    }
  }

  /** A round moves the cursor at most one past the end of the text. */
  lemma NextWithinOne(src: Source, c: nat, spaces: bool, comments: bool, reading: Reading, maps: Maps)
    requires c < |src.text|
    ensures var r := StepAt(src, c, spaces, comments, reading, maps);
      r.Ok? ==> r.value.next <= |src.text| + 1 && (r.value.next > |src.text| ==> src.text[c] == '"' || src.text[c] == '/')
  {
  }

  /**
   * The text ends inside a string: the string token takes one character
   * more than the text has, and the run ends past the end of the text.
   */
  lemma UnterminatedStringOverruns(src: Source, spaces: bool, comments: bool, reading: Reading, maps: Maps)
    requires src.text == "\"a"
    ensures Analysis(src, 0, spaces, comments, reading, maps) == Scanned([Token(TtString, CoUtils.MkSrcRef(src, 0, 3))], 3, false, None)
  {
    assert AT.RunEnd(src.text, 1, AT.NotQuote) == 2 by {
      assert AT.RunEnd(src.text, 2, AT.NotQuote) == 2;
    }
  }

  /** A token the flags let through: a space only with `spaces`, a comment only with `comments`. */
  predicate Kept(tok: Token, spaces: bool, comments: bool) {
    (tok.kind == TtSpace ==> spaces) && (tok.kind == TtComment ==> comments)
  }

  /** A round makes a space token only with `spaces` and a comment token only with `comments`. */
  lemma StepLayout(src: Source, c: nat, spaces: bool, comments: bool, reading: Reading, maps: Maps)
    requires c < |src.text| && NoLayout(maps)
    ensures var r := StepAt(src, c, spaces, comments, reading, maps);
      r.Ok? ==> forall k :: 0 <= k < |TokenOf(r.value)| ==> Kept(TokenOf(r.value)[k], spaces, comments)
  {
    var t := src.text;
    if !IsWhitespace(t[c]) && !(c + 1 < |t| && t[c] == '/' && t[c + 1] == '/') && t[c] != '"' && !IsNumber(t[c]) {
      if IsLetter(t[c]) || t[c] == '_' {
        KindOfAvoids(maps.alpha, t[c..AT.RunEnd(t, c, AT.WordChar)], TtSpace);
        KindOfAvoids(maps.alpha, t[c..AT.RunEnd(t, c, AT.WordChar)], TtComment);
      } else if IsSymbolic(t[c]) {
        KindOfAvoids(maps.symbolic, SymbolWord(t, c, reading), TtSpace);
        KindOfAvoids(maps.symbolic, SymbolWord(t, c, reading), TtComment);
      }
    }
  }

  /** Without the flags no space and no comment token is made: those runs are skipped. */
  lemma {:induction false} FlagsKeepOut(src: Source, c: nat, spaces: bool, comments: bool, reading: Reading, maps: Maps)
    requires NoLayout(maps)
    ensures var s := Analysis(src, c, spaces, comments, reading, maps);
      forall i :: 0 <= i < |s.tokens| ==> Kept(s.tokens[i], spaces, comments)
    decreases |src.text| - c
  {
    if c < |src.text| {
      var r := StepAt(src, c, spaces, comments, reading, maps);
      if r.Ok? && r.value.next > c {
        FlagsKeepOut(src, r.value.next, spaces, comments, reading, maps);
        StepLayout(src, c, spaces, comments, reading, maps);
        var first: seq<Token> := TokenOf(r.value);
        var rest: seq<Token> := Analysis(src, r.value.next, spaces, comments, reading, maps).tokens;
        assert var s := Analysis(src, r.value.next, spaces, comments, reading, maps);
          forall i :: 0 <= i < |s.tokens| ==> Kept(s.tokens[i], spaces, comments);
        assert forall j :: 0 <= j < |rest| ==> Kept(rest[j], spaces, comments);
        assert Analysis(src, c, spaces, comments, reading, maps).tokens == first + rest;
        forall i | 0 <= i < |first + rest|
          ensures Kept((first + rest)[i], spaces, comments)
        {
          if i < |first| {
            assert (first + rest)[i] == first[i];
            assert Kept(first[i], spaces, comments);
          } else {
            assert Kept(rest[i - |first|], spaces, comments);
            assert (first + rest)[i] == rest[i - |first|];
          }
        }
      }
    }
  }

  /** With the maps the state is created with, the flags alone decide whether space and comment tokens appear. */
  lemma TokensKeptOut(src: Source, spaces: bool, comments: bool, reading: Reading)
    ensures var s := Analysis(src, 0, spaces, comments, reading, KeywordMaps);
      forall i :: 0 <= i < |s.tokens| ==> Kept(s.tokens[i], spaces, comments)
  {
    KeywordMapsNoLayout();
    FlagsKeepOut(src, 0, spaces, comments, reading, KeywordMaps);
  }

  /**
   * An empty string: as written the assertion of `sweep_make_token`
   * fails; corrected it is one string token and the text is consumed.
   */
  lemma EmptyStringAborts(src: Source, spaces: bool, comments: bool, maps: Maps)
    requires src.text == "\"\""
    ensures Analysis(src, 0, spaces, comments, AsWritten, maps).abort == Some(AssertFailed(SweepAssertion))
    ensures Analysis(src, 0, spaces, comments, Corrected, maps) == Scanned([Token(TtString, CoUtils.MkSrcRef(src, 0, 2))], 2, false, None)
  {
    StringRule(src, 0, spaces, comments, AsWritten, maps);
    StringRule(src, 0, spaces, comments, Corrected, maps);
    assert AT.RunEnd(src.text, 1, AT.NotQuote) == 1;
  }

  /**
   * An empty comment: as written the assertion fails, with or without
   * comment tokens; corrected the line is consumed.
   */
  lemma EmptyCommentAborts(src: Source, spaces: bool, comments: bool, maps: Maps)
    requires src.text == "//\n"
    ensures Analysis(src, 0, spaces, comments, AsWritten, maps).abort == Some(AssertFailed(SweepAssertion))
    ensures var s := Analysis(src, 0, spaces, comments, Corrected, maps); s.cursor == 3 && s.abort.None? && !s.stalled
  {
    CommentRule(src, 0, spaces, comments, AsWritten, maps);
    CommentRule(src, 0, spaces, comments, Corrected, maps);
    assert AT.RunEnd(src.text, 2, AT.NotNewline) == 2;
  }

  // ----- the tokenizer state -----

  /** `tokenizer_state_t`: the text, the cursor and the two keyword maps. */
  class Tokenizer {
    const src: Source
    const maps: Maps
    var cursor: nat

    /** The state `tokenizer_analyze` starts from: the cursor at 0 and the two maps created. */
    constructor (src: Source)
      ensures this.src == src && maps == KeywordMaps && cursor == 0
    {
      this.src := src;
      maps := KeywordMaps;
      cursor := 0;
    }

    /** `sweep_make_token` (with `kind`) and `sweep_discard_token` (without): the run and `trailing` more characters. */
    method Sweep(offset: nat, trailing: nat, cl: AT.Class, kind: Option<TokenType>, reading: Reading) returns (r: Result<Option<Token>, Abort>)
      requires cursor + offset <= |src.text|
      modifies this
      ensures match Swept(src, old(cursor), offset, AT.RunEnd(src.text, old(cursor) + offset, cl), trailing, kind, reading)
        case Ok(s) => r == Ok(s.token) && cursor == s.next
        case Err(a) => r == Err(a) && cursor == old(cursor)
    {
      var start := cursor;
      var len := AT.SweepWhile(src.text, cursor + offset, cl);
      if reading == AsWritten && len == 0 {
        return Err(AssertFailed(SweepAssertion));
      }
      len := len + offset + trailing;
      cursor := start + len;
      if kind.Some? {
        r := Ok(Some(Token(kind.value, CoUtils.MkSrcRef(src, start, len))));
      } else {
        r := Ok(None);
      }
    }

    /** `lookup_alpha_token`: a word, typed by the keyword map; its assertion of progress always holds. */
    method LookupAlphaToken() returns (t: Token)
      requires cursor < |src.text| && AT.InClass(AT.WordStart, src.text[cursor])
      modifies this
      ensures var e := AT.RunEnd(src.text, old(cursor), AT.WordChar);
        cursor == e && t == Token(KindOf(maps.alpha, src.text[old(cursor)..e]), CoUtils.MkSrcRef(src, old(cursor), e - old(cursor)))
    {
      var start := cursor;
      var len := AT.SweepWhile(src.text, cursor, AT.WordChar);
      assert len > 0;
      cursor := start + len;
      var ref := CoUtils.MkSrcRef(src, start, len);
      t := Token(KindOf(maps.alpha, src.text[start..start + len]), ref);
    }

    /** `lookup_symbolic_token`: one or two characters, typed by the symbol map. */
    method LookupSymbolicToken(reading: Reading) returns (t: Token)
      requires cursor < |src.text|
      modifies this
      ensures var len := SymbolicLen(src.text, old(cursor), reading);
        cursor == old(cursor) + len && t == Token(KindOf(maps.symbolic, SymbolWord(src.text, old(cursor), reading)), CoUtils.MkSrcRef(src, old(cursor), len))
    {
      var start := cursor;
      var len := GetSymbolicTokenLen(src.text, cursor, reading);
      cursor := start + len;
      t := Token(KindOf(maps.symbolic, src.text[start..start + len]), CoUtils.MkSrcRef(src, start, len));
    }

    /** A round that ended as `step` says, from cursor `c0` and tokens `items0`. */
    ghost predicate Follows(step: Result<Step, Abort>, r: Result<(), Abort>, c0: nat, items0: seq<Token>, items: seq<Token>)
      reads this
    {
      match step
      case Ok(s) => r.Ok? && cursor == s.next && items == items0 + TokenOf(s)
      case Err(a) => r == Err(a) && cursor == c0 && items == items0
    }

    /** One round of the loop of `tokenizer_analyze`: the first rule that applies. */
    method Round(coll: TokenList<Token>, spaces: bool, comments: bool, reading: Reading) returns (r: Result<(), Abort>)
      requires cursor < |src.text|
      modifies this, coll
      ensures Follows(StepAt(src, old(cursor), spaces, comments, reading, maps), r, old(cursor), old(coll.items), coll.items)
    {
      var space := AT.MatchCursor(src.text, cursor, AT.Whitespace);
      var comment := AT.MatchCursorAndNextClass(src.text, cursor, AT.Slash, AT.Slash);
      var quote := AT.MatchCursor(src.text, cursor, AT.Quote);
      var digit := AT.MatchCursor(src.text, cursor, AT.Digit);
      if space || comment || quote || digit {
        r := SweepRound(coll, spaces, comments, reading, space, comment, quote);
      } else {
        r := WordRound(coll, spaces, comments, reading);
      }
    }

    /** The space, comment, string and number rules: each sweeps a run. */
    method SweepRound(coll: TokenList<Token>, spaces: bool, comments: bool, reading: Reading, space: bool, comment: bool, quote: bool)
      returns (r: Result<(), Abort>)
      requires cursor < |src.text|
      requires space <==> IsWhitespace(src.text[cursor])
      requires comment <==> cursor + 1 < |src.text| && src.text[cursor] == '/' && src.text[cursor + 1] == '/'
      requires quote <==> src.text[cursor] == '"'
      requires space || comment || quote || IsNumber(src.text[cursor])
      modifies this, coll
      ensures Follows(StepAt(src, old(cursor), spaces, comments, reading, maps), r, old(cursor), old(coll.items), coll.items)
    {
      var swept;
      if space {
        swept := Sweep(0, 0, AT.Whitespace, KeptKind(spaces, TtSpace), reading);
      } else if comment {
        swept := Sweep(2, 1, AT.NotNewline, KeptKind(comments, TtComment), reading);
      } else if quote {
        swept := Sweep(1, 1, AT.NotQuote, Some(TtString), reading);
      } else {
        swept := Sweep(0, 0, AT.DigitOrDot, Some(TtNumber), reading);
      }
      if swept.Err? {
        return Err(swept.error);
      }
      if swept.value.Some? {
        coll.Append(swept.value.value);
      }
      r := Ok(());
    }

    /** The word and symbol rules, at a character that starts no sweep. */
    method WordRound(coll: TokenList<Token>, spaces: bool, comments: bool, reading: Reading) returns (r: Result<(), Abort>)
      requires cursor < |src.text| && !IsWhitespace(src.text[cursor]) && src.text[cursor] != '"' && !IsNumber(src.text[cursor])
      requires !(cursor + 1 < |src.text| && src.text[cursor] == '/' && src.text[cursor + 1] == '/')
      modifies this, coll
      ensures Follows(StepAt(src, old(cursor), spaces, comments, reading, maps), r, old(cursor), old(coll.items), coll.items)
    {
      r := Ok(());
      var word := AT.MatchCursor(src.text, cursor, AT.WordStart);
      var symbol := AT.MatchCursor(src.text, cursor, AT.Printable);
      if word {
        var tok := LookupAlphaToken();
        coll.Append(tok);
      } else if symbol {
        var tok := LookupSymbolicToken(reading);
        coll.Append(tok);
      }
    }
  }

  /**
   * `tokenizer_analyze`: `TT_INITIAL`, the tokens of the rounds and
   * `TT_FINAL`; the result says whether the cursor ended exactly at the
   * end of the text, which a stalled round or a text ending inside a
   * string or comment prevents.
   */
  method Analyze(coll: TokenList<Token>, src: Source, spaces: bool, comments: bool, reading: Reading)
    returns (r: Result<bool, Abort>)
    modifies coll
    ensures var s := Analysis(src, 0, spaces, comments, reading, KeywordMaps);
      match s.abort
      case Some(a) => r == Err(a)
      case None =>
        r == Ok(s.cursor == |src.text|) &&
        coll.items == old(coll.items) + [Token(TtInitial, CoUtils.MkSrcRef(src, 0, 0))] + s.tokens + [FinalToken(src)]
  {
    coll.Append(Token(TtInitial, CoUtils.MkSrcRef(src, 0, 0)));
    var state := new Tokenizer(src);
    var aborted := Rounds(state, coll, spaces, comments, reading);
    if aborted.Some? {
      return Err(aborted.value);
    }
    coll.Append(FinalToken(src));
    r := Ok(state.cursor == |src.text|);
  }

  /** `Analyze` answers true exactly when no round stalled and the last round ended at the end of the text. */
  lemma AnalyzeMeaning(src: Source, spaces: bool, comments: bool, reading: Reading)
    ensures var s := Analysis(src, 0, spaces, comments, reading, KeywordMaps);
      s.abort.None? ==> (s.cursor == |src.text| <==> !s.stalled && s.cursor <= |src.text|)
  {
    AnalysisEnds(src, 0, spaces, comments, reading, KeywordMaps);
  }

  /** The loop of `tokenizer_analyze`: rounds while the cursor is inside the text, up to the first that stalls. */
  method Rounds(state: Tokenizer, coll: TokenList<Token>, spaces: bool, comments: bool, reading: Reading)
    returns (aborted: Option<Abort>)
    modifies state, coll
    ensures var s := Analysis(state.src, old(state.cursor), spaces, comments, reading, state.maps);
      aborted == s.abort &&
      (s.abort.None? ==> coll.items == old(coll.items) + s.tokens && state.cursor == s.cursor)
  {
    ghost var done0 := coll.items;
    ghost var whole := Analysis(state.src, state.cursor, spaces, comments, reading, state.maps);
    while state.cursor < |state.src.text|
      invariant |done0| <= |coll.items| && coll.items[..|done0|] == done0
      invariant Tracks(whole, coll.items[|done0|..], Analysis(state.src, state.cursor, spaces, comments, reading, state.maps))
      decreases |state.src.text| - state.cursor
    {
      var last := state.cursor;
      var step := Turn(state, coll, spaces, comments, reading, whole, done0);
      if step.Err? {
        return Some(step.error);
      }
      if last == state.cursor {
        return None;
      }
    }
    aborted := None;
  }

  /** The body of the loop: a round, which aborts, stalls or moves the cursor on. */
  method Turn(state: Tokenizer, coll: TokenList<Token>, spaces: bool, comments: bool, reading: Reading,
              ghost whole: Scanned, ghost done0: seq<Token>)
    returns (r: Result<(), Abort>)
    requires state.cursor < |state.src.text|
    requires |done0| <= |coll.items| && coll.items[..|done0|] == done0
    requires Tracks(whole, coll.items[|done0|..], Analysis(state.src, state.cursor, spaces, comments, reading, state.maps))
    modifies state, coll
    ensures |done0| <= |coll.items| && coll.items[..|done0|] == done0
    ensures r.Err? ==> Tracks(whole, coll.items[|done0|..], Scanned([], state.cursor, false, Some(r.error)))
    ensures r.Ok? && state.cursor == old(state.cursor) ==> Tracks(whole, coll.items[|done0|..], Scanned([], state.cursor, true, None))
    ensures r.Ok? && state.cursor != old(state.cursor) ==>
      state.cursor > old(state.cursor) &&
      Tracks(whole, coll.items[|done0|..], Analysis(state.src, state.cursor, spaces, comments, reading, state.maps))
  {
    var last := state.cursor;
    ghost var before := coll.items;
    TracksStep(whole, before[|done0|..], state.src, last, spaces, comments, reading, state.maps);
    r := state.Round(coll, spaces, comments, reading);
    if r.Ok? && last != state.cursor {
      assert coll.items[|done0|..] == before[|done0|..] + TokenOf(StepAt(state.src, last, spaces, comments, reading, state.maps).value);
    }
  }

  /** The whole run is the tokens so far followed by the run from the cursor. */
  ghost predicate Tracks(whole: Scanned, done: seq<Token>, rest: Scanned) {
    whole == rest.(tokens := done + rest.tokens)
  }

  /** One round keeps the whole run tracked: it aborts, stalls, or adds its token and moves on. */
  lemma TracksStep(whole: Scanned, done: seq<Token>, src: Source, c: nat, spaces: bool, comments: bool, reading: Reading, maps: Maps)
    requires c < |src.text| && Tracks(whole, done, Analysis(src, c, spaces, comments, reading, maps))
    ensures var r := StepAt(src, c, spaces, comments, reading, maps);
      (r.Err? ==> Tracks(whole, done, Scanned([], c, false, Some(r.error)))) &&
      (r.Ok? && r.value.next == c ==> r.value.token.None? && Tracks(whole, done, Scanned([], c, true, None))) &&
      (r.Ok? && r.value.next != c ==> Tracks(whole, done + TokenOf(r.value), Analysis(src, r.value.next, spaces, comments, reading, maps)))
  {
    StallMeaning(src, c, spaces, comments, reading, maps);
    var r := StepAt(src, c, spaces, comments, reading, maps);
    if r.Ok? && r.value.next != c {
      var rest := Analysis(src, r.value.next, spaces, comments, reading, maps);
      assert done + (TokenOf(r.value) + rest.tokens) == done + TokenOf(r.value) + rest.tokens;
    }
  }
}
