/**
 * `gvm/gvm_parser.c`: the assembler's scanner, state-machine tokenizer and
 * token cursor. Every character is classified into a lexeme, the lexeme
 * moves the tokenizer state, and a token is pushed whenever the type of
 * the state changes. Tokens hold only the index, line and column where
 * they start; the length of a token is the distance to the next one.
 */
module GvmParser {
  import opened Wrappers
  import ShUtils
  import CoCres

  /** `lexeme_t`. */
  datatype Lexeme = LLetter | LNumber | LDash | LDot | LLparen | LRparen | LQuote | LColon | LPundSign | LWhitespace | LNewline | LUnknown

  predicate IsNumeric(c: char) { '0' <= c <= '9' }

  predicate IsAlpha(c: char) { 'A' <= c <= 'Z' || 'a' <= c <= 'z' }

  /** `scan`: the lexeme of a character. */
  function Scan(c: char): (l: Lexeme)
    ensures l == LNumber <==> IsNumeric(c)
    ensures l == LLetter <==> IsAlpha(c)
    ensures l == LNewline <==> c == '\n'
    ensures l == LWhitespace <==> c == ' ' || c == '\t'
    ensures l == LUnknown <==> !IsNumeric(c) && !IsAlpha(c) && !(c in ":\"-.\n \t#()")
  {
    match c
    case ':' => LColon
    case '"' => LQuote
    case '-' => LDash
    case '.' => LDot
    case '\n' => LNewline
    case ' ' => LWhitespace
    case '\t' => LWhitespace
    case '#' => LPundSign
    case '(' => LLparen
    case ')' => LRparen
    case _ => if IsNumeric(c) then LNumber else if IsAlpha(c) then LLetter else LUnknown
  }

  /** `tok_state_t`. */
  datatype TokState = TsInit | TsQuoted | TsComment | TsNumber | TsSymbol | TsVec2 | TsSeparator | TsColon | TsError

  /** `state_update_t`: the new state, the state it came from, and whether the character still belongs to the token of that state. */
  datatype StateUpdate = StateUpdate(state: TokState, prev: TokState, partOfPrev: bool)

  predicate IsSeparator(l: Lexeme) { l == LNewline || l == LWhitespace }

  predicate IsNumberPart(l: Lexeme) { l == LNumber || l == LDot }

  predicate IsSymbolPart(l: Lexeme) { l == LLetter || l == LNumber || l == LDash }

  /**
   * `get_new_state`. The update always records the state it came from; the
   * character belongs to the previous token exactly when it closes a
   * string or a vector; the start state is never re-entered; and from the
   * start state only a letter, a digit, layout, `#` and `(` are accepted.
   */
  function NewState(state: TokState, lex: Lexeme): (u: StateUpdate)
    ensures u.prev == state && u.state != TsInit
    ensures u.partOfPrev <==> (state == TsQuoted && lex == LQuote) || (state == TsVec2 && lex == LRparen)
    ensures state == TsInit ==> (u.state != TsError <==> lex in {LLetter, LNumber, LNewline, LWhitespace, LPundSign, LLparen})
    ensures state == TsError ==> u.state == TsError
  {
    match state
    case TsInit =>
      (match lex
       case LLetter => StateUpdate(TsSymbol, state, false)
       case LNumber => StateUpdate(TsNumber, state, false)
       case LNewline => StateUpdate(TsSeparator, state, false)
       case LWhitespace => StateUpdate(TsSeparator, state, false)
       case LPundSign => StateUpdate(TsComment, state, false)
       case LLparen => StateUpdate(TsVec2, state, false)
       case _ => StateUpdate(TsError, state, false))
    case TsComment =>
      if lex != LNewline then StateUpdate(TsComment, state, false) else StateUpdate(TsSeparator, state, false)
    case TsQuoted =>
      if lex != LQuote then StateUpdate(TsQuoted, state, false) else StateUpdate(TsSeparator, state, true)
    case TsNumber =>
      if IsNumberPart(lex) then StateUpdate(TsNumber, state, false)
      else if IsSeparator(lex) then StateUpdate(TsSeparator, state, false)
      else StateUpdate(TsError, state, false)
    case TsSymbol =>
      if IsSymbolPart(lex) then StateUpdate(TsSymbol, state, false)
      else if IsSeparator(lex) then StateUpdate(TsSeparator, state, false)
      else if lex == LColon then StateUpdate(TsColon, state, false)
      else StateUpdate(TsError, state, false)
    case TsColon =>
      if IsSeparator(lex) then StateUpdate(TsSeparator, state, false)
      else if lex == LPundSign then StateUpdate(TsComment, state, false)
      else StateUpdate(TsError, state, false)
    case TsVec2 =>
      if lex != LRparen then StateUpdate(TsVec2, state, false) else StateUpdate(TsSeparator, state, true)
    case TsSeparator =>
      if IsSeparator(lex) then StateUpdate(TsSeparator, state, false)
      else
        (match lex
         case LDash => StateUpdate(TsNumber, state, false)
         case LNumber => StateUpdate(TsNumber, state, false)
         case LPundSign => StateUpdate(TsComment, state, false)
         case LQuote => StateUpdate(TsQuoted, state, false)
         case LLetter => StateUpdate(TsSymbol, state, false)
         case LLparen => StateUpdate(TsVec2, state, false)
         case _ => StateUpdate(TsError, state, false))
    case TsError => StateUpdate(TsError, state, false)
  }

  /** After a separator a dash or a digit starts a number, a quote a string, a letter a symbol, `#` a comment and `(` a vector. */
  lemma AfterSeparator(lex: Lexeme)
    ensures NewState(TsSeparator, lex).state == TsNumber <==> lex == LDash || lex == LNumber
    ensures NewState(TsSeparator, lex).state == TsQuoted <==> lex == LQuote
    ensures NewState(TsSeparator, lex).state == TsSymbol <==> lex == LLetter
    ensures NewState(TsSeparator, lex).state == TsError <==> lex in {LDot, LRparen, LColon, LUnknown}
  {
  }

  /**
   * `token_type_t`, with the two kinds this tokenizer pushes and the type
   * header lacks (`TT_COMMENT`, `TT_VEC2`) last.
   */
  datatype TokenType = TtUnknown | TtColon | TtNumber | TtString | TtSymbol | TtSeparator | TtEnd | TtComment | TtVec2

  /** `state_to_type`: only the start and the error state have no token type. */
  function StateToType(s: TokState): (t: TokenType)
    ensures t == TtUnknown <==> s == TsInit || s == TsError
    ensures t != TtEnd
  {
    match s
    case TsComment => TtComment
    case TsQuoted => TtString
    case TsNumber => TtNumber
    case TsVec2 => TtVec2
    case TsSymbol => TtSymbol
    case TsColon => TtColon
    case TsSeparator => TtSeparator
    case _ => TtUnknown
  }

  /** The type a character is counted under: that of the previous state when it closes the previous token. */
  function TypeOf(u: StateUpdate): TokenType {
    if u.partOfPrev then StateToType(u.prev) else StateToType(u.state)
  }

  /** A closing quote is typed as a string and a closing parenthesis as a vector. */
  lemma ClosersBelongToTheirToken()
    ensures TypeOf(NewState(TsQuoted, LQuote)) == TtString && NewState(TsQuoted, LQuote).state == TsSeparator
    ensures TypeOf(NewState(TsVec2, LRparen)) == TtVec2 && NewState(TsVec2, LRparen).state == TsSeparator
  {
  }

  /** `token_t`: its type, where it starts in the text (index, 1-based line and column), and its place in the token list. */
  datatype Token = Token(kind: TokenType, srcIndex: int, line: int, column: int, index: int)

  /** `gvm_result_t`. */
  datatype GvmResult = ResOk | ResOutOfMemory | ResError

  /** What `tokens_push_on_change` leaves: a new token only when the type differs from the last one, or the last is unknown or absent. */
  function PushedOnChange(toks: seq<Token>, tt: TokenType, line: int, column: int, index: int): seq<Token> {
    var last := if |toks| > 0 then toks[|toks| - 1].kind else TtUnknown;
    if last != tt || last == TtUnknown then toks + [Token(tt, index, line, column, |toks|)] else toks
  }

  // ----- the whole text -----

  /** The lexeme fed at step `i`: the character there, or the virtual newline after the text. */
  function LexemeAt(text: seq<char>, i: nat): Lexeme {
    if i < |text| then Scan(text[i]) else LNewline
  }

  /** The tokens of a run and the state it ends in; `TsError` when it stopped at an invalid character. */
  datatype Lexing = Lexing(tokens: seq<Token>, state: TokState)

  /**
   * The loop of `tokenize` from step `i`: one step per character and one
   * for the virtual newline, stopping at the error state; each step pushes
   * the type of the character on change, at the line and column of its
   * index.
   */
  function Lex(text: seq<char>, i: nat, state: TokState, toks: seq<Token>): Lexing
    requires i <= |text| + 1
    decreases |text| + 1 - i
  {
    if i > |text| then Lexing(toks, state)
    else
      var u := NewState(state, LexemeAt(text, i));
      if u.state == TsError then Lexing(toks, TsError)
      else
        var lc := CoCres.LineColumn(text, i);
        Lex(text, i + 1, u.state, PushedOnChange(toks, TypeOf(u), lc.0, lc.1, i))
  }

  /** One step of a run: stop at the error state, or push and go on to the next index. */
  lemma LexStep(text: seq<char>, i: nat, state: TokState, toks: seq<Token>)
    requires i <= |text|
    ensures var u := NewState(state, LexemeAt(text, i));
      var lc := CoCres.LineColumn(text, i);
      Lex(text, i, state, toks) ==
        if u.state == TsError then Lexing(toks, TsError)
        else Lex(text, i + 1, u.state, PushedOnChange(toks, TypeOf(u), lc.0, lc.1, i))
  {
  }

  /** A step that stays in the last token's type pushes nothing. */
  lemma LexKeeps(text: seq<char>, i: nat, state: TokState, toks: seq<Token>, next: TokState)
    requires i <= |text| && 0 < |toks|
    requires var u := NewState(state, LexemeAt(text, i));
      u.state == next != TsError && TypeOf(u) == toks[|toks| - 1].kind != TtUnknown
    ensures Lex(text, i, state, toks) == Lex(text, i + 1, next, toks)
  {
  }

  /** A step into another type pushes a token at the character's index, line and column. */
  lemma LexPushes(text: seq<char>, i: nat, state: TokState, toks: seq<Token>, next: TokState, tt: TokenType, line: int, column: int)
    requires i <= |text| && CoCres.LineColumn(text, i) == (line, column)
    requires var u := NewState(state, LexemeAt(text, i));
      u.state == next != TsError && TypeOf(u) == tt && (|toks| == 0 || toks[|toks| - 1].kind != tt)
    ensures Lex(text, i, state, toks) == Lex(text, i + 1, next, toks + [Token(tt, i, line, column, |toks|)])
  {
  }

  /** The line and column counters of `tokenize` follow the text: a newline starts the next line at column 1. */
  lemma LineColumnAdvance(text: seq<char>, i: nat, line: int, column: int)
    requires i < |text| && (line, column) == CoCres.LineColumn(text, i)
    ensures CoCres.LineColumn(text, i + 1) == if text[i] == '\n' then (line + 1, 1) else (line, column + 1)
  {
    CoCres.LineColumnStep(text, i);
  }

  /** The run of `tokenize` over a whole text. */
  function Tokens(text: seq<char>): Lexing {
    Lex(text, 0, TsInit, [])
  }

  /** Every token knows its place, has a type, and differs in type from the one before and starts after it. */
  ghost predicate Ordered(toks: seq<Token>) {
    forall k :: 0 <= k < |toks| ==>
      toks[k].index == k && toks[k].kind != TtUnknown &&
      (k > 0 ==> toks[k - 1].kind != toks[k].kind && toks[k - 1].srcIndex < toks[k].srcIndex)
  }

  /** Every token starts within the text or at its virtual newline, at the line and column of its index. */
  ghost predicate Located(text: seq<char>, toks: seq<Token>) {
    forall k :: 0 <= k < |toks| ==>
      0 <= toks[k].srcIndex <= |text| && (toks[k].line, toks[k].column) == CoCres.LineColumn(text, toks[k].srcIndex)
  }

  ghost predicate WellFormed(text: seq<char>, toks: seq<Token>) {
    Ordered(toks) && Located(text, toks)
  }

  /** Pushing at an index past every token so far keeps the list ordered and every index at most the new one. */
  lemma PushKeepsOrdered(toks: seq<Token>, tt: TokenType, line: int, column: int, i: nat)
    requires Ordered(toks) && tt != TtUnknown
    requires forall k :: 0 <= k < |toks| ==> toks[k].srcIndex < i
    ensures var r := PushedOnChange(toks, tt, line, column, i);
      Ordered(r) && (forall k :: 0 <= k < |r| ==> r[k].srcIndex <= i)
  {
  }

  /** Pushing at an index of the text with its line and column keeps every token located. */
  lemma PushKeepsLocated(text: seq<char>, toks: seq<Token>, tt: TokenType, i: nat)
    requires Located(text, toks) && i <= |text|
    ensures var lc := CoCres.LineColumn(text, i);
      Located(text, PushedOnChange(toks, tt, lc.0, lc.1, i))
  {
  }

  lemma PushKeepsWellFormed(text: seq<char>, toks: seq<Token>, tt: TokenType, i: nat)
    requires WellFormed(text, toks) && tt != TtUnknown && i <= |text|
    requires forall k :: 0 <= k < |toks| ==> toks[k].srcIndex < i
    ensures var lc := CoCres.LineColumn(text, i);
      var r := PushedOnChange(toks, tt, lc.0, lc.1, i);
      WellFormed(text, r) && (forall k :: 0 <= k < |r| ==> r[k].srcIndex <= i)
  {
    var lc := CoCres.LineColumn(text, i);
    PushKeepsOrdered(toks, tt, lc.0, lc.1, i);
    PushKeepsLocated(text, toks, tt, i);
  }

  /** Every run keeps the token list well formed. */
  lemma {:induction false} LexWellFormed(text: seq<char>, i: nat, state: TokState, toks: seq<Token>)
    requires i <= |text| + 1 && WellFormed(text, toks)
    requires forall k :: 0 <= k < |toks| ==> toks[k].srcIndex < i
    ensures WellFormed(text, Lex(text, i, state, toks).tokens)
    decreases |text| + 1 - i
  {
    if i <= |text| {
      var u := NewState(state, LexemeAt(text, i));
      if u.state != TsError {
        var lc := CoCres.LineColumn(text, i);
        PushKeepsWellFormed(text, toks, TypeOf(u), i);
        LexWellFormed(text, i + 1, u.state, PushedOnChange(toks, TypeOf(u), lc.0, lc.1, i));
      }
    }
  }

  /** The tokens of a text are always well formed. */
  lemma TokensWellFormed(text: seq<char>)
    ensures Ordered(Tokens(text).tokens) && Located(text, Tokens(text).tokens)
  {
    LexWellFormed(text, 0, TsInit, []);
  }

  lemma TokensOrdered(text: seq<char>)
    ensures Ordered(Tokens(text).tokens)
  {
    TokensWellFormed(text);
  }

  /** A run that ends in the error state or in one of the states the virtual newline can leave. */
  predicate Flushed(s: TokState) {
    s in {TsError, TsSeparator, TsComment, TsQuoted, TsVec2}
  }

  /**
   * The virtual newline flushes the last token: a run that does not stop
   * at an error ends after a separator, or inside a comment, string or
   * vector that the text leaves open; never inside a number, symbol or
   * label.
   */
  lemma {:induction false} LexFlushes(text: seq<char>, i: nat, state: TokState, toks: seq<Token>)
    requires i <= |text| && state != TsError
    ensures Flushed(Lex(text, i, state, toks).state)
    decreases |text| - i
  {
    var u := NewState(state, LexemeAt(text, i));
    if u.state != TsError && i < |text| {
      var lc := CoCres.LineColumn(text, i);
      LexFlushes(text, i + 1, u.state, PushedOnChange(toks, TypeOf(u), lc.0, lc.1, i));
    }
  }

  lemma TokensFlushed(text: seq<char>)
    ensures Flushed(Tokens(text).state)
  {
    LexFlushes(text, 0, TsInit, []);
  }

  /** A text opening with a character of no lexeme gives no tokens and the error state. */
  lemma UnknownFirstCharacter(text: seq<char>)
    requires 0 < |text| && Scan(text[0]) == LUnknown
    ensures Tokens(text) == Lexing([], TsError)
  {
  }

  /**
   * What `tokenize` returns. As written the result of the last push is
   * returned even when the loop stopped at the error state, so an invalid
   * text is accepted with the tokens before the error; corrected the error
   * state makes it fail.
   */
  function TokenizeResult(l: Lexing, reading: Reading): (res: GvmResult)
    ensures reading == AsWritten ==> res == ResOk
    ensures reading == Corrected ==> (res == ResOk <==> l.state != TsError)
  {
    if reading == Corrected && l.state == TsError then ResError else ResOk
  }

  /** As written a text opening with an invalid character is tokenized without error into no tokens at all. */
  lemma AsWrittenAcceptsInvalidText(text: seq<char>)
    requires 0 < |text| && Scan(text[0]) == LUnknown
    ensures TokenizeResult(Tokens(text), AsWritten) == ResOk && Tokens(text).tokens == []
  {
    UnknownFirstCharacter(text);
  }

  /** Corrected a text is accepted only when every character was tokenized, and then its tokens end flushed. */
  lemma CorrectedRejectsInvalidText(text: seq<char>)
    ensures TokenizeResult(Tokens(text), Corrected) == ResOk <==> Tokens(text).state != TsError
    ensures TokenizeResult(Tokens(text), Corrected) == ResOk ==> Tokens(text).state in {TsSeparator, TsComment, TsQuoted, TsVec2}
    ensures 0 < |text| && Scan(text[0]) == LUnknown ==> TokenizeResult(Tokens(text), Corrected) == ResError
  {
    TokensFlushed(text);
    if 0 < |text| && Scan(text[0]) == LUnknown {
      UnknownFirstCharacter(text);
    }
  }

  // ----- the parser -----

  /** `parser_t`: a copy of the text, its tokens and the cursor over them. */
  /** `parser_match` at a cursor. */
  predicate MatchAt(toks: seq<Token>, cur: nat, tt: TokenType) {
    cur < |toks| && toks[cur].kind == tt
  }

  /** `parser_advance` at a cursor: whether it moved, and the new cursor. */
  function AdvancedAt(toks: seq<Token>, cur: nat): (r: (bool, nat))
    ensures r.0 <==> cur < |toks|
    ensures r.1 == if r.0 then cur + 1 else cur
  {
    if cur >= |toks| then (false, cur) else (true, cur + 1)
  }

  /** `parser_consume` at a cursor: it moves exactly when the current token has the type. */
  function ConsumedAt(toks: seq<Token>, cur: nat, tt: TokenType): (r: (bool, nat))
    ensures r.0 <==> MatchAt(toks, cur, tt)
    ensures r.1 == if r.0 then cur + 1 else cur
  {
    if MatchAt(toks, cur, tt) then (true, cur + 1) else (false, cur)
  }

  class Parser {
    const text: seq<char>
    var tokens: seq<Token>
    var current: nat

    /** The zeroed parser of `parser_create` holding a copy of the text. */
    constructor (text: seq<char>)
      ensures this.text == text && tokens == [] && current == 0
    {
      this.text := text;
      tokens := [];
      current := 0;
    }

    /** `tokens_push_on_change` on the parser's tokens. */
    method PushOnChange(tt: TokenType, line: int, column: int, index: int)
      modifies this
      ensures tokens == PushedOnChange(old(tokens), tt, line, column, index) && current == old(current)
    {
      var last := TtUnknown;
      if |tokens| > 0 {
        last := tokens[|tokens| - 1].kind;
      }
      if last != tt || last == TtUnknown {
        tokens := tokens + [Token(tt, index, line, column, |tokens|)];
      }
    }

    /**
     * `tokenize`: from the start state, one step per character and one for
     * the virtual newline, counting lines and columns from 1, until the
     * error state.
     */
    method Tokenize(reading: Reading) returns (res: GvmResult)
      modifies this
      ensures current == old(current)
      ensures tokens == Tokens(text).tokens && res == TokenizeResult(Tokens(text), reading)
    {
      tokens := [];
      res := ResOk;
      var line, column := 1, 1;
      var update := StateUpdate(TsInit, TsInit, false);
      ghost var whole := Tokens(text);
      var i := 0;
      while i < |text| + 1
        invariant i <= |text| + 1 && current == old(current)
        invariant i <= |text| ==> (line, column) == CoCres.LineColumn(text, i)
        invariant Lex(text, i, update.state, tokens) == whole && update.state != TsError && res == ResOk
        decreases |text| + 1 - i
      {
        var lex := if i < |text| then Scan(text[i]) else LNewline;
        LexStep(text, i, update.state, tokens);
        update := NewState(update.state, lex);
        if update.state == TsError {
          if reading == Corrected {
            res := ResError;
          }
          break;
        }
        var tokenType := TypeOf(update);
        PushOnChange(tokenType, line, column, i);
        if i < |text| {
          LineColumnAdvance(text, i, line, column);
        }
        column := column + 1;
        if lex == LNewline {
          line := line + 1;
          column := 1;
        }
        i := i + 1;
      }
    }

    /** `parser_is_at_end`. */
    predicate IsAtEnd()
      reads this
    {
      current >= |tokens|
    }

    /** `parser_reset`. */
    method Reset()
      modifies this
      ensures current == 0 && tokens == old(tokens)
    {
      current := 0;
    }

    /** `parser_advance`: one token on, unless at the end. */
    method Advance() returns (b: bool)
      modifies this
      ensures tokens == old(tokens) && (b, current) == AdvancedAt(tokens, old(current))
    {
      if IsAtEnd() {
        return false;
      }
      current := current + 1;
      return true;
    }

    /** `parser_match`: the current token has type `tt`. */
    predicate Match(tt: TokenType)
      reads this
    {
      !IsAtEnd() && tokens[current].kind == tt
    }

    /** `parser_consume`: advances exactly when the current token has type `tt`; the messages are not modelled. */
    method Consume(tt: TokenType) returns (b: bool)
      modifies this
      ensures tokens == old(tokens) && (b, current) == ConsumedAt(tokens, old(current), tt)
    {
      if IsAtEnd() {
        return false;
      }
      var tok := tokens[current];
      if tok.kind == tt {
        b := Advance();
      } else {
        b := false;
      }
    }

    /** `parser_current`: the current token, or the last one past the end; a read out of bounds without tokens. */
    function Current(): (r: Result<Token, Abort>)
      reads this
      ensures r.Err? <==> tokens == []
      ensures r.Ok? ==> r.value in tokens
      ensures !IsAtEnd() ==> r == Ok(tokens[current])
    {
      if |tokens| == 0 then Err(OutOfBounds)
      else Ok(tokens[if current < |tokens| - 1 then current else |tokens| - 1])
    }

    /**
     * `parser_peek`: the token `lookahead` places on; past the last token a
     * copy of the last one typed unknown. A place before the first token,
     * or any peek without tokens, reads out of bounds.
     */
    function Peek(lookahead: int): (r: Result<Token, Abort>)
      reads this
      ensures 0 <= current + lookahead < |tokens| ==> r == Ok(tokens[current + lookahead])
      ensures current + lookahead >= |tokens| > 0 ==>
        r == Ok(tokens[|tokens| - 1].(kind := TtUnknown))
      ensures r.Err? <==> tokens == [] || current + lookahead < 0
    {
      var index := current + lookahead;
      var lastIndex := |tokens| - 1;
      if index > lastIndex then
        if lastIndex < 0 then Err(OutOfBounds) else Ok(tokens[lastIndex].(kind := TtUnknown))
      else if index < 0 then Err(OutOfBounds)
      else Ok(tokens[index])
    }

    /**
     * `parser_get_token_string_length`: from where the token starts to
     * where the next one does; the last token has length 0. A token whose
     * place is not in the list reads out of bounds.
     */
    function TokenStringLength(token: Token): (r: Result<int, Abort>)
      reads this
    {
      if |tokens| == 0 then Err(OutOfBounds)
      else if token.index < |tokens| - 1 then
        if token.index + 1 < 0 then Err(OutOfBounds) else Ok(tokens[token.index + 1].srcIndex - token.srcIndex)
      else Ok(tokens[|tokens| - 1].srcIndex - token.srcIndex)
    }
  }

  /**
   * `parser_create`: a parser with a copy of the text and its tokens, or
   * none when tokenizing fails.
   */
  method Create(text: seq<char>, reading: Reading) returns (p: Option<Parser>)
    ensures p.Some? <==> TokenizeResult(Tokens(text), reading) == ResOk
    ensures p.Some? ==> fresh(p.value) && p.value.text == text && p.value.tokens == Tokens(text).tokens && p.value.current == 0
  {
    var q := new Parser(text);
    var res := q.Tokenize(reading);
    if res != ResOk {
      return None;
    }
    return Some(q);
  }

  /**
   * Over ordered tokens, as those of every text are, every token but the
   * last has a positive length reaching the next one, and the last has
   * length 0.
   */
  lemma TokenLengths(p: Parser, k: nat)
    requires Ordered(p.tokens) && k < |p.tokens|
    ensures k < |p.tokens| - 1 ==> p.TokenStringLength(p.tokens[k]) == Ok(p.tokens[k + 1].srcIndex - p.tokens[k].srcIndex)
    ensures k < |p.tokens| - 1 ==> p.TokenStringLength(p.tokens[k]).value > 0
    ensures k == |p.tokens| - 1 ==> p.TokenStringLength(p.tokens[k]) == Ok(0)
  {
    var ts := p.tokens;
    assert ts[k].index == k;
    if k < |ts| - 1 {
      assert ts[k + 1].srcIndex > ts[k].srcIndex;
    }
  }

  /** A parser created from a text starting with an invalid character has no tokens, so peeking and reading the current token read out of bounds. */
  lemma EmptyParserReadsOutOfBounds(p: Parser, lookahead: int)
    requires 0 < |p.text| && Scan(p.text[0]) == LUnknown && p.tokens == Tokens(p.text).tokens
    ensures p.Peek(lookahead) == Err(OutOfBounds) && p.Current() == Err(OutOfBounds)
  {
    UnknownFirstCharacter(p.text);
  }
}
