/**
 * `gvm/gvm_tokenizer.h`: the header-only tokenizer. A round tries, one
 * after the other and each from where the previous left the cursor, to
 * collect a run of whitespace, a `//` comment, a string and a number;
 * every run collected becomes a token. The text is analysed when the
 * rounds reach its end, and rejected at the first round that collects
 * nothing.
 */
module GvmTokenizerHeader {
  import opened Wrappers
  import CoTypes
  import ShUtils
  import CoUtils
  import opened TokenList

  /** `token_type_t` of this header, in declaration order. */
  datatype TokenType = TtInitial | TtSpace | TtComment | TtSymbol | TtNumber | TtBoolean | TtString | TtGroupStart | TtGroupEnd | TtFinal

  /** `token_t`. */
  datatype Token = Token(kind: TokenType, ref: SrcRef)

  type Source = CoTypes.Source
  type SrcRef = CoTypes.SrcRef

  // ----- runs -----

  /** The two runs swept by a predicate: whitespace (`SM_IS_ANY_OF(c, ' ', '\n', '\r', '\t')`) and digits (`SM_IS_NUMBER`). */
  datatype Run = Spaces | Digits

  predicate InRun(run: Run, ch: char) {
    match run
    case Spaces => ch == ' ' || ch == '\n' || ch == '\r' || ch == '\t'
    case Digits => '0' <= ch <= '9'
  }

  /** Where a run from `s` stops: the first character not in it, or the end of the text. */
  function RunEnd(t: seq<char>, s: nat, run: Run): (e: nat)
    requires s <= |t|
    ensures s <= e <= |t|
    decreases |t| - s
  {
    if s == |t| || !InRun(run, t[s]) then s else RunEnd(t, s + 1, run)
  }

  /** The run holds only characters of it, and what stops it is not one. */
  lemma {:induction false} RunEndMeaning(t: seq<char>, s: nat, run: Run)
    requires s <= |t|
    ensures var e := RunEnd(t, s, run);
      (forall j :: s <= j < e ==> InRun(run, t[j])) && (e < |t| ==> !InRun(run, t[e]))
    decreases |t| - s
  {
    if s < |t| && InRun(run, t[s]) {
      RunEndMeaning(t, s + 1, run);
    }
  }

  /** The first place from `s` holding `ch`, or the end of the text. */
  function Until(t: seq<char>, s: nat, ch: char): (e: nat)
    requires s <= |t|
    ensures s <= e <= |t|
    decreases |t| - s
  {
    if s == |t| || t[s] == ch then s else Until(t, s + 1, ch)
  }

  /** Nothing before the place found holds `ch`, and the place holds it unless it is the end. */
  lemma {:induction false} UntilMeaning(t: seq<char>, s: nat, ch: char)
    requires s <= |t|
    ensures var e := Until(t, s, ch);
      (forall j :: s <= j < e ==> t[j] != ch) && (e < |t| ==> t[e] == ch)
    decreases |t| - s
  {
    if s < |t| && t[s] != ch {
      UntilMeaning(t, s + 1, ch);
    }
  }

  /**
   * The length `sweep_until` gives: up to the delimiter, and the delimiter
   * with it when it is found. As written the delimiter is taken only when
   * it lies before the last index of the text (`cursor < stop`, with
   * `stop` the last index), so one at the very end is left; corrected it
   * is taken wherever it is found.
   */
  function UntilLen(t: seq<char>, s: nat, ch: char, reading: Reading): (n: nat)
    requires s <= |t|
    ensures s + n <= |t|
  {
    var e := Until(t, s, ch);
    var taken := if reading == AsWritten then e + 1 < |t| else e < |t|;
    (if taken then e + 1 else e) - s
  }

  // ----- one round -----

  /** What one collector gives: the token it collects, if any, and where it leaves the cursor. */
  datatype Collected = Collected(token: Option<Token>, next: nat)

  function TokenOf(c: Collected): seq<Token> {
    if c.token.Some? then [c.token.value] else []
  }

  /** A token of `kind` over `[start, end)` of the text. */
  function Stretch(src: Source, kind: TokenType, start: nat, end: nat): Token {
    Token(kind, CoTypes.SrcRef(Some(src), start, end))
  }

  /** `try_collect_space`: the run of whitespace from `c`, if it is not empty. */
  function SpaceAt(src: Source, c: nat): (r: Collected)
    requires c <= |src.text|
    ensures c <= r.next <= |src.text|
  {
    var e := RunEnd(src.text, c, Spaces);
    if e == c then Collected(None, c) else Collected(Some(Stretch(src, TtSpace, c, e)), e)
  }

  /**
   * `try_collect_comment`: at `//` with more text after it, the comment up
   * to the newline, with the newline as `sweep_until` takes it; nothing
   * when that sweep is empty.
   */
  function CommentAt(src: Source, c: nat, reading: Reading): (r: Collected)
    requires c <= |src.text|
    ensures c <= r.next <= |src.text|
  {
    var t := src.text;
    if !(c + 2 < |t| && t[c] == '/' && t[c + 1] == '/') then Collected(None, c)
    else
      var n := UntilLen(t, c + 2, '\n', reading);
      if n == 0 then Collected(None, c) else Collected(Some(Stretch(src, TtComment, c, c + 2 + n)), c + 2 + n)
  }

  /** `try_collect_string`: at a quote, the string up to the closing quote as `sweep_until` takes it. */
  function StringAt(src: Source, c: nat, reading: Reading): (r: Collected)
    requires c <= |src.text|
    ensures c <= r.next <= |src.text|
  {
    var t := src.text;
    if !(c < |t| && t[c] == '"') then Collected(None, c)
    else
      var n := UntilLen(t, c + 1, '"', reading);
      if n == 0 then Collected(None, c) else Collected(Some(Stretch(src, TtString, c, c + 1 + n)), c + 1 + n)
  }

  /** `try_collect_number`: digits, then, after a dot, the dot and the digits after it. */
  function NumberAt(src: Source, c: nat): (r: Collected)
    requires c <= |src.text|
    ensures c <= r.next <= |src.text|
  {
    var t := src.text;
    var e := RunEnd(t, c, Digits);
    if e == c then Collected(None, c)
    else if !(e < |t| && t[e] == '.') then Collected(Some(Stretch(src, TtNumber, c, e)), e)
    else
      var f := RunEnd(t, e + 1, Digits);
      Collected(Some(Stretch(src, TtNumber, c, f)), f)
  }

  /** A token appears exactly when the cursor moves, and it covers what the cursor passed. */
  predicate Advances(c: nat, r: Collected) {
    c <= r.next && (r.token.None? <==> r.next == c) &&
    (r.token.Some? ==> r.token.value.ref.start == c && r.token.value.ref.end == r.next)
  }

  lemma CollectorsAdvance(src: Source, c: nat, reading: Reading)
    requires c <= |src.text|
    ensures Advances(c, SpaceAt(src, c)) && Advances(c, CommentAt(src, c, reading))
    ensures Advances(c, StringAt(src, c, reading)) && Advances(c, NumberAt(src, c))
  {
  }

  /** What a round collects: the tokens of the four collectors, tried in turn from where the last left the cursor. */
  datatype RoundResult = RoundResult(tokens: seq<Token>, next: nat)

  /** The collectors of a round in the order they are tried: space, comment, string, number. */
  function CollectorAt(src: Source, c: nat, k: nat, reading: Reading): (r: Collected)
    requires c <= |src.text|
    ensures c <= r.next <= |src.text|
  {
    if k == 0 then SpaceAt(src, c)
    else if k == 1 then CommentAt(src, c, reading)
    else if k == 2 then StringAt(src, c, reading)
    else NumberAt(src, c)
  }

  /** The collectors from the `k`-th on, each from where the previous left the cursor. */
  function Phases(src: Source, c: nat, k: nat, reading: Reading): (r: RoundResult)
    requires c <= |src.text|
    ensures c <= r.next <= |src.text|
    decreases 4 - k
  {
    if k >= 4 then RoundResult([], c)
    else
      var s := CollectorAt(src, c, k, reading);
      var rest := Phases(src, s.next, k + 1, reading);
      RoundResult(TokenOf(s) + rest.tokens, rest.next)
  }

  function RoundAt(src: Source, c: nat, reading: Reading): (r: RoundResult)
    requires c <= |src.text|
    ensures c <= r.next <= |src.text|
  {
    Phases(src, c, 0, reading)
  }

  /** A round is the four collectors in turn. */
  lemma RoundParts(src: Source, c: nat, reading: Reading)
    requires c <= |src.text|
    ensures var s1 := SpaceAt(src, c); var s2 := CommentAt(src, s1.next, reading);
      var s3 := StringAt(src, s2.next, reading); var s4 := NumberAt(src, s3.next);
      RoundAt(src, c, reading) == RoundResult(TokenOf(s1) + TokenOf(s2) + TokenOf(s3) + TokenOf(s4), s4.next)
  {
    var s1 := SpaceAt(src, c);
    var s2 := CommentAt(src, s1.next, reading);
    var s3 := StringAt(src, s2.next, reading);
    var s4 := NumberAt(src, s3.next);
    assert Phases(src, s4.next, 4, reading) == RoundResult([], s4.next);
    assert Phases(src, s3.next, 3, reading) == RoundResult(TokenOf(s4) + [], s4.next);
    assert Phases(src, s2.next, 2, reading) == RoundResult(TokenOf(s3) + (TokenOf(s4) + []), s4.next);
    assert Phases(src, s1.next, 1, reading) == RoundResult(TokenOf(s2) + (TokenOf(s3) + (TokenOf(s4) + [])), s4.next);
    assert Phases(src, c, 0, reading) == RoundResult(TokenOf(s1) + (TokenOf(s2) + (TokenOf(s3) + (TokenOf(s4) + []))), s4.next);
    Regroup([], TokenOf(s1), TokenOf(s2), TokenOf(s3), TokenOf(s4));
  }

  lemma Regroup(a: seq<Token>, b: seq<Token>, c: seq<Token>, d: seq<Token>, e: seq<Token>)
    ensures a + b + c + d + e == a + (b + (c + (d + (e + []))))
    ensures a + (b + c + d + e) == a + b + c + d + e
  {
    assert e + [] == e;
  }

  // ----- the whole text -----

  /** What the rounds from a cursor give: the tokens, and whether they reached the end of the text. */
  datatype Scanned = Scanned(tokens: seq<Token>, ok: bool)

  /** The rounds of `tokenizer_analyze` from cursor `c`. */
  function Analysis(src: Source, c: nat, reading: Reading): (s: Scanned)
    requires c <= |src.text|
    decreases |src.text| - c
  {
    if c == |src.text| then Scanned([], true)
    else
      var r := RoundAt(src, c, reading);
      if r.next == c then Scanned([], false)
      else
        var rest := Analysis(src, r.next, reading);
        Scanned(r.tokens + rest.tokens, rest.ok)
  }

  /** `ts` lie one after the other from `from` to `to`, none of them empty. */
  ghost predicate Tiles(ts: seq<Token>, from: nat, to: nat)
    decreases |ts|
  {
    if ts == [] then from == to
    else ts[0].ref.start == from && from < ts[0].ref.end && Tiles(ts[1..], ts[0].ref.end, to)
  }

  lemma {:induction false} TilesAppend(a: seq<Token>, b: seq<Token>, from: nat, mid: nat, to: nat)
    requires Tiles(a, from, mid) && Tiles(b, mid, to)
    ensures Tiles(a + b, from, to)
    decreases |a|
  {
    if a == [] {
      assert a + b == b;
    } else {
      TilesAppend(a[1..], b, a[0].ref.end, mid, to);
      assert (a + b)[0] == a[0];
      assert (a + b)[1..] == a[1..] + b;
    }
  }

  lemma CollectedTiles(c: nat, r: Collected)
    requires Advances(c, r)
    ensures Tiles(TokenOf(r), c, r.next)
  {
    if r.token.Some? {
      assert TokenOf(r)[1..] == [];
      assert Tiles(TokenOf(r)[1..], r.token.value.ref.end, r.next);
    }
  }

  /** The tokens of a round lie one after the other over exactly the text the cursor passed. */
  lemma RoundTiles(src: Source, c: nat, reading: Reading)
    requires c <= |src.text|
    ensures var r := RoundAt(src, c, reading); Tiles(r.tokens, c, r.next) && (r.tokens == [] <==> r.next == c)
  {
    var s1 := SpaceAt(src, c);
    var s2 := CommentAt(src, s1.next, reading);
    var s3 := StringAt(src, s2.next, reading);
    var s4 := NumberAt(src, s3.next);
    RoundParts(src, c, reading);
    CollectorsAdvance(src, c, reading);
    CollectorsAdvance(src, s1.next, reading);
    CollectorsAdvance(src, s2.next, reading);
    CollectorsAdvance(src, s3.next, reading);
    CollectedTiles(c, s1);
    CollectedTiles(s1.next, s2);
    CollectedTiles(s2.next, s3);
    CollectedTiles(s3.next, s4);
    TilesAppend(TokenOf(s1), TokenOf(s2), c, s1.next, s2.next);
    TilesAppend(TokenOf(s1) + TokenOf(s2), TokenOf(s3), c, s2.next, s3.next);
    TilesAppend(TokenOf(s1) + TokenOf(s2) + TokenOf(s3), TokenOf(s4), c, s3.next, s4.next);
  }

  /** A round collects nothing exactly when it leaves the cursor where it was. */
  lemma RoundMoves(src: Source, c: nat, reading: Reading)
    requires c <= |src.text|
    ensures var r := RoundAt(src, c, reading); r.tokens == [] <==> r.next == c
  {
    var s1 := SpaceAt(src, c);
    var s2 := CommentAt(src, s1.next, reading);
    var s3 := StringAt(src, s2.next, reading);
    RoundParts(src, c, reading);
    CollectorsAdvance(src, c, reading);
    CollectorsAdvance(src, s1.next, reading);
    CollectorsAdvance(src, s2.next, reading);
    CollectorsAdvance(src, s3.next, reading);
  }

  /**
   * When the rounds reach the end of the text, their tokens cover the
   * text from the cursor to the end, each beginning where the previous one
   * ends: nothing is skipped.
   */
  lemma {:induction false} AnalysisTiles(src: Source, c: nat, reading: Reading)
    requires c <= |src.text|
    ensures var s := Analysis(src, c, reading); s.ok ==> Tiles(s.tokens, c, |src.text|)
    decreases |src.text| - c
  {
    if c < |src.text| {
      var r := RoundAt(src, c, reading);
      if r.next != c {
        RoundTiles(src, c, reading);
        AnalysisTiles(src, r.next, reading);
        var rest := Analysis(src, r.next, reading);
        if rest.ok {
          TilesAppend(r.tokens, rest.tokens, c, r.next, |src.text|);
        }
      }
    }
  }

  /** A string from `c` whose closing quote is the last character of the text. */
  predicate ClosesAtEnd(t: seq<char>, c: nat) {
    c + 1 < |t| && t[c] == '"' && t[|t| - 1] == '"' && forall j :: c < j < |t| - 1 ==> t[j] != '"'
  }

  lemma ClosingQuoteFound(t: seq<char>, c: nat)
    requires ClosesAtEnd(t, c)
    ensures Until(t, c + 1, '"') == |t| - 1
  {
    UntilMeaning(t, c + 1, '"');
  }

  /** At such a string neither whitespace nor a comment is collected. */
  lemma NothingBeforeString(src: Source, c: nat, reading: Reading)
    requires ClosesAtEnd(src.text, c)
    ensures SpaceAt(src, c) == Collected(None, c)
    ensures CommentAt(src, c, reading) == Collected(None, c)
  {
    assert RunEnd(src.text, c, Spaces) == c;
  }

  /** As written the round at such a string stops before the closing quote, or stalls when the string is empty. */
  lemma RoundAtClosingStringAsWritten(src: Source, c: nat)
    requires ClosesAtEnd(src.text, c)
    ensures RoundAt(src, c, AsWritten).next == (if c + 2 < |src.text| then |src.text| - 1 else c)
  {
    var t := src.text;
    RoundParts(src, c, AsWritten);
    NothingBeforeString(src, c, AsWritten);
    ClosingQuoteFound(t, c);
    var e := if c + 2 < |t| then |t| - 1 else c;
    assert StringAt(src, c, AsWritten).next == e;
    assert RunEnd(t, e, Digits) == e;
  }

  /** Corrected the round at such a string collects the whole string and nothing else. */
  lemma RoundAtClosingStringCorrected(src: Source, c: nat)
    requires ClosesAtEnd(src.text, c)
    ensures RoundAt(src, c, Corrected) == RoundResult([Stretch(src, TtString, c, |src.text|)], |src.text|)
  {
    var t := src.text;
    RoundParts(src, c, Corrected);
    NothingBeforeString(src, c, Corrected);
    ClosingQuoteFound(t, c);
    assert StringAt(src, c, Corrected) == Collected(Some(Stretch(src, TtString, c, |t|)), |t|);
    assert RunEnd(t, |t|, Digits) == |t|;
    assert NumberAt(src, |t|) == Collected(None, |t|);
  }

  /** The round at a quote that is the last character of the text stalls. */
  lemma RoundAtLastQuote(src: Source, reading: Reading)
    requires 0 < |src.text| && src.text[|src.text| - 1] == '"'
    ensures RoundAt(src, |src.text| - 1, reading).next == |src.text| - 1
  {
    var t := src.text;
    RoundParts(src, |t| - 1, reading);
    assert RunEnd(t, |t| - 1, Spaces) == |t| - 1;
    assert RunEnd(t, |t| - 1, Digits) == |t| - 1;
    assert Until(t, |t|, '"') == |t|;
  }

  /**
   * As written a string that closes on the last character of the text is
   * cut before its closing quote, and the next round, at that quote, finds
   * no string to collect: the text is rejected. Corrected it is one string
   * token reaching the end.
   */
  lemma StringAtEnd(src: Source, c: nat)
    requires ClosesAtEnd(src.text, c)
    ensures !Analysis(src, c, AsWritten).ok
    ensures Analysis(src, c, Corrected) == Scanned([Stretch(src, TtString, c, |src.text|)], true)
  {
    RoundAtClosingStringAsWritten(src, c);
    RoundAtClosingStringCorrected(src, c);
    RoundAtLastQuote(src, AsWritten);
    assert Analysis(src, |src.text| - 1, AsWritten) == Scanned([], false);
    assert Analysis(src, |src.text|, Corrected) == Scanned([], true);
  }

  // ----- the tokenizer state -----

  /** `tokenizer_state_t`: the text and the cursor. */
  class Tokenizer {
    const src: Source
    var cursor: nat

    constructor (src: Source)
      ensures this.src == src && cursor == 0
    {
      this.src := src;
      cursor := 0;
    }

    /**
     * `sweep_until`: from `start`, up to the first `ch` or the end of the
     * text, reading the terminator at the end; then one more when the
     * delimiter is taken.
     */
    method SweepUntil(start: nat, ch: char, reading: Reading) returns (len: nat)
      requires start <= |src.text| && 0 < |src.text|
      ensures len == UntilLen(src.text, start, ch, reading)
    {
      var c := start;
      var stop := |src.text| - 1;
      while ShUtils.At(src.text, c) != ch && c <= stop
        invariant start <= c <= |src.text|
        invariant Until(src.text, start, ch) == Until(src.text, c, ch)
        decreases |src.text| - c
      {
        c := c + 1;
      }
      if (reading == AsWritten && c < stop) || (reading == Corrected && c <= stop) {
        c := c + 1;
      }
      len := c - start;
    }

    /** `sweep_while_whitespace` and `sweep_while_number`: the length of the run from `start`. */
    method SweepWhile(start: nat, run: Run) returns (len: nat)
      requires start <= |src.text|
      ensures start + len == RunEnd(src.text, start, run)
    {
      var c := start;
      while InRun(run, ShUtils.At(src.text, c)) && c < |src.text|
        invariant start <= c <= |src.text|
        invariant RunEnd(src.text, start, run) == RunEnd(src.text, c, run)
        decreases |src.text| - c
      {
        c := c + 1;
      }
      len := c - start;
    }

    /** `match_cursor_str`: the `len` characters of `str` at the cursor, with at least one more character after them. */
    method MatchCursorStr(len: nat, str: string) returns (m: bool)
      requires len <= |str|
      ensures m <==> cursor + len < |src.text| && src.text[cursor..cursor + len] == str[..len]
    {
      if cursor + len >= |src.text| {
        return false;
      }
      var i := 0;
      while i < len
        invariant i <= len && src.text[cursor..cursor + i] == str[..i]
      {
        if src.text[cursor + i] != str[i] {
          assert src.text[cursor..cursor + len][i] != str[..len][i];
          return false;
        }
        assert src.text[cursor..cursor + i + 1] == src.text[cursor..cursor + i] + [src.text[cursor + i]];
        assert str[..i + 1] == str[..i] + [str[i]];
        i := i + 1;
      }
      m := true;
    }

    /** `try_collect_space`. */
    method TryCollectSpace(coll: TokenList<Token>) returns (b: bool)
      requires cursor <= |src.text|
      modifies this, coll
      ensures var r := SpaceAt(src, old(cursor));
        cursor == r.next && coll.items == old(coll.items) + TokenOf(r) && b == r.token.Some?
    {
      var start := cursor;
      var len := SweepWhile(start, Spaces);
      if len == 0 {
        return false;
      }
      cursor := cursor + len;
      coll.Append(Stretch(src, TtSpace, start, cursor));
      b := true;
    }

    /** `try_collect_comment`. */
    method TryCollectComment(coll: TokenList<Token>, reading: Reading) returns (b: bool)
      requires cursor <= |src.text|
      modifies this, coll
      ensures var r := CommentAt(src, old(cursor), reading);
        cursor == r.next && coll.items == old(coll.items) + TokenOf(r) && b == r.token.Some?
    {
      var m := MatchCursorStr(2, "//");
      assert m <==> cursor + 2 < |src.text| && src.text[cursor] == '/' && src.text[cursor + 1] == '/' by {
        if cursor + 2 < |src.text| {
          assert src.text[cursor..cursor + 2] == [src.text[cursor], src.text[cursor + 1]];
        }
      }
      if !m {
        return false;
      }
      var start := cursor;
      var len := SweepUntil(start + 2, '\n', reading);
      if len > 0 {
        cursor := cursor + 2 + len;
        coll.Append(Stretch(src, TtComment, start, cursor));
      }
      b := len > 0;
    }

    /** `try_collect_string`: the character at the cursor is read, the terminator at the end of the text. */
    method TryCollectString(coll: TokenList<Token>, reading: Reading) returns (b: bool)
      requires cursor <= |src.text|
      modifies this, coll
      ensures var r := StringAt(src, old(cursor), reading);
        cursor == r.next && coll.items == old(coll.items) + TokenOf(r) && b == r.token.Some?
    {
      if ShUtils.At(src.text, cursor) != '"' {
        return false;
      }
      var start := cursor;
      var len := SweepUntil(start + 1, '"', reading);
      if len > 0 {
        cursor := cursor + 1 + len;
        coll.Append(Stretch(src, TtString, start, cursor));
      }
      b := len > 0;
    }

    /** `try_collect_number`: the token grows by the dot and then by the digits after it. */
    method TryCollectNumber(coll: TokenList<Token>) returns (b: bool)
      requires cursor <= |src.text|
      modifies this, coll
      ensures var r := NumberAt(src, old(cursor));
        cursor == r.next && coll.items == old(coll.items) + TokenOf(r) && b == r.token.Some?
    {
      var start := cursor;
      var len := SweepWhile(start, Digits);
      if len == 0 {
        return false;
      }
      cursor := cursor + len;
      var number := Stretch(src, TtNumber, start, cursor);
      if ShUtils.At(src.text, cursor) != '.' {
        coll.Append(number);
        return true;
      }
      number := number.(ref := number.ref.(end := number.ref.end + 1));
      cursor := cursor + 1;
      len := SweepWhile(cursor, Digits);
      if len == 0 {
        coll.Append(number);
        return true;
      }
      number := number.(ref := number.ref.(end := number.ref.end + len));
      cursor := cursor + len;
      coll.Append(number);
      b := true;
    }

    /** The body of the loop of `tokenizer_analyze`: the four collectors in turn. */
    method Round(coll: TokenList<Token>, reading: Reading)
      requires cursor <= |src.text|
      modifies this, coll
      ensures var r := RoundAt(src, old(cursor), reading);
        cursor == r.next && coll.items == old(coll.items) + r.tokens
    {
      ghost var items0, c := coll.items, cursor;
      var b := TryCollectSpace(coll);
      ghost var s1 := SpaceAt(src, c);
      b := TryCollectComment(coll, reading);
      ghost var s2 := CommentAt(src, s1.next, reading);
      b := TryCollectString(coll, reading);
      ghost var s3 := StringAt(src, s2.next, reading);
      b := TryCollectNumber(coll);
      ghost var s4 := NumberAt(src, s3.next);
      RoundParts(src, c, reading);
      Regroup(items0, TokenOf(s1), TokenOf(s2), TokenOf(s3), TokenOf(s4));
    }
  }

  /**
   * `tokenizer_analyze`: rounds while the cursor is inside the text; false
   * at the first round that collects nothing, true at the end of the text.
   */
  method Analyze(coll: TokenList<Token>, src: Source, reading: Reading) returns (ok: bool)
    modifies coll
    ensures var s := Analysis(src, 0, reading); ok == s.ok && coll.items == old(coll.items) + s.tokens
  {
    var state := new Tokenizer(src);
    ok := Rounds(state, coll, reading);
  }

  /** The loop of `tokenizer_analyze`. */
  method Rounds(state: Tokenizer, coll: TokenList<Token>, reading: Reading) returns (ok: bool)
    requires state.cursor <= |state.src.text|
    modifies state, coll
    ensures var s := Analysis(state.src, old(state.cursor), reading); ok == s.ok && coll.items == old(coll.items) + s.tokens
  {
    ghost var done0 := coll.items;
    ghost var whole := Analysis(state.src, state.cursor, reading);
    while state.cursor < |state.src.text|
      invariant state.cursor <= |state.src.text|
      invariant |done0| <= |coll.items| && coll.items[..|done0|] == done0
      invariant Tracks(whole, coll.items[|done0|..], Analysis(state.src, state.cursor, reading))
      decreases |state.src.text| - state.cursor
    {
      var last := state.cursor;
      Turn(state, coll, reading, whole, done0);
      if last == state.cursor {
        return false;
      }
    }
    assert coll.items[|done0|..] == coll.items[|done0|..] + [];
    ok := true;
  }

  /** The whole run is the tokens so far followed by the run from the cursor. */
  ghost predicate Tracks(whole: Scanned, done: seq<Token>, rest: Scanned) {
    whole == Scanned(done + rest.tokens, rest.ok)
  }

  /** One round keeps the whole run tracked: it stalls with nothing collected, or adds its tokens and moves on. */
  lemma TracksStep(whole: Scanned, done: seq<Token>, src: Source, c: nat, reading: Reading)
    requires c < |src.text| && Tracks(whole, done, Analysis(src, c, reading))
    ensures var r := RoundAt(src, c, reading);
      (r.next == c ==> r.tokens == [] && whole == Scanned(done, false)) &&
      (r.next != c ==> Tracks(whole, done + r.tokens, Analysis(src, r.next, reading)))
  {
    AnalysisStep(src, c, reading);
    var r := RoundAt(src, c, reading);
    if r.next == c {
      assert done + [] == done;
    } else {
      TracksCons(whole, done, r.tokens, Analysis(src, r.next, reading));
    }
  }

  /** One unfolding of the rounds: a stall with nothing collected, or the tokens of the round before the rest. */
  lemma AnalysisStep(src: Source, c: nat, reading: Reading)
    requires c < |src.text|
    ensures var r := RoundAt(src, c, reading);
      (r.next == c ==> r.tokens == [] && Analysis(src, c, reading) == Scanned([], false)) &&
      (r.next != c ==> Analysis(src, c, reading) == Scanned(r.tokens + Analysis(src, r.next, reading).tokens, Analysis(src, r.next, reading).ok))
  {
    RoundMoves(src, c, reading);
  }

  lemma TracksCons(whole: Scanned, done: seq<Token>, toks: seq<Token>, rest: Scanned)
    requires Tracks(whole, done, Scanned(toks + rest.tokens, rest.ok))
    ensures Tracks(whole, done + toks, rest)
  {
    assert done + (toks + rest.tokens) == done + toks + rest.tokens;
  }

  /** The body of the loop: a round, and whether it stalled. */
  method Turn(state: Tokenizer, coll: TokenList<Token>, reading: Reading, ghost whole: Scanned, ghost done0: seq<Token>)
    requires state.cursor < |state.src.text|
    requires |done0| <= |coll.items| && coll.items[..|done0|] == done0
    requires Tracks(whole, coll.items[|done0|..], Analysis(state.src, state.cursor, reading))
    modifies state, coll
    ensures state.cursor <= |state.src.text| && |done0| <= |coll.items| && coll.items[..|done0|] == done0
    ensures state.cursor == old(state.cursor) ==> whole == Scanned(coll.items[|done0|..], false)
    ensures state.cursor != old(state.cursor) ==>
      state.cursor > old(state.cursor) && Tracks(whole, coll.items[|done0|..], Analysis(state.src, state.cursor, reading))
  {
    var last := state.cursor;
    ghost var before := coll.items;
    TracksStep(whole, before[|done0|..], state.src, last, reading);
    state.Round(coll, reading);
    SlicesOfAppend(before, RoundAt(state.src, last, reading).tokens, |done0|);
  }

  lemma SlicesOfAppend(a: seq<Token>, b: seq<Token>, k: nat)
    requires k <= |a|
    ensures (a + b)[..k] == a[..k] && (a + b)[k..] == a[k..] + b
  {
  }

  /**
   * `merge_collected_top`: with fewer than two tokens, true exactly when
   * there is one; otherwise the top two, which must be of one kind, become
   * one token whose reference is the two combined.
   */
  method MergeCollectedTop(coll: TokenList<Token>) returns (r: Result<bool, Abort>)
    modifies coll
    ensures var n := |old(coll.items)|;
      (n < 2 ==> r == Ok(n == 1) && coll.items == old(coll.items)) &&
      (n >= 2 && old(coll.items)[n - 2].kind != old(coll.items)[n - 1].kind ==> r.Err?) &&
      (n >= 2 && old(coll.items)[n - 2].kind == old(coll.items)[n - 1].kind ==>
         r == Ok(true) &&
         coll.items == old(coll.items)[..n - 2] + [Merged(old(coll.items)[n - 2], old(coll.items)[n - 1])])
  {
    var n := |coll.items|;
    if n < 2 {
      return Ok(n == 1);
    }
    var pop := coll.items[n - 1];
    var top := coll.items[n - 2];
    if top.kind != pop.kind {
      return Err(AssertFailed("top.type == pop.type"));
    }
    coll.items := coll.items[..n - 2] + [Token(top.kind, CoUtils.Combine(top.ref, pop.ref))];
    r := Ok(true);
  }

  /** The token two tokens of one kind merge into. */
  function Merged(top: Token, pop: Token): Token {
    Token(top.kind, CoUtils.Combine(top.ref, pop.ref))
  }

  /** Two adjacent tokens of one text merge into one token over both. */
  lemma MergedAdjacent(src: Source, top: Token, pop: Token)
    requires top.ref.source == Some(src) && pop.ref.source == Some(src)
    requires top.ref.start <= top.ref.end == pop.ref.start <= pop.ref.end
    ensures Merged(top, pop) == Stretch(src, top.kind, top.ref.start, pop.ref.end)
  {
  }
}
