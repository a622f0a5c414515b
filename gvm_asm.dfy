/**
 * `gvm/gvm_asm.c`: the two-pass assembler of the grid VM's assembly text.
 * The text is tokenized by the parser of `gvm_parser.c`; the first pass
 * walks the tokens recording every `label:` with the byte address of the
 * instruction that follows it, and the second pass walks them again writing
 * each instruction's opcode and 16-bit operands, turning label operands into
 * the recorded addresses and constant operands into indices of a constant
 * store.
 *
 * Token types are numbered as in `token_type_t` of `gvm_types.h`; this
 * revision's enum lacks the comment and vector types the parser produces,
 * which are numbered after `TT_END` here. The number a number token denotes
 * and the integers of a vector literal come from float parsing and
 * `string_parse_int`, which are not part of this model: they are the
 * parameters `number` and `integer` of `Decoders`.
 */
module GvmAsm {
  import opened Wrappers
  import opened GvmParser
  import opened GvmValBuffer
  import ShUtils
  import CoUtils
  import CoCres
  import A = GvmAsmUtils
  import GvmUtils

  /** `GVM_ASM_MAX_LABELS` of `gvm_config.h`. */
  const MaxLabels: nat := 64

  /** The value of a token type in `token_type_t`. */
  function TypeCode(t: TokenType): (c: nat)
    ensures c < 16
  {
    match t
    case TtUnknown => 0
    case TtColon => 1
    case TtNumber => 2
    case TtString => 3
    case TtSymbol => 4
    case TtSeparator => 5
    case TtEnd => 6
    case TtComment => 7
    case TtVec2 => 8
  }

  /** `ARGSPEC1`: one operand of the given type. */
  function ArgSpec1(a: TokenType): nat {
    TypeCode(a)
  }

  /** `ARGSPEC2`: two operands, the first type in the low nibble. */
  function ArgSpec2(a: TokenType, b: TokenType): nat {
    TypeCode(a) + 16 * TypeCode(b)
  }

  // ----- the scheme table `schemes[]` -----

  /**
   * One entry of `schemes[]`: the operation's name, its opcode, the operand
   * types (`ARGSPEC1(0)` being no operand at all), and the flags marking the
   * operands stored as constants and the operands that refer to labels.
   */
  datatype Scheme = Scheme(name: string, opcode: int, spec: nat, isConst: nat, isLabel: nat)

  /** `schemes[]`, row by row. */
  const Schemes: seq<Scheme> := [
    Scheme("push", A.OpPushValue, ArgSpec1(TtString), 1, 0),
    Scheme("push", A.OpPushValue, ArgSpec1(TtNumber), 1, 0),
    Scheme("push", A.OpPushValue, ArgSpec1(TtVec2), 1, 0),
    Scheme("store", A.OpStoreLocal, ArgSpec1(TtNumber), 0, 0),
    Scheme("load", A.OpLoadLocal, ArgSpec1(TtNumber), 0, 0),
    Scheme("print", A.OpPrint, 0, 0, 0),
    Scheme("call", A.OpCall, ArgSpec1(TtSymbol), 0, 1),
    Scheme("frame", A.OpMakeFrame, ArgSpec2(TtNumber, TtNumber), 0, 0),
    Scheme("array", A.OpMakeArray, 0, 0, 0),
    Scheme("array-len", A.OpArrayLength, 0, 0, 0),
    Scheme("iter", A.OpMakeIter, 0, 0, 0),
    Scheme("iter-next", A.OpIterNext, ArgSpec1(TtSymbol), 0, 1),
    Scheme("return", A.OpReturn, 0, 0, 0),
    Scheme("pop1", A.OpPop1, 0, 0, 0),
    Scheme("pop2", A.OpPop2, 0, 0, 0),
    Scheme("dup1", A.OpDup1, 0, 0, 0),
    Scheme("dup2", A.OpDup2, 0, 0, 0),
    Scheme("rot2", A.OpRot2, 0, 0, 0),
    Scheme("is-less", A.OpCmpLessThan, 0, 0, 0),
    Scheme("is-more", A.OpCmpMoreThan, 0, 0, 0),
    Scheme("is-equal", A.OpCmpEqual, 0, 0, 0),
    Scheme("if-false", A.OpJumpIfFalse, ArgSpec1(TtSymbol), 0, 1),
    Scheme("jump", A.OpJump, ArgSpec1(TtSymbol), 0, 1),
    Scheme("exit", A.OpExit, ArgSpec1(TtNumber), 0, 0),
    Scheme("and", A.OpAnd, 0, 0, 0),
    Scheme("or", A.OpOr, 0, 0, 0),
    Scheme("mul", A.OpMul, 0, 0, 0),
    Scheme("add", A.OpAdd, 0, 0, 0),
    Scheme("sub", A.OpSub, 0, 0, 0),
    Scheme("neg", A.OpNeg, 0, 0, 0),
    Scheme("ncall", A.OpCallNative, ArgSpec1(TtSymbol), 1, 0),
    Scheme("init", A.OpInit, ArgSpec1(TtSymbol), 0, 1)]

  // ----- operand counts and flags -----

  function Pow16(k: nat): (r: nat)
    ensures r > 0
  {
    if k == 0 then 1 else 16 * Pow16(k - 1)
  }

  /** The number of 4-bit nibbles up to the highest non-zero one. */
  function NibbleCount(t: nat): nat
    decreases t
  {
    if t == 0 then 0 else 1 + NibbleCount(t / 16)
  }

  /** A typespec is below `16^n` for its nibble count `n`, and at least `16^(n-1)`: `n` ends at its highest non-zero nibble. */
  lemma {:induction false} NibbleCountBounds(t: nat)
    ensures t < Pow16(NibbleCount(t))
    ensures NibbleCount(t) > 0 ==> Pow16(NibbleCount(t) - 1) <= t
    decreases t
  {
    if t > 0 {
      NibbleCountBounds(t / 16);
    }
  }

  /** `scheme_get_arg_count`: one operand per shift by four bits until nothing is left. */
  method SchemeGetArgCount(typespec: nat) returns (argCount: nat)
    ensures argCount == NibbleCount(typespec)
    ensures typespec < Pow16(argCount) && (argCount > 0 ==> Pow16(argCount - 1) <= typespec)
  {
    argCount := 0;
    var t := typespec;
    while t > 0
      invariant NibbleCount(typespec) == argCount + NibbleCount(t)
    {
      t := t / 16;
      argCount := argCount + 1;
    }
    NibbleCountBounds(typespec);
  }

  /** `scheme_is_flag_set`: the nibble found by shifting `argIndex` bits, not nibbles, is non-zero. */
  predicate FlagSet(flags: nat, argIndex: nat)
    decreases argIndex
  {
    if argIndex == 0 then flags % 16 > 0 else FlagSet(flags / 2, argIndex - 1)
  }

  // ----- the token cursor, as values -----

  /** The loop passing separators and comments. */
  function Skip(toks: seq<Token>, cur: nat): (c: nat)
    requires cur <= |toks|
    ensures cur <= c <= |toks|
    ensures c < |toks| ==> toks[c].kind != TtSeparator && toks[c].kind != TtComment
    decreases |toks| - cur
  {
    if MatchAt(toks, cur, TtSeparator) || MatchAt(toks, cur, TtComment) then Skip(toks, cur + 1) else cur
  }

  /** `parser_current` at a cursor: the token there, or the last one past the end. */
  function CurrentAt(toks: seq<Token>, cur: nat): Token
    requires |toks| > 0
  {
    toks[if cur < |toks| - 1 then cur else |toks| - 1]
  }

  /** `parser_peek` at a cursor: past the last token, a copy of the last one typed unknown. */
  function PeekAt(toks: seq<Token>, cur: nat, lookahead: nat): Token
    requires |toks| > 0
  {
    if cur + lookahead > |toks| - 1 then toks[|toks| - 1].(kind := TtUnknown) else toks[cur + lookahead]
  }

  /**
   * `parser_get_token_string_length`: from the token's start to the next
   * token's start, and to the last token's start for the last one. Token
   * places are the list positions the tokenizer gave them, never negative.
   */
  function TokenLength(toks: seq<Token>, tok: Token): int
    requires |toks| > 0
  {
    if 0 <= tok.index < |toks| - 1 then toks[tok.index + 1].srcIndex - tok.srcIndex
    else toks[|toks| - 1].srcIndex - tok.srcIndex
  }

  function Clamp(x: int, n: nat): (r: nat)
    ensures r <= n
  {
    if x < 0 then 0 else if x > n then n else x
  }

  /** The string a pointer `start` characters into the text points at. */
  function Suffix(text: seq<char>, start: int): seq<char> {
    text[Clamp(start, |text|)..]
  }

  /** The `len` characters from `start`, as far as the text reaches. */
  function Chars(text: seq<char>, start: int, len: int): seq<char> {
    var s := Clamp(start, |text|);
    var e := Clamp(start + len, |text|);
    if e < s then [] else text[s..e]
  }

  /**
   * `strncmp(x, y, n) == 0` with an `int` count, for the texts here, which
   * hold no NUL (the parser copies a C string): by
   * `ShUtils.StrNEqualMeaning`, the first `n` characters agree. A negative
   * count converts to a size beyond both strings.
   */
  predicate StrNEq(x: seq<char>, y: seq<char>, n: int) {
    if n < 0 then x == y else ShUtils.Take(x, n) == ShUtils.Take(y, n)
  }

  // ----- `scheme_match` -----

  /** From lookahead `la` on, each remaining operand is a separator then a token of the nibble's type. */
  predicate ArgsMatch(toks: seq<Token>, cur: nat, spec: nat, la: nat)
    requires |toks| > 0
    decreases spec
  {
    spec == 0 ||
    (PeekAt(toks, cur, la).kind == TtSeparator && TypeCode(PeekAt(toks, cur, la + 1).kind) == spec % 16 &&
     ArgsMatch(toks, cur, spec / 16, la + 2))
  }

  /** Scheme `s` is named by the current token, and its operands follow. */
  predicate Fits(text: seq<char>, toks: seq<Token>, cur: nat, s: Scheme)
    requires |toks| > 0
  {
    var tok := CurrentAt(toks, cur);
    var len := TokenLength(toks, tok);
    |s.name| == len && StrNEq(Suffix(text, tok.srcIndex), s.name, len) && ArgsMatch(toks, cur, s.spec, 1)
  }

  /** `scheme_match` over a table, from entry `i` on: the first scheme that fits, or -1. */
  function FirstFit(text: seq<char>, toks: seq<Token>, cur: nat, table: seq<Scheme>, i: nat): (r: int)
    requires |toks| > 0 && i <= |table|
    ensures r == -1 || i <= r < |table|
    decreases |table| - i
  {
    if i == |table| then -1
    else if Fits(text, toks, cur, table[i]) then i
    else FirstFit(text, toks, cur, table, i + 1)
  }

  /** The index answered is the first scheme that fits, and -1 exactly when none does. */
  lemma {:induction false} FirstFitFirst(text: seq<char>, toks: seq<Token>, cur: nat, table: seq<Scheme>, i: nat)
    requires |toks| > 0 && i <= |table|
    ensures var r := FirstFit(text, toks, cur, table, i);
      (r == -1 <==> forall j :: i <= j < |table| ==> !Fits(text, toks, cur, table[j])) &&
      (r >= 0 ==> Fits(text, toks, cur, table[r]) && forall j :: i <= j < r ==> !Fits(text, toks, cur, table[j]))
    decreases |table| - i
  {
    if i < |table| && !Fits(text, toks, cur, table[i]) {
      FirstFitFirst(text, toks, cur, table, i + 1);
    }
  }

  // ----- labels -----

  /** One entry of `label_set_t`: where the name starts in the text, its length, and its address. */
  datatype Label = Label(start: int, length: int, address: int)

  /**
   * The reserved-name test of `label_add` against one scheme name. As
   * written, `strncmp(name, str, len)` holds for every label that is a
   * prefix of the name; corrected, the label must be the name.
   */
  predicate Clash(name: string, text: seq<char>, start: int, len: int, reading: Reading) {
    if reading == AsWritten then StrNEq(name, Suffix(text, start), len) else name == Chars(text, start, len)
  }

  /**
   * The duplicate test of `label_add` against a stored label. As written it
   * compares the stored label's length only, so a stored label that starts
   * the new one clashes; corrected, the names must be equal.
   */
  predicate Duplicate(text: seq<char>, e: Label, start: int, len: int, reading: Reading) {
    if reading == AsWritten then StrNEq(Suffix(text, e.start), Suffix(text, start), e.length)
    else Chars(text, e.start, e.length) == Chars(text, start, len)
  }

  /**
   * The test of `label_get_address`. As written it compares the queried
   * length only, so a stored label that the query starts answers it;
   * corrected, the names must be equal.
   */
  predicate Names(text: seq<char>, e: Label, start: int, len: int, reading: Reading) {
    if reading == AsWritten then StrNEq(Suffix(text, e.start), Suffix(text, start), len)
    else Chars(text, e.start, e.length) == Chars(text, start, len)
  }

  /** Some scheme's name clashes with the label. */
  predicate Reserved(table: seq<Scheme>, text: seq<char>, start: int, len: int, reading: Reading) {
    exists i :: 0 <= i < |table| && Clash(table[i].name, text, start, len, reading)
  }

  predicate Defined(text: seq<char>, entries: seq<Label>, start: int, len: int, reading: Reading) {
    exists k :: 0 <= k < |entries| && Duplicate(text, entries[k], start, len, reading)
  }

  /**
   * The capacity test of `label_add`: as written `count > GVM_ASM_MAX_LABELS`,
   * which lets a full set through; corrected `>=`.
   */
  predicate Full(count: nat, reading: Reading) {
    if reading == AsWritten then count > MaxLabels else count >= MaxLabels
  }

  /**
   * `label_add`: refused (false) when the set is full, the name is reserved
   * or already defined; otherwise the label is appended. Appending to a full
   * set writes past its arrays.
   */
  function AddLabel(table: seq<Scheme>, text: seq<char>, entries: seq<Label>, start: int, len: int, address: int, reading: Reading): (r: Result<(bool, seq<Label>), Abort>)
    ensures r.Ok? && !r.value.0 ==> r.value.1 == entries
    ensures r.Ok? && r.value.0 ==> r.value.1 == entries + [Label(start, len, address)] && |entries| < MaxLabels
    ensures r.Err? <==> (reading == AsWritten && |entries| == MaxLabels &&
                         !Reserved(table, text, start, len, reading) && !Defined(text, entries, start, len, reading))
  {
    if Full(|entries|, reading) then Ok((false, entries))
    else if Reserved(table, text, start, len, reading) then Ok((false, entries))
    else if Defined(text, entries, start, len, reading) then Ok((false, entries))
    else if |entries| >= MaxLabels then Err(OutOfBounds)
    else Ok((true, entries + [Label(start, len, address)]))
  }

  /** `label_get_address`: the address of the first label from `k` on that the name answers, or -1. */
  function AddressOf(text: seq<char>, entries: seq<Label>, start: int, len: int, reading: Reading, k: nat): (r: int)
    decreases |entries| - k
  {
    if k >= |entries| then -1
    else if Names(text, entries[k], start, len, reading) then entries[k].address
    else AddressOf(text, entries, start, len, reading, k + 1)
  }

  /**
   * The address found is that of the first label the name answers, at the
   * index returned, and -1 exactly when none answers (addresses being
   * non-negative).
   */
  lemma {:induction false} AddressOfFirst(text: seq<char>, entries: seq<Label>, start: int, len: int, reading: Reading, k: nat) returns (j: nat)
    requires forall i :: 0 <= i < |entries| ==> entries[i].address >= 0
    ensures var r := AddressOf(text, entries, start, len, reading, k);
      (r == -1 <==> forall i :: k <= i < |entries| ==> !Names(text, entries[i], start, len, reading)) &&
      (r >= 0 ==> k <= j < |entries| && Names(text, entries[j], start, len, reading) && entries[j].address == r &&
                  forall i :: k <= i < j ==> !Names(text, entries[i], start, len, reading))
    decreases |entries| - k
  {
    if k >= |entries| {
      return k;
    }
    if Names(text, entries[k], start, len, reading) {
      return k;
    }
    j := AddressOfFirst(text, entries, start, len, reading, k + 1);
  }

  /** `label_set_t`: fixed arrays of labels and their count; the labels point into one text. */
  class LabelSet {
    const text: seq<char>
    var slots: array<Label>
    var count: nat

    ghost predicate Valid()
      reads this
    {
      slots.Length == MaxLabels && count <= MaxLabels
    }

    function Entries(): seq<Label>
      reads this, slots
      requires Valid()
    {
      slots[..count]
    }

    /** The zeroed set of `asm_assemble_code_object`. */
    constructor (text: seq<char>)
      ensures Valid() && Entries() == [] && this.text == text && fresh(slots)
    {
      this.text := text;
      slots := new Label[MaxLabels](_ => Label(0, 0, 0));
      count := 0;
    }

    /** `label_add`. */
    method Add(table: seq<Scheme>, start: int, len: int, address: int, reading: Reading) returns (r: Result<bool, Abort>)
      requires Valid()
      modifies this, slots
      ensures Valid() && slots == old(slots)
      ensures match AddLabel(table, text, old(Entries()), start, len, address, reading)
        case Ok((added, es)) => r == Ok(added) && Entries() == es
        case Err(a) => r == Err(a)
    {
      if Full(count, reading) {
        return Ok(false);
      }
      var i := 0;
      while i < |table|
        invariant 0 <= i <= |table|
        invariant forall j :: 0 <= j < i ==> !Clash(table[j].name, text, start, len, reading)
      {
        if Clash(table[i].name, text, start, len, reading) {
          return Ok(false);
        }
        i := i + 1;
      }
      var k := 0;
      while k < count
        invariant 0 <= k <= count
        invariant forall j :: 0 <= j < k ==> !Duplicate(text, slots[j], start, len, reading)
      {
        if Duplicate(text, slots[k], start, len, reading) {
          assert Entries()[k] == slots[k];
          return Ok(false);
        }
        k := k + 1;
      }
      assert !Defined(text, Entries(), start, len, reading) by {
        forall j | 0 <= j < count
          ensures !Duplicate(text, Entries()[j], start, len, reading)
        {
          assert Entries()[j] == slots[j];
        }
      }
      if count >= slots.Length {
        return Err(OutOfBounds);
      }
      slots[count] := Label(start, len, address);
      count := count + 1;
      assert Entries() == old(Entries()) + [Label(start, len, address)];
      r := Ok(true);
    }

    /** `label_get_address`. */
    method GetAddress(start: int, len: int, reading: Reading) returns (address: int)
      requires Valid()
      ensures address == AddressOf(text, Entries(), start, len, reading, 0)
    {
      var i := 0;
      while i < count
        invariant 0 <= i <= count
        invariant AddressOf(text, Entries(), start, len, reading, 0) == AddressOf(text, Entries(), start, len, reading, i)
      {
        if Names(text, slots[i], start, len, reading) {
          return slots[i].address;
        }
        i := i + 1;
      }
      return -1;
    }
  }

  // ----- reading the parser -----

  /** `scheme_match` on the parser's current token. */
  method SchemeMatch(p: Parser, table: seq<Scheme>) returns (r: int)
    requires |p.tokens| > 0
    ensures r == FirstFit(p.text, p.tokens, p.current, table, 0)
  {
    var tok := CurrentAt(p.tokens, p.current);
    var len := TokenLength(p.tokens, tok);
    var str := Suffix(p.text, tok.srcIndex);
    var i := 0;
    while i < |table|
      invariant 0 <= i <= |table|
      invariant FirstFit(p.text, p.tokens, p.current, table, 0) == FirstFit(p.text, p.tokens, p.current, table, i)
    {
      if |table[i].name| == len && StrNEq(str, table[i].name, len) {
        var ok := ArgsFollow(p, table[i].spec);
        if ok {
          return i;
        }
      }
      i := i + 1;
    }
    return -1;
  }

  /** The inner loop of `scheme_match`: a separator, then a token of each nibble's type, peeking ahead. */
  method ArgsFollow(p: Parser, spec: nat) returns (ok: bool)
    requires |p.tokens| > 0
    ensures ok == ArgsMatch(p.tokens, p.current, spec, 1)
  {
    var typespec := spec;
    var lookahead := 1;
    ok := true;
    while ok && typespec > 0
      invariant ArgsMatch(p.tokens, p.current, spec, 1) == (ok && ArgsMatch(p.tokens, p.current, typespec, lookahead))
      decreases typespec, if ok then 1 else 0
    {
      if PeekAt(p.tokens, p.current, lookahead).kind != TtSeparator {
        ok := false;
      } else {
        lookahead := lookahead + 1;
        if TypeCode(PeekAt(p.tokens, p.current, lookahead).kind) != typespec % 16 {
          ok := false;
        } else {
          lookahead := lookahead + 1;
          typespec := typespec / 16;
        }
      }
    }
  }

  /** The loop passing separators and comments, on the parser. */
  method SkipFill(p: Parser)
    requires p.current <= |p.tokens|
    modifies p
    ensures p.tokens == old(p.tokens) && p.current == Skip(p.tokens, old(p.current))
  {
    while p.Match(TtSeparator) || p.Match(TtComment)
      invariant p.tokens == old(p.tokens) && p.current <= |p.tokens|
      invariant Skip(p.tokens, old(p.current)) == Skip(p.tokens, p.current)
      decreases |p.tokens| - p.current
    {
      var _ := p.Advance();
    }
  }

  // ----- the first pass, `asm_scan_labels` -----

  /** The three tokens of a label definition consumed: whether all were there, and the cursor after. */
  function LabelTail(toks: seq<Token>, cur: nat): (r: (bool, nat))
    requires cur <= |toks|
    ensures cur <= r.1 <= |toks| && (r.0 ==> r.1 > cur)
  {
    var (k1, c1) := ConsumedAt(toks, cur, TtSymbol);
    var (k2, c2) := ConsumedAt(toks, c1, TtColon);
    var (k3, c3) := ConsumedAt(toks, c2, TtSeparator);
    (k1 && k2 && k3, c3)
  }

  /** The first pass's operand loop: each of `n` operands is a separator consumed, a token passed and two bytes counted. */
  function SkipArgs(toks: seq<Token>, cur: nat, n: nat): (r: (bool, nat))
    requires cur <= |toks|
    ensures cur <= r.1 <= |toks|
    decreases n
  {
    if n == 0 then (true, cur)
    else
      var (k, c) := Hop(toks, cur);
      var (k3, c3) := SkipArgs(toks, c, n - 1);
      (k && k3, c3)
  }

  /** One operand as both passes take it: a separator consumed, then a token passed. */
  function Hop(toks: seq<Token>, cur: nat): (r: (bool, nat))
    requires cur <= |toks|
    ensures cur <= r.1 <= |toks|
  {
    var (k1, c1) := ConsumedAt(toks, cur, TtSeparator);
    var (k2, c2) := AdvancedAt(toks, c1);
    (k1 && k2, c2)
  }

  /**
   * The first pass over one operation: the name consumed and the operands
   * passed, one byte counted for the opcode. As written the pass then
   * advances once more, over the token after the operands, which the second
   * pass does not do: a token there that the separator loop would not pass
   * escapes the first pass's check. Corrected, the passes move alike.
   */
  function OpTail(toks: seq<Token>, cur: nat, n: nat, address: int, reading: Reading): (r: (bool, nat, int))
    requires cur <= |toks|
    ensures cur <= r.1 <= |toks| && (r.0 ==> r.1 > cur) && r.2 == address + 2 * n + 1
  {
    var (k1, c1) := ConsumedAt(toks, cur, TtSymbol);
    var (k2, c2) := SkipArgs(toks, c1, n);
    if reading == AsWritten then
      var (k3, c3) := AdvancedAt(toks, c2);
      (k1 && k2 && k3, c3, address + 2 * n + 1)
    else (k1 && k2, c2, address + 2 * n + 1)
  }

  /** The first pass's loop state: whether to go on, the cursor, the bytes counted and the labels; or what the pass answers. */
  datatype ScanStep = Scanning(keep: bool, cur: nat, address: int, entries: seq<Label>) | Scanned(result: Result<(bool, seq<Label>), Abort>)

  /**
   * One turn of `asm_scan_labels` from a cursor: separators and comments
   * passed, then a label definition added and stepped over, or an operation
   * passed with its bytes counted; a separator or comment still current
   * after the skip is the last token, and the turn ends at the end. The pass
   * answers here when a label is refused or a token starts no operation.
   */
  function ScanTurn(table: seq<Scheme>, text: seq<char>, toks: seq<Token>, cur: nat, address: int, entries: seq<Label>, reading: Reading): (r: ScanStep)
    requires cur < |toks|
    ensures r.Scanning? ==> cur <= r.cur <= |toks| && (r.keep ==> r.cur > cur)
  {
    var c := Skip(toks, cur);
    var current := CurrentAt(toks, c);
    var next := PeekAt(toks, c, 1);
    if current.kind == TtSymbol && next.kind == TtColon then
      match AddLabel(table, text, entries, current.srcIndex, next.srcIndex - current.srcIndex, address, reading)
      case Err(a) => Scanned(Err(a))
      case Ok((added, es)) =>
        if !added then Scanned(Ok((false, es)))
        else
          var (k, c3) := LabelTail(toks, c);
          Scanning(k, c3, address, es)
    else if current.kind == TtComment || current.kind == TtSeparator then Scanning(true, c, address, entries)
    else
      var i := FirstFit(text, toks, c, table, 0);
      if i < 0 then Scanned(Ok((false, entries)))
      else
        var (k, c3, a3) := OpTail(toks, c, NibbleCount(table[i].spec), address, reading);
        Scanning(k, c3, a3, entries)
  }

  /**
   * `asm_scan_labels` from a cursor, with `address` bytes counted and the
   * labels so far: the final label list, and false when a label is refused
   * or a token starts no operation. Once a consume or advance fails the loop
   * ends, and the pass still answers true.
   */
  function Scan(table: seq<Scheme>, text: seq<char>, toks: seq<Token>, cur: nat, address: int, entries: seq<Label>, reading: Reading): Result<(bool, seq<Label>), Abort>
    requires cur <= |toks|
    decreases |toks| - cur
  {
    if cur == |toks| then Ok((true, entries))
    else
      match ScanTurn(table, text, toks, cur, address, entries, reading)
      case Scanned(r) => r
      case Scanning(k, c, a, es) => if k then Scan(table, text, toks, c, a, es, reading) else Ok((true, es))
  }

  /** One turn of the first pass, as the loop takes it. */
  lemma ScanNext(table: seq<Scheme>, text: seq<char>, toks: seq<Token>, cur: nat, address: int, entries: seq<Label>, reading: Reading)
    requires cur < |toks|
    ensures var st := ScanTurn(table, text, toks, cur, address, entries, reading);
      Scan(table, text, toks, cur, address, entries, reading) ==
        match st
        case Scanned(r) => r
        case Scanning(k, c, a, es) => if k then Scan(table, text, toks, c, a, es, reading) else Ok((true, es))
  {
  }

  /** What the pass answers from here, given whether the loop goes on. */
  ghost predicate ScanFollows(final: Result<(bool, seq<Label>), Abort>, keep: bool, table: seq<Scheme>, text: seq<char>, toks: seq<Token>, cur: nat, address: int, entries: seq<Label>, reading: Reading)
    requires cur <= |toks|
  {
    final == if keep then Scan(table, text, toks, cur, address, entries, reading) else Ok((true, entries))
  }

  /** `asm_scan_labels` on the parser and a label labels over its text. */
  method ScanLabels(p: Parser, labels: LabelSet, table: seq<Scheme>, reading: Reading) returns (r: Result<bool, Abort>)
    requires p.current <= |p.tokens| && labels.Valid() && labels.text == p.text
    modifies p, labels, labels.slots
    ensures p.tokens == old(p.tokens) && labels.Valid() && labels.slots == old(labels.slots)
    ensures match Scan(table, p.text, p.tokens, old(p.current), 0, old(labels.Entries()), reading)
      case Ok((ok, es)) => r == Ok(ok) && labels.Entries() == es
      case Err(a) => r == Err(a)
  {
    ghost var final := Scan(table, p.text, p.tokens, p.current, 0, labels.Entries(), reading);
    var keep := true;
    var address := 0;
    while !p.IsAtEnd() && keep
      invariant p.tokens == old(p.tokens) && p.current <= |p.tokens| && labels.Valid() && labels.slots == old(labels.slots) && labels.text == p.text
      invariant ScanFollows(final, keep, table, p.text, p.tokens, p.current, address, labels.Entries(), reading)
      decreases |p.tokens| - p.current, keep
    {
      ScanNext(table, p.text, p.tokens, p.current, address, labels.Entries(), reading);
      var st := ScanOne(p, labels, table, address, reading);
      match st
      case Scanned(res) =>
        if res.Err? {
          return Err(res.error);
        }
        return Ok(res.value.0);
      case Scanning(k, _, a, _) =>
        keep, address := k, a;
    }
    if keep {
      assert p.current == |p.tokens|;
    }
    r := Ok(true);
  }

  /** One turn of the first pass's loop on the parser and the label set. */
  method ScanOne(p: Parser, labels: LabelSet, table: seq<Scheme>, address: int, reading: Reading) returns (st: ScanStep)
    requires p.current < |p.tokens| && labels.Valid() && labels.text == p.text
    modifies p, labels, labels.slots
    ensures p.tokens == old(p.tokens) && labels.Valid() && labels.slots == old(labels.slots) && labels.text == p.text
    ensures st == ScanTurn(table, p.text, p.tokens, old(p.current), address, old(labels.Entries()), reading)
    ensures st.Scanning? ==> p.current == st.cur && labels.Entries() == st.entries
    ensures st.Scanned? && st.result.Ok? ==> labels.Entries() == st.result.value.1
  {
    SkipFill(p);
    var current := CurrentAt(p.tokens, p.current);
    var next := PeekAt(p.tokens, p.current, 1);
    if current.kind == TtSymbol && next.kind == TtColon {
      var res := labels.Add(table, current.srcIndex, next.srcIndex - current.srcIndex, address, reading);
      if res.Err? {
        return Scanned(Err(res.error));
      }
      if !res.value {
        return Scanned(Ok((false, labels.Entries())));
      }
      var keep := ConsumeLabelTail(p);
      return Scanning(keep, p.current, address, labels.Entries());
    }
    if current.kind == TtComment || current.kind == TtSeparator {
      return Scanning(true, p.current, address, labels.Entries());
    }
    var scheme := SchemeMatch(p, table);
    if scheme < 0 {
      return Scanned(Ok((false, labels.Entries())));
    }
    var keep, after := ScanOp(p, table[scheme].spec, address, reading);
    return Scanning(keep, p.current, after, labels.Entries());
  }

  /** The three consumes after a label definition. */
  method ConsumeLabelTail(p: Parser) returns (keep: bool)
    requires p.current <= |p.tokens|
    modifies p
    ensures p.tokens == old(p.tokens) && (keep, p.current) == LabelTail(p.tokens, old(p.current))
  {
    var k1 := p.Consume(TtSymbol);
    var k2 := p.Consume(TtColon);
    var k3 := p.Consume(TtSeparator);
    keep := k1 && k2 && k3;
  }

  /** One operand of the first pass's loop, as the loop takes it: a separator consumed, a token passed, then the rest. */
  lemma SkipArgsNext(toks: seq<Token>, cur: nat, n: nat)
    requires cur <= |toks| && n > 0
    ensures var (k1, c1) := ConsumedAt(toks, cur, TtSeparator);
      var (k2, c2) := AdvancedAt(toks, c1);
      var rest := SkipArgs(toks, c2, n - 1);
      SkipArgs(toks, cur, n) == (k1 && k2 && rest.0, rest.1)
  {
  }

  /** The first pass over one operation of this typespec. */
  method ScanOp(p: Parser, typespec: nat, address: int, reading: Reading) returns (keep: bool, next: int)
    requires p.current <= |p.tokens|
    modifies p
    ensures p.tokens == old(p.tokens) && (keep, p.current, next) == OpTail(p.tokens, old(p.current), NibbleCount(typespec), address, reading)
  {
    keep := p.Consume(TtSymbol);
    var nargs := SchemeGetArgCount(typespec);
    var argsKept;
    argsKept, next := SkipOperands(p, nargs, address);
    next := next + 1;
    keep := keep && argsKept;
    if reading == AsWritten {
      var k3 := p.Advance();
      keep := keep && k3;
    }
  }

  /** The operand loop of the first pass: `n` times a separator consumed and a token passed, two bytes counted each. */
  method SkipOperands(p: Parser, n: nat, address: int) returns (kept: bool, next: int)
    requires p.current <= |p.tokens|
    modifies p
    ensures p.tokens == old(p.tokens) && (kept, p.current) == SkipArgs(p.tokens, old(p.current), n) && next == address + 2 * n
  {
    ghost var whole := SkipArgs(p.tokens, p.current, n);
    kept := true;
    next := address;
    var left := n;
    while left > 0
      invariant p.tokens == old(p.tokens) && p.current <= |p.tokens|
      invariant whole == (var rest := SkipArgs(p.tokens, p.current, left); (kept && rest.0, rest.1)) && next == address + 2 * (n - left)
    {
      SkipArgsNext(p.tokens, p.current, left);
      var k1 := p.Consume(TtSeparator);
      var k2 := p.Advance();
      kept := kept && k1 && k2;
      next := next + 2;
      left := left - 1;
    }
  }

  // ----- constants, `consts_add_current` -----

  /**
   * The numbers the text's literals denote: `number` for a number token's
   * characters (float parsing, with the float read as the integer it
   * converts to) and `integer` for a vector component (`string_parse_int`).
   */
  datatype Decoders = Decoders(number: seq<char> -> int, integer: seq<char> -> int)

  /** The first index holding `v`, or -1. */
  function IndexOf(vals: seq<GVal>, v: GVal): (r: int)
    ensures r == -1 <==> v !in vals
    ensures r >= 0 ==> r < |vals| && vals[r] == v && v !in vals[..r]
  {
    if |vals| == 0 then -1
    else if vals[0] == v then 0
    else
      var k := IndexOf(vals[1..], v);
      if k < 0 then -1
      else
        assert vals[..k + 1] == [vals[0]] + vals[1..][..k];
        k + 1
  }

  /** What an adder of one value leaves in a growable store: the first equal value's index, or the value appended and its index. */
  function FindOrAppend(vals: seq<GVal>, v: GVal): (r: (int, seq<GVal>))
    ensures r.1 == vals || r.1 == vals + [v]
    ensures 0 <= r.0 < |r.1| && r.1[r.0] == v && v !in r.1[..r.0]
  {
    var k := IndexOf(vals, v);
    if k >= 0 then (k, vals)
    else
      assert (vals + [v])[..|vals|] == vals;
      (|vals|, vals + [v])
  }

  /** The postconditions of the value adders of `gvm_asmutils.c`, on a store that can grow, determine `FindOrAppend`. */
  lemma FoundOrAppended(before: seq<GVal>, after: seq<GVal>, v: GVal, r: int)
    requires v in before ==> after == before && 0 <= r < |after| && after[r] == v && v !in after[..r]
    requires v !in before ==> r == |before| && after == before + [v]
    ensures (r, after) == FindOrAppend(before, v)
  {
  }

  /**
   * What `au_consts_add_string` and `au_consts_add_symbol_as_string` leave
   * in a store that can grow: the index of the list already holding the
   * characters, or their chars and a list over them appended and the list's
   * index; a search reading out of bounds aborts.
   */
  function AddStringValue(vals: seq<GVal>, chars: seq<char>): (r: Result<(int, seq<GVal>), Abort>)
    ensures r.Ok? ==> vals <= r.value.1 && 0 <= r.value.0 < |r.value.1| && r.value.1[r.value.0].List?
    ensures r.Ok? ==> FindString(r.value.1, 0, chars) == Ok(r.value.0)
  {
    match FindString(vals, 0, chars)
    case Err(a) => Err(a)
    case Ok(k) =>
      if k >= 0 then Ok((k, vals))
      else
        var after := vals + A.CharVals(chars) + [List(|vals|, |chars|)];
        A.AppendedStringIsFound(vals, chars);
        Ok((|after| - 1, after))
  }

  /**
   * The `true`/`false` test of `consts_add_current` on a symbol of `len`
   * characters. As written, a symbol of four or five characters is the
   * word when its first `|word|` characters are, so `trues` reads as `true`;
   * corrected, the symbol must be the word.
   */
  predicate SymbolIs(text: seq<char>, start: int, len: int, word: string, reading: Reading) {
    if reading == AsWritten then 4 <= len <= 5 && StrNEq(Suffix(text, start), word, |word|)
    else Chars(text, start, len) == word
  }

  /** The token types a constant operand adds a value for. */
  predicate ConstKind(k: TokenType) {
    k == TtString || k == TtNumber || k == TtVec2 || k == TtSymbol
  }

  /**
   * `consts_add_current` on a store that can grow: a string literal's
   * characters, a number, a vector, a boolean or a symbol's characters as a
   * string are added; any other token adds nothing and answers the last
   * index.
   */
  function ConstAdd(text: seq<char>, toks: seq<Token>, cur: nat, vals: seq<GVal>, dec: Decoders, reading: Reading): (r: Result<(int, seq<GVal>), Abort>)
    requires |toks| > 0
    ensures r.Ok? ==> vals <= r.value.1
    ensures r.Ok? && ConstKind(CurrentAt(toks, cur).kind) ==> 0 <= r.value.0 < |r.value.1|
    ensures r.Ok? && !ConstKind(CurrentAt(toks, cur).kind) ==> r.value == (|vals| - 1, vals)
  {
    var tok := CurrentAt(toks, cur);
    var len := TokenLength(toks, tok);
    var chars := Chars(text, tok.srcIndex, len);
    match tok.kind
    case TtString => AddStringValue(vals, A.LiteralChars(Suffix(text, tok.srcIndex)))
    case TtNumber => Ok(FindOrAppend(vals, Number(dec.number(chars))))
    case TtVec2 => Ok(FindOrAppend(vals, A.Vec2Of(Suffix(text, tok.srcIndex), dec.integer)))
    case TtSymbol => SymbolConstAdd(text, tok.srcIndex, len, vals, reading)
    case _ => Ok((|vals| - 1, vals))
  }

  /** A symbol operand's constant: the boolean it names, or else its text as a string. */
  function SymbolConstAdd(text: seq<char>, start: int, len: int, vals: seq<GVal>, reading: Reading): (r: Result<(int, seq<GVal>), Abort>)
    ensures r.Ok? ==> vals <= r.value.1 && 0 <= r.value.0 < |r.value.1|
  {
    if SymbolIs(text, start, len, "false", reading) then Ok(FindOrAppend(vals, Boolean(false)))
    else if SymbolIs(text, start, len, "true", reading) then Ok(FindOrAppend(vals, Boolean(true)))
    else AddStringValue(vals, Chars(text, start, len))
  }

  // ----- the second pass of `asm_assemble_code_object` -----

  /**
   * How the second pass ends: with the code and the constants; at a label
   * no label answers (`goto on_error`, an empty program); at a failed
   * `assert` or a read out of bounds; or never, when it comes back to a
   * token that starts no operation without moving.
   */
  datatype Emitted = Done(code: seq<bv8>, vals: seq<GVal>) | Failed | Crash(abort: Abort) | Hang

  /** One operand: the 16-bit word to write and the constants after it, or the end of the pass. */
  datatype Piece = Put(word: int, vals: seq<GVal>) | Stops(outcome: Emitted)

  /** The operand loop's state: whether to go on, the cursor, the code and the constants; or the end of the pass. */
  datatype Step = Going(keep: bool, cur: nat, code: seq<bv8>, vals: seq<GVal>) | Stopped(outcome: Emitted)

  /**
   * Operand `j` of scheme `s`, at the current token: a constant's index in
   * the store, which must be below 256; a label's address, which must be
   * found and below 256; or the number the token denotes.
   */
  function Operand(text: seq<char>, toks: seq<Token>, cur: nat, labels: seq<Label>, s: Scheme, j: nat, vals: seq<GVal>,
                   dec: Decoders, reading: Reading): (r: Piece)
    requires |toks| > 0
    ensures r.Put? ==> vals <= r.vals
    ensures r.Stops? ==> r.outcome.Failed? || r.outcome.Crash?
    ensures r.Put? && (FlagSet(s.isConst, j) || FlagSet(s.isLabel, j)) ==> 0 <= r.word < 256
  {
    if FlagSet(s.isConst, j) then ConstPiece(text, toks, cur, vals, dec, reading)
    else if FlagSet(s.isLabel, j) then LabelPiece(text, toks, cur, labels, vals, reading)
    else
      var tok := CurrentAt(toks, cur);
      Put(dec.number(Chars(text, tok.srcIndex, TokenLength(toks, tok))), vals)
  }

  /** A constant operand: its index in the store, which must be below 256. */
  function ConstPiece(text: seq<char>, toks: seq<Token>, cur: nat, vals: seq<GVal>, dec: Decoders, reading: Reading): (r: Piece)
    requires |toks| > 0
    ensures r.Put? ==> vals <= r.vals && 0 <= r.word < 256
    ensures r.Stops? ==> r.outcome.Crash?
  {
    match ConstAdd(text, toks, cur, vals, dec, reading)
    case Err(a) => Stops(Crash(a))
    case Ok((index, vs)) =>
      if 0 <= index < 256 then Put(index, vs) else Stops(Crash(AssertFailed("const_index >= 0 && const_index < 256")))
  }

  /** A label operand: its address, which must be found and below 256. */
  function LabelPiece(text: seq<char>, toks: seq<Token>, cur: nat, labels: seq<Label>, vals: seq<GVal>, reading: Reading): (r: Piece)
    requires |toks| > 0
    ensures r.Put? ==> r.vals == vals && 0 <= r.word < 256
    ensures r.Stops? ==> r.outcome.Failed? || r.outcome.Crash?
  {
    var tok := CurrentAt(toks, cur);
    var address := AddressOf(text, labels, tok.srcIndex, TokenLength(toks, tok), reading, 0);
    if address < 0 then Stops(Failed)
    else if address < 256 then Put(address, vals)
    else Stops(Crash(AssertFailed("label_index >= 0 && label_index < 256")))
  }


  /**
   * One step of the second pass's operand loop: a separator consumed, the
   * operand written as two bytes, the token passed; the loop goes on only
   * when the consume and the advance both succeeded.
   */
  function ArgStep(text: seq<char>, toks: seq<Token>, cur: nat, labels: seq<Label>, s: Scheme, j: nat,
                   code: seq<bv8>, vals: seq<GVal>, dec: Decoders, reading: Reading): (r: Step)
    requires |toks| > 0 && cur <= |toks|
    ensures r.Going? ==> cur <= r.cur <= |toks| && code <= r.code && |r.code| == |code| + 2 && vals <= r.vals
    ensures r.Going? && r.keep ==> r.cur > cur
    ensures r.Going? ==> (r.keep, r.cur) == Hop(toks, cur)
    ensures r.Stopped? ==> r.outcome.Failed? || r.outcome.Crash?
  {
    var (k1, c1) := ConsumedAt(toks, cur, TtSeparator);
    match Operand(text, toks, c1, labels, s, j, vals, dec, reading)
    case Stops(e) => Stopped(e)
    case Put(word, vs) =>
      var (k2, c2) := AdvancedAt(toks, c1);
      Going(k1 && k2, c2, code + A.Le16(word), vs)
  }

  /** The second pass's operand loop from operand `j` of `n`, going on while every step does. */
  function EmitArgs(text: seq<char>, toks: seq<Token>, cur: nat, labels: seq<Label>, s: Scheme, j: nat, n: nat,
                    code: seq<bv8>, vals: seq<GVal>, dec: Decoders, reading: Reading): (r: Step)
    requires |toks| > 0 && cur <= |toks| && j <= n
    ensures r.Going? && r.keep ==> SkipArgs(toks, cur, n - j) == (true, r.cur)
    decreases n - j
  {
    if j == n then Going(true, cur, code, vals)
    else
      match ArgStep(text, toks, cur, labels, s, j, code, vals, dec, reading)
      case Stopped(e) => Stopped(e)
      case Going(k, c, cs, vs) =>
        if k then EmitArgs(text, toks, c, labels, s, j + 1, n, cs, vs, dec, reading) else Going(false, c, cs, vs)
  }

  /**
   * The operand loop only moves forward: the cursor stays within the
   * tokens, and the code and the store only grow.
   */
  lemma {:induction false} EmitArgsGrows(text: seq<char>, toks: seq<Token>, cur: nat, labels: seq<Label>, s: Scheme, j: nat, n: nat,
                                         code: seq<bv8>, vals: seq<GVal>, dec: Decoders, reading: Reading)
    requires |toks| > 0 && cur <= |toks| && j <= n
    ensures var r := EmitArgs(text, toks, cur, labels, s, j, n, code, vals, dec, reading);
      r.Going? ==> cur <= r.cur <= |toks| && code <= r.code && vals <= r.vals
    decreases n - j
  {
    if j < n {
      var st := ArgStep(text, toks, cur, labels, s, j, code, vals, dec, reading);
      if st.Going? && st.keep {
        var r := EmitArgs(text, toks, st.cur, labels, s, j + 1, n, st.code, st.vals, dec, reading);
        EmitArgsGrows(text, toks, st.cur, labels, s, j + 1, n, st.code, st.vals, dec, reading);
        EmitArgsNext(text, toks, cur, labels, s, j, n, code, vals, dec, reading);
        if r.Going? {
          PrefixTrans(code, st.code, r.code);
          PrefixTrans(vals, st.vals, r.vals);
        }
      }
    }
  }

  /** The operand loop stops only on a missing label or a crash. */
  lemma {:induction false} EmitArgsStops(text: seq<char>, toks: seq<Token>, cur: nat, labels: seq<Label>, s: Scheme, j: nat, n: nat,
                                         code: seq<bv8>, vals: seq<GVal>, dec: Decoders, reading: Reading)
    requires |toks| > 0 && cur <= |toks| && j <= n
    ensures var r := EmitArgs(text, toks, cur, labels, s, j, n, code, vals, dec, reading);
      r.Stopped? ==> r.outcome.Failed? || r.outcome.Crash?
    decreases n - j
  {
    if j < n {
      var st := ArgStep(text, toks, cur, labels, s, j, code, vals, dec, reading);
      EmitArgsNext(text, toks, cur, labels, s, j, n, code, vals, dec, reading);
      if st.Going? && st.keep {
        EmitArgsStops(text, toks, st.cur, labels, s, j + 1, n, st.code, st.vals, dec, reading);
      }
    }
  }

  /** When every operand went through, the loop wrote two bytes per operand. */
  lemma {:induction false} EmitArgsLength(text: seq<char>, toks: seq<Token>, cur: nat, labels: seq<Label>, s: Scheme, j: nat, n: nat,
                                          code: seq<bv8>, vals: seq<GVal>, dec: Decoders, reading: Reading)
    requires |toks| > 0 && cur <= |toks| && j <= n
    ensures var r := EmitArgs(text, toks, cur, labels, s, j, n, code, vals, dec, reading);
      r.Going? && r.keep ==> |r.code| == |code| + 2 * (n - j)
    decreases n - j
  {
    if j < n {
      var st := ArgStep(text, toks, cur, labels, s, j, code, vals, dec, reading);
      EmitArgsNext(text, toks, cur, labels, s, j, n, code, vals, dec, reading);
      if st.Going? && st.keep {
        EmitArgsLength(text, toks, st.cur, labels, s, j + 1, n, st.code, st.vals, dec, reading);
      }
    }
  }

  /** A prefix of a prefix is a prefix. */
  lemma PrefixTrans<T>(a: seq<T>, b: seq<T>, c: seq<T>)
    requires a <= b && b <= c
    ensures a <= c
  {
    assert c[..|a|] == b[..|a|];
  }

  /**
   * The second pass over one operation of scheme `s` at its name: the
   * opcode byte written, the name consumed, then the operand loop, which
   * runs only when the consume succeeded.
   */
  function OpStep(text: seq<char>, toks: seq<Token>, c: nat, labels: seq<Label>, s: Scheme, code: seq<bv8>, vals: seq<GVal>,
                  dec: Decoders, reading: Reading): (r: Step)
    requires 0 < |toks| && c <= |toks|
    ensures r.Going? ==> c <= r.cur <= |toks| && code <= r.code && vals <= r.vals
    ensures r.Going? && r.keep ==> r.cur > c
    ensures r.Going? && r.keep && reading == Corrected ==> var t := OpTail(toks, c, NibbleCount(s.spec), 0, Corrected); t.0 && t.1 == r.cur
    ensures r.Stopped? ==> r.outcome.Failed? || r.outcome.Crash?
  {
    var code1 := code + [CoUtils.LowByte(s.opcode)];
    var (k1, c1) := ConsumedAt(toks, c, TtSymbol);
    if !k1 then Going(false, c1, code1, vals)
    else
      EmitArgsGrows(text, toks, c1, labels, s, 0, NibbleCount(s.spec), code1, vals, dec, reading);
      EmitArgsLength(text, toks, c1, labels, s, 0, NibbleCount(s.spec), code1, vals, dec, reading);
      EmitArgsStops(text, toks, c1, labels, s, 0, NibbleCount(s.spec), code1, vals, dec, reading);
      EmitArgs(text, toks, c1, labels, s, 0, NibbleCount(s.spec), code1, vals, dec, reading)
  }

  /**
   * One turn of the second pass's loop from a cursor: separators and
   * comments passed, then a label definition stepped over or an operation
   * written. The pass ends here at a separator or comment (the end of the
   * tokens), and never ends at a token that starts no operation unless it
   * is the last one.
   */
  function Turn(table: seq<Scheme>, text: seq<char>, toks: seq<Token>, cur: nat, labels: seq<Label>, code: seq<bv8>, vals: seq<GVal>,
                dec: Decoders, reading: Reading): (r: Step)
    requires cur < |toks|
    ensures r.Going? ==> cur <= r.cur <= |toks| && code <= r.code && vals <= r.vals
    ensures r.Going? && r.keep ==> r.cur > cur
    ensures r.Stopped? && r.outcome.Done? ==> r.outcome.code == code && r.outcome.vals == vals
  {
    var c := Skip(toks, cur);
    var current := CurrentAt(toks, c);
    var next := PeekAt(toks, c, 1);
    if current.kind == TtSymbol && next.kind == TtColon then
      var (k, c3) := LabelTail(toks, c);
      Going(k, c3, code, vals)
    else if current.kind == TtComment || current.kind == TtSeparator then Stopped(Done(code, vals))
    else
      var i := FirstFit(text, toks, c, table, 0);
      if i < 0 then Stopped(if c < |toks| then Hang else Done(code, vals))
      else OpStep(text, toks, c, labels, table[i], code, vals, dec, reading)
  }

  /**
   * The second pass from a cursor, with the final labels, the code and the
   * constants so far: turn after turn while the loop goes on.
   */
  function Emit(table: seq<Scheme>, text: seq<char>, toks: seq<Token>, cur: nat, labels: seq<Label>, code: seq<bv8>, vals: seq<GVal>,
                dec: Decoders, reading: Reading): (r: Emitted)
    requires cur <= |toks|
    ensures r.Done? ==> code <= r.code && vals <= r.vals
    decreases |toks| - cur
  {
    if cur == |toks| then Done(code, vals)
    else
      match Turn(table, text, toks, cur, labels, code, vals, dec, reading)
      case Stopped(e) => e
      case Going(k, c, cs, vs) => if k then Emit(table, text, toks, c, labels, cs, vs, dec, reading) else Done(cs, vs)
  }

  /** One turn of the second pass, as the loop takes it. */
  lemma EmitNext(table: seq<Scheme>, text: seq<char>, toks: seq<Token>, cur: nat, labels: seq<Label>, code: seq<bv8>, vals: seq<GVal>,
                 dec: Decoders, reading: Reading)
    requires cur < |toks|
    ensures Emit(table, text, toks, cur, labels, code, vals, dec, reading) ==
      match Turn(table, text, toks, cur, labels, code, vals, dec, reading)
      case Stopped(e) => e
      case Going(k, c, cs, vs) => if k then Emit(table, text, toks, c, labels, cs, vs, dec, reading) else Done(cs, vs)
  {
  }

  /** An assembled program: `gvm_program_t`'s instruction bytes and constants. */
  datatype AsmProgram = AsmProgram(code: seq<bv8>, consts: seq<GVal>)

  /** The zeroed program `asm_assemble_code_object` answers on every error. */
  const EmptyProgram := AsmProgram([], [])

  /**
   * `asm_assemble_code_object`: tokenize, scan the labels, rewind, then
   * write the code; an empty program when tokenizing fails, a label is
   * refused, a token starts no operation in the first pass or a label is
   * not found in the second. A second pass that would never end answers
   * `Diverges`.
   */
  function AssembleSpec(text: seq<char>, dec: Decoders, reading: Reading): Result<AsmProgram, Abort> {
    var l := Tokens(text);
    if TokenizeResult(l, reading) != ResOk then Ok(EmptyProgram)
    else
      match Scan(Schemes, text, l.tokens, 0, 0, [], reading)
      case Err(a) => Err(a)
      case Ok((ok, labels)) =>
        if !ok then Ok(EmptyProgram)
        else
          match Emit(Schemes, text, l.tokens, 0, labels, [], [], dec, reading)
          case Done(code, vals) => Ok(AsmProgram(code, vals))
          case Failed => Ok(EmptyProgram)
          case Crash(a) => Err(a)
          case Hang => Err(Diverges)
  }

  /**
   * `consts_add_current` on the constant store and the parser's current
   * token. `asm_assemble_code_object` creates the store with room for five
   * values, so it is never one that cannot grow.
   */
  method ConstsAddCurrent(consts: ValBuffer, p: Parser, dec: Decoders, reading: Reading) returns (r: Result<int, Abort>)
    requires consts.Valid() && !A.Stuck(consts) && |p.tokens| > 0
    modifies consts, consts.values
    ensures consts.Valid() && (r.Ok? ==> !A.Stuck(consts))
    ensures consts.values == old(consts.values) || fresh(consts.values)
    ensures match ConstAdd(p.text, p.tokens, p.current, old(consts.Contents()), dec, reading)
      case Ok((index, vals)) => r == Ok(index) && consts.Contents() == vals
      case Err(a) => r == Err(a)
  {
    var tok := CurrentAt(p.tokens, p.current);
    var len := TokenLength(p.tokens, tok);
    var str := Suffix(p.text, tok.srcIndex);
    var chars := Chars(p.text, tok.srcIndex, len);
    ghost var before := consts.Contents();
    match tok.kind
    case TtString =>
      r := ConstsAddString(consts, str);
    case TtNumber =>
      r := ConstsAddNumber(consts, dec.number(chars));
    case TtVec2 =>
      r := ConstsAddVec2(consts, str, dec.integer);
    case TtSymbol =>
      r := ConstsAddSymbol(consts, p.text, tok.srcIndex, len, reading);
    case _ =>
      r := Ok(consts.size - 1);
  }

  /** The string branch of `asm_consts_add_current`. */
  method ConstsAddString(consts: ValBuffer, str: seq<char>) returns (r: Result<int, Abort>)
    requires consts.Valid() && !A.Stuck(consts)
    modifies consts, consts.values
    ensures consts.Valid() && (r.Ok? ==> !A.Stuck(consts))
    ensures consts.values == old(consts.values) || fresh(consts.values)
    ensures match AddStringValue(old(consts.Contents()), A.LiteralChars(str))
      case Ok((index, vals)) => r == Ok(index) && consts.Contents() == vals
      case Err(a) => r == Err(a)
  {
    r := A.AddString(consts, str);
  }

  /** The number branch of `asm_consts_add_current`: the value found, or appended. */
  method ConstsAddNumber(consts: ValBuffer, x: int) returns (r: Result<int, Abort>)
    requires consts.Valid() && !A.Stuck(consts)
    modifies consts, consts.values
    ensures consts.Valid() && !A.Stuck(consts)
    ensures consts.values == old(consts.values) || fresh(consts.values)
    ensures var (index, vals) := FindOrAppend(old(consts.Contents()), Number(x));
      r == Ok(index) && consts.Contents() == vals
  {
    ghost var before := consts.Contents();
    var k := A.AddNumber(consts, x);
    FoundOrAppended(before, consts.Contents(), Number(x), k);
    r := Ok(k);
  }

  /** The `ivec2` branch of `asm_consts_add_current`: the vector found, or appended. */
  method ConstsAddVec2(consts: ValBuffer, str: seq<char>, integer: seq<char> -> int) returns (r: Result<int, Abort>)
    requires consts.Valid() && !A.Stuck(consts)
    modifies consts, consts.values
    ensures consts.Valid() && !A.Stuck(consts)
    ensures consts.values == old(consts.values) || fresh(consts.values)
    ensures var (index, vals) := FindOrAppend(old(consts.Contents()), A.Vec2Of(str, integer));
      r == Ok(index) && consts.Contents() == vals
  {
    ghost var before := consts.Contents();
    var k := A.AddIvec2(consts, str, integer);
    FoundOrAppended(before, consts.Contents(), A.Vec2Of(str, integer), k);
    r := Ok(k);
  }

  /** The symbol branch of `asm_consts_add_current`. */
  method ConstsAddSymbol(consts: ValBuffer, text: seq<char>, start: int, len: int, reading: Reading) returns (r: Result<int, Abort>)
    requires consts.Valid() && !A.Stuck(consts)
    modifies consts, consts.values
    ensures consts.Valid() && (r.Ok? ==> !A.Stuck(consts))
    ensures consts.values == old(consts.values) || fresh(consts.values)
    ensures match SymbolConstAdd(text, start, len, old(consts.Contents()), reading)
      case Ok((index, vals)) => r == Ok(index) && consts.Contents() == vals
      case Err(a) => r == Err(a)
  {
    ghost var before := consts.Contents();
    if SymbolIs(text, start, len, "false", reading) {
      var k := A.AddBool(consts, false);
      FoundOrAppended(before, consts.Contents(), Boolean(false), k);
      r := Ok(k);
    } else if SymbolIs(text, start, len, "true", reading) {
      var k := A.AddBool(consts, true);
      FoundOrAppended(before, consts.Contents(), Boolean(true), k);
      r := Ok(k);
    } else {
      var chars := Chars(text, start, len);
      assert chars[..|chars|] == chars;
      r := A.AddSymbolAsString(consts, chars, |chars|);
    }
  }

  /** The label slots, the store's values and the code bytes are three different blocks. */
  predicate Apart(labels: LabelSet, consts: ValBuffer, code: GvmUtils.U8Buffer)
    reads labels, consts, code
  {
    labels.slots as object != consts.values as object && labels.slots as object != code.data as object &&
    consts.values as object != code.data as object
  }

  /** A piece written: its two bytes after the code and its store as the constants, or the stop it answers. */
  ghost predicate Wrote(piece: Piece, stop: Option<Emitted>, before: seq<bv8>, code: seq<bv8>, vals: seq<GVal>) {
    match piece
    case Put(word, vs) => stop.None? && vals == vs && code == before + A.Le16(word)
    case Stops(e) => stop == Some(e)
  }

  /** A constant operand of the second pass: added to the store, checked, and its index written. */
  method EmitConst(p: Parser, consts: ValBuffer, code: GvmUtils.U8Buffer, dec: Decoders, reading: Reading) returns (stop: Option<Emitted>)
    requires |p.tokens| > 0 && consts.Valid() && !A.Stuck(consts) && code.Valid() && code.size >= 1
    requires consts.values as object != code.data as object
    modifies consts, consts.values, code, code.data
    ensures consts.Valid() && code.Valid() && code.size >= 1 && (stop.None? ==> !A.Stuck(consts))
    ensures consts.values == old(consts.values) || fresh(consts.values)
    ensures code.data == old(code.data) || fresh(code.data)
    ensures consts.values as object != code.data as object
    ensures Wrote(ConstPiece(p.text, p.tokens, p.current, old(consts.Contents()), dec, reading), stop, old(code.Contents()), code.Contents(), consts.Contents())
  {
    var index := ConstsAddCurrent(consts, p, dec, reading);
    if index.Err? {
      return Some(Crash(index.error));
    }
    if !(0 <= index.value < 256) {
      return Some(Crash(AssertFailed("const_index >= 0 && const_index < 256")));
    }
    A.WriteOperand(code, index.value);
    stop := None;
  }

  /** A label operand of the second pass: looked up, checked, and its address written. */
  method EmitLabel(p: Parser, labels: LabelSet, code: GvmUtils.U8Buffer, reading: Reading) returns (stop: Option<Emitted>)
    requires |p.tokens| > 0 && labels.Valid() && labels.text == p.text && code.Valid() && code.size >= 1
    modifies code, code.data
    ensures code.Valid() && code.size >= 1
    ensures code.data == old(code.data) || fresh(code.data)
    ensures forall vals: seq<GVal> :: Wrote(LabelPiece(p.text, p.tokens, p.current, old(labels.Entries()), vals, reading), stop, old(code.Contents()), code.Contents(), vals)
  {
    var tok := CurrentAt(p.tokens, p.current);
    var address := labels.GetAddress(tok.srcIndex, TokenLength(p.tokens, tok), reading);
    if address < 0 {
      return Some(Failed);
    }
    if address >= 256 {
      return Some(Crash(AssertFailed("label_index >= 0 && label_index < 256")));
    }
    A.WriteOperand(code, address);
    stop := None;
  }

  /**
   * One operand of the second pass at the current token: a constant's index
   * or a label's address, each checked to be below 256, or the number the
   * token denotes, written as two bytes; or how the pass stops.
   */
  method EmitOperand(p: Parser, labels: LabelSet, consts: ValBuffer, code: GvmUtils.U8Buffer, s: Scheme, j: nat,
                     dec: Decoders, reading: Reading) returns (stop: Option<Emitted>)
    requires |p.tokens| > 0 && labels.Valid() && labels.text == p.text
    requires consts.Valid() && !A.Stuck(consts) && code.Valid() && code.size >= 1 && Apart(labels, consts, code)
    modifies consts, consts.values, code, code.data
    ensures consts.Valid() && code.Valid() && code.size >= 1 && (stop.None? ==> !A.Stuck(consts)) && Apart(labels, consts, code)
    ensures consts.values == old(consts.values) || fresh(consts.values)
    ensures code.data == old(code.data) || fresh(code.data)
    ensures Wrote(Operand(p.text, p.tokens, p.current, old(labels.Entries()), s, j, old(consts.Contents()), dec, reading),
                  stop, old(code.Contents()), code.Contents(), consts.Contents())
  {
    if FlagSet(s.isConst, j) {
      stop := EmitConst(p, consts, code, dec, reading);
    } else if FlagSet(s.isLabel, j) {
      stop := EmitLabel(p, labels, code, reading);
    } else {
      var tok := CurrentAt(p.tokens, p.current);
      A.WriteOperand(code, dec.number(Chars(p.text, tok.srcIndex, TokenLength(p.tokens, tok))));
      stop := None;
    }
  }

  /** A step's effect: the cursor, the code and the store it leaves, and whether the loop goes on; or the stop. */
  ghost predicate Stepped(step: Step, keep: bool, stop: Option<Emitted>, cur: nat, code: seq<bv8>, vals: seq<GVal>) {
    match step
    case Going(k, c, cs, vs) => stop.None? && keep == k && cur == c && code == cs && vals == vs
    case Stopped(e) => stop == Some(e)
  }

  /** One step of the operand loop of the second pass. */
  method EmitArg(p: Parser, labels: LabelSet, consts: ValBuffer, code: GvmUtils.U8Buffer, s: Scheme, j: nat,
                 dec: Decoders, reading: Reading) returns (keep: bool, stop: Option<Emitted>)
    requires 0 < |p.tokens| && p.current <= |p.tokens| && labels.Valid() && labels.text == p.text
    requires consts.Valid() && !A.Stuck(consts) && code.Valid() && code.size >= 1 && Apart(labels, consts, code)
    modifies p, consts, consts.values, code, code.data
    ensures p.tokens == old(p.tokens) && p.current <= |p.tokens|
    ensures consts.Valid() && code.Valid() && code.size >= 1 && (stop.None? ==> !A.Stuck(consts)) && Apart(labels, consts, code)
    ensures consts.values == old(consts.values) || fresh(consts.values)
    ensures code.data == old(code.data) || fresh(code.data)
    ensures Stepped(ArgStep(p.text, p.tokens, old(p.current), old(labels.Entries()), s, j, old(code.Contents()), old(consts.Contents()), dec, reading),
                    keep, stop, p.current, code.Contents(), consts.Contents())
  {
    var k1 := p.Consume(TtSeparator);
    stop := EmitOperand(p, labels, consts, code, s, j, dec, reading);
    if stop.Some? {
      return false, stop;
    }
    var k2 := p.Advance();
    keep := k1 && k2;
  }

  /** What the operand loop ends with from here, given whether it goes on. */
  ghost predicate OperandsFollow(final: Step, keep: bool, text: seq<char>, toks: seq<Token>, cur: nat, labels: seq<Label>, s: Scheme, j: nat, n: nat,
                                 code: seq<bv8>, vals: seq<GVal>, dec: Decoders, reading: Reading)
    requires |toks| > 0 && cur <= |toks| && j <= n
  {
    final == if keep then EmitArgs(text, toks, cur, labels, s, j, n, code, vals, dec, reading) else Going(false, cur, code, vals)
  }

  /** One step of the operand loop, as the loop takes it. */
  lemma EmitArgsNext(text: seq<char>, toks: seq<Token>, cur: nat, labels: seq<Label>, s: Scheme, j: nat, n: nat,
                     code: seq<bv8>, vals: seq<GVal>, dec: Decoders, reading: Reading)
    requires |toks| > 0 && cur <= |toks| && j < n
    ensures var st := ArgStep(text, toks, cur, labels, s, j, code, vals, dec, reading);
      EmitArgs(text, toks, cur, labels, s, j, n, code, vals, dec, reading) ==
        match st
        case Stopped(e) => st
        case Going(k, c, cs, vs) => if k then EmitArgs(text, toks, c, labels, s, j + 1, n, cs, vs, dec, reading) else st
  {
  }

  /** The operand loop of the second pass over the `n` operands of scheme `s`. */
  method EmitOperands(p: Parser, labels: LabelSet, consts: ValBuffer, code: GvmUtils.U8Buffer, s: Scheme, n: nat,
                      dec: Decoders, reading: Reading) returns (keep: bool, stop: Option<Emitted>)
    requires 0 < |p.tokens| && p.current <= |p.tokens| && labels.Valid() && labels.text == p.text
    requires consts.Valid() && !A.Stuck(consts) && code.Valid() && code.size >= 1 && Apart(labels, consts, code)
    modifies p, consts, consts.values, code, code.data
    ensures p.tokens == old(p.tokens) && p.current <= |p.tokens|
    ensures consts.Valid() && code.Valid() && code.size >= 1 && (stop.None? ==> !A.Stuck(consts)) && Apart(labels, consts, code)
    ensures consts.values == old(consts.values) || fresh(consts.values)
    ensures code.data == old(code.data) || fresh(code.data)
    ensures Stepped(EmitArgs(p.text, p.tokens, old(p.current), old(labels.Entries()), s, 0, n, old(code.Contents()), old(consts.Contents()), dec, reading),
                    keep, stop, p.current, code.Contents(), consts.Contents())
  {
    keep, stop := OperandsFrom(p, labels, consts, code, s, 0, n, dec, reading);
  }

  /** The operand loop of the second pass from operand `j` on: one step, then the rest while the step goes on. */
  method OperandsFrom(p: Parser, labels: LabelSet, consts: ValBuffer, code: GvmUtils.U8Buffer, s: Scheme, j: nat, n: nat,
                      dec: Decoders, reading: Reading) returns (keep: bool, stop: Option<Emitted>)
    requires 0 < |p.tokens| && p.current <= |p.tokens| && labels.Valid() && labels.text == p.text && j <= n
    requires consts.Valid() && !A.Stuck(consts) && code.Valid() && code.size >= 1 && Apart(labels, consts, code)
    modifies p, consts, consts.values, code, code.data
    ensures p.tokens == old(p.tokens) && p.current <= |p.tokens|
    ensures consts.Valid() && code.Valid() && code.size >= 1 && (stop.None? ==> !A.Stuck(consts)) && Apart(labels, consts, code)
    ensures consts.values == old(consts.values) || fresh(consts.values)
    ensures code.data == old(code.data) || fresh(code.data)
    ensures Stepped(EmitArgs(p.text, p.tokens, old(p.current), old(labels.Entries()), s, j, n, old(code.Contents()), old(consts.Contents()), dec, reading),
                    keep, stop, p.current, code.Contents(), consts.Contents())
    decreases n - j
  {
    if j == n {
      return true, None;
    }
    ghost var cur0, code0, vals0 := p.current, code.Contents(), consts.Contents();
    keep, stop := EmitArg(p, labels, consts, code, s, j, dec, reading);
    if keep && stop.None? {
      SteppedOn(p.text, p.tokens, cur0, labels.Entries(), s, j, n, code0, vals0, dec, reading, p.current, code.Contents(), consts.Contents());
      keep, stop := OperandsFrom(p, labels, consts, code, s, j + 1, n, dec, reading);
    } else {
      SteppedOff(p.text, p.tokens, cur0, labels.Entries(), s, j, n, code0, vals0, dec, reading, keep, stop, p.current, code.Contents(), consts.Contents());
    }
  }

  /** A step that went on continues the loop from where it left the cursor, the code and the store. */
  lemma SteppedOn(text: seq<char>, toks: seq<Token>, cur: nat, labels: seq<Label>, s: Scheme, j: nat, n: nat,
                  code: seq<bv8>, vals: seq<GVal>, dec: Decoders, reading: Reading, cur2: nat, code2: seq<bv8>, vals2: seq<GVal>)
    requires |toks| > 0 && cur <= |toks| && j < n && cur2 <= |toks|
    requires Stepped(ArgStep(text, toks, cur, labels, s, j, code, vals, dec, reading), true, None, cur2, code2, vals2)
    ensures EmitArgs(text, toks, cur, labels, s, j, n, code, vals, dec, reading) ==
            EmitArgs(text, toks, cur2, labels, s, j + 1, n, code2, vals2, dec, reading)
  {
    EmitArgsNext(text, toks, cur, labels, s, j, n, code, vals, dec, reading);
  }

  /** A step that stopped, or did not keep going, ends the loop with its own outcome. */
  lemma SteppedOff(text: seq<char>, toks: seq<Token>, cur: nat, labels: seq<Label>, s: Scheme, j: nat, n: nat,
                   code: seq<bv8>, vals: seq<GVal>, dec: Decoders, reading: Reading,
                   keep: bool, stop: Option<Emitted>, cur2: nat, code2: seq<bv8>, vals2: seq<GVal>)
    requires |toks| > 0 && cur <= |toks| && j < n && !(keep && stop.None?)
    requires Stepped(ArgStep(text, toks, cur, labels, s, j, code, vals, dec, reading), keep, stop, cur2, code2, vals2)
    ensures Stepped(EmitArgs(text, toks, cur, labels, s, j, n, code, vals, dec, reading), keep, stop, cur2, code2, vals2)
  {
    EmitArgsNext(text, toks, cur, labels, s, j, n, code, vals, dec, reading);
  }

  /** The second pass over one operation of scheme `s` at its name. */
  method EmitOp(p: Parser, labels: LabelSet, consts: ValBuffer, code: GvmUtils.U8Buffer, s: Scheme,
                dec: Decoders, reading: Reading) returns (keep: bool, stop: Option<Emitted>)
    requires 0 < |p.tokens| && p.current <= |p.tokens| && labels.Valid() && labels.text == p.text
    requires consts.Valid() && !A.Stuck(consts) && code.Valid() && (code.size > 0 || code.capacity > 0) && Apart(labels, consts, code)
    modifies p, consts, consts.values, code, code.data
    ensures p.tokens == old(p.tokens) && p.current <= |p.tokens|
    ensures consts.Valid() && code.Valid() && code.size >= 1 && (stop.None? ==> !A.Stuck(consts)) && Apart(labels, consts, code)
    ensures consts.values == old(consts.values) || fresh(consts.values)
    ensures code.data == old(code.data) || fresh(code.data)
    ensures Stepped(OpStep(p.text, p.tokens, old(p.current), old(labels.Entries()), s, old(code.Contents()), old(consts.Contents()), dec, reading),
                    keep, stop, p.current, code.Contents(), consts.Contents())
  {
    var w := code.Write(CoUtils.LowByte(s.opcode));
    var k1 := p.Consume(TtSymbol);
    if !k1 {
      return false, None;
    }
    var nargs := SchemeGetArgCount(s.spec);
    keep, stop := EmitOperands(p, labels, consts, code, s, nargs, dec, reading);
  }

  /** One turn of the second pass's loop on the parser. */
  method EmitTurn(p: Parser, labels: LabelSet, consts: ValBuffer, code: GvmUtils.U8Buffer, table: seq<Scheme>, dec: Decoders, reading: Reading)
    returns (keep: bool, stop: Option<Emitted>)
    requires p.current < |p.tokens| && labels.Valid() && labels.text == p.text
    requires consts.Valid() && !A.Stuck(consts) && code.Valid() && (code.size > 0 || code.capacity > 0) && Apart(labels, consts, code)
    modifies p, consts, consts.values, code, code.data
    ensures p.tokens == old(p.tokens) && p.current <= |p.tokens|
    ensures consts.Valid() && code.Valid() && (code.size > 0 || code.capacity > 0) && (stop.None? ==> !A.Stuck(consts)) && Apart(labels, consts, code)
    ensures consts.values == old(consts.values) || fresh(consts.values)
    ensures code.data == old(code.data) || fresh(code.data)
    ensures Stepped(Turn(table, p.text, p.tokens, old(p.current), old(labels.Entries()), old(code.Contents()), old(consts.Contents()), dec, reading),
                    keep, stop, p.current, code.Contents(), consts.Contents())
    ensures stop.Some? && stop.value.Done? ==> code.Contents() == stop.value.code && consts.Contents() == stop.value.vals
  {
    SkipFill(p);
    var current := CurrentAt(p.tokens, p.current);
    var next := PeekAt(p.tokens, p.current, 1);
    if current.kind == TtSymbol && next.kind == TtColon {
      keep := ConsumeLabelTail(p);
      return keep, None;
    }
    if current.kind == TtComment || current.kind == TtSeparator {
      return false, Some(Done(code.Contents(), consts.Contents()));
    }
    var scheme := SchemeMatch(p, table);
    if scheme < 0 {
      if !p.IsAtEnd() {
        return false, Some(Hang);
      }
      return false, Some(Done(code.Contents(), consts.Contents()));
    }
    keep, stop := EmitOp(p, labels, consts, code, table[scheme], dec, reading);
  }

  /** What the second pass answers from here, given whether its loop goes on. */
  ghost predicate EmitFollows(final: Emitted, keep: bool, table: seq<Scheme>, text: seq<char>, toks: seq<Token>, cur: nat, labels: seq<Label>,
                              code: seq<bv8>, vals: seq<GVal>, dec: Decoders, reading: Reading)
    requires cur <= |toks|
  {
    final == if keep then Emit(table, text, toks, cur, labels, code, vals, dec, reading) else Done(code, vals)
  }

  /**
   * The loop of the second pass of `asm_assemble_code_object`. Where the
   * source's loop would come back to a token that starts no operation for
   * ever, without changing any state, this method answers `Hang`.
   */
  method EmitCode(p: Parser, labels: LabelSet, consts: ValBuffer, code: GvmUtils.U8Buffer, table: seq<Scheme>, dec: Decoders, reading: Reading) returns (r: Emitted)
    requires p.current <= |p.tokens| && labels.Valid() && labels.text == p.text
    requires consts.Valid() && !A.Stuck(consts) && code.Valid() && (code.size > 0 || code.capacity > 0) && Apart(labels, consts, code)
    modifies p, consts, consts.values, code, code.data
    ensures consts.Valid() && code.Valid()
    ensures r == Emit(table, p.text, old(p.tokens), old(p.current), old(labels.Entries()), old(code.Contents()), old(consts.Contents()), dec, reading)
    ensures r.Done? ==> code.Contents() == r.code && consts.Contents() == r.vals
  {
    ghost var entries := labels.Entries();
    ghost var final := Emit(table, p.text, p.tokens, p.current, entries, code.Contents(), consts.Contents(), dec, reading);
    var keep := true;
    while !p.IsAtEnd() && keep
      invariant p.tokens == old(p.tokens) && p.current <= |p.tokens| && labels.Entries() == entries
      invariant consts.Valid() && !A.Stuck(consts) && code.Valid() && (code.size > 0 || code.capacity > 0) && Apart(labels, consts, code)
      invariant consts.values == old(consts.values) || fresh(consts.values)
      invariant code.data == old(code.data) || fresh(code.data)
      invariant EmitFollows(final, keep, table, p.text, p.tokens, p.current, entries, code.Contents(), consts.Contents(), dec, reading)
      decreases |p.tokens| - p.current, keep
    {
      var stop;
      keep, stop := EmitTurn(p, labels, consts, code, table, dec, reading);
      if stop.Some? {
        return stop.value;
      }
    }
    r := Done(code.Contents(), consts.Contents());
  }

  /**
   * `asm_assemble_code_object`: the parser created from the text, the labels
   * scanned, the parser rewound, and the code written into a byte buffer of
   * capacity 16 with the constants in a store of capacity 5.
   */
  method Assemble(text: seq<char>, dec: Decoders, reading: Reading) returns (r: Result<AsmProgram, Abort>)
    ensures r == AssembleSpec(text, dec, reading)
  {
    var created := Create(text, reading);
    if created.None? {
      return Ok(EmptyProgram);
    }
    var p := created.value;
    var labels := new LabelSet(text);
    var scanned := ScanLabels(p, labels, Schemes, reading);
    if scanned.Err? {
      return Err(scanned.error);
    }
    if !scanned.value {
      return Ok(EmptyProgram);
    }
    p.Reset();
    var consts := new ValBuffer(MemLocation(0), 5);
    var code := new GvmUtils.U8Buffer(16);
    var emitted := EmitCode(p, labels, consts, code, Schemes, dec, reading);
    match emitted
    case Done(_, _) => r := Ok(AsmProgram(code.Contents(), consts.Contents()));
    case Failed => r := Ok(EmptyProgram);
    case Crash(a) => r := Err(a);
    case Hang => r := Err(Diverges);
  }

  // ----- the passes in step -----

  /**
   * With the passes corrected to move alike, a text the first pass accepts
   * never sends the second pass round for ever: every token the second pass
   * stops at is one the first pass found an operation for.
   */
  lemma {:induction false} CorrectedSecondPassEnds(table: seq<Scheme>, text: seq<char>, toks: seq<Token>, cur: nat, address: int, entries: seq<Label>,
                                                   labels: seq<Label>, code: seq<bv8>, vals: seq<GVal>, dec: Decoders)
    requires cur <= |toks|
    requires var s := Scan(table, text, toks, cur, address, entries, Corrected); s.Ok? && s.value.0
    ensures Emit(table, text, toks, cur, labels, code, vals, dec, Corrected) != Hang
    decreases |toks| - cur
  {
    if cur < |toks| {
      ScanNext(table, text, toks, cur, address, entries, Corrected);
      EmitNext(table, text, toks, cur, labels, code, vals, dec, Corrected);
      TurnFollowsScanTurn(table, text, toks, cur, address, entries, labels, code, vals, dec);
      var t := Turn(table, text, toks, cur, labels, code, vals, dec, Corrected);
      if t.Going? && t.keep {
        var st := ScanTurn(table, text, toks, cur, address, entries, Corrected);
        CorrectedSecondPassEnds(table, text, toks, t.cur, st.address, st.entries, labels, t.code, t.vals, dec);
      }
    }
  }

  /**
   * Corrected, one turn of the second pass moves like the first pass's turn
   * from the same token, unless the first pass refused there: it never stops
   * short of the end on a token that starts no operation, and when it goes on
   * the first pass went on to the same token.
   */
  lemma TurnFollowsScanTurn(table: seq<Scheme>, text: seq<char>, toks: seq<Token>, cur: nat, address: int, entries: seq<Label>,
                            labels: seq<Label>, code: seq<bv8>, vals: seq<GVal>, dec: Decoders)
    requires cur < |toks|
    requires var st := ScanTurn(table, text, toks, cur, address, entries, Corrected); st.Scanning? || (st.result.Ok? && st.result.value.0)
    ensures var t := Turn(table, text, toks, cur, labels, code, vals, dec, Corrected);
      var st := ScanTurn(table, text, toks, cur, address, entries, Corrected);
      (t.Stopped? ==> t.outcome != Hang) && (t.Going? && t.keep ==> st.Scanning? && st.keep && st.cur == t.cur)
  {
  }

  // ----- the extra advance of the first pass -----

  /** Every scheme name has at least two characters. */
  lemma SchemeNamesLong()
    ensures forall j :: 0 <= j < |Schemes| ==> |Schemes[j].name| >= 2
  {
  }

  /** No scheme from `i` on fits a current token shorter than every name. */
  lemma {:induction false} NoFitShorter(text: seq<char>, toks: seq<Token>, cur: nat, table: seq<Scheme>, i: nat)
    requires |toks| > 0 && i <= |table|
    requires forall j :: i <= j < |table| ==> |table[j].name| != TokenLength(toks, CurrentAt(toks, cur))
    ensures FirstFit(text, toks, cur, table, i) == -1
    decreases |table| - i
  {
    if i < |table| {
      NoFitShorter(text, toks, cur, table, i + 1);
    }
  }

  /** `push "x"y`: a string operand with a symbol right after its closing quote. */
  const StraySymbolText: string := "push \"x\"y"

  /** The tokens of `StraySymbolText`: the name, a separator, the string, the symbol, and the separator of the end of the text. */
  const StraySymbolTokens: seq<Token> := [
    Token(TtSymbol, 0, 1, 1, 0), Token(TtSeparator, 4, 1, 5, 1), Token(TtString, 5, 1, 6, 2),
    Token(TtSymbol, 8, 1, 9, 3), Token(TtSeparator, 9, 1, 10, 4)]

  /** The first token of `StraySymbolText` names the first scheme, `push` of a string, with one operand stored as a constant. */
  lemma StrayPushMatches(t: seq<char>, toks: seq<Token>, table: seq<Scheme>)
    requires t == StraySymbolText && StrayTokens(toks) && table == Schemes
    ensures FirstFit(t, toks, 0, table, 0) == 0
    ensures NibbleCount(table[0].spec) == 1 && table[0].opcode == A.OpPushValue && FlagSet(table[0].isConst, 0)
  {
    assert Fits(t, toks, 0, table[0]);
    assert NibbleCount(3) == 1 + NibbleCount(0);
  }

  /** The symbol `y` of `StraySymbolText` names no scheme, and no separator precedes it. */
  lemma StraySymbolNoScheme(t: seq<char>, toks: seq<Token>, table: seq<Scheme>)
    requires t == StraySymbolText && StrayTokens(toks) && table == Schemes
    ensures Skip(toks, 3) == 3 && FirstFit(t, toks, 3, table, 0) == -1
  {
    SchemeNamesLong();
    NoFitShorter(t, toks, 3, table, 0);
  }

  /** The first pass over `push "x"`: as written it stops after the symbol, corrected at it. */
  lemma StrayScanPush(t: seq<char>, toks: seq<Token>, table: seq<Scheme>, es: seq<Label>, reading: Reading)
    requires t == StraySymbolText && StrayTokens(toks) && table == Schemes
    ensures Scan(table, t, toks, 0, 0, es, reading) == Scan(table, t, toks, if reading == AsWritten then 4 else 3, 3, es, reading)
  {
    StrayPushMatches(t, toks, table);
    assert Skip(toks, 0) == 0;
    assert SkipArgs(toks, 1, 1) == (true, 3);
  }

  /** The first pass, as written, steps over the symbol after `push "x"` and accepts the text. */
  lemma AsWrittenScanSkipsStraySymbol(t: seq<char>, toks: seq<Token>, table: seq<Scheme>, es: seq<Label>)
    requires t == StraySymbolText && StrayTokens(toks) && table == Schemes
    ensures Scan(table, t, toks, 0, 0, es, AsWritten) == Ok((true, es))
    ensures Scan(table, t, toks, 0, 0, es, Corrected) == Ok((false, es))
  {
    StrayScanPush(t, toks, table, es, AsWritten);
    StrayScanPush(t, toks, table, es, Corrected);
    assert Skip(toks, 4) == 5;
    StraySymbolNoScheme(t, toks, table);
  }

  /** The string operand of `StraySymbolText` is the one-character string `x`. */
  lemma StrayStringChars(t: seq<char>)
    requires t == StraySymbolText
    ensures A.LiteralChars(Suffix(t, 5)) == "x"
  {
    var s := Suffix(t, 5);
    assert s == "\"x\"y";
    var body := ShUtils.CStr(ShUtils.Tail(s));
    assert ShUtils.Tail(s) == "x\"y";
    assert body == "x\"y";
    assert CoUtils.CountUntil(body, '"') == 1;
    assert body[..1] == "x";
    assert CoUtils.Unescape("x") == "x";
  }

  /** Into an empty store, the string operand of `StraySymbolText`, stored as a constant, is put as constant 1, after its one char. */
  lemma StrayOperandPut(t: seq<char>, toks: seq<Token>, labels: seq<Label>, s: Scheme, vals: seq<GVal>, dec: Decoders, reading: Reading)
    requires t == StraySymbolText && StrayTokens(toks) && FlagSet(s.isConst, 0) && vals == []
    ensures Operand(t, toks, 2, labels, s, 0, vals, dec, reading) == Put(1, [Character('x'), List(0, 1)])
  {
    StrayStringChars(t);
    assert CurrentAt(toks, 2).kind == TtString;
    assert A.CharVals("x") == [Character('x')];
    assert FindString(vals, 0, "x") == Ok(-1);
    assert vals + A.CharVals("x") + [List(0, 1)] == [Character('x'), List(0, 1)];
    assert AddStringValue(vals, "x") == Ok((1, [Character('x'), List(0, 1)]));
    assert ConstAdd(t, toks, 2, vals, dec, reading) == Ok((1, [Character('x'), List(0, 1)]));
  }

  /** The operand loop of `push "x"` puts the string and stops at the symbol, going on. */
  lemma StrayPushOperands(t: seq<char>, toks: seq<Token>, labels: seq<Label>, s: Scheme, code: seq<bv8>, vals: seq<GVal>, dec: Decoders, reading: Reading)
    requires t == StraySymbolText && StrayTokens(toks) && FlagSet(s.isConst, 0) && vals == []
    ensures EmitArgs(t, toks, 1, labels, s, 0, 1, code, vals, dec, reading) ==
      Going(true, 3, code + A.Le16(1), [Character('x'), List(0, 1)])
  {
    StrayOperandPut(t, toks, labels, s, vals, dec, reading);
  }

  /** At the stray symbol the second pass finds no operation, and the symbol is not the last token. */
  lemma SpinsAtStraySymbol(t: seq<char>, toks: seq<Token>, table: seq<Scheme>, labels: seq<Label>, code: seq<bv8>, vals: seq<GVal>, dec: Decoders, reading: Reading)
    requires t == StraySymbolText && StrayTokens(toks) && table == Schemes
    ensures Emit(table, t, toks, 3, labels, code, vals, dec, reading) == Hang
  {
    StraySymbolNoScheme(t, toks, table);
  }

  /** The second pass writes `push "x"`, then stops at the symbol without moving: the loop never ends. */
  lemma SecondPassSpinsOnStraySymbol(t: seq<char>, toks: seq<Token>, table: seq<Scheme>, labels: seq<Label>, code: seq<bv8>, vals: seq<GVal>,
                                     dec: Decoders, reading: Reading)
    requires t == StraySymbolText && StrayTokens(toks) && table == Schemes && vals == []
    ensures Emit(table, t, toks, 0, labels, code, vals, dec, reading) == Hang
  {
    StrayPushMatches(t, toks, table);
    var code1 := code + [CoUtils.LowByte(A.OpPushValue)];
    StrayPushOperands(t, toks, labels, table[0], code1, vals, dec, reading);
    SpinsAtStraySymbol(t, toks, table, labels, code1 + A.Le16(1), [Character('x'), List(0, 1)], dec, reading);
    assert Skip(toks, 0) == 0;
    assert ConsumedAt(toks, 0, TtSymbol) == (true, 1);
  }

  /** `StraySymbolText` has no newline: the character at `k` is on line 1, column `k + 1`. */
  lemma StrayColumns(k: nat)
    requires k <= |StraySymbolText|
    ensures CoCres.LineColumn(StraySymbolText, k) == (1, k + 1)
  {
    var j := 0;
    assert CoCres.Before(StraySymbolText, 0) == [];
    while j < k
      invariant j <= k && CoCres.LineColumn(StraySymbolText, j) == (1, j + 1)
    {
      LineColumnAdvance(StraySymbolText, j, 1, j + 1);
      j := j + 1;
    }
  }

  // One lemma per step of the tokenizer over `StraySymbolText`, each over any
  // tokens before it: a step in the same type pushes nothing, a step into
  // another type pushes a token.

  lemma StrayLex0(t: seq<char>, toks: seq<Token>)
    requires t == StraySymbolText && |toks| == 0
    ensures Lex(t, 0, TsInit, toks) == Lex(t, 1, TsSymbol, toks + [Token(TtSymbol, 0, 1, 1, 0)])
  {
    StrayColumns(0);
    LexPushes(t, 0, TsInit, toks, TsSymbol, TtSymbol, 1, 1);
  }

  lemma StrayLex1(t: seq<char>, toks: seq<Token>)
    requires t == StraySymbolText && 0 < |toks| && toks[|toks| - 1].kind == TtSymbol
    ensures Lex(t, 1, TsSymbol, toks) == Lex(t, 2, TsSymbol, toks)
  {
    LexKeeps(t, 1, TsSymbol, toks, TsSymbol);
  }

  lemma StrayLex2(t: seq<char>, toks: seq<Token>)
    requires t == StraySymbolText && 0 < |toks| && toks[|toks| - 1].kind == TtSymbol
    ensures Lex(t, 2, TsSymbol, toks) == Lex(t, 3, TsSymbol, toks)
  {
    LexKeeps(t, 2, TsSymbol, toks, TsSymbol);
  }

  lemma StrayLex3(t: seq<char>, toks: seq<Token>)
    requires t == StraySymbolText && 0 < |toks| && toks[|toks| - 1].kind == TtSymbol
    ensures Lex(t, 3, TsSymbol, toks) == Lex(t, 4, TsSymbol, toks)
  {
    LexKeeps(t, 3, TsSymbol, toks, TsSymbol);
  }

  lemma StrayLex4(t: seq<char>, toks: seq<Token>)
    requires t == StraySymbolText && |toks| == 1 && toks[0].kind != TtSeparator
    ensures Lex(t, 4, TsSymbol, toks) == Lex(t, 5, TsSeparator, toks + [Token(TtSeparator, 4, 1, 5, 1)])
  {
    StrayColumns(4);
    LexPushes(t, 4, TsSymbol, toks, TsSeparator, TtSeparator, 1, 5);
  }

  lemma StrayLex5(t: seq<char>, toks: seq<Token>)
    requires t == StraySymbolText && |toks| == 2 && toks[1].kind != TtString
    ensures Lex(t, 5, TsSeparator, toks) == Lex(t, 6, TsQuoted, toks + [Token(TtString, 5, 1, 6, 2)])
  {
    StrayColumns(5);
    LexPushes(t, 5, TsSeparator, toks, TsQuoted, TtString, 1, 6);
  }

  lemma StrayLex6(t: seq<char>, toks: seq<Token>)
    requires t == StraySymbolText && 0 < |toks| && toks[|toks| - 1].kind == TtString
    ensures Lex(t, 6, TsQuoted, toks) == Lex(t, 7, TsQuoted, toks)
  {
    LexKeeps(t, 6, TsQuoted, toks, TsQuoted);
  }

  lemma StrayLex7(t: seq<char>, toks: seq<Token>)
    requires t == StraySymbolText && 0 < |toks| && toks[|toks| - 1].kind == TtString
    ensures Lex(t, 7, TsQuoted, toks) == Lex(t, 8, TsSeparator, toks)
  {
    LexKeeps(t, 7, TsQuoted, toks, TsSeparator);
  }

  lemma StrayLex8(t: seq<char>, toks: seq<Token>)
    requires t == StraySymbolText && |toks| == 3 && toks[2].kind != TtSymbol
    ensures Lex(t, 8, TsSeparator, toks) == Lex(t, 9, TsSymbol, toks + [Token(TtSymbol, 8, 1, 9, 3)])
  {
    StrayColumns(8);
    LexPushes(t, 8, TsSeparator, toks, TsSymbol, TtSymbol, 1, 9);
  }

  lemma StrayLex9(t: seq<char>, toks: seq<Token>)
    requires t == StraySymbolText && |toks| == 4 && toks[3].kind != TtSeparator
    ensures Lex(t, 9, TsSymbol, toks) == Lex(t, 10, TsSeparator, toks + [Token(TtSeparator, 9, 1, 10, 4)])
  {
    StrayColumns(9);
    LexPushes(t, 9, TsSymbol, toks, TsSeparator, TtSeparator, 1, 10);
  }

  /** The tokens of `StraySymbolTokens`, one by one. */
  predicate StrayTokens(toks: seq<Token>) {
    |toks| == 5 && toks[0] == Token(TtSymbol, 0, 1, 1, 0) && toks[1] == Token(TtSeparator, 4, 1, 5, 1) &&
    toks[2] == Token(TtString, 5, 1, 6, 2) && toks[3] == Token(TtSymbol, 8, 1, 9, 3) && toks[4] == Token(TtSeparator, 9, 1, 10, 4)
  }

  /** The first five steps over `StraySymbolText` chained: `push` and the space after it. */
  lemma StrayLexPush(t: seq<char>, toks: seq<Token>)
    requires t == StraySymbolText && StrayTokens(toks)
    ensures Lex(t, 0, TsInit, toks[..0]) == Lex(t, 5, TsSeparator, toks[..2])
  {
    assert toks[..0] + [toks[0]] == toks[..1] && toks[..1] + [toks[1]] == toks[..2];
    StrayLex0(t, toks[..0]);
    StrayLex1(t, toks[..1]);
    StrayLex2(t, toks[..1]);
    StrayLex3(t, toks[..1]);
    StrayLex4(t, toks[..1]);
  }

  /** The last five steps over `StraySymbolText` chained: the string, the symbol and the end of the text. */
  lemma StrayLexRest(t: seq<char>, toks: seq<Token>)
    requires t == StraySymbolText && StrayTokens(toks)
    ensures Lex(t, 5, TsSeparator, toks[..2]) == Lexing(toks, TsSeparator)
  {
    assert toks[..2] + [toks[2]] == toks[..3] && toks[..3] + [toks[3]] == toks[..4] && toks[..4] + [toks[4]] == toks;
    StrayLex5(t, toks[..2]);
    StrayLex6(t, toks[..3]);
    StrayLex7(t, toks[..3]);
    StrayLex8(t, toks[..3]);
    StrayLex9(t, toks[..4]);
  }

  /** The tokenizer gives `StraySymbolText` the tokens `StraySymbolTokens`, ending between tokens. */
  lemma StraySymbolTokenized(t: seq<char>, toks: seq<Token>)
    requires t == StraySymbolText && toks == StraySymbolTokens
    ensures Tokens(t) == Lexing(toks, TsSeparator)
  {
    StrayLexPush(t, toks);
    StrayLexRest(t, toks);
    assert toks[..0] == [];
  }

  /**
   * The whole assembler on `push "x"y`: as written the first pass accepts
   * the text and the second never ends; corrected the first pass refuses
   * it and the answer is the empty program.
   */
  lemma StraySymbolAssembled(t: seq<char>, dec: Decoders)
    requires t == StraySymbolText
    ensures AssembleSpec(t, dec, AsWritten) == Err(Diverges)
    ensures AssembleSpec(t, dec, Corrected) == Ok(EmptyProgram)
  {
    StraySymbolAsWritten(t, dec);
    StraySymbolCorrected(t, dec);
  }

  /** The as-written half of `StraySymbolAssembled`: the first pass accepts, the second spins. */
  lemma StraySymbolAsWritten(t: seq<char>, dec: Decoders)
    requires t == StraySymbolText
    ensures AssembleSpec(t, dec, AsWritten) == Err(Diverges)
  {
    StraySymbolLexed(t);
    var toks := Tokens(t).tokens;
    assert StrayTokens(toks);
    AsWrittenScanSkipsStraySymbol(t, toks, Schemes, []);
    SecondPassSpinsOnStraySymbol(t, toks, Schemes, [], [], [], dec, AsWritten);
    AssembleHangs(t, dec, AsWritten);
  }

  /** The assembler's answer once the text tokenizes, the first pass accepts it and the second never ends. */
  lemma AssembleHangs(t: seq<char>, dec: Decoders, reading: Reading)
    requires TokenizeResult(Tokens(t), reading) == ResOk
    requires Scan(Schemes, t, Tokens(t).tokens, 0, 0, [], reading) == Ok((true, []))
    requires Emit(Schemes, t, Tokens(t).tokens, 0, [], [], [], dec, reading) == Hang
    ensures AssembleSpec(t, dec, reading) == Err(Diverges)
  {
  }

  /** The assembler's answer once the text tokenizes and the first pass refuses it. */
  lemma AssembleRefused(t: seq<char>, dec: Decoders, reading: Reading, labels: seq<Label>)
    requires TokenizeResult(Tokens(t), reading) == ResOk
    requires Scan(Schemes, t, Tokens(t).tokens, 0, 0, [], reading) == Ok((false, labels))
    ensures AssembleSpec(t, dec, reading) == Ok(EmptyProgram)
  {
  }

  /** The corrected half of `StraySymbolAssembled`: the first pass refuses the text. */
  lemma StraySymbolCorrected(t: seq<char>, dec: Decoders)
    requires t == StraySymbolText
    ensures AssembleSpec(t, dec, Corrected) == Ok(EmptyProgram)
  {
    StraySymbolLexed(t);
    var toks := Tokens(t).tokens;
    assert StrayTokens(toks);
    AsWrittenScanSkipsStraySymbol(t, toks, Schemes, []);
    AssembleRefused(t, dec, Corrected, []);
  }

  /** `push "x"y` tokenizes, in both readings, into `StraySymbolTokens`. */
  lemma StraySymbolLexed(t: seq<char>)
    requires t == StraySymbolText
    ensures Tokens(t).tokens == StraySymbolTokens
    ensures TokenizeResult(Tokens(t), AsWritten) == ResOk && TokenizeResult(Tokens(t), Corrected) == ResOk
  {
    StraySymbolTokenized(t, StraySymbolTokens);
    assert Tokens(t).state == TsSeparator;
  }
}
