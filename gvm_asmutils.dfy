/**
 * `gvm/gvm_asmutils.c` and `gvm/gvm_asmutils.h`: the opcodes of the grid
 * machine, how many operands each takes, writing one instruction (the
 * opcode byte, then two little-endian bytes per operand), reading operands
 * back, and the de-duplicating insertion of constants.
 *
 * The opcode enumeration is not declared in the headers of this revision;
 * the numbering here follows the order of `au_get_op_name`
 * (`gvm/gvm_asmutils.c:9-40`), which is that of the table of
 * `gvm/gvm_asminfo.h` with `OP_INIT` in the slot of `ENTRY_POINT`.
 */
module GvmAsmUtils {
  import opened Wrappers
  import opened GvmValBuffer
  import opened GvmUtils
  import ShUtils
  import CoUtils

  const OpHalt: int := 0
  const OpAnd: int := 1
  const OpOr: int := 2
  const OpNot: int := 3
  const OpMul: int := 4
  const OpAdd: int := 5
  const OpSub: int := 6
  const OpNeg: int := 7
  const OpDup1: int := 8
  const OpDup2: int := 9
  const OpRot2: int := 10
  const OpCmpEqual: int := 11
  const OpCmpLessThan: int := 12
  const OpCmpMoreThan: int := 13
  const OpPushValue: int := 14
  const OpPop1: int := 15
  const OpPop2: int := 16
  const OpJump: int := 17
  const OpJumpIfFalse: int := 18
  const OpExit: int := 19
  const OpCall: int := 20
  const OpInit: int := 21
  const OpMakeFrame: int := 22
  const OpReturn: int := 23
  const OpStoreLocal: int := 24
  const OpLoadLocal: int := 25
  const OpPrint: int := 26
  const OpMakeArray: int := 27
  const OpArrayLength: int := 28
  const OpMakeIter: int := 29
  const OpIterNext: int := 30
  const OpCallNative: int := 31
  const OpOpcodeCount: int := 32

  /** The opcodes with one operand. */
  predicate OneOperand(opcode: int) {
    opcode == OpPushValue || opcode == OpJump || opcode == OpJumpIfFalse || opcode == OpExit ||
    opcode == OpCall || opcode == OpInit || opcode == OpStoreLocal || opcode == OpLoadLocal ||
    opcode == OpArrayLength || opcode == OpMakeIter || opcode == OpIterNext || opcode == OpCallNative
  }

  /**
   * `au_get_op_instr_arg_count`: two operands for `OP_MAKE_FRAME`, one for
   * the opcodes of `OneOperand`, none for every other opcode, and -1 for a
   * number that is no opcode.
   */
  function InstrArgCount(opcode: int): (n: int)
    ensures n == 2 <==> opcode == OpMakeFrame
    ensures n == 1 <==> OneOperand(opcode)
    ensures n == -1 <==> !(0 <= opcode < OpOpcodeCount)
    ensures n == 0 <==> 0 <= opcode < OpOpcodeCount && opcode != OpMakeFrame && !OneOperand(opcode)
  {
    if !(0 <= opcode < OpOpcodeCount) then -1
    else if opcode == OpMakeFrame then 2
    else if OneOperand(opcode) then 1
    else 0
  }

  // Operand bytes

  /** The two bytes written for an operand: `arg & 0xFF`, then `(arg >> 8) & 0xFF`. */
  function Le16(arg: int): (b: seq<bv8>)
    ensures |b| == 2
  {
    [CoUtils.LowByte(arg), CoUtils.LowByte(arg / 256)]
  }

  /** The bytes written for a list of operands, in order. */
  function ArgBytes(args: seq<int>): (b: seq<bv8>)
    ensures |b| == 2 * |args|
  {
    if args == [] then [] else ArgBytes(args[..|args| - 1]) + Le16(args[|args| - 1])
  }

  /** `READ_I16` of `gvm/gvm_asm.h`: two bytes from `at`, low first, read as a signed 16-bit number. */
  function ReadI16(d: seq<bv8>, at: nat): (r: int)
    requires at + 2 <= |d|
    ensures -0x8000 <= r < 0x8000
  {
    I16(d[at], d[at + 1])
  }

  /** A low and a high byte read as a signed 16-bit number. */
  function I16(lo: bv8, hi: bv8): (r: int)
    ensures -0x8000 <= r < 0x8000
  {
    var u := hi as int * 256 + lo as int;
    if u >= 0x8000 then u - 0x1_0000 else u
  }

  /** An operand in the signed 16-bit range is read back from the two bytes written for it, wherever they sit. */
  lemma Le16RoundTrip(pre: seq<bv8>, arg: int, post: seq<bv8>)
    requires -0x8000 <= arg < 0x8000
    ensures ReadI16(pre + Le16(arg) + post, |pre|) == arg
  {
    var d := pre + Le16(arg) + post;
    var lo := arg % 256;
    var hi := arg / 256;
    assert d[|pre|] == CoUtils.LowByte(arg) && d[|pre| + 1] == CoUtils.LowByte(hi);
    CoUtils.LowByteValue(arg);
    CoUtils.LowByteValue(hi);
    SplitWord(arg);
  }

  /** The arithmetic of the signed 16-bit reading. */
  lemma SplitWord(arg: int)
    requires -0x8000 <= arg < 0x8000
    ensures var u := (arg / 256) % 256 * 256 + arg % 256;
      (if u >= 0x8000 then u - 0x1_0000 else u) == arg
  {
    var lo := arg % 256;
    var hi := arg / 256;
    assert arg == 256 * hi + lo;
    assert -128 <= hi < 128;
    if hi < 0 {
      assert hi % 256 == hi + 256;
    } else {
      assert hi % 256 == hi;
    }
  }

  /**
   * `READ_U32` of `gvm/gvm_asmutils.h` as written: the byte at `at + 1`
   * fills the three upper bytes of the word, so bytes `at + 2` and `at + 3`
   * are never read.
   */
  function ReadU32AsWritten(d: seq<bv8>, at: nat): bv32
    requires at + 4 <= |d|
  {
    ShUtils.PackU32(d[at], d[at + 1], d[at + 1], d[at + 1])
  }

  /**
   * `gvm/gvm_compiler.c` writes a 32-bit operand as its four bytes, low
   * first; read back as written, an operand of 256 comes out as
   * 0x0101_0100. Below 256 the two reads agree.
   */
  lemma ReadU32AsWrittenMisreads()
    ensures ReadU32AsWritten(ShUtils.U32Bytes(256), 0) == 0x0101_0100
    ensures ShUtils.ReadU32(ShUtils.U32Bytes(256), 0) == 256
  {
    ShUtils.ReadU32RoundTrip([], 256, []);
    assert ShUtils.U32Bytes(256) == [0, 1, 0, 0];
  }

  /** For operands below 256 the read as written agrees with the intended one. */
  lemma ReadU32AsWrittenSmall(x: bv32)
    requires x < 256
    ensures ReadU32AsWritten(ShUtils.U32Bytes(x), 0) == x
  {
    var b := ShUtils.U32Bytes(x);
    assert b[1] == 0;
    ShUtils.PackUnpack(x);
  }

  /** The two bytes of one operand, low first (`arg & 0xFF`, then `(arg >> 8) & 0xFF`), into a buffer already holding the opcode. */
  method WriteOperand(buf: U8Buffer, arg: int)
    requires buf.Valid() && buf.size >= 1
    modifies buf, buf.data
    ensures buf.Valid() && buf.size >= 1
    ensures buf.Contents() == old(buf.Contents()) + Le16(arg)
    ensures buf.data == old(buf.data) || fresh(buf.data)
  {
    var w0 := buf.Write(CoUtils.LowByte(arg));
    var w1 := buf.Write(CoUtils.LowByte(arg / 256));
  }

  /**
   * `au_write_instruction`: the opcode must be a number in `(0,
   * OP_OPCODE_COUNT)` and its byte must be written before the operand count
   * is compared with `InstrArgCount`; then each operand's two bytes follow.
   * A failed check or write ends the assembler (`exit(1)`).
   */
  method WriteInstruction(buf: U8Buffer, opcode: int, args: seq<int>) returns (r: Result<(), Abort>)
    requires buf.Valid()
    modifies buf, buf.data
    ensures buf.Valid()
    ensures r.Ok? <==> (0 < opcode < OpOpcodeCount && !(old(buf.size) == 0 && old(buf.capacity) == 0) &&
      |args| == InstrArgCount(opcode))
    ensures r.Ok? ==> buf.Contents() == old(buf.Contents()) + [opcode as bv8] + ArgBytes(args)
  {
    if !(0 < opcode < OpOpcodeCount) {
      return Err(AssertFailed("invalid op code"));
    }
    var w := buf.Write(opcode as bv8);
    if w.Err? {
      return Err(AssertFailed("Failed to allocate memory for instruction, aborting."));
    }
    if |args| != InstrArgCount(opcode) {
      return Err(AssertFailed("Invalid instruction argument count"));
    }
    ghost var head := old(buf.Contents()) + [opcode as bv8];
    var i := 0;
    while i < |args|
      invariant 0 <= i <= |args| && buf.Valid() && buf.size >= 1
      invariant buf.data == old(buf.data) || fresh(buf.data)
      invariant buf.Contents() == head + ArgBytes(args[..i])
    {
      WriteOperand(buf, args[i]);
      assert args[..i + 1][..i] == args[..i];
      i := i + 1;
    }
    assert args[..i] == args;
    return Ok(());
  }

  /** Each operand of a written instruction in the 16-bit range reads back at `1 + 2k` past the opcode. */
  lemma {:induction false} WrittenOperandsReadBack(pre: seq<bv8>, opcode: bv8, args: seq<int>, k: nat)
    requires k < |args| && forall i :: 0 <= i < |args| ==> -0x8000 <= args[i] < 0x8000
    ensures ReadI16(pre + [opcode] + ArgBytes(args), |pre| + 1 + 2 * k) == args[k]
    decreases |args|
  {
    var n := |args| - 1;
    var front := args[..n];
    if k == n {
      LastOperandReadsBack(pre, opcode, args);
    } else {
      WrittenOperandsReadBack(pre, opcode, front, k);
      var d := pre + [opcode] + ArgBytes(front);
      assert pre + [opcode] + ArgBytes(args) == d + Le16(args[n]);
      ReadI16Prefix(d, Le16(args[n]), |pre| + 1 + 2 * k);
    }
  }

  /** The last operand of a written instruction reads back from the instruction's last two bytes. */
  lemma LastOperandReadsBack(pre: seq<bv8>, opcode: bv8, args: seq<int>)
    requires |args| > 0 && -0x8000 <= args[|args| - 1] < 0x8000
    ensures ReadI16(pre + [opcode] + ArgBytes(args), |pre| + 1 + 2 * (|args| - 1)) == args[|args| - 1]
  {
    var n := |args| - 1;
    var d := pre + [opcode] + ArgBytes(args[..n]);
    assert ArgBytes(args) == ArgBytes(args[..n]) + Le16(args[n]);
    calc {
      pre + [opcode] + ArgBytes(args);
      pre + [opcode] + (ArgBytes(args[..n]) + Le16(args[n]));
      d + Le16(args[n]);
      d + Le16(args[n]) + [];
    }
    Le16RoundTrip(d, args[n], []);
  }

  /** Bytes appended after a read do not change it. */
  lemma ReadI16Prefix(d: seq<bv8>, tail: seq<bv8>, at: nat)
    requires at + 2 <= |d|
    ensures ReadI16(d + tail, at) == ReadI16(d, at)
  {
    assert (d + tail)[at] == d[at] && (d + tail)[at + 1] == d[at + 1];
  }

  // Constants

  /** A buffer that cannot grow: empty with no capacity, where every addition fails. */
  predicate Stuck(b: ValBuffer)
    reads b
  {
    b.size == 0 && b.capacity == 0
  }

  /**
   * `au_consts_add_number`: the index of the first equal number, or of the
   * one appended. A number is the integer its token denotes (see
   * `GvmValBuffer.GVal`), so `valbuffer_find_float` is the search for an
   * equal number.
   */
  method AddNumber(consts: ValBuffer, value: int) returns (r: int)
    requires consts.Valid()
    modifies consts, consts.values
    ensures consts.Valid()
    ensures Number(value) in old(consts.Contents()) ==> consts.Contents() == old(consts.Contents())
    ensures Number(value) !in old(consts.Contents()) ==> (r == |old(consts.Contents())| &&
      consts.Contents() == old(consts.Contents()) + (if old(Stuck(consts)) then [] else [Number(value)]))
    ensures 0 <= r <= |consts.Contents()|
    ensures Number(value) in old(consts.Contents()) ==> r < |consts.Contents()|
    ensures r < |consts.Contents()| ==> consts.Contents()[r] == Number(value) && Number(value) !in consts.Contents()[..r]
    ensures consts.values == old(consts.values) || fresh(consts.values)
    ensures Stuck(consts) <==> old(Stuck(consts))
  {
    var existing := consts.FindInt(value);
    if existing >= 0 {
      return existing;
    }
    var added := consts.Add(Number(value));
    if added.Err? {
      return consts.size;
    }
    r := consts.size - 1;
    assert consts.Contents()[..r] == old(consts.Contents());
  }

  /**
   * The vector an `au_consts_add_ivec2` literal denotes: after the first
   * character, the integer up to the comma, then the one up to the closing
   * parenthesis, each read by `string_parse_int` (the parameter `integer`).
   */
  function Vec2Of(text: seq<char>, integer: seq<char> -> int): (v: GVal)
    ensures v.Vec2?
  {
    var body := ShUtils.CStr(ShUtils.Tail(text));
    var toComma := CoUtils.CountUntil(body, ',');
    var rest := if toComma < |body| then body[toComma + 1..] else [];
    var toParen := CoUtils.CountUntil(rest, ')');
    Vec2(integer(body[..toComma]), integer(rest[..toParen]))
  }

  /** `au_consts_add_ivec2`: the index of the first equal vector, or of the one appended. */
  method AddIvec2(consts: ValBuffer, text: seq<char>, integer: seq<char> -> int) returns (r: int)
    requires consts.Valid()
    modifies consts, consts.values
    ensures consts.Valid() && 0 <= r
    ensures var v := Vec2Of(text, integer);
      (v in old(consts.Contents()) ==> consts.Contents() == old(consts.Contents()) && r < |consts.Contents()|) &&
      (v !in old(consts.Contents()) ==> (r == |old(consts.Contents())| &&
        consts.Contents() == old(consts.Contents()) + (if old(Stuck(consts)) then [] else [v]))) &&
      (r < |consts.Contents()| ==> consts.Contents()[r] == v && v !in consts.Contents()[..r])
    ensures consts.values == old(consts.values) || fresh(consts.values)
    ensures Stuck(consts) <==> old(Stuck(consts))
  {
    var v := Vec2Of(text, integer);
    var existing := consts.Find(x => x == v);
    FirstMatchMeaning(consts.Contents(), 0, x => x == v);
    if existing >= 0 {
      return existing;
    }
    var added := consts.Add(v);
    if added.Err? {
      return consts.size;
    }
    r := consts.size - 1;
    assert consts.Contents()[..r] == old(consts.Contents());
  }

  /** `au_consts_add_bool`: the index of the first equal bool, or of the one appended. */
  method AddBool(consts: ValBuffer, value: bool) returns (r: int)
    requires consts.Valid()
    modifies consts, consts.values
    ensures consts.Valid()
    ensures Boolean(value) in old(consts.Contents()) ==> consts.Contents() == old(consts.Contents())
    ensures Boolean(value) !in old(consts.Contents()) ==> (r == |old(consts.Contents())| &&
      consts.Contents() == old(consts.Contents()) + (if old(Stuck(consts)) then [] else [Boolean(value)]))
    ensures 0 <= r <= |consts.Contents()|
    ensures Boolean(value) in old(consts.Contents()) ==> r < |consts.Contents()|
    ensures r < |consts.Contents()| ==> consts.Contents()[r] == Boolean(value) && Boolean(value) !in consts.Contents()[..r]
    ensures consts.values == old(consts.values) || fresh(consts.values)
    ensures Stuck(consts) <==> old(Stuck(consts))
  {
    var existing := consts.FindBool(value);
    if existing >= 0 {
      return existing;
    }
    var added := consts.Add(Boolean(value));
    if added.Err? {
      return consts.size;
    }
    r := consts.size - 1;
    assert consts.Contents()[..r] == old(consts.Contents());
  }

  /** `au_consts_add_char`: the first equal char's index unless `forceContiguous`, otherwise (or if none) the one appended. */
  method AddChar(consts: ValBuffer, value: char, forceContiguous: bool) returns (r: int)
    requires consts.Valid()
    modifies consts, consts.values
    ensures consts.Valid()
    ensures !forceContiguous && Character(value) in old(consts.Contents()) ==> consts.Contents() == old(consts.Contents())
    ensures forceContiguous || Character(value) !in old(consts.Contents()) ==> (r == |old(consts.Contents())| &&
      consts.Contents() == old(consts.Contents()) + (if old(Stuck(consts)) then [] else [Character(value)]))
    ensures 0 <= r <= |consts.Contents()|
    ensures r < |consts.Contents()| ==> consts.Contents()[r] == Character(value)
    ensures !forceContiguous && r < |consts.Contents()| ==> Character(value) !in consts.Contents()[..r]
    ensures consts.values == old(consts.values) || fresh(consts.values)
    ensures Stuck(consts) <==> old(Stuck(consts))
  {
    if !forceContiguous {
      var existing := consts.FindChar(value);
      if existing >= 0 {
        return existing;
      }
    }
    var added := consts.Add(Character(value));
    if added.Err? {
      return consts.size;
    }
    r := consts.size - 1;
    assert consts.Contents()[..r] == old(consts.Contents());
  }

  /** The char values of a text, one per character. */
  function CharVals(s: seq<char>): (r: seq<GVal>)
    ensures |r| == |s| && forall i :: 0 <= i < |s| ==> r[i] == Character(s[i])
  {
    seq(|s|, i requires 0 <= i < |s| => Character(s[i]))
  }

  /** The chars of the text appended one by one, each with `force_contiguous`; on a stuck buffer nothing is. */
  method AppendChars(consts: ValBuffer, chars: seq<char>)
    requires consts.Valid()
    modifies consts, consts.values
    ensures consts.Valid() && (Stuck(consts) <==> old(Stuck(consts)))
    ensures consts.Contents() == old(consts.Contents()) + (if old(Stuck(consts)) then [] else CharVals(chars))
    ensures consts.values == old(consts.values) || fresh(consts.values)
  {
    ghost var start := consts.Contents();
    ghost var stuck := Stuck(consts);
    var i := 0;
    while i < |chars|
      invariant 0 <= i <= |chars| && consts.Valid() && (Stuck(consts) <==> stuck)
      invariant consts.values == old(consts.values) || fresh(consts.values)
      invariant consts.Contents() == start + (if stuck then [] else CharVals(chars[..i]))
    {
      var _ := AddChar(consts, chars[i], true);
      assert CharVals(chars[..i + 1]) == CharVals(chars[..i]) + [Character(chars[i])];
      i := i + 1;
    }
    assert chars[..i] == chars;
  }

  /**
   * The tail shared by `au_consts_add_string` and
   * `au_consts_add_symbol_as_string`: the chars appended contiguously, then
   * a list value of their count starting at the first of them; the index of
   * the list, or the buffer's size when it could not be added.
   */
  method AppendString(consts: ValBuffer, chars: seq<char>) returns (r: int)
    requires consts.Valid()
    modifies consts, consts.values
    ensures consts.Valid()
    ensures old(Stuck(consts)) ==> consts.Contents() == old(consts.Contents()) && r == 0
    ensures !old(Stuck(consts)) ==>
      consts.Contents() == old(consts.Contents()) + CharVals(chars) + [List(|old(consts.Contents())|, |chars|)] &&
      r == |consts.Contents()| - 1
    ensures consts.values == old(consts.values) || fresh(consts.values)
  {
    var start := consts.size;
    AppendChars(consts, chars);
    var ok := consts.Add(List(start, |chars|));
    r := if ok.Ok? then consts.size - 1 else consts.size;
  }

  /** The string an `au_consts_add_string` literal denotes: after the first character, up to the closing quote, un-escaped. */
  function LiteralChars(text: seq<char>): seq<char> {
    var body := ShUtils.CStr(ShUtils.Tail(text));
    CoUtils.Unescape(body[..CoUtils.CountUntil(body, '"')])
  }

  /**
   * `au_consts_add_string`: the literal's un-escaped body is searched for
   * among the list values (with the search reading a list's elements at its
   * offset, as `FindStringCorrected` does); an equal string's index is
   * returned, and otherwise the string is appended.
   */
  method AddString(consts: ValBuffer, text: seq<char>) returns (r: Result<int, Abort>)
    requires consts.Valid()
    modifies consts, consts.values
    ensures consts.Valid()
    ensures var found := FindString(old(consts.Contents()), 0, LiteralChars(text));
      (found.Err? ==> r == Err(found.error) && consts.Contents() == old(consts.Contents())) &&
      (found.Ok? && found.value >= 0 ==> r == Ok(found.value) && consts.Contents() == old(consts.Contents())) &&
      (found == Ok(-1) ==> r.Ok? && AppendedString(old(consts.Contents()), consts.Contents(), LiteralChars(text), r.value, old(Stuck(consts))))
    ensures consts.values == old(consts.values) || fresh(consts.values)
  {
    var body := ShUtils.Tail(text);
    var inLen := CoUtils.StringCountUntil(body, '"');
    assert ShUtils.CStr(body)[..inLen] == body[..inLen];
    var chars := CoUtils.UnescapeLoop(body, inLen);
    var existing := FindStringCorrected(consts, chars, |chars|);
    assert chars[..|chars|] == chars;
    if existing.Err? {
      return Err(existing.error);
    }
    if existing.value >= 0 {
      return Ok(existing.value);
    }
    var index := AppendString(consts, chars);
    return Ok(index);
  }

  /** `au_consts_add_symbol_as_string`: the same search and insertion for `length` characters of a symbol. */
  method AddSymbolAsString(consts: ValBuffer, text: seq<char>, length: nat) returns (r: Result<int, Abort>)
    requires consts.Valid() && length <= |text|
    modifies consts, consts.values
    ensures consts.Valid()
    ensures var found := FindString(old(consts.Contents()), 0, text[..length]);
      (found.Err? ==> r == Err(found.error) && consts.Contents() == old(consts.Contents())) &&
      (found.Ok? && found.value >= 0 ==> r == Ok(found.value) && consts.Contents() == old(consts.Contents())) &&
      (found == Ok(-1) ==> r.Ok? && AppendedString(old(consts.Contents()), consts.Contents(), text[..length], r.value, old(Stuck(consts))))
    ensures consts.values == old(consts.values) || fresh(consts.values)
  {
    var existing := FindStringCorrected(consts, text, length);
    if existing.Err? {
      return Err(existing.error);
    }
    if existing.value >= 0 {
      return Ok(existing.value);
    }
    var index := AppendString(consts, text[..length]);
    return Ok(index);
  }

  /** The effect of appending a string: nothing on a stuck buffer, else its chars and then the list at the returned index. */
  predicate AppendedString(before: seq<GVal>, after: seq<GVal>, chars: seq<char>, index: int, stuck: bool) {
    if stuck then after == before && index == 0
    else after == before + CharVals(chars) + [List(|before|, |chars|)] && index == |after| - 1
  }

  /** A comparison whose reads all fall inside the values answers the same once more values follow. */
  lemma {:induction false} ListMatchesExtend(vals: seq<GVal>, ext: seq<GVal>, offset: int, chars: seq<char>, j: nat)
    requires ListMatches(vals, offset, chars, j).Ok?
    ensures ListMatches(vals + ext, offset, chars, j) == ListMatches(vals, offset, chars, j)
    decreases |chars| - j
  {
    if j < |chars| && vals[offset + j] == Character(chars[j]) {
      ListMatchesExtend(vals, ext, offset, chars, j + 1);
    }
  }

  /** A search that found nothing among the values continues past them unchanged once more values follow. */
  lemma {:induction false} FindStringExtend(vals: seq<GVal>, ext: seq<GVal>, i: nat, chars: seq<char>)
    requires i <= |vals| && FindString(vals, i, chars) == Ok(-1)
    ensures FindString(vals + ext, i, chars) == FindString(vals + ext, |vals|, chars)
    decreases |vals| - i
  {
    if i < |vals| {
      var all := vals + ext;
      assert all[i] == vals[i];
      if vals[i].List? && vals[i].length == |chars| {
        ListMatchesExtend(vals, ext, vals[i].offset, chars, 0);
      }
      FindStringExtend(vals, ext, i + 1, chars);
    }
  }

  /** The chars appended before the list are no list, so the search passes over them. */
  lemma {:induction false} FindStringSkipsChars(vals: seq<GVal>, i: nat, n: nat, chars: seq<char>)
    requires i + n <= |vals| && forall k :: i <= k < i + n ==> !vals[k].List?
    ensures FindString(vals, i, chars) == FindString(vals, i + n, chars)
    decreases n
  {
    if n > 0 {
      FindStringSkipsChars(vals, i + 1, n - 1, chars);
    }
  }

  /** The list appended after its chars holds exactly those chars. */
  lemma {:induction false} AppendedCharsMatch(before: seq<GVal>, chars: seq<char>, j: nat)
    requires j <= |chars|
    ensures ListMatches(before + CharVals(chars) + [List(|before|, |chars|)], |before|, chars, j) == Ok(true)
    decreases |chars| - j
  {
    if j < |chars| {
      var all := before + CharVals(chars) + [List(|before|, |chars|)];
      assert all[|before| + j] == Character(chars[j]);
      AppendedCharsMatch(before, chars, j + 1);
    }
  }

  /**
   * A string appended because the search found none is what the search
   * finds afterwards: adding the same string again answers the same index
   * and adds nothing.
   */
  lemma AppendedStringIsFound(before: seq<GVal>, chars: seq<char>)
    requires FindString(before, 0, chars) == Ok(-1)
    ensures var after := before + CharVals(chars) + [List(|before|, |chars|)];
      FindString(after, 0, chars) == Ok(|after| - 1)
  {
    var ext := CharVals(chars) + [List(|before|, |chars|)];
    var after := before + CharVals(chars) + [List(|before|, |chars|)];
    assert after == before + ext;
    FindStringExtend(before, ext, 0, chars);
    FindStringSkipsChars(after, |before|, |chars|, chars);
    AppendedCharsMatch(before, chars, 0);
    assert after[|before| + |chars|] == List(|before|, |chars|);
  }
}
