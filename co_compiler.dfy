/**
 * The code generator of the adder compiler (`adder/compiler/co_compiler.c`):
 * a walk over the syntax tree that appends intermediate instructions to a
 * list, back-patches the operands of frames and jumps once their values are
 * known, keeps the names of the current function's locals and of the
 * functions declared so far, and collects the constants. The list is then
 * translated from instruction indices to byte addresses and written out as
 * little-endian byte code.
 *
 * The generator is first given as functions over a compiler state `CState`;
 * the class `Compiler` then does the same work step by step on its fields,
 * each method proved equal to its function.
 *
 * The two maps of the compiler state are `srcmap_t` tables keyed by source
 * references (`co_srcmap.h`; `co_srcmap.c` is not part of this model). They
 * are modelled by what they hold: a key is refused when an equal one
 * (`srcref_equals`) is already there, and a local's value is the number of
 * locals before it, so the locals are the list of their names and the
 * functions a list of names with the index of their `MAKE_FRAME`.
 *
 * The constants of `valbuffer_t` are modelled by what they denote (the float
 * encoding of numbers is not modelled): a number literal by its source text,
 * an array length by its count, a string by its characters and an array
 * reference to their start.
 *
 * A failed `assert` ends the run (`Crashed`). Once an error is recorded in
 * the result every `codegen` call returns at once, but the instructions its
 * caller emits around it are still added, as in the source.
 *
 * `recalc_index_to_bytecode_adress` reads the address of a jump target from
 * an array holding one address per instruction; a jump past the last
 * instruction, which the generator emits for a construct that ends the
 * code, reads one past that array. `reading` selects that text
 * (`AsWritten`) or an array with the end address after the last one
 * (`Corrected`).
 */
module CoCompiler {
  import opened Wrappers
  import opened CoTypes
  import CoAst
  import CoUtils
  import ShUtils
  import ShOps
  import P = CoParser

  // ------------------------------------------------------------ instructions

  /**
   * The opcodes the generator emits. `OP_RETURN` is not declared in this
   * revision's `sh_types.h`; its byte is that of `OP_RETURN_VALUE`.
   */
  datatype Op =
    | EntryPoint | MakeFrame | Call | PushValue | StoreLocal | LoadLocal | MakeIter | IterNext
    | Jump | JumpIfFalse | MakeArray | Return | Neg | Not
    | Add | Sub | Mul | Div | Mod | And | Or
    | CmpEqual | CmpNotEqual | CmpLessThan | CmpMoreThan | CmpLessThanOrEqual | CmpMoreThanOrEqual

  /** The opcode's byte in byte code (`gvm_op_t` of `sh_types.h`). */
  function Code(op: Op): bv8 {
    var n := match op
      case EntryPoint => ShOps.OpEntryPoint
      case MakeFrame => ShOps.OpMakeFrame
      case Call => ShOps.OpCall
      case PushValue => ShOps.OpPushValue
      case StoreLocal => ShOps.OpStoreLocal
      case LoadLocal => ShOps.OpLoadLocal
      case MakeIter => ShOps.OpMakeIter
      case IterNext => ShOps.OpIterNext
      case Jump => ShOps.OpJump
      case JumpIfFalse => ShOps.OpJumpIfFalse
      case MakeArray => ShOps.OpMakeArray
      case Return => ShOps.OpReturnValue
      case Neg => ShOps.OpNeg
      case Not => ShOps.OpNot
      case Add => ShOps.OpAdd
      case Sub => ShOps.OpSub
      case Mul => ShOps.OpMul
      case Div => ShOps.OpDiv
      case Mod => ShOps.OpMod
      case And => ShOps.OpAnd
      case Or => ShOps.OpOr
      case CmpEqual => ShOps.OpCmpEqual
      case CmpNotEqual => ShOps.OpCmpNotEqual
      case CmpLessThan => ShOps.OpCmpLessThan
      case CmpMoreThan => ShOps.OpCmpMoreThan
      case CmpLessThanOrEqual => ShOps.OpCmpLessThanOrEqual
      case CmpMoreThanOrEqual => ShOps.OpCmpMoreThanOrEqual;
    (n % 256) as bv8
  }

  /**
   * `get_op_arg_count`, by opcode name as the table of `sh_asminfo.c`
   * lists it: two operands for `MAKE_FRAME`, one for the operations that
   * take a constant, a local, a count or an address, none for the rest.
   */
  function ArgCount(op: Op): (n: nat)
    ensures n <= 2
    ensures n == 2 <==> op == MakeFrame
    ensures n == 0 <==> !(op == MakeFrame || IsTargeted(op) || op in {PushValue, StoreLocal, LoadLocal})
  {
    match op
    case MakeFrame => 2
    case EntryPoint => 1
    case Call => 1
    case PushValue => 1
    case StoreLocal => 1
    case LoadLocal => 1
    case IterNext => 1
    case Jump => 1
    case JumpIfFalse => 1
    case _ => 0
  }

  /** The opcodes whose first operand is an instruction index to be turned into an address. */
  predicate IsTargeted(op: Op) {
    op == Call || op == EntryPoint || op == IterNext || op == Jump || op == JumpIfFalse
  }

  /** `ir_inst_t`: an opcode and its two 32-bit operands. */
  datatype Inst = Inst(op: Op, a0: nat, a1: nat)

  /** An instruction with no operands yet. */
  function Plain(op: Op): Inst {
    Inst(op, 0, 0)
  }

  /** The number of bytes an instruction takes: its opcode, and four per operand. */
  function Width(i: Inst): nat {
    1 + 4 * ArgCount(i.op)
  }

  /** `uint32_t` wrap-around of a number stored into an operand. */
  function U32(x: int): bv32 {
    (x % 0x1_0000_0000) as bv32
  }

  function Sub32(a: nat, b: nat): nat {
    (a - b) % 0x1_0000_0000
  }

  // ------------------------------------------------------------- constants

  /**
   * A constant of the program, by what it denotes. Number literals and
   * element counts are both stored as numbers (`valbuffer_insert_float`,
   * `valbuffer_insert_int`), so equal values share one constant.
   */
  datatype Const = Number(value: real) | Bool(b: bool) | Char(c: char) | ArrayOf(start: nat, length: nat)

  /** `valbuffer_linear_search` from `i`: the first position holding `c`, or the size when none does. */
  function ConstIndex(consts: seq<Const>, c: Const, i: nat): (r: nat)
    requires i <= |consts|
    ensures i <= r <= |consts| && (r < |consts| ==> consts[r] == c)
    ensures forall j :: i <= j < r ==> consts[j] != c
    decreases |consts| - i
  {
    if i == |consts| || consts[i] == c then i else ConstIndex(consts, c, i + 1)
  }

  /** `valbuffer_insert`: the index of an equal constant already held, or the new last one. */
  function InsertConst(consts: seq<Const>, c: Const): (r: (nat, seq<Const>))
    ensures c in consts ==> r.1 == consts && r.0 < |consts| && consts[r.0] == c && c !in consts[..r.0]
    ensures c !in consts ==> r == (|consts|, consts + [c])
  {
    var k := ConstIndex(consts, c, 0);
    if k < |consts| then (k, consts) else (|consts|, consts + [c])
  }

  /** `valbuffer_append_array`: the characters, then an array reference to them; its index. */
  function AppendArray(consts: seq<Const>, chars: seq<char>): (nat, seq<Const>) {
    (|consts| + |chars|, consts + seq(|chars|, k requires 0 <= k < |chars| => Char(chars[k])) + [ArrayOf(|consts|, |chars|)])
  }

  /**
   * The characters of `chars` follow the constants of `consts` in `cs`,
   * then an array reference to them, and nothing else was added.
   */
  predicate HoldsArray(consts: seq<Const>, cs: seq<Const>, chars: seq<char>) {
    |cs| == |consts| + |chars| + 1 && cs[..|consts|] == consts &&
    (forall i :: 0 <= i < |chars| ==> cs[|consts| + i] == Char(chars[i])) &&
    cs[|cs| - 1] == ArrayOf(|consts|, |chars|)
  }

  lemma AppendArrayHolds(consts: seq<Const>, chars: seq<char>)
    ensures var (k, cs) := AppendArray(consts, chars);
      HoldsArray(consts, cs, chars) && k == |cs| - 1
  {
    var (k, cs) := AppendArray(consts, chars);
    forall i | 0 <= i < |chars|
      ensures cs[|consts| + i] == Char(chars[i])
    {
    }
  }

  // -------------------------------------------------------------- the state

  /**
   * `compiler_state_t`: the instruction list, the locals of the function
   * being compiled (by name, a local's index being its position), the
   * functions declared so far with the index of their `MAKE_FRAME`, the
   * constants, and the code of the result record.
   */
  datatype CState = CState(instrs: seq<Inst>, locals: seq<SrcRef>, functions: seq<(SrcRef, nat)>, consts: seq<Const>, code: CresCode)

  /** How a generator step ends: with a state, or in an abort. */
  datatype Outcome = Done(st: CState) | Crashed(abort: Abort) {
    predicate IsFailure() { Crashed? }

    function PropagateFailure(): Outcome
      requires Crashed?
    {
      Crashed(abort)
    }

    function Extract(): CState
      requires Done?
    {
      st
    }
  }

  /** `irl_add`: the instruction is appended; its index is the old count. */
  function Emit(s: CState, i: Inst): CState {
    s.(instrs := s.instrs + [i])
  }

  /** `irl_get(...)->args[0] = v`. */
  function Patch(s: CState, at: nat, v: nat): CState
    requires at < |s.instrs|
  {
    s.(instrs := s.instrs[at := s.instrs[at].(a0 := v)])
  }

  /**
   * `t` is `s` with one more instruction, a `PUSH_VALUE` of a constant
   * equal to `c`: the constant already held is reused, a new one is
   * appended; nothing else changes.
   */
  predicate PushesConst(s: CState, t: CState, c: Const) {
    t.locals == s.locals && t.functions == s.functions && t.code == s.code &&
    (c in s.consts ==> t.consts == s.consts) &&
    (c !in s.consts ==> t.consts == s.consts + [c]) &&
    |t.instrs| == |s.instrs| + 1 && t.instrs[..|s.instrs|] == s.instrs &&
    t.instrs[|s.instrs|].op == PushValue && t.instrs[|s.instrs|].a0 < |t.consts| &&
    t.consts[t.instrs[|s.instrs|].a0] == c
  }

  /**
   * `t` is `s` with the characters of `chars` and an array reference to
   * them appended to the constants, and a `PUSH_VALUE` of that reference.
   */
  predicate PushesArray(s: CState, t: CState, chars: seq<char>) {
    t.locals == s.locals && t.functions == s.functions && t.code == s.code &&
    HoldsArray(s.consts, t.consts, chars) &&
    t.instrs == s.instrs + [Inst(PushValue, |t.consts| - 1, 0)]
  }

  /** `state_set_error_compilation`: only the first error is kept. */
  function Raise(s: CState): CState {
    if s.code == ROk then s.(code := RErrCompilation) else s
  }

  /** The position of the first key equal to `name` (`srcref_equals`), from `i` on. */
  function IndexFrom(keys: seq<SrcRef>, name: SrcRef, i: nat): (r: Option<nat>)
    requires i <= |keys|
    ensures r.Some? ==> i <= r.value < |keys| && CoUtils.Equals(keys[r.value], name)
    decreases |keys| - i
  {
    if i == |keys| then None
    else if CoUtils.Equals(keys[i], name) then Some(i)
    else IndexFrom(keys, name, i + 1)
  }

  /** `state_get_localvar`: the index of a local, if it is one. */
  function LocalIndex(s: CState, name: SrcRef): (r: Option<nat>)
    ensures r.Some? ==> r.value < |s.locals|
  {
    IndexFrom(s.locals, name, 0)
  }

  /** `state_add_localvar`: a name not yet among the locals becomes the next one. */
  function AddLocal(s: CState, name: SrcRef): CState {
    if LocalIndex(s, name).Some? then s else s.(locals := s.locals + [name])
  }

  /** The position of the first function entry whose name equals `name`, from `i` on. */
  function FunctionFrom(fs: seq<(SrcRef, nat)>, name: SrcRef, i: nat): (r: Option<nat>)
    requires i <= |fs|
    ensures r.Some? ==> i <= r.value < |fs| && CoUtils.Equals(fs[r.value].0, name)
    decreases |fs| - i
  {
    if i == |fs| then None
    else if CoUtils.Equals(fs[i].0, name) then Some(i)
    else FunctionFrom(fs, name, i + 1)
  }

  /** `state_get_funcaddr`: the frame index stored for a function name. */
  function FuncAddr(s: CState, name: SrcRef): Option<nat> {
    match FunctionFrom(s.functions, name, 0)
    case None => None
    case Some(k) => Some(s.functions[k].1)
  }

  /** `srcref_const("main")`: a reference to the whole of the text `main`. */
  const MainRef: SrcRef := CoUtils.SrcRefConst(Source(0, "main"))

  // ----------------------------------------------------------- tree shapes

  /**
   * The shape `co_parser.c` gives the tree and the generator reads without
   * checking: a function declaration's signature is a signature node and a
   * loop's variable is a declaration.
   */
  predicate Shaped(n: P.Ast) {
    match n
    case FunDecl(sign, args, body) => sign.FunSign? && Shaped(args) && Shaped(body)
    case Foreach(decl, coll, body) => decl.VarDecl? && Shaped(coll) && Shaped(body)
    case Block(items) => forall k :: 0 <= k < |items| ==> Shaped(items[k])
    case ArrayLit(items) => forall k :: 0 <= k < |items| ==> Shaped(items[k])
    case Return(v) => Shaped(v)
    case FunCall(_, args) => Shaped(args)
    case IfChain(c, t, e) => Shaped(c) && Shaped(t) && Shaped(e)
    case Binop(_, l, r) => Shaped(l) && Shaped(r)
    case Unop(_, i) => Shaped(i)
    case Assign(t, v) => Shaped(t) && Shaped(v)
    case _ => true
  }

  /** The statements of a block or the elements of an array. */
  function Items(n: P.Ast): seq<P.Ast>
    requires n.Block? || n.ArrayLit?
  {
    if n.Block? then n.items else n.items
  }

  /** `is_valid_else_block`: a block with at least one statement. */
  predicate ValidElse(n: P.Ast) {
    n.Block? && |n.items| > 0
  }

  /** `get_if_chain_length`: the number of arms of an if-chain. */
  function ChainLength(n: P.Ast): nat {
    if n.IfChain? then 1 + ChainLength(n.next) else 0
  }

  /** The opcode of a binary operation `codegen_binop` handles. */
  function BinopCode(op: CoAst.BinopType): Option<Op> {
    match op
    case Add => Some(Add)
    case Sub => Some(Sub)
    case Mul => Some(Mul)
    case Div => Some(Div)
    case Mod => Some(Mod)
    case And => Some(And)
    case Or => Some(Or)
    case Eq => Some(CmpEqual)
    case Neq => Some(CmpNotEqual)
    case Lt => Some(CmpLessThan)
    case Gt => Some(CmpMoreThan)
    case LtEq => Some(CmpLessThanOrEqual)
    case GtEq => Some(CmpMoreThanOrEqual)
    case Xor => None
  }

  // ------------------------------------------------------------ generation

  /** `codegen`: nothing once an error is recorded; otherwise the rule of the node's kind. */
  function Gen(n: P.Ast, s: CState): (r: Outcome)
    requires Shaped(n)
    ensures r.Done? ==> |s.instrs| <= |r.st.instrs|
    decreases n, 3
  {
    if s.code != ROk then Done(s)
    else match n
      case Binop(_, _, _) => GenBinop(n, s)
      case Unop(_, _) => GenUnop(n, s)
      case Assign(_, _) => GenAssign(n, s)
      case ArrayLit(items) => GenArray(n, s)
      case Return(v) =>
        var s1 :- Gen(v, s);
        Done(Emit(s1, Plain(Return)))
      case Block(_) => GenItems(n, 0, s)
      case IfChain(_, _, _) => GenIf(n, s)
      case Foreach(_, _, _) => GenForeach(n, s)
      case FunDecl(_, _, _) => GenFunDecl(n, s)
      case FunCall(name, args) =>
        var s1 :- Gen(args, s);
        (match FuncAddr(s1, name)
         case None => Crashed(AssertFailed("Function not found (not declared)"))
         case Some(k) => Done(Emit(s1, Inst(Call, k, 0))))
      case VarRef(name) =>
        (match LocalIndex(s, name)
         case None => Crashed(AssertFailed("variable not found"))
         case Some(k) => Done(Emit(s, Inst(LoadLocal, k, 0))))
      case NumberLit(_) => GenValue(n, s)
      case BoolLit(_) => GenValue(n, s)
      case StringLit(_) => GenValue(n, s)
      case VarDecl(name, _) => Done(AddLocal(s, name))
      case Break => Crashed(AssertFailed("break op is not implemented yet"))
      case FunSign(_, _) => Crashed(AssertFailed("function signature is not implemented"))
  }

  /** The loop of a block or an array: each item in order. */
  function GenItems(n: P.Ast, i: nat, s: CState): (r: Outcome)
    requires (n.Block? || n.ArrayLit?) && Shaped(n) && i <= |Items(n)|
    ensures r.Done? ==> |s.instrs| <= |r.st.instrs|
    decreases n, 0, |Items(n)| - i
  {
    if i == |Items(n)| then Done(s)
    else
      var s1 :- Gen(Items(n)[i], s);
      GenItems(n, i + 1, s1)
  }

  /** `codegen_binop`: the right operand, the left one, then the operation's opcode. */
  function GenBinop(n: P.Ast, s: CState): (r: Outcome)
    requires n.Binop? && Shaped(n)
    ensures r.Done? ==> |s.instrs| <= |r.st.instrs|
    decreases n, 2
  {
    var s1 :- Gen(n.rhs, s);
    var s2 :- Gen(n.lhs, s1);
    match BinopCode(n.op)
    case Some(op) => Done(Emit(s2, Plain(op)))
    case None => Done(Raise(s2))
  }

  /** `codegen_unop`: the operand, then `NEG` or `NOT`. */
  function GenUnop(n: P.Ast, s: CState): (r: Outcome)
    requires n.Unop? && Shaped(n)
    ensures r.Done? ==> |s.instrs| <= |r.st.instrs|
    decreases n, 2
  {
    var s1 :- Gen(n.inner, s);
    Done(Emit(s1, Plain(if n.uop == CoAst.Neg then Neg else Not)))
  }

  /** The characters a string literal `"..."` denotes, as `valbuffer_sequence_from_qouted_string` un-escapes them. */
  function StringChars(ref: SrcRef): seq<char>
    requires ref.source.Some?
  {
    CoUtils.Unescape(CoUtils.QuotedBody(CoUtils.From(ref.source.value.text, ref.start), CoUtils.Len(ref)))
  }

  /** The value of a number literal, as `pa_parse_number` reads it. */
  function LiteralValue(ref: SrcRef): real {
    CoUtils.NumberValue(CoUtils.Chars(ref))
  }

  /**
   * `codegen_value`: the constant is added to the constants and pushed. A
   * string must begin with a quote (a NULL text is read through); a string
   * that does not records a compilation error and pushes nothing.
   */
  function GenValue(n: P.Ast, s: CState): (r: Outcome)
    requires n.NumberLit? || n.BoolLit? || n.StringLit?
    ensures r.Done? ==> |s.instrs| <= |r.st.instrs|
    ensures n.NumberLit? ==> r.Done? && PushesConst(s, r.st, Number(LiteralValue(n.ref)))
    ensures n.BoolLit? ==> r.Done? && PushesConst(s, r.st, Bool(n.truth))
    ensures n.StringLit? && n.ref.source.None? ==> r == Crashed(NullDereference)
    ensures n.StringLit? && n.ref.source.Some? && ShUtils.At(n.ref.source.value.text, n.ref.start) != '"' ==>
      r.Done? && r.st.instrs == s.instrs && r.st.consts == s.consts && r.st.code != ROk
    ensures n.StringLit? && n.ref.source.Some? && ShUtils.At(n.ref.source.value.text, n.ref.start) == '"' ==>
      r.Done? && PushesArray(s, r.st, StringChars(n.ref))
  {
    match n
    case NumberLit(ref) =>
      var (k, cs) := InsertConst(s.consts, Number(LiteralValue(ref)));
      Done(Emit(s.(consts := cs), Inst(PushValue, k, 0)))
    case BoolLit(b) =>
      var (k, cs) := InsertConst(s.consts, Bool(b));
      Done(Emit(s.(consts := cs), Inst(PushValue, k, 0)))
    case StringLit(ref) =>
      if ref.source.None? then Crashed(NullDereference)
      else if ShUtils.At(ref.source.value.text, ref.start) != '"' then Done(Raise(s))
      else
        var (k, cs) := AppendArray(s.consts, StringChars(ref));
        AppendArrayHolds(s.consts, StringChars(ref));
        Done(Emit(s.(consts := cs), Inst(PushValue, k, 0)))
  }

  /** The number of body characters `valbuffer_sequence_from_qouted_string` reports for a string literal. */
  function BodyLength(ref: SrcRef): nat
    requires ref.source.Some?
  {
    |CoUtils.QuotedBody(CoUtils.From(ref.source.value.text, ref.start), CoUtils.Len(ref))|
  }

  /**
   * The constants `codegen_value` adds for a string literal as written:
   * the array takes the length the copy reported, which is the length of
   * the escaped body, so the characters written are followed by slots of
   * the local buffer that were never written; `unwritten` stands for
   * whatever those slots held.
   */
  function AppendStringAsWritten(consts: seq<Const>, ref: SrcRef, unwritten: seq<Const>): (r: (nat, seq<Const>))
    requires ref.source.Some? && |StringChars(ref)| + |unwritten| == BodyLength(ref)
    ensures r.0 == |r.1| - 1 && r.1[|r.1| - 1] == ArrayOf(|consts|, BodyLength(ref))
    ensures |r.1| == |consts| + BodyLength(ref) + 1
    ensures r.1[|consts| + |StringChars(ref)|..|consts| + BodyLength(ref)] == unwritten
  {
    var chars := StringChars(ref);
    var cs := consts + seq(|chars|, k requires 0 <= k < |chars| => Char(chars[k])) + unwritten;
    assert cs[|consts| + |chars|..] == unwritten;
    (|cs|, cs + [ArrayOf(|consts|, BodyLength(ref))])
  }

  /**
   * As written, the array of the literal `"a\nb"` spans four constants
   * although the literal denotes three characters: its last element is an
   * unwritten slot. `GenValue` appends exactly the characters denoted.
   */
  lemma StringArrayAsWrittenSpansUnwritten(consts: seq<Const>, unwritten: seq<Const>)
    requires |unwritten| == 1
    ensures var ref := SrcRef(Some(Source(0, ['"', 'a', '\\', 'n', 'b', '"'])), 0, 6);
      |StringChars(ref)| == 3 && BodyLength(ref) == 4 &&
      (var r := AppendStringAsWritten(consts, ref, unwritten);
       r.1[|r.1| - 1] == ArrayOf(|consts|, 4) && r.1[|consts| + 3] == unwritten[0] &&
       HoldsArray(consts, AppendArray(consts, StringChars(ref)).1, StringChars(ref)))
  {
    var t := ['"', 'a', '\\', 'n', 'b', '"'];
    var ref := SrcRef(Some(Source(0, t)), 0, 6);
    assert CoUtils.From(t, 0) == t;
    CoUtils.QuotedLengthExceedsWritten(t, 6);
    var r := AppendStringAsWritten(consts, ref, unwritten);
    assert r.1[|consts| + 3..|consts| + 4] == unwritten;
    AppendArrayHolds(consts, StringChars(ref));
  }

  /**
   * The `AST_ARRAY` rule: the elements, then the element count as a
   * constant pushed, then `MAKE_ARRAY`.
   */
  function GenArray(n: P.Ast, s: CState): (r: Outcome)
    requires n.ArrayLit? && Shaped(n)
    ensures r.Done? ==> |s.instrs| + 2 <= |r.st.instrs|
    ensures r.Done? ==> r.st.instrs[|r.st.instrs| - 1] == Plain(MakeArray)
    ensures r.Done? ==> (var p := r.st.instrs[|r.st.instrs| - 2];
      p.op == PushValue && p.a0 < |r.st.consts| && r.st.consts[p.a0] == Number(|n.items| as real))
    decreases n, 2
  {
    var s1 :- GenItems(n, 0, s);
    var (k, cs) := InsertConst(s1.consts, Number(|n.items| as real));
    Done(Emit(Emit(s1.(consts := cs), Inst(PushValue, k, 0)), Plain(MakeArray)))
  }

  /**
   * A number literal and an element count of equal value share one
   * constant: once the literal `2` is compiled, the count of a
   * two-element array adds no constant.
   */
  lemma CountSharesLiteral(ref: SrcRef, s: CState, count: nat)
    requires forall i :: 0 <= i < |CoUtils.Chars(ref)| ==> '0' <= CoUtils.Chars(ref)[i] <= '9'
    requires CoUtils.DigitsValue(CoUtils.Chars(ref)) == count
    ensures var t := GenValue(P.NumberLit(ref), s).st;
      InsertConst(t.consts, Number(count as real)).1 == t.consts
  {
    CoUtils.NumberValueOfDigits(CoUtils.Chars(ref));
  }

  /**
   * `codegen_assignment`: the value, then for a declaration the new local,
   * then `STORE_LOCAL` of the target's index. A target that is neither a
   * declaration nor a reference, an empty set of locals and an unknown
   * name are asserted against.
   */
  function GenAssign(n: P.Ast, s: CState): (r: Outcome)
    requires n.Assign? && Shaped(n)
    ensures r.Done? ==> |s.instrs| <= |r.st.instrs|
    decreases n, 2
  {
    var s1 :- Gen(n.value, s);
    if !(n.target.VarDecl? || n.target.VarRef?) then Crashed(AssertFailed("expected variable node as LSH in assignment"))
    else
      var s2 :- if n.target.VarDecl? then Gen(n.target, s1) else Done(s1);
      if |s2.locals| == 0 then Crashed(AssertFailed("local vars was empty"))
      else match LocalIndex(s2, n.target.ref)
        case None => Crashed(AssertFailed("varname not found"))
        case Some(k) => Done(Emit(s2, Inst(StoreLocal, k, 0)))
  }

  /**
   * `codegen_foreach`: the collection, `MAKE_ITER`, `ITER_NEXT`, the loop
   * variable stored, the body, and a jump back to `ITER_NEXT`, whose exit
   * operand is then patched to the instruction after that jump.
   */
  function GenForeach(n: P.Ast, s: CState): (r: Outcome)
    requires n.Foreach? && Shaped(n)
    ensures r.Done? ==> |s.instrs| <= |r.st.instrs|
    decreases n, 2
  {
    var s1 :- Gen(n.collection, s);
    var s2 := Emit(s1, Plain(MakeIter));
    var start := |s2.instrs|;
    var s3 := Emit(s2, Plain(IterNext));
    var s4 :- Gen(n.decl, s3);
    match LocalIndex(s4, n.decl.ref)
    case None => Crashed(AssertFailed("variable not found"))
    case Some(k) =>
      var s5 := Emit(s4, Inst(StoreLocal, k, 0));
      var s6 :- Gen(n.body, s5);
      var s7 := Emit(s6, Inst(Jump, start, 0));
      Done(Patch(s7, start, |s7.instrs|))
  }

  /**
   * The state `codegen_fundecl` compiles the parameters in: the frame
   * emitted, the function registered with the frame's index, no locals.
   */
  function FrameOpened(s: CState, name: SrcRef): CState {
    var s1 := Emit(s, Plain(MakeFrame));
    s1.(functions := s1.functions + [(name, |s.instrs|)], locals := [])
  }

  /**
   * `codegen_fundecl`: the parameters must be a block and no function may
   * be open; `MAKE_FRAME` is emitted and the function registered at it (a
   * second declaration of a name is asserted against); the parameters and
   * the body are compiled and the frame patched to the number of parameters
   * and the number of locals the body added; the locals are cleared.
   */
  function GenFunDecl(n: P.Ast, s: CState): (r: Outcome)
    requires n.FunDecl? && Shaped(n)
    ensures r.Done? ==> |s.instrs| <= |r.st.instrs|
    decreases n, 2
  {
    if !n.args.Block? then Crashed(AssertFailed("node.args->type == AST_BLOCK"))
    else if |s.locals| != 0 then Crashed(AssertFailed("Function declared inside function?"))
    else if FuncAddr(s, n.sign.ref).Some? then Crashed(AssertFailed("ok == true"))
    else
      var frame := |s.instrs|;
      var s1 := FrameOpened(s, n.sign.ref);
      var s2 :- Gen(n.args, s1);
      var argCount := |s2.locals|;
      var s3 :- Gen(n.body, s2);
      var s4 := s3.(instrs := s3.instrs[frame := Inst(MakeFrame, argCount, Sub32(|s3.locals|, argCount))]);
      Done(s4.(locals := []))
  }

  /** The arms of an if-chain compiled, with the indices of their exit jumps. */
  datatype Arms = ArmsDone(st: CState, exits: seq<nat>) | ArmsCrashed(abort: Abort)

  /**
   * One turn of the loop of `codegen_if_chain` and the turns after it: the
   * condition, `JUMP_IF_FALSE`, the arm's body, an exit jump when another
   * arm or a non-empty else follows, and the conditional jump patched to
   * what comes next; after the last arm, the else block when it is not
   * empty.
   */
  function GenArms(n: P.Ast, s: CState, exits: seq<nat>): (r: Arms)
    requires n.IfChain? && Shaped(n)
    ensures r.ArmsDone? ==> |s.instrs| <= |r.st.instrs|
    decreases n, 1
  {
    match Gen(n.cond, s)
    case Crashed(a) => ArmsCrashed(a)
    case Done(s1) =>
      var test := |s1.instrs|;
      match Gen(n.ifTrue, Emit(s1, Plain(JumpIfFalse)))
      case Crashed(a) => ArmsCrashed(a)
      case Done(s3) =>
        var exit := n.next.IfChain? || ValidElse(n.next);
        var s4 := if exit then Emit(s3, Plain(Jump)) else s3;
        var ex := if exit then exits + [|s3.instrs|] else exits;
        var s5 := Patch(s4, test, |s4.instrs|);
        if n.next.IfChain? then GenArms(n.next, s5, ex)
        else if ValidElse(n.next) then
          match Gen(n.next, s5)
          case Crashed(a) => ArmsCrashed(a)
          case Done(s6) => ArmsDone(s6, ex)
        else ArmsDone(s5, ex)
  }

  /** The closing loop of `codegen_if_chain`: every exit jump patched to `v`. */
  function PatchAll(s: CState, exits: seq<nat>, v: nat): (t: CState)
    ensures |t.instrs| == |s.instrs|
    decreases |exits|
  {
    if exits == [] then s
    else if exits[0] < |s.instrs| then PatchAll(Patch(s, exits[0], v), exits[1..], v)
    else PatchAll(s, exits[1..], v)
  }

  /** `codegen_if_chain`: the arms, then every exit jump patched to the end of the chain. */
  function GenIf(n: P.Ast, s: CState): (r: Outcome)
    requires n.IfChain? && Shaped(n)
    ensures r.Done? ==> |s.instrs| <= |r.st.instrs|
    decreases n, 2
  {
    match GenArms(n, s, [])
    case ArmsCrashed(a) => Crashed(a)
    case ArmsDone(t, exits) => Done(PatchAll(t, exits, |t.instrs|))
  }

  // ------------------------------------------------------------- addresses

  /** The byte address of instruction `i`: the widths of the instructions before it. */
  function Addr(instrs: seq<Inst>, i: nat): nat
    requires i <= |instrs|
  {
    if i == 0 then 0 else Addr(instrs, i - 1) + Width(instrs[i - 1])
  }

  /**
   * `recalc_index_to_bytecode_adress` on one instruction: a targeted
   * operand becomes the address of the instruction it indexes. As written
   * an index must name an instruction; corrected, the index just past the
   * last one names the end of the code.
   */
  function Retarget(instrs: seq<Inst>, i: nat, reading: Reading): Result<Inst, Abort>
    requires i < |instrs|
  {
    var ins := instrs[i];
    if !IsTargeted(ins.op) then Ok(ins)
    else if ins.a0 < |instrs| || (reading == Corrected && ins.a0 == |instrs|) then Ok(ins.(a0 := Addr(instrs, ins.a0)))
    else Err(OutOfBounds)
  }

  /** The instructions from `i` on, each retargeted. */
  function RetargetFrom(instrs: seq<Inst>, i: nat, reading: Reading): (r: Result<seq<Inst>, Abort>)
    requires i <= |instrs|
    ensures r.Ok? ==> |r.value| == |instrs| - i
    decreases |instrs| - i
  {
    if i == |instrs| then Ok([])
    else match Retarget(instrs, i, reading)
      case Err(a) => Err(a)
      case Ok(ins) =>
        match RetargetFrom(instrs, i + 1, reading)
        case Err(a) => Err(a)
        case Ok(rest) => Ok([ins] + rest)
  }

  // -------------------------------------------------------------- emission

  /** The bytes of one instruction: the opcode, then each operand little-endian. */
  function InstBytes(i: Inst): (b: seq<bv8>)
    ensures |b| == Width(i)
  {
    [Code(i.op)] +
    (if ArgCount(i.op) >= 1 then ShUtils.U32Bytes(U32(i.a0)) else []) +
    (if ArgCount(i.op) >= 2 then ShUtils.U32Bytes(U32(i.a1)) else [])
  }

  /** The bytes of each instruction. */
  function Chunks(instrs: seq<Inst>): (cs: seq<seq<bv8>>)
    ensures |cs| == |instrs|
  {
    seq(|instrs|, k requires 0 <= k < |instrs| => InstBytes(instrs[k]))
  }

  /** Byte strings one after the other. */
  function Flatten(cs: seq<seq<bv8>>): seq<bv8> {
    if cs == [] then [] else Flatten(cs[..|cs| - 1]) + cs[|cs| - 1]
  }

  /** The byte code of `write_program`: the instructions' bytes in order. */
  function Bytes(instrs: seq<Inst>): seq<bv8> {
    Flatten(Chunks(instrs))
  }

  /** `gvm_program_t`: the byte code and the constants. */
  datatype Program = Program(code: seq<bv8>, consts: seq<Const>)

  const EmptyProgram: Program := Program([], [])

  /**
   * `gvm_compile`: instruction 0 is `ENTRY_POINT`, then the tree is
   * compiled. With no error recorded, the entry point is patched to the
   * frame of `main` and the program written; without `main` a compilation
   * error is recorded and the program stays empty. The answer is the
   * program with the final code of the result record.
   */
  function Compile(node: P.Ast, status: CresCode, reading: Reading): Result<(Program, CresCode), Abort>
    requires Shaped(node)
  {
    var s0 := Emit(CState([], [], [], [], status), Plain(EntryPoint));
    match Gen(node, s0)
    case Crashed(a) => Err(a)
    case Done(t) =>
      if t.code != ROk then Ok((EmptyProgram, t.code))
      else match FuncAddr(t, MainRef)
        case None => Ok((EmptyProgram, RErrCompilation))
        case Some(k) =>
          match RetargetFrom(Patch(t, 0, k).instrs, 0, reading)
          case Err(a) => Err(a)
          case Ok(code) => Ok((Program(Bytes(code), t.consts), t.code))
  }
}

module CoCompilerFacts {
  import opened Wrappers
  import opened CoTypes
  import CoUtils
  import ShUtils
  import P = CoParser
  import opened CoCompiler

  // ------------------------------------------------------- growth of state

  /**
   * `t` is `s` with more added: the earlier instructions, functions and
   * constants are as they were, and a recorded error stays recorded.
   */
  predicate Extends(s: CState, t: CState) {
    |s.instrs| <= |t.instrs| && t.instrs[..|s.instrs|] == s.instrs &&
    |s.functions| <= |t.functions| && t.functions[..|s.functions|] == s.functions &&
    |s.consts| <= |t.consts| && t.consts[..|s.consts|] == s.consts &&
    (s.code != ROk ==> t.code == s.code)
  }

  /** Every declared function is registered at a `MAKE_FRAME` instruction. */
  predicate FramesOk(s: CState) {
    forall k :: 0 <= k < |s.functions| ==> s.functions[k].1 < |s.instrs| && s.instrs[s.functions[k].1].op == MakeFrame
  }

  /**
   * The operand of every instruction `recalc_index_to_bytecode_adress`
   * retargets is an instruction index or the index just past the last one.
   */
  predicate TargetsOk(s: CState) {
    forall i :: 0 <= i < |s.instrs| && IsTargeted(s.instrs[i].op) ==> s.instrs[i].a0 <= |s.instrs|
  }

  /** The invariant the generator keeps. */
  predicate Inv(s: CState) {
    FramesOk(s) && TargetsOk(s)
  }

  /** `Extends`, and the invariant, once it holds, goes on holding. */
  predicate Good(s: CState, t: CState) {
    Extends(s, t) && (Inv(s) ==> Inv(t))
  }

  lemma GoodTrans(a: CState, b: CState, c: CState)
    requires Good(a, b) && Good(b, c)
    ensures Good(a, c)
  {
    assert c.instrs[..|a.instrs|] == c.instrs[..|b.instrs|][..|a.instrs|];
    assert c.functions[..|a.functions|] == c.functions[..|b.functions|][..|a.functions|];
    assert c.consts[..|a.consts|] == c.consts[..|b.consts|][..|a.consts|];
  }

  lemma EmitGood(s: CState, i: Inst)
    requires Inv(s) && IsTargeted(i.op) ==> i.a0 <= |s.instrs| + 1
    ensures Good(s, Emit(s, i))
  {
    assert Emit(s, i).instrs[..|s.instrs|] == s.instrs;
  }

  /** A patch of an instruction `t` added after `s` keeps `Good(s, _)`. */
  lemma PatchFromGood(s: CState, t: CState, at: nat, v: nat)
    requires Good(s, t) && |s.instrs| <= at < |t.instrs| && v <= |t.instrs|
    ensures Good(s, Patch(t, at, v))
  {
    PatchKeeps(t, at, v, |s.instrs|);
    assert Patch(t, at, v).instrs[..|s.instrs|] == t.instrs[..|s.instrs|];
  }

  /** A patch at or after `n` leaves the first `n` instructions alone. */
  lemma PatchKeeps(s: CState, at: nat, v: nat, n: nat)
    requires n <= at < |s.instrs|
    ensures Patch(s, at, v).instrs[..n] == s.instrs[..n]
    ensures Patch(s, at, v).instrs[at] == s.instrs[at].(a0 := v)
    ensures forall j :: 0 <= j < |s.instrs| && j != at ==> Patch(s, at, v).instrs[j] == s.instrs[j]
  {
  }

  /** With the invariant, a name resolves to the index of a frame. */
  lemma FuncAddrFrame(s: CState, name: SrcRef)
    requires FramesOk(s)
    ensures FuncAddr(s, name).Some? ==> FuncAddr(s, name).value < |s.instrs| && s.instrs[FuncAddr(s, name).value].op == MakeFrame
  {
  }

  predicate AllIn(xs: seq<nat>, lo: nat, hi: nat) {
    forall k :: 0 <= k < |xs| ==> lo <= xs[k] < hi
  }

  /** Patching exits at or after `n` keeps `Good` from any state whose instructions end before `n`. */
  lemma {:induction false} PatchAllGood(s: CState, exits: seq<nat>, v: nat, n: nat)
    requires n <= |s.instrs| && AllIn(exits, n, |s.instrs|) && v <= |s.instrs|
    ensures PatchAll(s, exits, v).instrs[..n] == s.instrs[..n]
    ensures PatchAll(s, exits, v).(instrs := s.instrs) == s
    ensures Inv(s) ==> Inv(PatchAll(s, exits, v))
    decreases |exits|
  {
    if exits != [] {
      PatchKeeps(s, exits[0], v, n);
      PatchAllGood(Patch(s, exits[0], v), exits[1..], v, n);
    }
  }

  /**
   * The effect of the closing loop: every exit jump gets the operand `v`,
   * every other instruction is left as it was.
   */
  lemma {:induction false} PatchAllMeaning(s: CState, exits: seq<nat>, v: nat, j: nat)
    requires AllIn(exits, 0, |s.instrs|) && j < |s.instrs|
    ensures j in exits ==> PatchAll(s, exits, v).instrs[j] == s.instrs[j].(a0 := v)
    ensures j !in exits ==> PatchAll(s, exits, v).instrs[j] == s.instrs[j]
    decreases |exits|
  {
    if exits != [] {
      var s1 := Patch(s, exits[0], v);
      PatchAllMeaning(s1, exits[1..], v, j);
      if j in exits[1..] {
      } else if j == exits[0] {
      } else {
        assert j !in exits;
      }
    }
  }

  // --------------------------------------------------- the generator is sound

  /**
   * Generating code only adds to the state: earlier instructions are never
   * patched (every back-patch lands on an instruction of the construct
   * itself), and every function stays registered at its frame.
   */
  lemma {:induction false} GenGood(n: P.Ast, s: CState)
    requires Shaped(n)
    ensures Gen(n, s).Done? ==> Good(s, Gen(n, s).st)
    decreases n, 3
  {
    if s.code != ROk {
    } else {
      match n
      case Binop(_, _, _) => BinopGood(n, s);
      case Unop(_, _) => UnopGood(n, s);
      case Assign(_, _) => AssignGood(n, s);
      case ArrayLit(_) => ArrayGood(n, s);
      case Return(v) => ReturnGood(n, s);
      case Block(_) => ItemsGood(n, 0, s);
      case IfChain(_, _, _) => IfGood(n, s);
      case Foreach(_, _, _) => ForeachGood(n, s);
      case FunDecl(_, _, _) => FunDeclGood(n, s);
      case FunCall(name, args) => CallGood(n, s);
      case VarRef(name) =>
        if LocalIndex(s, name).Some? {
          EmitGood(s, Inst(LoadLocal, LocalIndex(s, name).value, 0));
        }
      case NumberLit(_) => ValueGood(n, s);
      case BoolLit(_) => ValueGood(n, s);
      case StringLit(_) => ValueGood(n, s);
      case VarDecl(name, _) =>
      case Break =>
      case FunSign(_, _) =>
    }
  }

  lemma {:induction false} UnopGood(n: P.Ast, s: CState)
    requires n.Unop? && Shaped(n)
    ensures GenUnop(n, s).Done? ==> Good(s, GenUnop(n, s).st)
    decreases n, 2
  {
    if Gen(n.inner, s).Done? {
      GenGood(n.inner, s);
      EmitGood(Gen(n.inner, s).st, Plain(if n.uop == CoAst.Neg then Neg else Not));
      GoodTrans(s, Gen(n.inner, s).st, GenUnop(n, s).st);
    }
  }

  lemma {:induction false} ReturnGood(n: P.Ast, s: CState)
    requires n.Return? && Shaped(n) && s.code == ROk
    ensures Gen(n, s).Done? ==> Good(s, Gen(n, s).st)
    decreases n, 2
  {
    if Gen(n.value, s).Done? {
      GenGood(n.value, s);
      EmitGood(Gen(n.value, s).st, Plain(Return));
      GoodTrans(s, Gen(n.value, s).st, Gen(n, s).st);
    }
  }

  lemma {:induction false} CallGood(n: P.Ast, s: CState)
    requires n.FunCall? && Shaped(n) && s.code == ROk
    ensures Gen(n, s).Done? ==> Good(s, Gen(n, s).st)
    decreases n, 2
  {
    if Gen(n.args, s).Done? {
      var s1 := Gen(n.args, s).st;
      GenGood(n.args, s);
      if FuncAddr(s1, n.ref).Some? {
        if Inv(s1) {
          FuncAddrFrame(s1, n.ref);
        }
        EmitGood(s1, Inst(Call, FuncAddr(s1, n.ref).value, 0));
        GoodTrans(s, s1, Gen(n, s).st);
      }
    }
  }

  lemma {:induction false} ItemsGood(n: P.Ast, i: nat, s: CState)
    requires (n.Block? || n.ArrayLit?) && Shaped(n) && i <= |Items(n)|
    ensures GenItems(n, i, s).Done? ==> Good(s, GenItems(n, i, s).st)
    decreases n, 0, |Items(n)| - i
  {
    if i < |Items(n)| && Gen(Items(n)[i], s).Done? {
      var s1 := Gen(Items(n)[i], s).st;
      GenGood(Items(n)[i], s);
      ItemsGood(n, i + 1, s1);
      if GenItems(n, i + 1, s1).Done? {
        GoodTrans(s, s1, GenItems(n, i, s).st);
      }
    }
  }

  lemma {:induction false} BinopGood(n: P.Ast, s: CState)
    requires n.Binop? && Shaped(n)
    ensures GenBinop(n, s).Done? ==> Good(s, GenBinop(n, s).st)
    decreases n, 2
  {
    if GenBinop(n, s).Done? {
      var s1 := Gen(n.rhs, s).st;
      var s2 := Gen(n.lhs, s1).st;
      GenGood(n.rhs, s);
      GenGood(n.lhs, s1);
      GoodTrans(s, s1, s2);
      if BinopCode(n.op).Some? {
        EmitGood(s2, Plain(BinopCode(n.op).value));
      }
      GoodTrans(s, s2, GenBinop(n, s).st);
    }
  }

  lemma PushGood(s: CState, t: CState, c: Const)
    requires PushesConst(s, t, c)
    ensures Good(s, t)
  {
    assert t == Emit(s.(consts := t.consts), t.instrs[|s.instrs|]);
    assert t.consts[..|s.consts|] == s.consts;
    EmitGood(s.(consts := t.consts), t.instrs[|s.instrs|]);
  }

  lemma PushArrayGood(s: CState, t: CState, chars: seq<char>)
    requires PushesArray(s, t, chars)
    ensures Good(s, t)
  {
    assert t == Emit(s.(consts := t.consts), Inst(PushValue, |t.consts| - 1, 0));
    EmitGood(s.(consts := t.consts), Inst(PushValue, |t.consts| - 1, 0));
  }

  lemma ValueGood(n: P.Ast, s: CState)
    requires n.NumberLit? || n.BoolLit? || n.StringLit?
    ensures GenValue(n, s).Done? ==> Good(s, GenValue(n, s).st)
  {
    var r := GenValue(n, s);
    if n.NumberLit? {
      PushGood(s, r.st, Number(LiteralValue(n.ref)));
    } else if n.BoolLit? {
      PushGood(s, r.st, Bool(n.truth));
    } else if n.ref.source.Some? && ShUtils.At(n.ref.source.value.text, n.ref.start) == '"' {
      PushArrayGood(s, r.st, StringChars(n.ref));
    } else if r.Done? {
      assert r.st == Raise(s);
    }
  }

  /** Pushing a constant and making the array keeps `Good`. */
  lemma ArrayTailGood(s1: CState, c: Const)
    ensures var (k, cs) := InsertConst(s1.consts, c);
      Good(s1, Emit(Emit(s1.(consts := cs), Inst(PushValue, k, 0)), Plain(MakeArray)))
  {
    var (k, cs) := InsertConst(s1.consts, c);
    assert cs[..|s1.consts|] == s1.consts;
    var s2 := Emit(s1.(consts := cs), Inst(PushValue, k, 0));
    EmitGood(s1.(consts := cs), Inst(PushValue, k, 0));
    EmitGood(s2, Plain(MakeArray));
    GoodTrans(s1, s2, Emit(s2, Plain(MakeArray)));
  }

  lemma {:induction false} ArrayGood(n: P.Ast, s: CState)
    requires n.ArrayLit? && Shaped(n)
    ensures GenArray(n, s).Done? ==> Good(s, GenArray(n, s).st)
    decreases n, 2
  {
    if GenItems(n, 0, s).Done? {
      var s1 := GenItems(n, 0, s).st;
      ItemsGood(n, 0, s);
      ArrayTailGood(s1, Number(|n.items| as real));
      GoodTrans(s, s1, GenArray(n, s).st);
    }
  }

  lemma {:induction false} AssignGood(n: P.Ast, s: CState)
    requires n.Assign? && Shaped(n)
    ensures GenAssign(n, s).Done? ==> Good(s, GenAssign(n, s).st)
    decreases n, 2
  {
    if GenAssign(n, s).Done? {
      var s1 := Gen(n.value, s).st;
      GenGood(n.value, s);
      var s2 := if n.target.VarDecl? then Gen(n.target, s1).st else s1;
      if n.target.VarDecl? {
        GenGood(n.target, s1);
      }
      GoodTrans(s, s1, s2);
      EmitGood(s2, Inst(StoreLocal, LocalIndex(s2, n.target.ref).value, 0));
      GoodTrans(s, s2, GenAssign(n, s).st);
    }
  }

  lemma {:induction false} ForeachGood(n: P.Ast, s: CState)
    requires n.Foreach? && Shaped(n)
    ensures GenForeach(n, s).Done? ==> Good(s, GenForeach(n, s).st)
    decreases n, 2
  {
    if GenForeach(n, s).Done? {
      var s1 := Gen(n.collection, s).st;
      GenGood(n.collection, s);
      var s2 := Emit(s1, Plain(MakeIter));
      EmitGood(s1, Plain(MakeIter));
      var start := |s2.instrs|;
      var s3 := Emit(s2, Plain(IterNext));
      EmitGood(s2, Plain(IterNext));
      var s4 := Gen(n.decl, s3).st;
      GenGood(n.decl, s3);
      var k := LocalIndex(s4, n.decl.ref).value;
      var s5 := Emit(s4, Inst(StoreLocal, k, 0));
      EmitGood(s4, Inst(StoreLocal, k, 0));
      var s6 := Gen(n.body, s5).st;
      GenGood(n.body, s5);
      var s7 := Emit(s6, Inst(Jump, start, 0));
      EmitGood(s6, Inst(Jump, start, 0));
      GoodTrans(s, s1, s2);
      GoodTrans(s, s2, s3);
      GoodTrans(s, s3, s4);
      GoodTrans(s, s4, s5);
      GoodTrans(s, s5, s6);
      GoodTrans(s, s6, s7);
      PatchFromGood(s, s7, start, |s7.instrs|);
      assert GenForeach(n, s).st == Patch(s7, start, |s7.instrs|);
    }
  }

  lemma FrameOpenedGood(s: CState, name: SrcRef)
    ensures Good(s, FrameOpened(s, name))
    ensures FrameOpened(s, name).instrs[|s.instrs|].op == MakeFrame
  {
    var s1 := FrameOpened(s, name);
    assert s1.instrs[..|s.instrs|] == s.instrs && s1.functions[..|s.functions|] == s.functions;
  }

  /** Filling in the frame a function declaration opened keeps `Good`. */
  lemma FramePatchGood(s: CState, s1: CState, s3: CState, a0: nat, a1: nat)
    requires Good(s, s3) && Good(s1, s3) && |s.instrs| < |s1.instrs| && s1.instrs[|s.instrs|].op == MakeFrame
    ensures Good(s, s3.(instrs := s3.instrs[|s.instrs| := Inst(MakeFrame, a0, a1)]))
  {
    var frame := |s.instrs|;
    var s4 := s3.(instrs := s3.instrs[frame := Inst(MakeFrame, a0, a1)]);
    assert s3.instrs[frame] == s3.instrs[..|s1.instrs|][frame];
    assert s4.instrs[..frame] == s3.instrs[..frame];
    assert forall j :: 0 <= j < |s3.instrs| && j != frame ==> s4.instrs[j] == s3.instrs[j];
    assert Inv(s3) ==> Inv(s4);
  }

  lemma {:induction false} FunDeclGood(n: P.Ast, s: CState)
    requires n.FunDecl? && Shaped(n)
    ensures GenFunDecl(n, s).Done? ==> Good(s, GenFunDecl(n, s).st)
    decreases n, 2
  {
    if GenFunDecl(n, s).Done? {
      var frame := |s.instrs|;
      var s1 := FrameOpened(s, n.sign.ref);
      FrameOpenedGood(s, n.sign.ref);
      var s2 := Gen(n.args, s1).st;
      GenGood(n.args, s1);
      var s3 := Gen(n.body, s2).st;
      GenGood(n.body, s2);
      GoodTrans(s1, s2, s3);
      GoodTrans(s, s1, s3);
      var argCount := |s2.locals|;
      var s4 := s3.(instrs := s3.instrs[frame := Inst(MakeFrame, argCount, Sub32(|s3.locals|, argCount))]);
      FramePatchGood(s, s1, s3, argCount, Sub32(|s3.locals|, argCount));
      assert GenFunDecl(n, s).st == s4.(locals := []);
    }
  }

  /** The part of one arm before the arms that follow it keeps `Good`. */
  lemma {:induction false} ArmHeadGood(n: P.Ast, s: CState)
    requires n.IfChain? && Shaped(n) && Gen(n.cond, s).Done?
    requires Gen(n.ifTrue, Emit(Gen(n.cond, s).st, Plain(JumpIfFalse))).Done?
    ensures var s1 := Gen(n.cond, s).st;
      var s3 := Gen(n.ifTrue, Emit(s1, Plain(JumpIfFalse))).st;
      var s4 := if n.next.IfChain? || ValidElse(n.next) then Emit(s3, Plain(Jump)) else s3;
      |s.instrs| <= |s1.instrs| < |s3.instrs| && Good(s, Patch(s4, |s1.instrs|, |s4.instrs|))
    decreases n, 0
  {
    var s1 := Gen(n.cond, s).st;
    GenGood(n.cond, s);
    var s2 := Emit(s1, Plain(JumpIfFalse));
    EmitGood(s1, Plain(JumpIfFalse));
    var s3 := Gen(n.ifTrue, s2).st;
    GenGood(n.ifTrue, s2);
    var s4 := if n.next.IfChain? || ValidElse(n.next) then Emit(s3, Plain(Jump)) else s3;
    EmitGood(s3, Plain(Jump));
    GoodTrans(s, s1, s2);
    GoodTrans(s, s2, s3);
    GoodTrans(s, s3, s4);
    PatchFromGood(s, s4, |s1.instrs|, |s4.instrs|);
  }

  /** The arms add to the state, and their exit jumps lie among the instructions they added. */
  lemma {:induction false} ArmsGood(n: P.Ast, s: CState, exits: seq<nat>)
    requires n.IfChain? && Shaped(n)
    ensures var r := GenArms(n, s, exits);
      r.ArmsDone? ==>
        Good(s, r.st) && |exits| <= |r.exits| &&
        (forall k :: 0 <= k < |exits| ==> r.exits[k] == exits[k]) &&
        (forall k :: |exits| <= k < |r.exits| ==> |s.instrs| <= r.exits[k] < |r.st.instrs|)
    decreases n, 1
  {
    var r := GenArms(n, s, exits);
    if r.ArmsDone? {
      var s1 := Gen(n.cond, s).st;
      var test := |s1.instrs|;
      var s2 := Emit(s1, Plain(JumpIfFalse));
      var s3 := Gen(n.ifTrue, s2).st;
      var exit := n.next.IfChain? || ValidElse(n.next);
      var s4 := if exit then Emit(s3, Plain(Jump)) else s3;
      var ex := if exit then exits + [|s3.instrs|] else exits;
      var s5 := Patch(s4, test, |s4.instrs|);
      ArmHeadGood(n, s);
      assert forall k :: |exits| <= k < |ex| ==> |s.instrs| <= ex[k] < |s5.instrs|;
      if n.next.IfChain? {
        ArmsGood(n.next, s5, ex);
        GoodTrans(s, s5, r.st);
      } else if ValidElse(n.next) {
        GenGood(n.next, s5);
        GoodTrans(s, s5, r.st);
      }
    }
  }

  /** The exits the arms add are unpatched `JUMP` instructions. */
  lemma {:induction false} ArmExitsAreJumps(n: P.Ast, s: CState, exits: seq<nat>)
    requires n.IfChain? && Shaped(n)
    ensures var r := GenArms(n, s, exits);
      r.ArmsDone? ==>
        |exits| <= |r.exits| &&
        forall k :: |exits| <= k < |r.exits| ==> r.exits[k] < |r.st.instrs| && r.st.instrs[r.exits[k]] == Plain(Jump)
    decreases n, 1
  {
    var r := GenArms(n, s, exits);
    if r.ArmsDone? {
      ArmsGood(n, s, exits);
      var s1 := Gen(n.cond, s).st;
      var s2 := Emit(s1, Plain(JumpIfFalse));
      var s3 := Gen(n.ifTrue, s2).st;
      var exit := n.next.IfChain? || ValidElse(n.next);
      var s4 := if exit then Emit(s3, Plain(Jump)) else s3;
      var ex := if exit then exits + [|s3.instrs|] else exits;
      var s5 := Patch(s4, |s1.instrs|, |s4.instrs|);
      assert forall k :: |exits| <= k < |ex| ==> ex[k] < |s5.instrs| && s5.instrs[ex[k]] == Plain(Jump);
      if n.next.IfChain? {
        ArmsGood(n.next, s5, ex);
        ArmExitsAreJumps(n.next, s5, ex);
        forall k | |exits| <= k < |ex|
          ensures r.st.instrs[r.exits[k]] == Plain(Jump)
        {
          assert r.st.instrs[ex[k]] == r.st.instrs[..|s5.instrs|][ex[k]];
        }
      } else if ValidElse(n.next) {
        GenGood(n.next, s5);
        forall k | |exits| <= k < |ex|
          ensures r.st.instrs[r.exits[k]] == Plain(Jump)
        {
          assert r.st.instrs[ex[k]] == r.st.instrs[..|s5.instrs|][ex[k]];
        }
      }
    }
  }

  lemma {:induction false} IfGood(n: P.Ast, s: CState)
    requires n.IfChain? && Shaped(n)
    ensures GenIf(n, s).Done? ==> Good(s, GenIf(n, s).st)
    decreases n, 2
  {
    var r := GenArms(n, s, []);
    if r.ArmsDone? {
      ArmsGood(n, s, []);
      PatchAllGood(r.st, r.exits, |r.st.instrs|, |s.instrs|);
      var t := PatchAll(r.st, r.exits, |r.st.instrs|);
      assert t.instrs[..|s.instrs|] == r.st.instrs[..|s.instrs|];
    }
  }

  // ------------------------------------------------------ layout of the code

  /**
   * A binary operation: the right operand's code, then the left operand's,
   * then the operation's opcode; `^` has none and records a compilation
   * error instead.
   */
  lemma BinopLayout(n: P.Ast, s: CState)
    requires n.Binop? && Shaped(n) && s.code == ROk && Gen(n, s).Done?
    ensures Gen(n.rhs, s).Done? && Gen(n.lhs, Gen(n.rhs, s).st).Done?
    ensures var s1 := Gen(n.rhs, s).st;
      var s2 := Gen(n.lhs, s1).st;
      var t := Gen(n, s).st;
      s.instrs <= s1.instrs <= s2.instrs &&
      (BinopCode(n.op).Some? ==> t.instrs == s2.instrs + [Plain(BinopCode(n.op).value)]) &&
      (BinopCode(n.op).None? ==> t.instrs == s2.instrs && t.code != ROk)
  {
    GenGood(n.rhs, s);
    GenGood(n.lhs, Gen(n.rhs, s).st);
  }

  /**
   * A loop: `MAKE_ITER` after the collection's code, then `ITER_NEXT` whose
   * exit operand is the instruction after the loop, the loop variable
   * stored, and at the end a jump back to `ITER_NEXT`.
   */
  lemma ForeachLayout(n: P.Ast, s: CState)
    requires n.Foreach? && Shaped(n) && s.code == ROk && Gen(n, s).Done?
    ensures Gen(n.collection, s).Done?
    ensures var start := |Gen(n.collection, s).st.instrs| + 1;
      var t := Gen(n, s).st;
      s.instrs <= t.instrs && |s.instrs| < start < |t.instrs| - 1 &&
      t.instrs[start - 1] == Plain(MakeIter) &&
      t.instrs[start] == Inst(IterNext, |t.instrs|, 0) &&
      t.instrs[start + 1].op == StoreLocal &&
      t.instrs[|t.instrs| - 1] == Inst(Jump, start, 0)
  {
    ForeachUnfold(n, s);
    var s1 := Gen(n.collection, s).st;
    GenGood(n.collection, s);
    var start := |s1.instrs| + 1;
    var s3 := Emit(Emit(s1, Plain(MakeIter)), Plain(IterNext));
    var s4 := Gen(n.decl, s3).st;
    var s5 := Emit(s4, Inst(StoreLocal, LocalIndex(s4, n.decl.ref).value, 0));
    var s6 := Gen(n.body, s5).st;
    GenGood(n.body, s5);
    LoopClose(s.instrs, s5.instrs, s6.instrs, start);
  }

  /** The steps of `codegen_foreach` when it compiles. */
  lemma ForeachUnfold(n: P.Ast, s: CState)
    requires n.Foreach? && Shaped(n) && s.code == ROk && Gen(n, s).Done?
    ensures Gen(n.collection, s).Done?
    ensures var s1 := Gen(n.collection, s).st;
      var start := |s1.instrs| + 1;
      var s3 := Emit(Emit(s1, Plain(MakeIter)), Plain(IterNext));
      Gen(n.decl, s3).Done? && Gen(n.decl, s3).st.instrs == s3.instrs &&
      LocalIndex(Gen(n.decl, s3).st, n.decl.ref).Some? &&
      var s5 := Emit(Gen(n.decl, s3).st, Inst(StoreLocal, LocalIndex(Gen(n.decl, s3).st, n.decl.ref).value, 0));
      Gen(n.body, s5).Done? &&
      Gen(n, s).st.instrs == Patch(Emit(Gen(n.body, s5).st, Inst(Jump, start, 0)), start, |Gen(n.body, s5).st.instrs| + 1).instrs
  {
    ForeachIsGen(n, s);
    ForeachSteps(n, s);
  }

  /** `codegen` on a loop is `codegen_foreach`. */
  lemma ForeachIsGen(n: P.Ast, s: CState)
    requires n.Foreach? && Shaped(n) && s.code == ROk
    ensures Gen(n, s) == GenForeach(n, s)
  {
  }

  /** A variable declaration compiles to no code. */
  lemma DeclGen(d: P.Ast, s: CState)
    requires d.VarDecl?
    ensures Gen(d, s).Done? && Gen(d, s).st.instrs == s.instrs
  {
    if s.code == ROk {
      assert Gen(d, s) == Done(AddLocal(s, d.ref));
    }
  }

  /** The steps of `codegen_foreach`, read off its definition. */
  lemma ForeachSteps(n: P.Ast, s: CState)
    requires n.Foreach? && Shaped(n) && GenForeach(n, s).Done?
    ensures Gen(n.collection, s).Done?
    ensures var s1 := Gen(n.collection, s).st;
      var start := |s1.instrs| + 1;
      var s3 := Emit(Emit(s1, Plain(MakeIter)), Plain(IterNext));
      Gen(n.decl, s3).Done? && Gen(n.decl, s3).st.instrs == s3.instrs &&
      LocalIndex(Gen(n.decl, s3).st, n.decl.ref).Some? &&
      var s5 := Emit(Gen(n.decl, s3).st, Inst(StoreLocal, LocalIndex(Gen(n.decl, s3).st, n.decl.ref).value, 0));
      Gen(n.body, s5).Done? &&
      GenForeach(n, s).st.instrs == Patch(Emit(Gen(n.body, s5).st, Inst(Jump, start, 0)), start, |Gen(n.body, s5).st.instrs| + 1).instrs
  {
    var g1 := Gen(n.collection, s);
    assert g1.Done?;
    var s3 := Emit(Emit(g1.st, Plain(MakeIter)), Plain(IterNext));
    DeclGen(n.decl, s3);
    var s4 := Gen(n.decl, s3).st;
    assert LocalIndex(s4, n.decl.ref).Some?;
    var s5 := Emit(s4, Inst(StoreLocal, LocalIndex(s4, n.decl.ref).value, 0));
    assert Gen(n.body, s5).Done?;
  }

  /**
   * Closing a loop whose head `pre` ends in the stored loop variable: the
   * jump back is appended after the body and the head's exit operand set
   * to the end; the head and what precedes it are otherwise kept.
   */
  lemma LoopClose(s0: seq<Inst>, pre: seq<Inst>, body: seq<Inst>, start: nat)
    requires |s0| < start && start + 1 < |pre| && s0 <= pre <= body
    ensures var c := body + [Inst(Jump, start, 0)];
      var t := c[start := c[start].(a0 := |c|)];
      s0 <= t && |t| == |body| + 1 &&
      t[start - 1] == pre[start - 1] && t[start] == pre[start].(a0 := |t|) &&
      t[start + 1] == pre[start + 1] && t[|t| - 1] == Inst(Jump, start, 0)
  {
    var c := body + [Inst(Jump, start, 0)];
    var t := c[start := c[start].(a0 := |c|)];
    assert pre[start - 1] == body[start - 1] && pre[start] == body[start] && pre[start + 1] == body[start + 1];
    assert forall j :: 0 <= j < |s0| ==> t[j] == s0[j] by {
      forall j | 0 <= j < |s0| ensures t[j] == s0[j] {
        assert s0[j] == pre[j] == body[j];
      }
    }
  }

  /** No entry before `i` has the name `name` once the search from `i` finds none. */
  lemma {:induction false} FunctionFromNone(fs: seq<(SrcRef, nat)>, name: SrcRef, i: nat, j: nat)
    requires i <= j < |fs| && FunctionFrom(fs, name, i).None?
    ensures !CoUtils.Equals(fs[j].0, name)
    decreases j - i
  {
    if i < j {
      FunctionFromNone(fs, name, i + 1, j);
    }
  }

  /** The search finds the first entry with the name. */
  lemma {:induction false} FunctionFromFirst(fs: seq<(SrcRef, nat)>, name: SrcRef, i: nat, j: nat)
    requires i <= j < |fs| && CoUtils.Equals(fs[j].0, name)
    requires forall k :: i <= k < j ==> !CoUtils.Equals(fs[k].0, name)
    ensures FunctionFrom(fs, name, i) == Some(j)
    decreases j - i
  {
    if i < j {
      FunctionFromFirst(fs, name, i + 1, j);
    }
  }

  /**
   * A function declaration, which only compiles outside any function and
   * for a name not yet declared: its `MAKE_FRAME` holds the number of
   * parameters and the number of locals the body added (modulo 2^32, as
   * the source's unsigned subtraction), the function is registered at that
   * frame, the locals are cleared, and from then on the name (when it
   * equals itself, that is, is a valid reference) resolves to the frame.
   */
  lemma FunDeclLayout(n: P.Ast, s: CState)
    requires n.FunDecl? && Shaped(n) && s.code == ROk && Gen(n, s).Done?
    ensures s.locals == [] && FuncAddr(s, n.sign.ref).None?
    ensures Gen(n.args, FrameOpened(s, n.sign.ref)).Done? && Gen(n.body, Gen(n.args, FrameOpened(s, n.sign.ref)).st).Done?
    ensures var s2 := Gen(n.args, FrameOpened(s, n.sign.ref)).st;
      var s3 := Gen(n.body, s2).st;
      var t := Gen(n, s).st;
      |s.instrs| < |t.instrs| && |s.functions| < |t.functions| &&
      t.instrs[|s.instrs|] == Inst(MakeFrame, |s2.locals|, Sub32(|s3.locals|, |s2.locals|)) &&
      t.functions[|s.functions|] == (n.sign.ref, |s.instrs|) &&
      t.locals == [] &&
      (CoUtils.Equals(n.sign.ref, n.sign.ref) ==> FuncAddr(t, n.sign.ref) == Some(|s.instrs|))
  {
    var name := n.sign.ref;
    var s1 := FrameOpened(s, name);
    var s2 := Gen(n.args, s1).st;
    var s3 := Gen(n.body, s2).st;
    GenGood(n.args, s1);
    GenGood(n.body, s2);
    GoodTrans(s1, s2, s3);
    var t := Gen(n, s).st;
    assert t.functions == s3.functions;
    assert t.functions[|s.functions|] == s3.functions[..|s1.functions|][|s.functions|];
    if CoUtils.Equals(name, name) {
      forall k | 0 <= k < |s.functions|
        ensures !CoUtils.Equals(t.functions[k].0, name)
      {
        assert t.functions[k] == s3.functions[..|s1.functions|][k];
        FunctionFromNone(s.functions, name, 0, k);
      }
      FunctionFromFirst(t.functions, name, 0, |s.functions|);
    }
  }

  /**
   * One arm of an if-chain: its `JUMP_IF_FALSE` (after the condition's
   * code) jumps past the arm's body and its exit jump, which is there
   * exactly when another arm or a non-empty else follows and is then
   * among the exits; with neither, the conditional jump goes to the end
   * of the code the chain emitted.
   */
  lemma ArmLayout(n: P.Ast, s: CState, exits: seq<nat>)
    requires n.IfChain? && Shaped(n) && GenArms(n, s, exits).ArmsDone?
    ensures var s1 := Gen(n.cond, s).st;
      var s3 := Gen(n.ifTrue, Emit(s1, Plain(JumpIfFalse))).st;
      var exit := n.next.IfChain? || ValidElse(n.next);
      var r := GenArms(n, s, exits);
      |s1.instrs| < |s3.instrs| + (if exit then 1 else 0) <= |r.st.instrs| &&
      r.st.instrs[|s1.instrs|] == Inst(JumpIfFalse, |s3.instrs| + (if exit then 1 else 0), 0) &&
      (exit ==> r.st.instrs[|s3.instrs|] == Plain(Jump) && |s3.instrs| in r.exits) &&
      (!exit ==> |s3.instrs| == |r.st.instrs|)
  {
    var s1 := Gen(n.cond, s).st;
    var s2 := Emit(s1, Plain(JumpIfFalse));
    var s3 := Gen(n.ifTrue, s2).st;
    GenGood(n.ifTrue, s2);
    var exit := n.next.IfChain? || ValidElse(n.next);
    var s4 := if exit then Emit(s3, Plain(Jump)) else s3;
    EmitGood(s3, Plain(Jump));
    var ex := if exit then exits + [|s3.instrs|] else exits;
    var s5 := Patch(s4, |s1.instrs|, |s4.instrs|);
    var r := GenArms(n, s, exits);
    assert s3.instrs[|s1.instrs|] == s3.instrs[..|s2.instrs|][|s1.instrs|];
    if n.next.IfChain? {
      ArmsGood(n.next, s5, ex);
      assert r.st.instrs[|s1.instrs|] == r.st.instrs[..|s5.instrs|][|s1.instrs|];
      assert r.st.instrs[|s3.instrs|] == r.st.instrs[..|s5.instrs|][|s3.instrs|];
      assert r.exits[|exits|] == ex[|exits|];
    } else if ValidElse(n.next) {
      GenGood(n.next, s5);
      assert r.st.instrs[|s1.instrs|] == r.st.instrs[..|s5.instrs|][|s1.instrs|];
      assert r.st.instrs[|s3.instrs|] == r.st.instrs[..|s5.instrs|][|s3.instrs|];
      assert r.exits[|exits|] == ex[|exits|];
    }
  }

  /**
   * A whole if-chain: every exit jump of its arms jumps to the end of the
   * chain's code, and every other instruction is as the arms left it.
   */
  lemma IfLayout(n: P.Ast, s: CState)
    requires n.IfChain? && Shaped(n) && s.code == ROk && Gen(n, s).Done?
    ensures GenArms(n, s, []).ArmsDone?
    ensures var r := GenArms(n, s, []);
      var t := Gen(n, s).st;
      |t.instrs| == |r.st.instrs| &&
      (forall k :: 0 <= k < |r.exits| ==> r.exits[k] < |t.instrs| && t.instrs[r.exits[k]] == Inst(Jump, |t.instrs|, 0)) &&
      (forall j :: 0 <= j < |t.instrs| && j !in r.exits ==> t.instrs[j] == r.st.instrs[j])
  {
    var r := GenArms(n, s, []);
    ArmsGood(n, s, []);
    ArmExitsAreJumps(n, s, []);
    var t := Gen(n, s).st;
    assert t == PatchAll(r.st, r.exits, |r.st.instrs|);
    forall j | 0 <= j < |t.instrs|
      ensures j in r.exits ==> t.instrs[j] == r.st.instrs[j].(a0 := |t.instrs|)
      ensures j !in r.exits ==> t.instrs[j] == r.st.instrs[j]
    {
      PatchAllMeaning(r.st, r.exits, |r.st.instrs|, j);
    }
    forall k | 0 <= k < |r.exits|
      ensures t.instrs[r.exits[k]] == Inst(Jump, |t.instrs|, 0)
    {
      assert r.exits[k] in r.exits;
    }
  }

  /**
   * An `if` with no other arm and no (non-empty) else: its conditional
   * jump targets the index just past the chain's last instruction. When
   * the chain ends the program that index is the instruction count.
   */
  lemma LoneIfJumpsToEnd(n: P.Ast, s: CState)
    requires n.IfChain? && Shaped(n) && s.code == ROk && Gen(n, s).Done?
    requires !n.next.IfChain? && !ValidElse(n.next)
    ensures Gen(n.cond, s).Done?
    ensures var t := Gen(n, s).st;
      |Gen(n.cond, s).st.instrs| < |t.instrs| &&
      t.instrs[|Gen(n.cond, s).st.instrs|] == Inst(JumpIfFalse, |t.instrs|, 0)
  {
    IfLayout(n, s);
    ArmLayout(n, s, []);
    var r := GenArms(n, s, []);
    assert r.exits == [];
  }

  // ------------------------------------------------ addresses and bytes

  /** An address depends only on the instructions before it. */
  lemma {:induction false} AddrPrefix(instrs: seq<Inst>, j: nat, i: nat)
    requires i <= j <= |instrs|
    ensures Addr(instrs[..j], i) == Addr(instrs, i)
  {
    if i > 0 {
      AddrPrefix(instrs, j, i - 1);
    }
  }

  /** Addresses depend only on the opcodes, not on the operands. */
  lemma {:induction false} AddrSameOps(a: seq<Inst>, b: seq<Inst>, i: nat)
    requires |a| == |b| && i <= |a|
    requires forall k :: 0 <= k < |a| ==> a[k].op == b[k].op
    ensures Addr(a, i) == Addr(b, i)
  {
    if i > 0 {
      AddrSameOps(a, b, i - 1);
    }
  }

  /** The bytes of the first `j` strings begin the bytes of all of them. */
  lemma {:induction false} FlattenPrefix(cs: seq<seq<bv8>>, j: nat)
    requires j <= |cs|
    ensures |Flatten(cs[..j])| <= |Flatten(cs)| && Flatten(cs)[..|Flatten(cs[..j])|] == Flatten(cs[..j])
    decreases |cs| - j
  {
    if j < |cs| {
      var m := |cs| - 1;
      assert cs[..m][..j] == cs[..j];
      FlattenPrefix(cs[..m], j);
      var b := Flatten(cs);
      var c := Flatten(cs[..m]);
      assert b == c + cs[m];
      assert b[..|c|] == c;
      assert b[..|Flatten(cs[..j])|] == b[..|c|][..|Flatten(cs[..j])|];
    } else {
      assert cs[..j] == cs;
    }
  }

  /** String `i` stands right after the strings before it. */
  lemma FlattenAt(cs: seq<seq<bv8>>, i: nat)
    requires i < |cs|
    ensures var a := |Flatten(cs[..i])|;
      a + |cs[i]| <= |Flatten(cs)| && Flatten(cs)[a .. a + |cs[i]|] == cs[i]
  {
    var p := cs[..i + 1];
    assert p[..i] == cs[..i];
    var c := Flatten(p);
    assert c == Flatten(cs[..i]) + cs[i];
    FlattenPrefix(cs, i + 1);
    var b := Flatten(cs);
    var a := |Flatten(cs[..i])|;
    assert b[..|c|] == c;
    assert b[a .. a + |cs[i]|] == c[a ..];
  }

  /** The address of instruction `i` is the length of the bytes written before it. */
  lemma {:induction false} AddrIsOffset(instrs: seq<Inst>, i: nat)
    requires i <= |instrs|
    ensures Addr(instrs, i) == |Flatten(Chunks(instrs)[..i])|
  {
    if i > 0 {
      AddrIsOffset(instrs, i - 1);
      var cs := Chunks(instrs)[..i];
      assert cs[..i - 1] == Chunks(instrs)[..i - 1];
      assert Flatten(cs) == Flatten(cs[..i - 1]) + cs[i - 1];
      assert |cs[i - 1]| == Width(instrs[i - 1]);
    }
  }

  /** The program is as long as the address just past its last instruction. */
  lemma BytesLength(instrs: seq<Inst>)
    ensures |Bytes(instrs)| == Addr(instrs, |instrs|)
  {
    AddrIsOffset(instrs, |instrs|);
    assert Chunks(instrs)[..|instrs|] == Chunks(instrs);
  }

  /** Instruction `i` is written at its address. */
  lemma BytesAt(instrs: seq<Inst>, i: nat)
    requires i < |instrs|
    ensures Placed(Bytes(instrs), Addr(instrs, i), instrs[i])
  {
    var cs := Chunks(instrs);
    FlattenAt(cs, i);
    AddrIsOffset(instrs, i);
    PlacedChunk(cs, Addr(instrs, i), instrs[i], i);
  }

  /** A chunk that holds the bytes of `ins`, found at `a` in the flattened chunks, places `ins` there. */
  lemma PlacedChunk(cs: seq<seq<bv8>>, a: nat, ins: Inst, i: nat)
    requires i < |cs| && cs[i] == InstBytes(ins)
    requires a + |cs[i]| <= |Flatten(cs)| && Flatten(cs)[a .. a + |cs[i]|] == cs[i]
    ensures Placed(Flatten(cs), a, ins)
  {
  }

  /** Four bytes written as a little-endian word read back as that word. */
  lemma ReadWord(b: seq<bv8>, at: nat, x: bv32)
    requires at + 4 <= |b| && b[at .. at + 4] == ShUtils.U32Bytes(x)
    ensures ShUtils.ReadU32(b, at) == x
  {
    assert b == b[..at] + ShUtils.U32Bytes(x) + b[at + 4..];
    ShUtils.ReadU32RoundTrip(b[..at], x, b[at + 4..]);
  }

  /** The parts of one instruction's bytes. */
  lemma InstBytesParts(ins: Inst)
    ensures var ib := InstBytes(ins);
      ib[0] == Code(ins.op) &&
      (ArgCount(ins.op) >= 1 ==> ib[1..5] == ShUtils.U32Bytes(U32(ins.a0))) &&
      (ArgCount(ins.op) == 2 ==> ib[5..9] == ShUtils.U32Bytes(U32(ins.a1)))
  {
  }

  /** The bytes of `ins` stand at `a` in `b`. */
  predicate Placed(b: seq<bv8>, a: nat, ins: Inst) {
    a + Width(ins) <= |b| && b[a .. a + Width(ins)] == InstBytes(ins)
  }

  /** What a reader finds at `a` in `b`: the opcode of `ins`, then its operands as little-endian words. */
  predicate Decoded(b: seq<bv8>, a: nat, ins: Inst) {
    a + Width(ins) <= |b| && b[a] == Code(ins.op) &&
    (ArgCount(ins.op) >= 1 ==> ShUtils.ReadU32(b, a + 1) == U32(ins.a0)) &&
    (ArgCount(ins.op) == 2 ==> ShUtils.ReadU32(b, a + 5) == U32(ins.a1))
  }

  /** An instruction's bytes inside a byte string, read back. */
  lemma DecodeAt(b: seq<bv8>, a: nat, ins: Inst)
    requires Placed(b, a, ins)
    ensures Decoded(b, a, ins)
  {
    var ib := InstBytes(ins);
    InstBytesParts(ins);
    var c := b[a .. a + Width(ins)];
    assert b[a] == c[0] == ib[0];
    if ArgCount(ins.op) >= 1 {
      assert forall k :: 0 <= k < 4 ==> b[a + 1 .. a + 5][k] == b[a + 1 + k] == c[1 + k] == c[1..5][k];
      assert b[a + 1 .. a + 5] == c[1..5];
      ReadWord(b, a + 1, U32(ins.a0));
    }
    if ArgCount(ins.op) == 2 {
      assert forall k :: 0 <= k < 4 ==> b[a + 5 .. a + 9][k] == b[a + 5 + k] == c[5 + k] == c[5..9][k];
      assert b[a + 5 .. a + 9] == c[5..9];
      ReadWord(b, a + 5, U32(ins.a1));
    }
  }

  /**
   * Reading the program back: at the address of instruction `i` stands its
   * opcode, followed by its operands as little-endian 32-bit words.
   */
  lemma {:induction false} Decode(instrs: seq<Inst>, i: nat)
    requires i < |instrs|
    ensures Decoded(Bytes(instrs), Addr(instrs, i), instrs[i])
  {
    BytesAt(instrs, i);
    DecodeAt(Bytes(instrs), Addr(instrs, i), instrs[i]);
  }

  // ------------------------------------------------------------- retargeting

  /** Instruction `i` with a targeted operand replaced by the address it indexes. */
  function Retargeted(instrs: seq<Inst>, i: nat): (r: Inst)
    requires i < |instrs| && InRange(instrs, i, Corrected)
    ensures r.op == instrs[i].op && r.a1 == instrs[i].a1
  {
    if IsTargeted(instrs[i].op) then instrs[i].(a0 := Addr(instrs, instrs[i].a0)) else instrs[i]
  }

  /** The operand of instruction `i` is one the reading's retargeting accepts. */
  predicate InRange(instrs: seq<Inst>, i: nat, reading: Reading)
    requires i < |instrs|
  {
    !IsTargeted(instrs[i].op) || instrs[i].a0 < |instrs| || (reading == Corrected && instrs[i].a0 == |instrs|)
  }

  /** Retargeting succeeds exactly when every targeted operand is in range; it fails only out of bounds. */
  lemma {:induction false} RetargetOk(instrs: seq<Inst>, i: nat, reading: Reading)
    requires i <= |instrs|
    ensures var r := RetargetFrom(instrs, i, reading);
      (r.Ok? <==> forall j :: i <= j < |instrs| ==> InRange(instrs, j, reading)) &&
      (r.Err? ==> r.error == OutOfBounds)
    decreases |instrs| - i
  {
    if i < |instrs| {
      RetargetOk(instrs, i + 1, reading);
      if !InRange(instrs, i, reading) {
        assert Retarget(instrs, i, reading).Err?;
      }
    }
  }

  /**
   * A successful retargeting replaces each targeted operand by the address
   * of the instruction it indexes and leaves everything else (opcodes,
   * second operands, untargeted instructions) alone.
   */
  lemma {:induction false} RetargetValues(instrs: seq<Inst>, i: nat, reading: Reading)
    requires i <= |instrs| && RetargetFrom(instrs, i, reading).Ok?
    ensures var out := RetargetFrom(instrs, i, reading).value;
      forall j :: i <= j < |instrs| ==>
        InRange(instrs, j, reading) && InRange(instrs, j, Corrected) && out[j - i] == Retargeted(instrs, j)
    decreases |instrs| - i
  {
    RetargetOk(instrs, i, reading);
    if i < |instrs| {
      RetargetValues(instrs, i + 1, reading);
    }
  }

  /** One operand out of range makes the whole retargeting fail. */
  lemma RetargetFails(instrs: seq<Inst>, i: nat, reading: Reading)
    requires i < |instrs| && !InRange(instrs, i, reading)
    ensures RetargetFrom(instrs, 0, reading) == Err(OutOfBounds)
  {
    RetargetOk(instrs, 0, reading);
  }

  /** Instructions that are each the retargeted form of the original are the result of retargeting. */
  lemma RetargetAll(instrs: seq<Inst>, out: seq<Inst>, reading: Reading)
    requires |out| == |instrs|
    requires forall j :: 0 <= j < |instrs| ==> InRange(instrs, j, reading) && InRange(instrs, j, Corrected)
    requires forall j :: 0 <= j < |instrs| ==> out[j] == Retargeted(instrs, j)
    ensures RetargetFrom(instrs, 0, reading) == Ok(out)
  {
    RetargetOk(instrs, 0, reading);
    RetargetValues(instrs, 0, reading);
    var v := RetargetFrom(instrs, 0, reading).value;
    forall j | 0 <= j < |instrs|
      ensures v[j] == out[j]
    {
      assert v[j - 0] == Retargeted(instrs, j);
    }
    assert v == out;
  }

  /** Compiling from the tree to the patched instructions, before retargeting. */
  function Patched(node: P.Ast, status: CresCode): (r: Option<seq<Inst>>)
    requires Shaped(node)
  {
    var s0 := Emit(CState([], [], [], [], status), Plain(EntryPoint));
    match Gen(node, s0)
    case Crashed(_) => None
    case Done(t) =>
      if t.code != ROk then None
      else match FuncAddr(t, MainRef)
        case None => None
        case Some(k) => Some(Patch(t, 0, k).instrs)
  }

  /**
   * Whatever the tree, the instructions the generator leaves behind (with
   * the entry point patched) keep every targeted operand at most the
   * instruction count, instruction 0 is `ENTRY_POINT`, and it indexes the
   * `MAKE_FRAME` of `main`.
   */
  lemma PatchedShape(node: P.Ast, status: CresCode)
    requires Shaped(node) && Patched(node, status).Some?
    ensures var instrs := Patched(node, status).value;
      0 < |instrs| && instrs[0].op == EntryPoint && instrs[0].a0 < |instrs| && instrs[instrs[0].a0].op == MakeFrame &&
      forall j :: 0 <= j < |instrs| ==> InRange(instrs, j, Corrected)
  {
    var s0 := Emit(CState([], [], [], [], status), Plain(EntryPoint));
    GenGood(node, s0);
    var g := Gen(node, s0);
    assert g.Done? && g.st.code == ROk;
    var t := g.st;
    var k := FuncAddr(t, MainRef).value;
    var u := Patch(t, 0, k);
    assert Patched(node, status).value == u.instrs;
    assert Inv(s0);
    assert Inv(t);
    FuncAddrFrame(t, MainRef);
    assert t.instrs[0] == t.instrs[..1][0];
    forall j | 0 <= j < |u.instrs|
      ensures InRange(u.instrs, j, Corrected)
    {
      if j > 0 {
        assert u.instrs[j] == t.instrs[j];
      }
    }
  }

  /**
   * Corrected, compiling never fails while retargeting: the only
   * failures are the generator's own.
   */
  lemma CorrectedNeverOutOfBounds(node: P.Ast, status: CresCode)
    requires Shaped(node)
    ensures Compile(node, status, Corrected).Err? ==>
      Gen(node, Emit(CState([], [], [], [], status), Plain(EntryPoint))).Crashed?
  {
    if Patched(node, status).Some? {
      PatchedShape(node, status);
      RetargetOk(Patched(node, status).value, 0, Corrected);
    }
  }

  /**
   * As written, a program some jump of which indexes the instruction just
   * past the last one (a lone `if` or a loop ending the code does) is
   * refused with an out-of-bounds read, where the corrected reading
   * compiles it.
   */
  lemma EndJumpAsWritten(node: P.Ast, status: CresCode, j: nat)
    requires Shaped(node) && Patched(node, status).Some?
    requires var instrs := Patched(node, status).value;
      j < |instrs| && IsTargeted(instrs[j].op) && instrs[j].a0 == |instrs|
    ensures Compile(node, status, AsWritten) == Err(OutOfBounds)
    ensures Compile(node, status, Corrected).Ok?
  {
    var instrs := Patched(node, status).value;
    PatchedShape(node, status);
    RetargetOk(instrs, 0, AsWritten);
    assert !InRange(instrs, j, AsWritten);
    RetargetOk(instrs, 0, Corrected);
  }

  /**
   * The written program: it starts with `ENTRY_POINT`, whose operand is
   * the address of the `MAKE_FRAME` of `main`; every targeted operand is
   * the address of the instruction it indexed; the constants are the
   * generator's.
   */
  lemma CompiledProgram(node: P.Ast, status: CresCode, reading: Reading)
    requires Shaped(node) && Patched(node, status).Some?
    requires Compile(node, status, reading).Ok?
    ensures var instrs := Patched(node, status).value;
      var p := Compile(node, status, reading).value.0;
      var k := instrs[0].a0;
      k < |instrs| && 5 <= |p.code| && p.code[0] == Code(EntryPoint) &&
      ShUtils.ReadU32(p.code, 1) == U32(Addr(instrs, k)) &&
      Addr(instrs, k) < |p.code| && p.code[Addr(instrs, k)] == Code(MakeFrame) &&
      Compile(node, status, reading).value.1 == ROk
  {
    PatchedShape(node, status);
    CompileViaPatched(node, status, reading);
    EntryAddress(Patched(node, status).value, reading);
  }

  /** `Compile` writes the retargeted form of `Patched`. */
  lemma CompileViaPatched(node: P.Ast, status: CresCode, reading: Reading)
    requires Shaped(node) && Patched(node, status).Some?
    ensures var r := RetargetFrom(Patched(node, status).value, 0, reading);
      var c := Compile(node, status, reading);
      (c.Ok? <==> r.Ok?) &&
      (c.Ok? ==> c.value.0.code == Bytes(r.value) && c.value.1 == ROk)
  {
  }

  /** The bytes of a retargeted program whose entry point indexes a frame. */
  lemma EntryAddress(instrs: seq<Inst>, reading: Reading)
    requires 0 < |instrs| && instrs[0].op == EntryPoint && instrs[0].a0 < |instrs| && instrs[instrs[0].a0].op == MakeFrame
    requires RetargetFrom(instrs, 0, reading).Ok?
    ensures var b := Bytes(RetargetFrom(instrs, 0, reading).value);
      var k := instrs[0].a0;
      5 <= |b| && b[0] == Code(EntryPoint) &&
      ShUtils.ReadU32(b, 1) == U32(Addr(instrs, k)) &&
      Addr(instrs, k) < |b| && b[Addr(instrs, k)] == Code(MakeFrame)
  {
    RetargetOps(instrs, reading);
    var code := RetargetFrom(instrs, 0, reading).value;
    var k := instrs[0].a0;
    AddrSameOps(code, instrs, k);
    EntryBytes(code, k);
  }

  /** Retargeting keeps the opcodes and retargets the entry point. */
  lemma RetargetOps(instrs: seq<Inst>, reading: Reading)
    requires 0 < |instrs| && instrs[0].op == EntryPoint && instrs[0].a0 < |instrs|
    requires RetargetFrom(instrs, 0, reading).Ok?
    ensures var code := RetargetFrom(instrs, 0, reading).value;
      |code| == |instrs| && (forall j :: 0 <= j < |instrs| ==> code[j].op == instrs[j].op) &&
      code[0].a0 == Addr(instrs, instrs[0].a0)
  {
    RetargetValues(instrs, 0, reading);
    var code := RetargetFrom(instrs, 0, reading).value;
    forall j | 0 <= j < |instrs|
      ensures code[j].op == instrs[j].op
    {
      assert code[j - 0] == Retargeted(instrs, j);
    }
    assert code[0 - 0] == Retargeted(instrs, 0);
  }

  lemma EntryBytes(code: seq<Inst>, k: nat)
    requires 0 < |code| && code[0].op == EntryPoint && k < |code| && code[k].op == MakeFrame
    ensures var b := Bytes(code);
      5 <= |b| && b[0] == Code(EntryPoint) &&
      ShUtils.ReadU32(b, 1) == U32(code[0].a0) &&
      Addr(code, k) < |b| && b[Addr(code, k)] == Code(MakeFrame)
  {
    Decode(code, 0);
    Decode(code, k);
  }

  /**
   * The instructions of `fn main() { if true {} }` before retargeting:
   * the conditional jump indexes 4, the instruction count.
   */
  const LoneIfMain: seq<Inst> := [Inst(EntryPoint, 1, 0), Inst(MakeFrame, 0, 0), Inst(PushValue, 0, 0), Inst(JumpIfFalse, 4, 0)]

  /** As written they are refused; corrected, the jump targets the end of the code, byte 24. */
  lemma LoneIfMainRetarget()
    ensures RetargetFrom(LoneIfMain, 0, AsWritten) == Err(OutOfBounds)
    ensures RetargetFrom(LoneIfMain, 0, Corrected).Ok?
    ensures RetargetFrom(LoneIfMain, 0, Corrected).value[3] == Inst(JumpIfFalse, 24, 0)
  {
    RetargetOk(LoneIfMain, 0, AsWritten);
    assert !InRange(LoneIfMain, 3, AsWritten);
    RetargetOk(LoneIfMain, 0, Corrected);
    RetargetValues(LoneIfMain, 0, Corrected);
    assert Addr(LoneIfMain, 1) == 5 && Addr(LoneIfMain, 2) == 14 && Addr(LoneIfMain, 3) == 19 && Addr(LoneIfMain, 4) == 24;
  }
}
