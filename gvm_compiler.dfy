/**
 * The compiler of the grid machine (`gvm/gvm_compiler.c`): a walk over the
 * syntax tree of `gvm/gvm_ast.h` that appends intermediate instructions to
 * a list and back-patches the operands of frames and jumps, two
 * open-addressing maps from source references to instruction or local
 * indices, the translation of instruction indices into byte addresses, and
 * the little-endian byte code.
 *
 * The generator is given as functions over a compiler state `CState`; the
 * classes of `GvmCompilerImpl` then do the same work in place.
 *
 * The maps (`src2idxmap_t`) are modelled slot by slot: an in-use flag, a
 * key and a value per slot, probed linearly from the key's hash. When a map
 * grows, `s2sim_ensure_capacity` reallocates the key and value blocks with
 * `sizeof(bool)` per slot, so they hold fewer entries than the map has
 * slots, and it does not move the entries to the slots the new capacity
 * hashes them to. The newly added in-use flags, which `realloc` leaves
 * unset, are taken as clear.
 *
 * `codegen_funcall` asserts that the function is NOT found and then reads
 * through the pointer it got, so every call aborts. `recalc_index_to_bytecode_adress`
 * reads a jump target's address from a table with one entry per
 * instruction, so a jump to the end of the code reads past it.
 *
 * `reading` selects these texts (`AsWritten`) or the evident intent
 * (`Corrected`): blocks with one entry per slot and the entries rehashed,
 * the assertion that the function IS found, and a table with the end
 * address after the last instruction's.
 *
 * The constant helpers `valbuffer_add_bool`, `valbuffer_add_number` and
 * `valbuffer_add_string` are not defined in this revision; a constant is
 * appended and its index answered. Numbers are modelled by an integer
 * standing for the float.
 */
module GvmCompiler {
  import opened Wrappers
  import ShUtils
  import S = GvmSrcmap
  import A = GvmAsmUtils
  import CC = CoCompiler

  // ------------------------------------------------------------ instructions

  /** `ir_inst_t`: an opcode and two operands. */
  datatype IrInst = IrInst(opcode: int, a0: nat, a1: nat)

  /** An instruction with its operands zeroed. */
  function Plain(op: int): IrInst {
    IrInst(op, 0, 0)
  }

  /** `OP_ENTRY_POINT`: the slot of the opcode table that `gvm_asmutils.c` names `INIT`. */
  const OpEntryPoint: int := A.OpInit

  /** `get_op_arg_count` of `gvm/gvm_asminfo.h`: two operands for `MAKE_FRAME`, one for the listed opcodes, none otherwise. */
  function OpArgCount(op: int): (k: nat)
    ensures k <= 2
  {
    if op == A.OpMakeFrame then 2
    else if op == A.OpPushValue || op == A.OpJump || op == A.OpJumpIfFalse || op == A.OpExit ||
      op == A.OpCall || op == OpEntryPoint || op == A.OpStoreLocal || op == A.OpLoadLocal ||
      op == A.OpIterNext || op == A.OpCallNative then 1
    else 0
  }

  /** The bytes an instruction takes: the opcode, and four per operand. */
  function Width(i: IrInst): nat {
    1 + 4 * OpArgCount(i.opcode)
  }

  /** The opcodes whose first operand `recalc_index_to_bytecode_adress` rewrites. */
  predicate IsTargeted(op: int) {
    op == A.OpCall || op == OpEntryPoint || op == A.OpIterNext || op == A.OpJump || op == A.OpJumpIfFalse
  }

  /** `ir_index_tag_t`. */
  datatype IrIndexTag = IridInvalid | IridVar | IridIns

  /** `ir_index_t`. */
  datatype IrIndex = IrIndex(tag: IrIndexTag, idx: nat)

  const NoIndex: IrIndex := IrIndex(IridInvalid, 0)

  // ------------------------------------------------------ source-to-index map

  /** `sizeof(srcref_t)` and `sizeof(ir_index_t)` on a 64-bit target. */
  const KeyBytes: nat := 24
  const ValueBytes: nat := 8

  /**
   * `src2idxmap_t`: the tag its values must carry, the number of keys
   * added, and per slot the in-use flag; `keys` and `values` are the
   * entries the key and value blocks hold. The capacity is the number of
   * flags.
   */
  datatype S2im = S2im(tag: IrIndexTag, count: nat, used: seq<bool>, keys: seq<S.Srcref>, values: seq<IrIndex>)

  /** The key and value blocks hold an entry for every slot. */
  predicate WellSized(m: S2im) {
    |m.keys| == |m.used| && |m.values| == |m.used|
  }

  /** `s2sim_init` (allocation failure is not modelled): `capacity` slots, none in use. */
  function Init(tag: IrIndexTag, capacity: nat): (m: S2im)
    ensures WellSized(m) && |m.used| == capacity && m.count == 0 && m.tag == tag
  {
    S2im(tag, 0, seq(capacity, _ => false), seq(capacity, _ => S.NoRef), seq(capacity, _ => NoIndex))
  }

  /** The growth test of `s2sim_ensure_capacity`: a quarter of headroom over the required count. */
  predicate MustGrow(capacity: nat, required: nat) {
    capacity <= required + required / 4
  }

  /** `realloc` of a block to `n` entries: the first entries kept, the rest `fill`. */
  function Resized<T>(s: seq<T>, n: nat, fill: T): (r: seq<T>)
    ensures |r| == n
    ensures forall k :: 0 <= k < n && k < |s| ==> r[k] == s[k]
  {
    if n <= |s| then s[..n] else s + seq(n - |s|, _ => fill)
  }

  /** The slot step `j` of a probe from `start` visits. */
  function SlotAt(m: S2im, start: nat, j: nat): (t: nat)
    requires |m.used| > 0
    ensures t < |m.used|
  {
    S.SlotIndex(|m.used|, start, j)
  }

  /** Where the probe loop of `s2im_insert` stops. */
  datatype Probed = Free(slot: nat) | Duplicate(slot: nat) | Full | Outside

  /**
   * The probe loop of `s2im_insert` from step `i`: the first slot not in
   * use, unless a slot holding an equal key comes first; a slot whose key or
   * value lies past its block is `Outside`.
   */
  function InsertProbe(m: S2im, key: S.Srcref, start: nat, i: nat): (r: Probed)
    requires |m.used| > 0
    ensures r.Free? ==> r.slot < |m.used| && r.slot < |m.keys| && r.slot < |m.values| && !m.used[r.slot]
    ensures r.Duplicate? ==> r.slot < |m.used| && r.slot < |m.keys| && m.used[r.slot] && S.SrcrefEquals(m.keys[r.slot], key)
    decreases |m.used| - i
  {
    if i >= |m.used| then Full
    else
      var t := SlotAt(m, start, i);
      if !m.used[t] then (if t < |m.keys| && t < |m.values| then Free(t) else Outside)
      else if t >= |m.keys| then Outside
      else if S.SrcrefEquals(m.keys[t], key) then Duplicate(t)
      else InsertProbe(m, key, start, i + 1)
  }

  /** A slot filled: in use, with the key and the value, and one more key counted. */
  function Fill(m: S2im, t: nat, key: S.Srcref, val: IrIndex): S2im
    requires t < |m.used| && t < |m.keys| && t < |m.values|
  {
    m.(used := m.used[t := true], keys := m.keys[t := key], values := m.values[t := val], count := m.count + 1)
  }

  /** Each in-use slot of `m` from `i` on placed into `into`, in slot order. */
  function RehashFrom(m: S2im, into: S2im, i: nat): (r: S2im)
    requires WellSized(m) && WellSized(into) && |into.used| > 0
    ensures WellSized(r) && |r.used| == |into.used| && r.tag == into.tag
    decreases |m.used| - i
  {
    if i >= |m.used| then into
    else if !m.used[i] then RehashFrom(m, into, i + 1)
    else match InsertProbe(into, m.keys[i], S.HashOf(m.keys[i]) % |into.used|, 0)
      case Free(t) => RehashFrom(m, Fill(into, t, m.keys[i], m.values[i]), i + 1)
      case _ => RehashFrom(m, into, i + 1)
  }

  /**
   * `s2sim_ensure_capacity`: once the capacity leaves less than a quarter
   * of headroom over `count + additional`, the map gets twice that many
   * slots. As written the key and value blocks are reallocated to that many
   * bytes and the entries stay in their slots; corrected, every block has
   * an entry per slot and the entries are placed again from their hashes.
   * The count is kept. The slots a reallocation adds are modelled as free
   * (`false` in use, no key, no value): C's `realloc` leaves those bytes
   * indeterminate and the source does not clear them, so a lookup that
   * reaches them reads whatever the allocator left there.
   */
  function Grow(m: S2im, additional: nat, reading: Reading): (r: S2im)
    ensures r.tag == m.tag && r.count == m.count
    ensures m.count + additional > 0 ==> |r.used| > 0
    ensures !MustGrow(|m.used|, m.count + additional) ==> r == m
    ensures MustGrow(|m.used|, m.count + additional) ==> |r.used| == 2 * (m.count + additional)
    ensures reading == Corrected && WellSized(m) ==> WellSized(r)
  {
    var required := m.count + additional;
    if !MustGrow(|m.used|, required) then m
    else
      var n := required * 2;
      match reading
      case AsWritten =>
        m.(used := Resized(m.used, n, false), keys := Resized(m.keys, n / KeyBytes, S.NoRef),
           values := Resized(m.values, n / ValueBytes, NoIndex))
      case Corrected =>
        if WellSized(m) && n > 0 then RehashFrom(m, Init(m.tag, n), 0).(count := m.count)
        else m.(used := Resized(m.used, n, false), keys := Resized(m.keys, n, S.NoRef), values := Resized(m.values, n, NoIndex))
  }

  /** The slot a key's probe starts from: its hash modulo the capacity. */
  function Start(m: S2im, key: S.Srcref): nat
    requires |m.used| > 0
  {
    S.HashOf(key) % |m.used|
  }

  /**
   * `s2im_insert`: the value's tag must be the map's (asserted); room is
   * made; then the key goes to the first slot of its probe not in use, and
   * the answer is true, unless an equal key is met first or every slot is
   * in use, which answer false and change nothing else. A slot outside its
   * block is a write out of bounds.
   */
  function Insert(m: S2im, key: S.Srcref, val: IrIndex, reading: Reading): (r: Result<(S2im, bool), Abort>)
    ensures val.tag != m.tag <==> r == Err(AssertFailed("table tag and value mismatch"))
    ensures r.Ok? ==> r.value.0.tag == m.tag && |r.value.0.used| == |Grow(m, 1, reading).used|
    ensures r.Ok? && r.value.1 ==> r.value.0.count == m.count + 1
    ensures r.Ok? && !r.value.1 ==> r.value.0 == Grow(m, 1, reading)
    ensures r.Err? && val.tag == m.tag ==> r.error == OutOfBounds
  {
    if val.tag != m.tag then Err(AssertFailed("table tag and value mismatch"))
    else
      var g := Grow(m, 1, reading);
      match InsertProbe(g, key, Start(g, key), 0)
      case Free(t) => Ok((Fill(g, t, key, val), true))
      case Duplicate(_) => Ok((g, false))
      case Full => Ok((g, false))
      case Outside => Err(OutOfBounds)
  }

  /**
   * The loop of `s2im_lookup` from step `i`: the value of the first slot
   * holding an equal key, or none at the first slot not in use.
   */
  function LookupProbe(m: S2im, key: S.Srcref, start: nat, i: nat): (r: Result<Option<IrIndex>, Abort>)
    requires |m.used| > 0
    ensures r.Err? ==> r.error == OutOfBounds
    decreases |m.used| - i
  {
    if i >= |m.used| then Ok(None)
    else
      var t := SlotAt(m, start, i);
      if !m.used[t] then Ok(None)
      else if t >= |m.keys| then Err(OutOfBounds)
      else if S.SrcrefEquals(m.keys[t], key) then (if t < |m.values| then Ok(Some(m.values[t])) else Err(OutOfBounds))
      else LookupProbe(m, key, start, i + 1)
  }

  /** `s2im_lookup`: the probe from the key's hash; a map without slots divides by zero. */
  function Lookup(m: S2im, key: S.Srcref): (r: Result<Option<IrIndex>, Abort>)
    ensures |m.used| == 0 <==> r == Err(DivisionByZero)
  {
    if |m.used| == 0 then Err(DivisionByZero) else LookupProbe(m, key, Start(m, key), 0)
  }

  /** `s2im_clear`: no slot in use and the count zero; the tag, the keys and the values are kept. */
  function Clear(m: S2im): (r: S2im)
    ensures r.tag == m.tag && r.count == 0 && |r.used| == |m.used| && r.keys == m.keys && r.values == m.values
    ensures forall k :: 0 <= k < |r.used| ==> !r.used[k]
  {
    m.(used := seq(|m.used|, _ => false), count := 0)
  }

  /** `s2im_hash`, the hash of `srcmap_hash`. */
  function Hash(key: S.Srcref): nat {
    S.HashOf(key)
  }

  // ------------------------------------------------------------ syntax tree

  /** `ast_value_t` of `gvm/gvm_ast.h`; a number by an integer standing for its float. */
  datatype GValue = NoValue | Number(n: int) | BoolValue(b: bool) | StringValue(ref: S.Srcref)

  /** `ast_binop_type_t`. */
  datatype BinopType = Add | Sub | Mul | Div | And | Or | Xor | Eq | LtEq | GtEq | Lt | Gt

  /** `ast_unop_type_t`. */
  datatype UnopType = Not | Neg

  /** `ast_node_t` of `gvm/gvm_ast.h`. */
  datatype Node =
    | Value(value: GValue)
    | ArrayNode(items: seq<Node>)
    | If(cond: Node, ifTrue: Node)
    | IfElse(cond: Node, ifTrue: Node, ifFalse: Node)
    | Foreach(decl: Node, collection: Node, during: Node)
    | BinopNode(op: BinopType, left: Node, right: Node)
    | UnopNode(uop: UnopType, inner: Node)
    | Assign(leftVar: Node, rightValue: Node)
    | VarDecl(name: S.Srcref)
    | VarRef(name: S.Srcref)
    | FunDecl(fname: S.Srcref, args: Node, body: Node)
    | FunCall(cname: S.Srcref, callArgs: Node)
    | Return(result: Node)
    | Break
    | Block(stmts: seq<Node>)

  /** The shape the generator reads without checking: a loop's variable is a declaration. */
  predicate Shaped(n: Node) {
    match n
    case ArrayNode(items) => forall k :: 0 <= k < |items| ==> Shaped(items[k])
    case Block(stmts) => forall k :: 0 <= k < |stmts| ==> Shaped(stmts[k])
    case If(c, t) => Shaped(c) && Shaped(t)
    case IfElse(c, t, e) => Shaped(c) && Shaped(t) && Shaped(e)
    case Foreach(d, c, b) => d.VarDecl? && Shaped(c) && Shaped(b)
    case BinopNode(_, l, r) => Shaped(l) && Shaped(r)
    case UnopNode(_, i) => Shaped(i)
    case Assign(l, r) => Shaped(l) && Shaped(r)
    case FunDecl(_, a, b) => Shaped(a) && Shaped(b)
    case FunCall(_, a) => Shaped(a)
    case Return(v) => Shaped(v)
    case _ => true
  }

  /** The children of a block or an array. */
  function Items(n: Node): seq<Node>
    requires n.Block? || n.ArrayNode?
  {
    if n.Block? then n.stmts else n.items
  }

  // --------------------------------------------------------- compiler state

  /** A constant of the program. */
  datatype GConst = NumberConst(n: int) | BoolConst(b: bool) | StringConst(text: seq<char>)

  /** `compiler_state_t`: the locals and functions maps, the instructions and the constants. */
  datatype CState = CState(instrs: seq<IrInst>, locals: S2im, functions: S2im, consts: seq<GConst>)

  /** How a generator step ends: with a state, or in an abort. */
  datatype Outcome = Done(st: CState) | Crashed(abort: Abort) {
    predicate IsFailure() { Crashed? }

    function PropagateFailure(): Outcome
      requires Crashed?
    {
      Crashed(abort)
    }

    function Extract(): CState
      requires Done?
    {
      st
    }
  }

  /** `irl_add`: the instruction appended; its index is the old count. */
  function Emit(s: CState, i: IrInst): CState {
    s.(instrs := s.instrs + [i])
  }

  /** `irl_get(...)->args[0] = v`. */
  function Patch(s: CState, at: nat, v: nat): CState
    requires at < |s.instrs|
  {
    s.(instrs := s.instrs[at := s.instrs[at].(a0 := v)])
  }

  /** A constant appended; its index is the old size. */
  function AddConst(s: CState, c: GConst): (nat, CState) {
    (|s.consts|, s.(consts := s.consts + [c]))
  }

  /** A lookup whose miss is asserted against. */
  function Require(r: Result<Option<IrIndex>, Abort>, msg: string): (v: Result<IrIndex, Abort>)
    ensures v.Ok? <==> r.Ok? && r.value.Some?
    ensures v.Ok? ==> r == Ok(Some(v.value))
  {
    match r
    case Err(a) => Err(a)
    case Ok(None) => Err(AssertFailed(msg))
    case Ok(Some(x)) => Ok(x)
  }

  /** The opcode `codegen_binop` emits; the other operations only print a message. */
  function BinopCode(op: BinopType): Option<int> {
    match op
    case Add => Some(A.OpAdd)
    case Sub => Some(A.OpSub)
    case Mul => Some(A.OpMul)
    case And => Some(A.OpAnd)
    case Or => Some(A.OpOr)
    case Eq => Some(A.OpCmpEqual)
    case Lt => Some(A.OpCmpLessThan)
    case Gt => Some(A.OpCmpMoreThan)
    case _ => None
  }

  // ------------------------------------------------------------- generation

  /** `codegen`: the rule of the node's kind. */
  function Gen(n: Node, s: CState, reading: Reading): (r: Outcome)
    requires Shaped(n)
    ensures r.Done? ==> |s.instrs| <= |r.st.instrs|
    decreases n, 3
  {
    match n
    case BinopNode(_, _, _) => GenBinop(n, s, reading)
    case UnopNode(_, inner) =>
      var s1 :- Gen(inner, s, reading);
      Done(if n.uop == Neg then Emit(s1, Plain(A.OpNeg)) else s1)
    case Assign(_, _) => GenAssign(n, s, reading)
    case ArrayNode(_) => GenArray(n, s, reading)
    case Return(v) =>
      var s1 :- Gen(v, s, reading);
      Done(Emit(s1, Plain(A.OpReturn)))
    case Block(_) => GenItems(n, 0, s, reading)
    case If(_, _) => GenIf(n, s, reading)
    case IfElse(_, _, _) => GenIfElse(n, s, reading)
    case Foreach(_, _, _) => GenForeach(n, s, reading)
    case FunDecl(_, _, _) => GenFunDecl(n, s, reading)
    case FunCall(_, _) => GenFunCall(n, s, reading)
    case VarRef(name) =>
      (match Require(Lookup(s.locals, name), "variable not found")
       case Err(a) => Crashed(a)
       case Ok(v) => Done(Emit(s, IrInst(A.OpLoadLocal, v.idx, 0))))
    case Value(_) => GenValue(n, s)
    case VarDecl(name) =>
      (match Insert(s.locals, name, IrIndex(IridVar, s.locals.count), reading)
       case Err(a) => Crashed(a)
       case Ok((m, _)) => Done(s.(locals := m)))
    case Break => Crashed(AssertFailed("break op is not implemented yet"))
  }

  /** The loop of a block or an array: each child in order. */
  function GenItems(n: Node, i: nat, s: CState, reading: Reading): (r: Outcome)
    requires (n.Block? || n.ArrayNode?) && Shaped(n) && i <= |Items(n)|
    ensures r.Done? ==> |s.instrs| <= |r.st.instrs|
    decreases n, 0, |Items(n)| - i
  {
    if i == |Items(n)| then Done(s)
    else
      var s1 :- Gen(Items(n)[i], s, reading);
      GenItems(n, i + 1, s1, reading)
  }

  /** `codegen_binop`: the right operand, the left one, then the operation's opcode if it has one. */
  function GenBinop(n: Node, s: CState, reading: Reading): (r: Outcome)
    requires n.BinopNode? && Shaped(n)
    ensures r.Done? ==> |s.instrs| <= |r.st.instrs|
    decreases n, 2
  {
    var s1 :- Gen(n.right, s, reading);
    var s2 :- Gen(n.left, s1, reading);
    match BinopCode(n.op)
    case Some(op) => Done(Emit(s2, Plain(op)))
    case None => Done(s2)
  }

  /**
   * `codegen_value`: the constant appended and `PUSH_VALUE` of its index.
   * A string must begin with a quote (a NULL text is read through); a value
   * of no type is asserted against.
   */
  function GenValue(n: Node, s: CState): (r: Outcome)
    requires n.Value?
    ensures r.Done? ==> |r.st.instrs| == |s.instrs| + 1
  {
    match n.value
    case NoValue => Crashed(AssertFailed("unsupported constant value"))
    case BoolValue(b) =>
      var (k, s1) := AddConst(s, BoolConst(b));
      Done(Emit(s1, IrInst(A.OpPushValue, k, 0)))
    case Number(x) =>
      var (k, s1) := AddConst(s, NumberConst(x));
      Done(Emit(s1, IrInst(A.OpPushValue, k, 0)))
    case StringValue(ref) =>
      if ref.source.None? then Crashed(NullDereference)
      else if ShUtils.At(ref.source.value, ref.start) != '"' then Crashed(AssertFailed("current impl requres quoted strings."))
      else
        var (k, s1) := AddConst(s, StringConst(S.Text(ref)));
        Done(Emit(s1, IrInst(A.OpPushValue, k, 0)))
  }

  /** The `AST_ARRAY` rule: the elements, the element count pushed as a constant, then `MAKE_ARRAY`. */
  function GenArray(n: Node, s: CState, reading: Reading): (r: Outcome)
    requires n.ArrayNode? && Shaped(n)
    ensures r.Done? ==> |s.instrs| <= |r.st.instrs|
    decreases n, 2
  {
    var s1 :- GenItems(n, 0, s, reading);
    var (k, s2) := AddConst(s1, NumberConst(|n.items|));
    Done(Emit(Emit(s2, IrInst(A.OpPushValue, k, 0)), Plain(A.OpMakeArray)))
  }

  /**
   * `codegen_assignment`: the value; the locals must not be empty
   * (asserted); a declaration target is added to the locals; then
   * `STORE_LOCAL` of the target's index. A target that is neither a
   * declaration nor a reference, and an unknown name, are asserted against.
   */
  function GenAssign(n: Node, s: CState, reading: Reading): (r: Outcome)
    requires n.Assign? && Shaped(n)
    ensures r.Done? ==> |s.instrs| <= |r.st.instrs|
    decreases n, 2
  {
    var s1 :- Gen(n.rightValue, s, reading);
    if s1.locals.count == 0 then Crashed(AssertFailed("local vars was empty"))
    else if !(n.leftVar.VarDecl? || n.leftVar.VarRef?) then Crashed(AssertFailed("expected variable node as LSH in assignment"))
    else
      var s2 :- if n.leftVar.VarDecl? then Gen(n.leftVar, s1, reading) else Done(s1);
      match Require(Lookup(s2.locals, n.leftVar.name), "varname not found")
      case Err(a) => Crashed(a)
      case Ok(v) => Done(Emit(s2, IrInst(A.OpStoreLocal, v.idx, 0)))
  }

  /**
   * `codegen_foreach`: the collection, `MAKE_ITER`, `ITER_NEXT`, the loop
   * variable declared and stored, the body, a jump back to `ITER_NEXT`,
   * whose operand is then patched to the instruction after that jump.
   */
  function GenForeach(n: Node, s: CState, reading: Reading): (r: Outcome)
    requires n.Foreach? && Shaped(n)
    ensures r.Done? ==> |s.instrs| <= |r.st.instrs|
    decreases n, 2
  {
    var s1 :- Gen(n.collection, s, reading);
    var s2 := Emit(s1, Plain(A.OpMakeIter));
    var start := |s2.instrs|;
    var s3 := Emit(s2, Plain(A.OpIterNext));
    var s4 :- Gen(n.decl, s3, reading);
    ForeachBody(n, s4, start, reading)
  }

  /** The rest of `codegen_foreach` once the loop variable is declared: it is stored, the body follows, then the jump back. */
  function ForeachBody(n: Node, s: CState, start: nat, reading: Reading): (r: Outcome)
    requires n.Foreach? && Shaped(n) && start < |s.instrs|
    ensures r.Done? ==> |s.instrs| <= |r.st.instrs|
    decreases n, 1
  {
    match Require(Lookup(s.locals, n.decl.name), "variable not found")
    case Err(a) => Crashed(a)
    case Ok(v) =>
      var s5 := Emit(s, IrInst(A.OpStoreLocal, v.idx, 0));
      var s6 :- Gen(n.during, s5, reading);
      var s7 := Emit(s6, IrInst(A.OpJump, start, 0));
      Done(Patch(s7, start, |s7.instrs|))
  }

  /** The `AST_IF` rule: the condition, `JUMP_IF_FALSE`, the branch, and the jump patched to the end. */
  function GenIf(n: Node, s: CState, reading: Reading): (r: Outcome)
    requires n.If? && Shaped(n)
    ensures r.Done? ==> |s.instrs| <= |r.st.instrs|
    decreases n, 2
  {
    var s1 :- Gen(n.cond, s, reading);
    var test := |s1.instrs|;
    var s2 :- Gen(n.ifTrue, Emit(s1, Plain(A.OpJumpIfFalse)), reading);
    Done(Patch(s2, test, |s2.instrs|))
  }

  /**
   * The `AST_IF_ELSE` rule: the condition, `JUMP_IF_FALSE`, the then-branch,
   * a `JUMP`; the conditional jump patched to what follows, the
   * else-branch, and the `JUMP` patched to the end.
   */
  function GenIfElse(n: Node, s: CState, reading: Reading): (r: Outcome)
    requires n.IfElse? && Shaped(n)
    ensures r.Done? ==> |s.instrs| <= |r.st.instrs|
    decreases n, 2
  {
    var s1 :- Gen(n.cond, s, reading);
    var test := |s1.instrs|;
    var s2 :- Gen(n.ifTrue, Emit(s1, Plain(A.OpJumpIfFalse)), reading);
    var exit := |s2.instrs|;
    var s3 := Emit(s2, Plain(A.OpJump));
    var s4 := Patch(s3, test, |s3.instrs|);
    var s5 :- Gen(n.ifFalse, s4, reading);
    Done(Patch(s5, exit, |s5.instrs|))
  }

  /**
   * The state `codegen_fundecl` compiles the parameters in: `MAKE_FRAME`
   * emitted, the function's name mapped to it, the locals cleared.
   */
  function FrameOpened(s: CState, fm: S2im): CState {
    var s1 := Emit(s, Plain(A.OpMakeFrame));
    s1.(functions := fm, locals := Clear(s1.locals))
  }

  /**
   * `codegen_fundecl`: the parameters must be a block and no function may
   * be open (both asserted); `MAKE_FRAME` is emitted and the name mapped to
   * its index (a refused insertion is asserted against); the parameters and
   * the body are compiled, the frame patched to the number of parameters
   * and the number of locals the body added, and the locals cleared.
   */
  function GenFunDecl(n: Node, s: CState, reading: Reading): (r: Outcome)
    requires n.FunDecl? && Shaped(n)
    ensures r.Done? ==> |s.instrs| <= |r.st.instrs|
    decreases n, 2
  {
    if !n.args.Block? then Crashed(AssertFailed("node.args->type == AST_BLOCK"))
    else if s.locals.count != 0 then Crashed(AssertFailed("Function declared inside function?"))
    else
      var frame := |s.instrs|;
      match Insert(s.functions, n.fname, IrIndex(IridIns, frame), reading)
      case Err(a) => Crashed(a)
      case Ok((fm, ok)) =>
        if !ok then Crashed(AssertFailed("ok == true"))
        else FunBody(n, FrameOpened(s, fm), frame, reading)
  }

  /**
   * The rest of `codegen_fundecl` once the frame at `frame` is open: the
   * parameters and the body, the frame filled in, the locals cleared.
   */
  function FunBody(n: Node, s: CState, frame: nat, reading: Reading): (r: Outcome)
    requires n.FunDecl? && Shaped(n) && frame < |s.instrs|
    ensures r.Done? ==> |s.instrs| <= |r.st.instrs|
    decreases n, 1
  {
    var s2 :- Gen(n.args, s, reading);
    var argCount := s2.locals.count;
    var s3 :- Gen(n.body, s2, reading);
    var s4 := s3.(instrs := s3.instrs[frame := IrInst(A.OpMakeFrame, argCount, CC.Sub32(s3.locals.count, argCount))]);
    Done(s4.(locals := Clear(s4.locals)))
  }

  /**
   * `codegen_funcall`: the arguments, then the function's frame index
   * looked up. As written the lookup is asserted to MISS and the pointer it
   * gave is then read: a declared function fails the assertion and an
   * undeclared one is read through NULL. Corrected, a declared function
   * gives `CALL` of its frame index and an undeclared one is asserted
   * against.
   */
  function GenFunCall(n: Node, s: CState, reading: Reading): (r: Outcome)
    requires n.FunCall? && Shaped(n)
    ensures r.Done? ==> |s.instrs| < |r.st.instrs|
    ensures reading == AsWritten ==> r.Crashed?
    ensures r.Done? ==> (var last := r.st.instrs[|r.st.instrs| - 1];
      var f := Lookup(r.st.functions, n.cname);
      last.opcode == A.OpCall && last.a1 == 0 && f.Ok? && f.value.Some? && f.value.value.idx == last.a0)
    ensures reading == Corrected && Gen(n.callArgs, s, reading).Done? ==>
      var f := Lookup(Gen(n.callArgs, s, reading).st.functions, n.cname);
      (r.Done? <==> f.Ok? && f.value.Some?) && (f == Ok(None) ==> r == Crashed(AssertFailed("Function not found (not declared)")))
    decreases n, 2
  {
    var s1 :- Gen(n.callArgs, s, reading);
    var found := Lookup(s1.functions, n.cname);
    match reading
    case AsWritten =>
      (match found
       case Err(a) => Crashed(a)
       case Ok(Some(_)) => Crashed(AssertFailed("Function not found (not declared)"))
       case Ok(None) => Crashed(NullDereference))
    case Corrected =>
      (match Require(found, "Function not found (not declared)")
       case Err(a) => Crashed(a)
       case Ok(v) => Done(Emit(s1, IrInst(A.OpCall, v.idx, 0))))
  }

  /**
   * As written, once the arguments compile, a declared function fails the
   * inverted assertion and an undeclared one is read through NULL: no call
   * is ever compiled.
   */
  lemma FunCallAsWrittenNeverCompiles(n: Node, s: CState)
    requires n.FunCall? && Shaped(n) && Gen(n.callArgs, s, AsWritten).Done?
    ensures var f := Lookup(Gen(n.callArgs, s, AsWritten).st.functions, n.cname);
      (f.Ok? && f.value.Some? ==> GenFunCall(n, s, AsWritten) == Crashed(AssertFailed("Function not found (not declared)"))) &&
      (f == Ok(None) ==> GenFunCall(n, s, AsWritten) == Crashed(NullDereference))
  {
  }

  // ------------------------------------------------------------- addresses

  /** The byte address of instruction `i`: the widths of the instructions before it. */
  function Addr(instrs: seq<IrInst>, i: nat): nat
    requires i <= |instrs|
  {
    if i == 0 then 0 else Addr(instrs, i - 1) + Width(instrs[i - 1])
  }

  /** An operand the reading's table has an address for: an instruction index, and corrected also the end. */
  predicate InTable(instrs: seq<IrInst>, index: nat, reading: Reading) {
    index < |instrs| || (reading == Corrected && index == |instrs|)
  }

  /** `recalc_index_to_bytecode_adress` on one instruction: a targeted operand becomes the address it indexes. */
  function Retarget(instrs: seq<IrInst>, i: nat, reading: Reading): (r: Result<IrInst, Abort>)
    requires i < |instrs|
    ensures r.Ok? ==> r.value.opcode == instrs[i].opcode && r.value.a1 == instrs[i].a1
  {
    var ins := instrs[i];
    if !IsTargeted(ins.opcode) then Ok(ins)
    else if InTable(instrs, ins.a0, reading) then Ok(ins.(a0 := Addr(instrs, ins.a0)))
    else Err(OutOfBounds)
  }

  /** The instructions from `i` on, each retargeted; the first operand missing from the table aborts. */
  function RetargetFrom(instrs: seq<IrInst>, i: nat, reading: Reading): (r: Result<seq<IrInst>, Abort>)
    requires i <= |instrs|
    ensures r.Ok? ==> |r.value| == |instrs| - i
    decreases |instrs| - i
  {
    if i == |instrs| then Ok([])
    else match Retarget(instrs, i, reading)
      case Err(a) => Err(a)
      case Ok(ins) =>
        match RetargetFrom(instrs, i + 1, reading)
        case Err(a) => Err(a)
        case Ok(rest) => Ok([ins] + rest)
  }

  // -------------------------------------------------------------- emission

  /** `(uint8_t) opcode`: the opcode's low byte. */
  function OpByte(op: int): bv8 {
    (op % 256) as bv8
  }

  /** The bytes of one instruction in `write_program`: the opcode, then each operand little-endian. */
  function InstBytes(i: IrInst): (b: seq<bv8>)
    ensures |b| == Width(i)
  {
    [OpByte(i.opcode)] +
    (if OpArgCount(i.opcode) >= 1 then ShUtils.U32Bytes(CC.U32(i.a0)) else []) +
    (if OpArgCount(i.opcode) >= 2 then ShUtils.U32Bytes(CC.U32(i.a1)) else [])
  }

  /** The bytes of each instruction. */
  function Chunks(instrs: seq<IrInst>): (cs: seq<seq<bv8>>)
    ensures |cs| == |instrs|
  {
    seq(|instrs|, k requires 0 <= k < |instrs| => InstBytes(instrs[k]))
  }

  /** The byte code of `write_program`: the instructions' bytes in order. */
  function Bytes(instrs: seq<IrInst>): seq<bv8> {
    CC.Flatten(Chunks(instrs))
  }

  /** `gvm_program_t`: the byte code and the constants. */
  datatype Program = Program(code: seq<bv8>, consts: seq<GConst>)

  /** `srcref("main", ...)`: the name of the entry function. */
  const MainRef: S.Srcref := S.Srcref(Some("main"), 0, 4)

  /** The state `gvm_compile` starts from: both maps of 16 slots, instruction 0 `ENTRY_POINT`. */
  function StartState(): CState {
    Emit(CState([], Init(IridVar, 16), Init(IridIns, 16), []), Plain(OpEntryPoint))
  }

  /**
   * `gvm_compile`: the tree compiled after `ENTRY_POINT`; `main` must be
   * declared (asserted); the entry point is patched to its frame index and
   * the program written.
   */
  function Compile(node: Node, reading: Reading): Result<Program, Abort>
    requires Shaped(node)
  {
    Finish(Gen(node, StartState(), reading), reading)
  }

  /** The end of `gvm_compile` once the tree is compiled: the lookup of `main`, the entry point patched, the program written. */
  function Finish(o: Outcome, reading: Reading): Result<Program, Abort>
    requires o.Done? ==> 0 < |o.st.instrs|
  {
    match o
    case Crashed(a) => Err(a)
    case Done(t) =>
      match Require(Lookup(t.functions, MainRef), "main entrypoint not found")
      case Err(a) => Err(a)
      case Ok(v) =>
        match RetargetFrom(Patch(t, 0, v.idx).instrs, 0, reading)
        case Err(a) => Err(a)
        case Ok(code) => Ok(Program(Bytes(code), t.consts))
  }
}

/**
 * What the maps and the generator of `gvm/gvm_compiler.c` guarantee, and
 * the three places where the text as written departs from its intent.
 */
module GvmCompilerFacts {
  import opened Wrappers
  import opened GvmCompiler
  import S = GvmSrcmap
  import A = GvmAsmUtils
  import ShUtils
  import CC = CoCompiler
  import CF = CoCompilerFacts

  // ------------------------------------------------------------------ maps

  /** A key placed in the first free slot of its probe is found by the lookup along the same probe. */
  lemma {:induction false} ProbeThenLookup(m: S2im, key: S.Srcref, start: nat, i: nat, t: nat, val: IrIndex)
    requires |m.used| > 0 && InsertProbe(m, key, start, i) == Free(t)
    ensures LookupProbe(Fill(m, t, key, val), key, start, i) == Ok(Some(val))
    decreases |m.used| - i
  {
    var u := SlotAt(m, start, i);
    if !m.used[u] {
      S.SrcrefEqualsRefl(key);
    } else {
      assert u != t;
      ProbeThenLookup(m, key, start, i + 1, t, val);
    }
  }

  /** `s2im_insert` then `s2im_lookup`: a key the insertion accepts is found with its value. */
  lemma InsertThenLookup(m: S2im, key: S.Srcref, val: IrIndex, reading: Reading)
    requires Insert(m, key, val, reading).Ok? && Insert(m, key, val, reading).value.1
    ensures Lookup(Insert(m, key, val, reading).value.0, key) == Ok(Some(val))
  {
    var g := Grow(m, 1, reading);
    match InsertProbe(g, key, Start(g, key), 0)
    case Free(t) => ProbeThenLookup(g, key, Start(g, key), 0, t, val);
    case _ =>
  }

  /**
   * On a map whose blocks hold an entry per slot the two probe loops agree:
   * the insertion stops at an equal key exactly where the lookup finds it,
   * finds no slot outside the blocks, and where it finds room or none the
   * lookup finds nothing.
   */
  lemma {:induction false} ProbesAgree(m: S2im, key: S.Srcref, start: nat, i: nat)
    requires |m.used| > 0 && WellSized(m)
    ensures !InsertProbe(m, key, start, i).Outside?
    ensures InsertProbe(m, key, start, i).Duplicate? ==>
      LookupProbe(m, key, start, i) == Ok(Some(m.values[InsertProbe(m, key, start, i).slot]))
    ensures InsertProbe(m, key, start, i).Free? || InsertProbe(m, key, start, i).Full? ==>
      LookupProbe(m, key, start, i) == Ok(None)
    decreases |m.used| - i
  {
    if i < |m.used| {
      var t := SlotAt(m, start, i);
      if m.used[t] && !S.SrcrefEquals(m.keys[t], key) {
        ProbesAgree(m, key, start, i + 1);
      }
    }
  }

  /**
   * Corrected, a map whose blocks hold an entry per slot takes every
   * insertion of a value of its tag without reading outside a block, and
   * keeps its blocks whole.
   */
  lemma CorrectedInsertInBounds(m: S2im, key: S.Srcref, val: IrIndex)
    requires WellSized(m) && val.tag == m.tag
    ensures Insert(m, key, val, Corrected).Ok?
    ensures WellSized(Insert(m, key, val, Corrected).value.0)
  {
    var g := Grow(m, 1, Corrected);
    ProbesAgree(g, key, Start(g, key), 0);
  }

  /** `s2im_insert` rejects a key the map already holds: the answer is false and the map only grown. */
  lemma InsertRejectsPresent(m: S2im, key: S.Srcref, val: IrIndex, reading: Reading)
    requires val.tag == m.tag && WellSized(Grow(m, 1, reading))
    requires Lookup(Grow(m, 1, reading), key).Ok? && Lookup(Grow(m, 1, reading), key).value.Some?
    ensures Insert(m, key, val, reading) == Ok((Grow(m, 1, reading), false))
  {
    var g := Grow(m, 1, reading);
    ProbesAgree(g, key, Start(g, key), 0);
  }

  /** After `s2im_clear` no key is found. */
  lemma ClearThenLookup(m: S2im, key: S.Srcref)
    requires |m.used| > 0
    ensures Lookup(Clear(m), key) == Ok(None)
  {
    var c := Clear(m);
    assert !c.used[SlotAt(c, Start(c, key), 0)];
  }

  /** A one-character name, whose hash lands on slot 17 of a 26-slot map. */
  const NameA: S.Srcref := S.Srcref(Some("a"), 0, 1)

  /**
   * As written, the growth of a 16-slot map holding 12 keys (at the 13th
   * local of a function, or the 13th function) gives it 26 slots but a
   * key block of one entry: the probe of `a` starts at slot 17, which is
   * free, and the key is written past the block. Corrected, the same
   * insertion succeeds.
   */
  lemma GrowAsWrittenOverflows(m: S2im, val: IrIndex)
    requires WellSized(m) && |m.used| == 16 && m.count == 12 && val.tag == m.tag
    ensures Insert(m, NameA, val, AsWritten) == Err(OutOfBounds)
    ensures Insert(m, NameA, val, Corrected).Ok?
  {
    assert S.Len(NameA) == 1 && S.Text(NameA) == "a";
    assert S.HashOf(NameA) == 815663 by {
      assert S.HashPrefix(6, "a", 1) == S.HashStep(6, 'a');
    }
    var g := Grow(m, 1, AsWritten);
    assert |g.used| == 26 && |g.keys| == 1;
    assert Start(g, NameA) == 17;
    assert !g.used[17];
    assert InsertProbe(g, NameA, 17, 0) == Outside;
    CorrectedInsertInBounds(m, NameA, val);
  }

  // ------------------------------------------------- the generator's state

  /** Every operand the address pass rewrites indexes an instruction or the end. */
  predicate TargetsIn(instrs: seq<IrInst>) {
    forall i :: 0 <= i < |instrs| && IsTargeted(instrs[i].opcode) ==> instrs[i].a0 <= |instrs|
  }

  /** Every value in use in the map is below `n`. */
  predicate FramesIn(m: S2im, n: nat) {
    forall k :: 0 <= k < |m.used| && k < |m.values| && m.used[k] ==> m.values[k].idx < n
  }

  /** What the generator keeps: the targets in range and, corrected, the function map whole and indexing instructions. */
  predicate Inv(s: CState, reading: Reading) {
    TargetsIn(s.instrs) && (reading == Corrected ==> WellSized(s.functions) && FramesIn(s.functions, |s.instrs|))
  }

  /** `t` follows `s`: the instructions of `s` are the first ones of `t`, and the invariant, once it holds, goes on holding. */
  predicate Good(s: CState, t: CState, reading: Reading) {
    |s.instrs| <= |t.instrs| && t.instrs[..|s.instrs|] == s.instrs && (Inv(s, reading) ==> Inv(t, reading))
  }

  lemma GoodTrans(a: CState, b: CState, c: CState, reading: Reading)
    requires Good(a, b, reading) && Good(b, c, reading)
    ensures Good(a, c, reading)
  {
    assert c.instrs[..|a.instrs|] == c.instrs[..|b.instrs|][..|a.instrs|];
  }

  lemma SameInstrsGood(s: CState, t: CState, reading: Reading)
    requires t.instrs == s.instrs && t.functions == s.functions
    ensures Good(s, t, reading)
  {
    assert t.instrs[..|s.instrs|] == s.instrs;
  }

  lemma EmitGood(s: CState, i: IrInst, reading: Reading)
    requires Inv(s, reading) && IsTargeted(i.opcode) ==> i.a0 <= |s.instrs| + 1
    ensures Good(s, Emit(s, i), reading)
  {
    var t := Emit(s, i);
    assert t.instrs[..|s.instrs|] == s.instrs;
    if Inv(s, reading) {
      assert forall k :: 0 <= k < |s.instrs| ==> t.instrs[k] == s.instrs[k];
    }
  }

  /** A patch of an instruction added after `s` keeps `Good(s, _)`. */
  lemma PatchGood(s: CState, t: CState, at: nat, v: nat, reading: Reading)
    requires Good(s, t, reading) && |s.instrs| <= at < |t.instrs| && v <= |t.instrs|
    ensures Good(s, Patch(t, at, v), reading)
  {
    var u := Patch(t, at, v);
    assert u.instrs[..|s.instrs|] == t.instrs[..|s.instrs|];
    assert forall k :: 0 <= k < |t.instrs| && k != at ==> u.instrs[k] == t.instrs[k];
  }

  /** The values a lookup finds are values in use. */
  lemma {:induction false} LookupBound(m: S2im, key: S.Srcref, start: nat, i: nat, n: nat)
    requires |m.used| > 0 && FramesIn(m, n)
    requires LookupProbe(m, key, start, i).Ok? && LookupProbe(m, key, start, i).value.Some?
    ensures LookupProbe(m, key, start, i).value.value.idx < n
    decreases |m.used| - i
  {
    var t := SlotAt(m, start, i);
    if !S.SrcrefEquals(m.keys[t], key) {
      LookupBound(m, key, start, i + 1, n);
    }
  }

  /** Placing the entries again keeps every value in use below `n`. */
  lemma {:induction false} RehashFrames(m: S2im, into: S2im, i: nat, n: nat)
    requires WellSized(m) && WellSized(into) && |into.used| > 0 && FramesIn(m, n) && FramesIn(into, n)
    ensures FramesIn(RehashFrom(m, into, i), n)
    decreases |m.used| - i
  {
    if i < |m.used| {
      if !m.used[i] {
        RehashFrames(m, into, i + 1, n);
      } else {
        match InsertProbe(into, m.keys[i], S.HashOf(m.keys[i]) % |into.used|, 0)
        case Free(t) =>
          var f := Fill(into, t, m.keys[i], m.values[i]);
          assert FramesIn(f, n);
          RehashFrames(m, f, i + 1, n);
        case _ =>
          RehashFrames(m, into, i + 1, n);
      }
    }
  }

  /** Corrected, an insertion of a value below `n` keeps the map whole with its values below `n`. */
  lemma InsertFrames(m: S2im, key: S.Srcref, val: IrIndex, n: nat)
    requires WellSized(m) && FramesIn(m, n) && val.idx < n && val.tag == m.tag
    ensures Insert(m, key, val, Corrected).Ok?
    ensures WellSized(Insert(m, key, val, Corrected).value.0) && FramesIn(Insert(m, key, val, Corrected).value.0, n)
  {
    CorrectedInsertInBounds(m, key, val);
    var g := Grow(m, 1, Corrected);
    if MustGrow(|m.used|, m.count + 1) {
      var init := Init(m.tag, 2 * (m.count + 1));
      RehashFrames(m, init, 0, n);
      assert g == RehashFrom(m, init, 0).(count := m.count);
    }
    assert FramesIn(g, n);
  }

  // ----------------------------------------------- the generator is sound

  /**
   * Generating code only adds instructions: every back-patch lands on an
   * instruction of the construct itself, and every targeted operand stays
   * in range (corrected, every call indexes an instruction).
   */
  lemma {:induction false} GenGood(n: Node, s: CState, reading: Reading)
    requires Shaped(n)
    ensures Gen(n, s, reading).Done? ==> Good(s, Gen(n, s, reading).st, reading)
    decreases n, 3
  {
    match n
    case BinopNode(_, _, _) => BinopGood(n, s, reading);
    case UnopNode(_, _) => UnopGood(n, s, reading);
    case Assign(_, _) => AssignGood(n, s, reading);
    case ArrayNode(_) => ArrayGood(n, s, reading);
    case Return(_) => ReturnGood(n, s, reading);
    case Block(_) => ItemsGood(n, 0, s, reading);
    case If(_, _) => IfGood(n, s, reading);
    case IfElse(_, _, _) => IfElseGood(n, s, reading);
    case Foreach(_, _, _) => ForeachGood(n, s, reading);
    case FunDecl(_, _, _) => FunDeclGood(n, s, reading);
    case FunCall(_, _) => FunCallGood(n, s, reading);
    case VarRef(name) =>
      var f := Require(Lookup(s.locals, name), "variable not found");
      if f.Ok? {
        EmitGood(s, IrInst(A.OpLoadLocal, f.value.idx, 0), reading);
      }
    case Value(_) => ValueGood(n, s, reading);
    case VarDecl(name) =>
      var r := Insert(s.locals, name, IrIndex(IridVar, s.locals.count), reading);
      if r.Ok? {
        SameInstrsGood(s, s.(locals := r.value.0), reading);
      }
    case Break =>
  }

  lemma {:induction false} UnopGood(n: Node, s: CState, reading: Reading)
    requires n.UnopNode? && Shaped(n)
    ensures Gen(n, s, reading).Done? ==> Good(s, Gen(n, s, reading).st, reading)
    decreases n, 2
  {
    GenGood(n.inner, s, reading);
    var r := Gen(n.inner, s, reading);
    if r.Done? && n.uop == Neg {
      EmitGood(r.st, Plain(A.OpNeg), reading);
      GoodTrans(s, r.st, Emit(r.st, Plain(A.OpNeg)), reading);
    }
  }

  lemma {:induction false} ReturnGood(n: Node, s: CState, reading: Reading)
    requires n.Return? && Shaped(n)
    ensures Gen(n, s, reading).Done? ==> Good(s, Gen(n, s, reading).st, reading)
    decreases n, 2
  {
    GenGood(n.result, s, reading);
    var r := Gen(n.result, s, reading);
    if r.Done? {
      EmitGood(r.st, Plain(A.OpReturn), reading);
      GoodTrans(s, r.st, Emit(r.st, Plain(A.OpReturn)), reading);
    }
  }

  lemma {:induction false} ItemsGood(n: Node, i: nat, s: CState, reading: Reading)
    requires (n.Block? || n.ArrayNode?) && Shaped(n) && i <= |Items(n)|
    ensures GenItems(n, i, s, reading).Done? ==> Good(s, GenItems(n, i, s, reading).st, reading)
    decreases n, 0, |Items(n)| - i
  {
    if i == |Items(n)| {
      SameInstrsGood(s, s, reading);
    } else {
      GenGood(Items(n)[i], s, reading);
      var r := Gen(Items(n)[i], s, reading);
      if r.Done? {
        ItemsGood(n, i + 1, r.st, reading);
        if GenItems(n, i + 1, r.st, reading).Done? {
          GoodTrans(s, r.st, GenItems(n, i + 1, r.st, reading).st, reading);
        }
      }
    }
  }

  lemma {:induction false} BinopGood(n: Node, s: CState, reading: Reading)
    requires n.BinopNode? && Shaped(n)
    ensures GenBinop(n, s, reading).Done? ==> Good(s, GenBinop(n, s, reading).st, reading)
    decreases n, 2
  {
    GenGood(n.right, s, reading);
    var r1 := Gen(n.right, s, reading);
    if r1.Done? {
      GenGood(n.left, r1.st, reading);
      var r2 := Gen(n.left, r1.st, reading);
      if r2.Done? {
        GoodTrans(s, r1.st, r2.st, reading);
        if BinopCode(n.op).Some? {
          EmitGood(r2.st, Plain(BinopCode(n.op).value), reading);
          GoodTrans(s, r2.st, Emit(r2.st, Plain(BinopCode(n.op).value)), reading);
        }
      }
    }
  }

  lemma ValueGood(n: Node, s: CState, reading: Reading)
    requires n.Value?
    ensures GenValue(n, s).Done? ==> Good(s, GenValue(n, s).st, reading)
  {
    var s1 := s.(consts := s.consts + [NumberConst(0)]);
    assert s1.instrs == s.instrs;
    EmitGood(s1, IrInst(A.OpPushValue, |s.consts|, 0), reading);
    if GenValue(n, s).Done? {
      assert GenValue(n, s).st.instrs == s.instrs + [IrInst(A.OpPushValue, |s.consts|, 0)];
    }
  }

  lemma {:induction false} ArrayGood(n: Node, s: CState, reading: Reading)
    requires n.ArrayNode? && Shaped(n)
    ensures GenArray(n, s, reading).Done? ==> Good(s, GenArray(n, s, reading).st, reading)
    decreases n, 2
  {
    ItemsGood(n, 0, s, reading);
    var r := GenItems(n, 0, s, reading);
    if r.Done? {
      var (k, s2) := AddConst(r.st, NumberConst(|n.items|));
      SameInstrsGood(r.st, s2, reading);
      var s3 := Emit(s2, IrInst(A.OpPushValue, k, 0));
      EmitGood(s2, IrInst(A.OpPushValue, k, 0), reading);
      EmitGood(s3, Plain(A.OpMakeArray), reading);
      GoodTrans(s, r.st, s2, reading);
      GoodTrans(s, s2, s3, reading);
      GoodTrans(s, s3, Emit(s3, Plain(A.OpMakeArray)), reading);
    }
  }

  lemma {:induction false} AssignGood(n: Node, s: CState, reading: Reading)
    requires n.Assign? && Shaped(n)
    ensures GenAssign(n, s, reading).Done? ==> Good(s, GenAssign(n, s, reading).st, reading)
    decreases n, 2
  {
    GenGood(n.rightValue, s, reading);
    var r1 := Gen(n.rightValue, s, reading);
    if r1.Done? && r1.st.locals.count != 0 && (n.leftVar.VarDecl? || n.leftVar.VarRef?) {
      var s1 := r1.st;
      var r2 := if n.leftVar.VarDecl? then Gen(n.leftVar, s1, reading) else Done(s1);
      if n.leftVar.VarDecl? {
        GenGood(n.leftVar, s1, reading);
      } else {
        SameInstrsGood(s1, s1, reading);
      }
      if r2.Done? {
        GoodTrans(s, s1, r2.st, reading);
        var f := Require(Lookup(r2.st.locals, n.leftVar.name), "varname not found");
        if f.Ok? {
          EmitGood(r2.st, IrInst(A.OpStoreLocal, f.value.idx, 0), reading);
          GoodTrans(s, r2.st, Emit(r2.st, IrInst(A.OpStoreLocal, f.value.idx, 0)), reading);
        }
      }
    }
  }

  lemma {:induction false} IfGood(n: Node, s: CState, reading: Reading)
    requires n.If? && Shaped(n)
    ensures GenIf(n, s, reading).Done? ==> Good(s, GenIf(n, s, reading).st, reading)
    decreases n, 2
  {
    GenGood(n.cond, s, reading);
    var r1 := Gen(n.cond, s, reading);
    if r1.Done? {
      var e := Emit(r1.st, Plain(A.OpJumpIfFalse));
      EmitGood(r1.st, Plain(A.OpJumpIfFalse), reading);
      GoodTrans(s, r1.st, e, reading);
      GenGood(n.ifTrue, e, reading);
      var r2 := Gen(n.ifTrue, e, reading);
      if r2.Done? {
        GoodTrans(s, e, r2.st, reading);
        PatchGood(s, r2.st, |r1.st.instrs|, |r2.st.instrs|, reading);
      }
    }
  }

  lemma {:induction false} IfElseGood(n: Node, s: CState, reading: Reading)
    requires n.IfElse? && Shaped(n)
    ensures GenIfElse(n, s, reading).Done? ==> Good(s, GenIfElse(n, s, reading).st, reading)
    decreases n, 2
  {
    GenGood(n.cond, s, reading);
    var r1 := Gen(n.cond, s, reading);
    if r1.Done? {
      var e := Emit(r1.st, Plain(A.OpJumpIfFalse));
      EmitGood(r1.st, Plain(A.OpJumpIfFalse), reading);
      GoodTrans(s, r1.st, e, reading);
      GenGood(n.ifTrue, e, reading);
      var r2 := Gen(n.ifTrue, e, reading);
      if r2.Done? {
        GoodTrans(s, e, r2.st, reading);
        var s3 := Emit(r2.st, Plain(A.OpJump));
        EmitGood(r2.st, Plain(A.OpJump), reading);
        GoodTrans(s, r2.st, s3, reading);
        var s4 := Patch(s3, |r1.st.instrs|, |s3.instrs|);
        PatchGood(s, s3, |r1.st.instrs|, |s3.instrs|, reading);
        GenGood(n.ifFalse, s4, reading);
        var r5 := Gen(n.ifFalse, s4, reading);
        if r5.Done? {
          GoodTrans(s, s4, r5.st, reading);
          PatchGood(s, r5.st, |r2.st.instrs|, |r5.st.instrs|, reading);
        }
      }
    }
  }

  lemma {:induction false} ForeachGood(n: Node, s: CState, reading: Reading)
    requires n.Foreach? && Shaped(n)
    ensures GenForeach(n, s, reading).Done? ==> Good(s, GenForeach(n, s, reading).st, reading)
    decreases n, 2
  {
    GenGood(n.collection, s, reading);
    var r1 := Gen(n.collection, s, reading);
    if r1.Done? {
      var s2 := Emit(r1.st, Plain(A.OpMakeIter));
      var s3 := Emit(s2, Plain(A.OpIterNext));
      EmitGood(r1.st, Plain(A.OpMakeIter), reading);
      EmitGood(s2, Plain(A.OpIterNext), reading);
      GoodTrans(s, r1.st, s2, reading);
      GoodTrans(s, s2, s3, reading);
      GenGood(n.decl, s3, reading);
      var r4 := Gen(n.decl, s3, reading);
      if r4.Done? {
        GoodTrans(s, s3, r4.st, reading);
        ForeachBodyGood(n, s2, r4.st, reading);
        if ForeachBody(n, r4.st, |s2.instrs|, reading).Done? {
          GoodTrans(s, s2, ForeachBody(n, r4.st, |s2.instrs|, reading).st, reading);
        }
      }
    }
  }

  /** From `s0`, the state before `ITER_NEXT` was emitted, to the end of the loop. */
  lemma {:induction false} ForeachBodyGood(n: Node, s0: CState, s: CState, reading: Reading)
    requires n.Foreach? && Shaped(n) && Good(s0, s, reading) && |s0.instrs| < |s.instrs|
    ensures var r := ForeachBody(n, s, |s0.instrs|, reading);
      r.Done? ==> Good(s0, r.st, reading)
    decreases n, 1
  {
    var start := |s0.instrs|;
    var f := Require(Lookup(s.locals, n.decl.name), "variable not found");
    if f.Ok? {
      var s5 := Emit(s, IrInst(A.OpStoreLocal, f.value.idx, 0));
      EmitGood(s, IrInst(A.OpStoreLocal, f.value.idx, 0), reading);
      GoodTrans(s0, s, s5, reading);
      GenGood(n.during, s5, reading);
      var r6 := Gen(n.during, s5, reading);
      if r6.Done? {
        GoodTrans(s0, s5, r6.st, reading);
        var s7 := Emit(r6.st, IrInst(A.OpJump, start, 0));
        EmitGood(r6.st, IrInst(A.OpJump, start, 0), reading);
        GoodTrans(s0, r6.st, s7, reading);
        PatchGood(s0, s7, start, |s7.instrs|, reading);
      }
    }
  }

  /** The frame of a function opened: `MAKE_FRAME` added, the map replaced, the locals cleared. */
  lemma FrameOpenedGood(s: CState, fm: S2im, reading: Reading)
    requires reading == Corrected && Inv(s, reading) ==> WellSized(fm) && FramesIn(fm, |s.instrs| + 1)
    ensures Good(s, FrameOpened(s, fm), reading)
  {
    EmitGood(s, Plain(A.OpMakeFrame), reading);
  }

  lemma {:induction false} FunDeclGood(n: Node, s: CState, reading: Reading)
    requires n.FunDecl? && Shaped(n)
    ensures GenFunDecl(n, s, reading).Done? ==> Good(s, GenFunDecl(n, s, reading).st, reading)
    decreases n, 2
  {
    if n.args.Block? && s.locals.count == 0 {
      var frame := |s.instrs|;
      var ins := Insert(s.functions, n.fname, IrIndex(IridIns, frame), reading);
      if ins.Ok? && ins.value.1 {
        var fm := ins.value.0;
        if reading == Corrected && Inv(s, reading) {
          InsertFrames(s.functions, n.fname, IrIndex(IridIns, frame), frame + 1);
        }
        FunBodyGood(n, s, fm, reading);
      }
    }
  }

  lemma {:induction false} FunBodyGood(n: Node, s: CState, fm: S2im, reading: Reading)
    requires n.FunDecl? && Shaped(n)
    requires reading == Corrected && Inv(s, reading) ==> WellSized(fm) && FramesIn(fm, |s.instrs| + 1)
    ensures var r := FunBody(n, FrameOpened(s, fm), |s.instrs|, reading);
      r.Done? ==> Good(s, r.st, reading)
    decreases n, 1
  {
    var s1 := FrameOpened(s, fm);
    FrameOpenedGood(s, fm, reading);
    GenGood(n.args, s1, reading);
    var r2 := Gen(n.args, s1, reading);
    if r2.Done? {
      GoodTrans(s, s1, r2.st, reading);
      GenGood(n.body, r2.st, reading);
      var r3 := Gen(n.body, r2.st, reading);
      if r3.Done? {
        GoodTrans(s, r2.st, r3.st, reading);
        var s3 := r3.st;
        var ins2 := IrInst(A.OpMakeFrame, r2.st.locals.count, CC.Sub32(s3.locals.count, r2.st.locals.count));
        var s4 := s3.(instrs := s3.instrs[|s.instrs| := ins2]);
        ReplaceGood(s, s3, |s.instrs|, ins2, reading);
        SameInstrsGood(s4, s4.(locals := Clear(s4.locals)), reading);
        GoodTrans(s, s4, s4.(locals := Clear(s4.locals)), reading);
      }
    }
  }

  /** Replacing an instruction added after `s` by an untargeted one keeps `Good(s, _)`. */
  lemma ReplaceGood(s: CState, t: CState, at: nat, ins: IrInst, reading: Reading)
    requires Good(s, t, reading) && |s.instrs| <= at < |t.instrs| && !IsTargeted(ins.opcode)
    ensures Good(s, t.(instrs := t.instrs[at := ins]), reading)
  {
    var u := t.(instrs := t.instrs[at := ins]);
    assert u.instrs[..|s.instrs|] == t.instrs[..|s.instrs|];
    assert forall k :: 0 <= k < |t.instrs| && k != at ==> u.instrs[k] == t.instrs[k];
  }

  lemma {:induction false} FunCallGood(n: Node, s: CState, reading: Reading)
    requires n.FunCall? && Shaped(n)
    ensures GenFunCall(n, s, reading).Done? ==> Good(s, GenFunCall(n, s, reading).st, reading)
    decreases n, 2
  {
    GenGood(n.callArgs, s, reading);
    var r1 := Gen(n.callArgs, s, reading);
    if r1.Done? && reading == Corrected {
      var s1 := r1.st;
      var f := Require(Lookup(s1.functions, n.cname), "Function not found (not declared)");
      if f.Ok? {
        if Inv(s1, reading) {
          LookupBound(s1.functions, n.cname, Start(s1.functions, n.cname), 0, |s1.instrs|);
        }
        EmitGood(s1, IrInst(A.OpCall, f.value.idx, 0), reading);
        GoodTrans(s, s1, Emit(s1, IrInst(A.OpCall, f.value.idx, 0)), reading);
      }
    }
  }

  // ------------------------------------------------------------- layouts

  /** An instruction emitted before a construct is still there after it. */
  lemma GenKeepsAt(n: Node, s: CState, reading: Reading, k: nat)
    requires Shaped(n) && k < |s.instrs| && Gen(n, s, reading).Done?
    ensures k < |Gen(n, s, reading).st.instrs| && Gen(n, s, reading).st.instrs[k] == s.instrs[k]
  {
    GenGood(n, s, reading);
    var t := Gen(n, s, reading).st;
    assert t.instrs[..|s.instrs|][k] == t.instrs[k];
  }

  /** `AST_IF`: the conditional jump after the condition targets the instruction just past the branch. */
  lemma IfLayout(n: Node, s: CState, reading: Reading)
    requires n.If? && Shaped(n) && Gen(n, s, reading).Done?
    ensures Gen(n.cond, s, reading).Done?
    ensures var test := |Gen(n.cond, s, reading).st.instrs|;
      var t := Gen(n, s, reading).st;
      test < |t.instrs| && t.instrs[test] == IrInst(A.OpJumpIfFalse, |t.instrs|, 0)
  {
    var s1 := Gen(n.cond, s, reading).st;
    var e := Emit(s1, Plain(A.OpJumpIfFalse));
    GenKeepsAt(n.ifTrue, e, reading, |s1.instrs|);
  }

  /**
   * `AST_IF_ELSE`: the conditional jump targets the instruction after the
   * then-branch's `JUMP`, and that `JUMP` targets the instruction just past
   * the else-branch.
   */
  lemma IfElseLayout(n: Node, s: CState, reading: Reading)
    requires n.IfElse? && Shaped(n) && Gen(n, s, reading).Done?
    ensures Gen(n.cond, s, reading).Done?
    ensures var test := |Gen(n.cond, s, reading).st.instrs|;
      var t := Gen(n, s, reading).st;
      exists exit :: test < exit < |t.instrs| &&
        t.instrs[test] == IrInst(A.OpJumpIfFalse, exit + 1, 0) && t.instrs[exit] == IrInst(A.OpJump, |t.instrs|, 0)
  {
    var s1 := Gen(n.cond, s, reading).st;
    var test := |s1.instrs|;
    var e := Emit(s1, Plain(A.OpJumpIfFalse));
    GenKeepsAt(n.ifTrue, e, reading, test);
    var s2 := Gen(n.ifTrue, e, reading).st;
    var exit := |s2.instrs|;
    var s3 := Emit(s2, Plain(A.OpJump));
    var s4 := Patch(s3, test, |s3.instrs|);
    GenKeepsAt(n.ifFalse, s4, reading, test);
    GenKeepsAt(n.ifFalse, s4, reading, exit);
    var s5 := Gen(n.ifFalse, s4, reading).st;
    var t := Gen(n, s, reading).st;
    assert t == Patch(s5, exit, |s5.instrs|);
    assert t.instrs[test] == IrInst(A.OpJumpIfFalse, exit + 1, 0) && t.instrs[exit] == IrInst(A.OpJump, |t.instrs|, 0);
  }

  /**
   * `codegen_foreach`: `ITER_NEXT` stands right after `MAKE_ITER` and
   * targets the instruction just past the loop, whose last instruction
   * jumps back to it.
   */
  lemma ForeachLayout(n: Node, s: CState, reading: Reading)
    requires n.Foreach? && Shaped(n) && GenForeach(n, s, reading).Done?
    ensures Gen(n.collection, s, reading).Done?
    ensures var start := |Gen(n.collection, s, reading).st.instrs| + 1;
      var t := GenForeach(n, s, reading).st;
      start < |t.instrs| - 1 && t.instrs[start - 1] == Plain(A.OpMakeIter) &&
      t.instrs[start] == IrInst(A.OpIterNext, |t.instrs|, 0) &&
      t.instrs[|t.instrs| - 1] == IrInst(A.OpJump, start, 0)
  {
    var s1 := Gen(n.collection, s, reading).st;
    var s2 := Emit(s1, Plain(A.OpMakeIter));
    var start := |s2.instrs|;
    var s3 := Emit(s2, Plain(A.OpIterNext));
    GenKeepsAt(n.decl, s3, reading, start - 1);
    GenKeepsAt(n.decl, s3, reading, start);
    var s4 := Gen(n.decl, s3, reading).st;
    assert GenForeach(n, s, reading) == ForeachBody(n, s4, start, reading);
    ForeachBodyLayout(n, s4, start, reading);
  }

  /** The rest of the loop: the `ITER_NEXT` at `start` patched to the end, the jump back last, the instruction before kept. */
  lemma ForeachBodyLayout(n: Node, s: CState, start: nat, reading: Reading)
    requires n.Foreach? && Shaped(n) && 0 < start < |s.instrs| && ForeachBody(n, s, start, reading).Done?
    ensures var t := ForeachBody(n, s, start, reading).st;
      |s.instrs| < |t.instrs| && t.instrs[start - 1] == s.instrs[start - 1] &&
      t.instrs[start] == s.instrs[start].(a0 := |t.instrs|) &&
      t.instrs[|t.instrs| - 1] == IrInst(A.OpJump, start, 0)
  {
    var v := Lookup(s.locals, n.decl.name).value.value;
    var s5 := Emit(s, IrInst(A.OpStoreLocal, v.idx, 0));
    GenKeepsAt(n.during, s5, reading, start - 1);
    GenKeepsAt(n.during, s5, reading, start);
    var s6 := Gen(n.during, s5, reading).st;
    var s7 := Emit(s6, IrInst(A.OpJump, start, 0));
    assert ForeachBody(n, s, start, reading).st == Patch(s7, start, |s7.instrs|);
  }

  // ----------------------------------------------------- addresses and bytes

  /** Addresses depend only on the opcodes, not on the operands. */
  lemma {:induction false} AddrSameOps(a: seq<IrInst>, b: seq<IrInst>, i: nat)
    requires |a| == |b| && i <= |a|
    requires forall k :: 0 <= k < |a| ==> a[k].opcode == b[k].opcode
    ensures Addr(a, i) == Addr(b, i)
  {
    if i > 0 {
      AddrSameOps(a, b, i - 1);
    }
  }

  /** The address of instruction `i` is the length of the bytes written before it. */
  lemma {:induction false} AddrIsOffset(instrs: seq<IrInst>, i: nat)
    requires i <= |instrs|
    ensures Addr(instrs, i) == |CC.Flatten(Chunks(instrs)[..i])|
  {
    if i > 0 {
      AddrIsOffset(instrs, i - 1);
      CF.FlattenPrefix(Chunks(instrs)[..i], i - 1);
      assert Chunks(instrs)[..i][..i - 1] == Chunks(instrs)[..i - 1];
    }
  }

  /** The program is as long as the address just past its last instruction. */
  lemma BytesLength(instrs: seq<IrInst>)
    ensures |Bytes(instrs)| == Addr(instrs, |instrs|)
  {
    AddrIsOffset(instrs, |instrs|);
    assert Chunks(instrs)[..|instrs|] == Chunks(instrs);
  }

  /** The parts of one instruction's bytes. */
  lemma InstBytesParts(ins: IrInst)
    ensures var ib := InstBytes(ins);
      ib[0] == OpByte(ins.opcode) &&
      (OpArgCount(ins.opcode) >= 1 ==> ib[1..5] == ShUtils.U32Bytes(CC.U32(ins.a0))) &&
      (OpArgCount(ins.opcode) == 2 ==> ib[5..9] == ShUtils.U32Bytes(CC.U32(ins.a1)))
  {
  }

  /** The bytes of `ins` stand at `a` in `b`. */
  predicate Placed(b: seq<bv8>, a: nat, ins: IrInst) {
    a + Width(ins) <= |b| && b[a .. a + Width(ins)] == InstBytes(ins)
  }

  /** What a reader finds at `a` in `b`: the opcode byte of `ins`, then its operands as little-endian words. */
  predicate Decoded(b: seq<bv8>, a: nat, ins: IrInst) {
    a + Width(ins) <= |b| && b[a] == OpByte(ins.opcode) &&
    (OpArgCount(ins.opcode) >= 1 ==> ShUtils.ReadU32(b, a + 1) == CC.U32(ins.a0)) &&
    (OpArgCount(ins.opcode) == 2 ==> ShUtils.ReadU32(b, a + 5) == CC.U32(ins.a1))
  }

  /** An instruction's bytes inside a byte string, read back. */
  lemma DecodeAt(b: seq<bv8>, a: nat, ins: IrInst)
    requires Placed(b, a, ins)
    ensures Decoded(b, a, ins)
  {
    var ib := InstBytes(ins);
    InstBytesParts(ins);
    var c := b[a .. a + Width(ins)];
    assert b[a] == c[0] == ib[0];
    if OpArgCount(ins.opcode) >= 1 {
      assert forall k :: 0 <= k < 4 ==> b[a + 1 .. a + 5][k] == b[a + 1 + k] == c[1 + k] == c[1..5][k];
      assert b[a + 1 .. a + 5] == c[1..5];
      CF.ReadWord(b, a + 1, CC.U32(ins.a0));
    }
    if OpArgCount(ins.opcode) == 2 {
      assert forall k :: 0 <= k < 4 ==> b[a + 5 .. a + 9][k] == b[a + 5 + k] == c[5 + k] == c[5..9][k];
      assert b[a + 5 .. a + 9] == c[5..9];
      CF.ReadWord(b, a + 5, CC.U32(ins.a1));
    }
  }

  /** Instruction `i` is written at its address. */
  lemma BytesAt(instrs: seq<IrInst>, i: nat)
    requires i < |instrs|
    ensures Placed(Bytes(instrs), Addr(instrs, i), instrs[i])
  {
    var cs := Chunks(instrs);
    CF.FlattenAt(cs, i);
    AddrIsOffset(instrs, i);
    assert cs[i] == InstBytes(instrs[i]);
  }

  /**
   * Reading the program back: at the address of instruction `i` stands its
   * opcode byte, followed by its operands as little-endian 32-bit words.
   */
  lemma Decode(instrs: seq<IrInst>, i: nat)
    requires i < |instrs|
    ensures Decoded(Bytes(instrs), Addr(instrs, i), instrs[i])
  {
    BytesAt(instrs, i);
    DecodeAt(Bytes(instrs), Addr(instrs, i), instrs[i]);
  }

  // -------------------------------------------------------------- retargeting

  /** The operand of instruction `i` is one the reading's table has an address for, or untargeted. */
  predicate InRange(instrs: seq<IrInst>, i: nat, reading: Reading)
    requires i < |instrs|
  {
    !IsTargeted(instrs[i].opcode) || InTable(instrs, instrs[i].a0, reading)
  }

  /** Instruction `i` with a targeted operand replaced by the address it indexes. */
  function Retargeted(instrs: seq<IrInst>, i: nat): (r: IrInst)
    requires i < |instrs| && InRange(instrs, i, Corrected)
    ensures r.opcode == instrs[i].opcode && r.a1 == instrs[i].a1
    ensures IsTargeted(r.opcode) ==> r.a0 == Addr(instrs, instrs[i].a0)
    ensures !IsTargeted(r.opcode) ==> r == instrs[i]
  {
    if IsTargeted(instrs[i].opcode) then instrs[i].(a0 := Addr(instrs, instrs[i].a0)) else instrs[i]
  }

  /** Retargeting succeeds exactly when every targeted operand is in the table; it fails only out of bounds. */
  lemma {:induction false} RetargetOk(instrs: seq<IrInst>, i: nat, reading: Reading)
    requires i <= |instrs|
    ensures var r := RetargetFrom(instrs, i, reading);
      (r.Ok? <==> forall j :: i <= j < |instrs| ==> InRange(instrs, j, reading)) &&
      (r.Err? ==> r.error == OutOfBounds)
    decreases |instrs| - i
  {
    if i < |instrs| {
      RetargetOk(instrs, i + 1, reading);
      if !InRange(instrs, i, reading) {
        assert Retarget(instrs, i, reading).Err?;
      }
    }
  }

  /**
   * A successful retargeting replaces each targeted operand by the address
   * of the instruction it indexes and leaves everything else alone.
   */
  lemma {:induction false} RetargetValues(instrs: seq<IrInst>, i: nat, reading: Reading)
    requires i <= |instrs| && RetargetFrom(instrs, i, reading).Ok?
    ensures var out := RetargetFrom(instrs, i, reading).value;
      forall j :: i <= j < |instrs| ==> InRange(instrs, j, Corrected) && out[j - i] == Retargeted(instrs, j)
    decreases |instrs| - i
  {
    if i < |instrs| {
      RetargetValues(instrs, i + 1, reading);
    }
  }

  /** The instructions a compiled tree leaves with the entry point patched, before retargeting. */
  function PatchedOf(o: Outcome): (r: Option<seq<IrInst>>)
    requires o.Done? ==> 0 < |o.st.instrs|
  {
    match o
    case Crashed(_) => None
    case Done(t) =>
      match Lookup(t.functions, MainRef)
      case Ok(Some(v)) => Some(Patch(t, 0, v.idx).instrs)
      case _ => None
  }

  /** Compiling from the tree to the instructions with the entry point patched, before retargeting. */
  function Patched(node: Node, reading: Reading): (r: Option<seq<IrInst>>)
    requires Shaped(node)
  {
    PatchedOf(Gen(node, StartState(), reading))
  }

  /** `Finish` fails before retargeting when `PatchedOf` has nothing, and otherwise writes its retargeted form. */
  lemma FinishViaPatched(o: Outcome, reading: Reading)
    requires o.Done? ==> 0 < |o.st.instrs|
    ensures PatchedOf(o).None? ==> Finish(o, reading).Err?
    ensures PatchedOf(o).Some? ==>
      var r := RetargetFrom(PatchedOf(o).value, 0, reading);
      (Finish(o, reading).Ok? <==> r.Ok?) && (r.Ok? ==> Finish(o, reading).value.code == Bytes(r.value))
  {
  }

  /** The compiled tree keeps the entry point as its first instruction. */
  lemma GenStarts(node: Node, reading: Reading)
    requires Shaped(node)
    ensures var o := Gen(node, StartState(), reading);
      o.Done? ==> 0 < |o.st.instrs| && o.st.instrs[0] == Plain(OpEntryPoint)
  {
    if Gen(node, StartState(), reading).Done? {
      GenKeepsAt(node, StartState(), reading, 0);
    }
  }

  /**
   * Corrected, the instructions left behind start with the entry point,
   * which indexes an instruction, and every targeted operand is at most
   * the instruction count.
   */
  lemma PatchedShape(node: Node)
    requires Shaped(node) && Patched(node, Corrected).Some?
    ensures var instrs := Patched(node, Corrected).value;
      0 < |instrs| && instrs[0].opcode == OpEntryPoint && instrs[0].a0 < |instrs| &&
      forall j :: 0 <= j < |instrs| ==> InRange(instrs, j, Corrected)
  {
    var s0 := StartState();
    assert Inv(s0, Corrected);
    GenGood(node, s0, Corrected);
    var t := Gen(node, s0, Corrected).st;
    LookupBound(t.functions, MainRef, Start(t.functions, MainRef), 0, |t.instrs|);
    assert t.instrs[0] == t.instrs[..1][0];
    var u := Patch(t, 0, Lookup(t.functions, MainRef).value.value.idx);
    assert forall j :: 0 < j < |t.instrs| ==> u.instrs[j] == t.instrs[j];
  }

  /** Corrected, compiling never fails while retargeting: every failure is the generator's or a missing `main`. */
  lemma CorrectedNeverOutOfBounds(node: Node)
    requires Shaped(node)
    ensures Compile(node, Corrected).Err? ==> Patched(node, Corrected).None?
  {
    GenStarts(node, Corrected);
    FinishViaPatched(Gen(node, StartState(), Corrected), Corrected);
    if Patched(node, Corrected).Some? {
      PatchedShape(node);
      RetargetOk(Patched(node, Corrected).value, 0, Corrected);
    }
  }

  /**
   * As written, instructions some jump of which indexes the instruction
   * just past the last one (a trailing `if`, see `IfLayout`) are refused
   * with an out-of-bounds read of the address table; the corrected table,
   * one entry longer, takes them.
   */
  lemma EndJumpAsWritten(instrs: seq<IrInst>, j: nat)
    requires TargetsIn(instrs)
    requires j < |instrs| && IsTargeted(instrs[j].opcode) && instrs[j].a0 == |instrs|
    ensures RetargetFrom(instrs, 0, AsWritten) == Err(OutOfBounds)
    ensures RetargetFrom(instrs, 0, Corrected).Ok?
  {
    RetargetOk(instrs, 0, AsWritten);
    assert !InRange(instrs, j, AsWritten);
    RetargetOk(instrs, 0, Corrected);
  }

  /**
   * The written program, corrected: it starts with the `ENTRY_POINT` byte
   * followed by the address of the instruction the entry point indexes
   * (the frame of `main`).
   */
  lemma CompileEntry(node: Node)
    requires Shaped(node) && Patched(node, Corrected).Some?
    ensures Compile(node, Corrected).Ok?
    ensures var instrs := Patched(node, Corrected).value;
      var code := Compile(node, Corrected).value.code;
      0 < |instrs| && instrs[0].a0 < |instrs| && 5 <= |code| && code[0] == OpByte(OpEntryPoint) &&
      ShUtils.ReadU32(code, 1) == CC.U32(Addr(instrs, instrs[0].a0))
  {
    var instrs := Patched(node, Corrected).value;
    PatchedShape(node);
    RetargetOk(instrs, 0, Corrected);
    GenStarts(node, Corrected);
    FinishViaPatched(Gen(node, StartState(), Corrected), Corrected);
    EntryRetargeted(instrs);
  }

  /** The bytes of retargeted instructions that start with the entry point. */
  lemma EntryRetargeted(instrs: seq<IrInst>)
    requires 0 < |instrs| && instrs[0].opcode == OpEntryPoint && RetargetFrom(instrs, 0, Corrected).Ok?
    ensures var code := Bytes(RetargetFrom(instrs, 0, Corrected).value);
      5 <= |code| && code[0] == OpByte(OpEntryPoint) &&
      ShUtils.ReadU32(code, 1) == CC.U32(Addr(instrs, instrs[0].a0))
  {
    RetargetValues(instrs, 0, Corrected);
    var code := RetargetFrom(instrs, 0, Corrected).value;
    assert code[0 - 0] == Retargeted(instrs, 0);
    Decode(code, 0);
  }

  /** One operand out of range makes the whole retargeting fail. */
  lemma RetargetFails(instrs: seq<IrInst>, i: nat, reading: Reading)
    requires i < |instrs| && !InRange(instrs, i, reading)
    ensures RetargetFrom(instrs, 0, reading) == Err(OutOfBounds)
  {
    RetargetOk(instrs, 0, reading);
  }

  /** Instructions that are each the retargeted form of the original are the result of retargeting. */
  lemma RetargetAll(instrs: seq<IrInst>, out: seq<IrInst>, reading: Reading)
    requires |out| == |instrs|
    requires forall j :: 0 <= j < |instrs| ==> InRange(instrs, j, reading) && InRange(instrs, j, Corrected)
    requires forall j :: 0 <= j < |instrs| ==> out[j] == Retargeted(instrs, j)
    ensures RetargetFrom(instrs, 0, reading) == Ok(out)
  {
    RetargetOk(instrs, 0, reading);
    RetargetValues(instrs, 0, reading);
    var v := RetargetFrom(instrs, 0, reading).value;
    forall j | 0 <= j < |instrs|
      ensures v[j] == out[j]
    {
      assert v[j - 0] == Retargeted(instrs, j);
    }
    assert v == out;
  }
}
