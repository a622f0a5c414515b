/**
 * The compiler state of `adder/compiler/co_compiler.c` as the program keeps
 * it: one record whose instruction list is appended to and back-patched in
 * place, whose locals are added and cleared, and whose result code records
 * the first error. Each `codegen_*` routine is a method proved to leave the
 * state the generator functions of `CoCompiler` describe.
 */
module CoCompilerImpl {
  import opened Wrappers
  import opened CoTypes
  import CoAst
  import CoUtils
  import ShUtils
  import P = CoParser
  import opened CoCompiler
  import F = CoCompilerFacts

  class Compiler {
    var instrs: seq<Inst>
    var localvars: seq<SrcRef>
    var functions: seq<(SrcRef, nat)>
    var consts: seq<Const>
    var code: CresCode

    /** The state as a value. */
    function St(): CState
      reads this
    {
      CState(instrs, localvars, functions, consts, code)
    }

    /** A call that crashed with `crash`, or did not and left the state `r` gives. */
    predicate Follows(r: Outcome, crash: Option<Abort>)
      reads this
    {
      match r
      case Done(t) => crash.None? && St() == t
      case Crashed(a) => crash == Some(a)
    }

    /** The state `gvm_compile` sets up: everything empty, the caller's result code. */
    constructor (status: CresCode)
      ensures St() == CState([], [], [], [], status)
    {
      instrs := [];
      localvars := [];
      functions := [];
      consts := [];
      code := status;
    }

    /** `irl_add`: appends an instruction and answers its index. */
    method Add(i: Inst) returns (idx: nat)
      modifies this
      ensures St() == Emit(old(St()), i) && idx == |old(instrs)|
    {
      idx := |instrs|;
      instrs := instrs + [i];
    }

    /** `irl_get(...)->args[0] = v`. */
    method SetTarget(at: nat, v: nat)
      requires at < |instrs|
      modifies this
      ensures St() == Patch(old(St()), at, v)
    {
      instrs := instrs[at := instrs[at].(a0 := v)];
    }

    /** `codegen`. */
    method Codegen(n: P.Ast) returns (crash: Option<Abort>)
      requires Shaped(n)
      modifies this
      ensures Follows(Gen(n, old(St())), crash)
      decreases n, 3
    {
      if code != ROk {
        return None;
      }
      ghost var s0 := St();
      match n
      case Binop(_, _, _) =>
        crash := CodegenBinop(n);
        assert Follows(Gen(n, s0), crash);
      case Unop(_, _) =>
        crash := CodegenUnop(n);
        assert Follows(Gen(n, s0), crash);
      case Assign(_, _) =>
        crash := CodegenAssign(n);
        assert Follows(Gen(n, s0), crash);
      case ArrayLit(_) =>
        crash := CodegenArray(n);
        assert Follows(Gen(n, s0), crash);
      case Return(v) =>
        crash := Codegen(v);
        if crash.None? {
          var _ := Add(Plain(Return));
        }
        assert Follows(Gen(n, s0), crash);
      case Block(_) =>
        crash := CodegenItems(n);
        assert Follows(Gen(n, s0), crash);
      case IfChain(_, _, _) =>
        crash := CodegenIfChain(n);
        assert Follows(Gen(n, s0), crash);
      case Foreach(_, _, _) =>
        crash := CodegenForeach(n);
        assert Follows(Gen(n, s0), crash);
      case FunDecl(_, _, _) =>
        crash := CodegenFunDecl(n);
        assert Follows(Gen(n, s0), crash);
      case FunCall(name, args) =>
        crash := Codegen(args);
        if crash.None? {
          var k := FuncAddr(St(), name);
          if k.None? {
            return Some(AssertFailed("Function not found (not declared)"));
          }
          var _ := Add(Inst(Call, k.value, 0));
        }
        assert Follows(Gen(n, s0), crash);
      case VarRef(name) =>
        var k := LocalIndex(St(), name);
        if k.None? {
          return Some(AssertFailed("variable not found"));
        }
        var _ := Add(Inst(LoadLocal, k.value, 0));
        crash := None;
        assert Follows(Gen(n, s0), crash);
      case NumberLit(_) =>
        crash := CodegenValue(n);
        assert Follows(Gen(n, s0), crash);
      case BoolLit(_) =>
        crash := CodegenValue(n);
        assert Follows(Gen(n, s0), crash);
      case StringLit(_) =>
        crash := CodegenValue(n);
        assert Follows(Gen(n, s0), crash);
      case VarDecl(name, _) =>
        if LocalIndex(St(), name).None? {
          localvars := localvars + [name];
        }
        crash := None;
        assert Follows(Gen(n, s0), crash);
      case Break =>
        crash := Some(AssertFailed("break op is not implemented yet"));
        assert Follows(Gen(n, s0), crash);
      case FunSign(_, _) =>
        crash := Some(AssertFailed("function signature is not implemented"));
        assert Follows(Gen(n, s0), crash);
    }

    /** The loop over the items of a block or an array. */
    method CodegenItems(n: P.Ast) returns (crash: Option<Abort>)
      requires (n.Block? || n.ArrayLit?) && Shaped(n)
      modifies this
      ensures Follows(GenItems(n, 0, old(St())), crash)
      decreases n, 1
    {
      ghost var s0 := St();
      var i := 0;
      while i < |Items(n)|
        invariant i <= |Items(n)| && GenItems(n, 0, s0) == GenItems(n, i, St())
      {
        crash := Codegen(Items(n)[i]);
        if crash.Some? {
          return;
        }
        i := i + 1;
      }
      crash := None;
    }

    /** `codegen_binop`. */
    method CodegenBinop(n: P.Ast) returns (crash: Option<Abort>)
      requires n.Binop? && Shaped(n)
      modifies this
      ensures Follows(GenBinop(n, old(St())), crash)
      decreases n, 2
    {
      crash := Codegen(n.rhs);
      if crash.Some? {
        return;
      }
      crash := Codegen(n.lhs);
      if crash.Some? {
        return;
      }
      match BinopCode(n.op)
      case Some(op) =>
        var _ := Add(Plain(op));
      case None =>
        if code == ROk {
          code := RErrCompilation;
        }
    }

    /** `codegen_unop`. */
    method CodegenUnop(n: P.Ast) returns (crash: Option<Abort>)
      requires n.Unop? && Shaped(n)
      modifies this
      ensures Follows(GenUnop(n, old(St())), crash)
      decreases n, 2
    {
      crash := Codegen(n.inner);
      if crash.None? {
        var _ := Add(Plain(if n.uop == CoAst.Neg then Neg else Not));
      }
    }

    /** `codegen_value`. */
    method CodegenValue(n: P.Ast) returns (crash: Option<Abort>)
      requires n.NumberLit? || n.BoolLit? || n.StringLit?
      modifies this
      ensures Follows(GenValue(n, old(St())), crash)
    {
      var k: nat;
      match n {
      case NumberLit(ref) =>
        var (i, cs) := InsertConst(consts, Number(LiteralValue(ref)));
        k, consts := i, cs;
      case BoolLit(b) =>
        var (i, cs) := InsertConst(consts, Bool(b));
        k, consts := i, cs;
      case StringLit(ref) =>
        if ref.source.None? {
          return Some(NullDereference);
        }
        if ShUtils.At(ref.source.value.text, ref.start) != '"' {
          if code == ROk {
            code := RErrCompilation;
          }
          return None;
        }
        var (i, cs) := AppendArray(consts, StringChars(ref));
        k, consts := i, cs;
      }
      var _ := Add(Inst(PushValue, k, 0));
      crash := None;
    }

    /** The `AST_ARRAY` case of `codegen`. */
    method CodegenArray(n: P.Ast) returns (crash: Option<Abort>)
      requires n.ArrayLit? && Shaped(n)
      modifies this
      ensures Follows(GenArray(n, old(St())), crash)
      decreases n, 2
    {
      crash := CodegenItems(n);
      if crash.Some? {
        return;
      }
      var (k, cs) := InsertConst(consts, Number(|n.items| as real));
      consts := cs;
      var _ := Add(Inst(PushValue, k, 0));
      var _ := Add(Plain(MakeArray));
    }

    /** `codegen_assignment`. */
    method CodegenAssign(n: P.Ast) returns (crash: Option<Abort>)
      requires n.Assign? && Shaped(n)
      modifies this
      ensures Follows(GenAssign(n, old(St())), crash)
      decreases n, 2
    {
      crash := Codegen(n.value);
      if crash.Some? {
        return;
      }
      if !(n.target.VarDecl? || n.target.VarRef?) {
        return Some(AssertFailed("expected variable node as LSH in assignment"));
      }
      if n.target.VarDecl? {
        crash := Codegen(n.target);
        if crash.Some? {
          return;
        }
      }
      if |localvars| == 0 {
        return Some(AssertFailed("local vars was empty"));
      }
      var k := LocalIndex(St(), n.target.ref);
      if k.None? {
        return Some(AssertFailed("varname not found"));
      }
      var _ := Add(Inst(StoreLocal, k.value, 0));
    }

    /** `codegen_foreach`. */
    method CodegenForeach(n: P.Ast) returns (crash: Option<Abort>)
      requires n.Foreach? && Shaped(n)
      modifies this
      ensures Follows(GenForeach(n, old(St())), crash)
      decreases n, 2
    {
      crash := Codegen(n.collection);
      if crash.Some? {
        return;
      }
      var _ := Add(Plain(MakeIter));
      var start := Add(Plain(IterNext));
      crash := Codegen(n.decl);
      if crash.Some? {
        return;
      }
      var k := LocalIndex(St(), n.decl.ref);
      if k.None? {
        return Some(AssertFailed("variable not found"));
      }
      var _ := Add(Inst(StoreLocal, k.value, 0));
      crash := Codegen(n.body);
      if crash.Some? {
        return;
      }
      var _ := Add(Inst(Jump, start, 0));
      SetTarget(start, |instrs|);
    }

    /** `codegen_fundecl`. */
    method CodegenFunDecl(n: P.Ast) returns (crash: Option<Abort>)
      requires n.FunDecl? && Shaped(n)
      modifies this
      ensures Follows(GenFunDecl(n, old(St())), crash)
      decreases n, 2
    {
      if !n.args.Block? {
        return Some(AssertFailed("node.args->type == AST_BLOCK"));
      }
      if |localvars| != 0 {
        return Some(AssertFailed("Function declared inside function?"));
      }
      if FuncAddr(St(), n.sign.ref).Some? {
        return Some(AssertFailed("ok == true"));
      }
      var frame := Add(Plain(MakeFrame));
      functions := functions + [(n.sign.ref, frame)];
      localvars := [];
      crash := Codegen(n.args);
      if crash.Some? {
        return;
      }
      var argCount := |localvars|;
      crash := Codegen(n.body);
      if crash.Some? {
        return;
      }
      instrs := instrs[frame := Inst(MakeFrame, argCount, Sub32(|localvars|, argCount))];
      localvars := [];
    }

    /**
     * `codegen_if_chain`: the loop over the arms, the else block, and the
     * loop patching the exit jumps to the end.
     */
    method CodegenIfChain(n: P.Ast) returns (crash: Option<Abort>)
      requires n.IfChain? && Shaped(n)
      modifies this
      ensures Follows(GenIf(n, old(St())), crash)
      decreases n, 2
    {
      ghost var s0 := St();
      var current := n;
      var exits: seq<nat> := [];
      while current.IfChain?
        invariant (current == n || current < n) && Shaped(current)
        invariant current.IfChain? ==> GenArms(n, s0, []) == GenArms(current, St(), exits)
        invariant !current.IfChain? ==> GenArms(n, s0, []) == ArmsAfter(current, St(), exits)
        decreases current
      {
        crash, exits := CodegenArm(current, exits);
        if crash.Some? {
          return;
        }
        current := current.next;
      }
      if ValidElse(current) {
        crash := Codegen(current);
        if crash.Some? {
          return;
        }
      }
      PatchExits(exits);
      crash := None;
    }

    /**
     * One round of the arm loop of `codegen_if_chain`: the condition, the
     * test jump, the arm, an exit jump when another arm or an else block
     * follows, and the test patched to the next arm.
     */
    method CodegenArm(current: P.Ast, exits: seq<nat>) returns (crash: Option<Abort>, exits2: seq<nat>)
      requires current.IfChain? && Shaped(current)
      modifies this
      ensures crash.Some? ==> GenArms(current, old(St()), exits) == ArmsCrashed(crash.value)
      ensures crash.None? && current.next.IfChain? ==> GenArms(current, old(St()), exits) == GenArms(current.next, St(), exits2)
      ensures crash.None? && !current.next.IfChain? ==> GenArms(current, old(St()), exits) == ArmsAfter(current.next, St(), exits2)
      decreases current, 1
    {
      exits2 := exits;
      crash := Codegen(current.cond);
      if crash.Some? {
        return;
      }
      var test := Add(Plain(JumpIfFalse));
      crash := Codegen(current.ifTrue);
      if crash.Some? {
        return;
      }
      var next := current.next;
      if next.IfChain? || ValidElse(next) {
        var e := Add(Plain(Jump));
        exits2 := exits + [e];
      }
      SetTarget(test, |instrs|);
    }

    /** The closing loop of `codegen_if_chain`: every exit jump targets the end of the chain. */
    method PatchExits(exits: seq<nat>)
      modifies this
      ensures St() == PatchAll(old(St()), exits, |old(instrs)|)
    {
      ghost var t := St();
      var end := |instrs|;
      var i := 0;
      while i < |exits|
        invariant i <= |exits| && |instrs| == end
        invariant PatchAll(St(), exits[i..], end) == PatchAll(t, exits, end)
      {
        if exits[i] < |instrs| {
          SetTarget(exits[i], end);
        }
        i := i + 1;
      }
    }

    /**
     * `recalc_index_to_bytecode_adress`: every targeted operand rewritten
     * in place to the address the table gives for it; an index the table
     * does not have is read out of bounds.
     */
    method Recalc(reading: Reading) returns (err: Option<Abort>)
      modifies this
      ensures match RetargetFrom(old(instrs), 0, reading)
        case Ok(v) => err.None? && instrs == v
        case Err(a) => err == Some(a)
      ensures localvars == old(localvars) && functions == old(functions) && consts == old(consts) && code == old(code)
    {
      var irs := instrs;
      var idx2addr := AddressTable(irs, reading);
      var count := |irs|;
      var i := 0;
      while i < count
        invariant i <= count && |irs| == count
        invariant forall j :: i <= j < count ==> irs[j] == instrs[j]
        invariant forall j :: 0 <= j < i ==> F.InRange(instrs, j, reading) && F.InRange(instrs, j, Corrected)
        invariant forall j :: 0 <= j < i ==> irs[j] == F.Retargeted(instrs, j)
      {
        if IsTargeted(irs[i].op) {
          var index := irs[i].a0;
          if index >= idx2addr.Length {
            F.RetargetFails(instrs, i, reading);
            return Some(OutOfBounds);
          }
          irs := irs[i := irs[i].(a0 := idx2addr[index])];
        }
        i := i + 1;
      }
      F.RetargetAll(instrs, irs, reading);
      instrs := irs;
      err := None;
    }

    /** The four little-endian bytes of one operand, as `write_program` writes them. */
    method WriteWord(bytecode: CoUtils.U8Buffer, value: bv32)
      requires bytecode.Valid()
      modifies bytecode, bytecode.data
      ensures bytecode.Valid() && bytecode.Contents() == old(bytecode.Contents()) + ShUtils.U32Bytes(value)
      ensures bytecode.data == old(bytecode.data) || fresh(bytecode.data)
    {
      ghost var before := bytecode.Contents();
      // the four bytes `(value >> 0) & 0xFF` … `(value >> 24) & 0xFF`, low first
      var w := ShUtils.U32Bytes(value);
      bytecode.Write(w[0]);
      bytecode.Write(w[1]);
      bytecode.Write(w[2]);
      bytecode.Write(w[3]);
      assert before + [w[0]] + [w[1]] + [w[2]] + [w[3]] == before + w;
    }

    /** One turn of the loop of `write_program`: the opcode, then each operand. */
    method WriteInst(bytecode: CoUtils.U8Buffer, ins: Inst)
      requires bytecode.Valid()
      modifies bytecode, bytecode.data
      ensures bytecode.Valid() && bytecode.Contents() == old(bytecode.Contents()) + InstBytes(ins)
      ensures bytecode.data == old(bytecode.data) || fresh(bytecode.data)
    {
      ghost var before := bytecode.Contents();
      bytecode.Write(Code(ins.op));
      var argcount := ArgCount(ins.op);
      var j := 0;
      while j < argcount
        invariant j <= argcount && bytecode.Valid()
        invariant bytecode.data == old(bytecode.data) || fresh(bytecode.data)
        invariant bytecode.Contents() == before + [Code(ins.op)] +
          (if j >= 1 then ShUtils.U32Bytes(U32(ins.a0)) else []) +
          (if j >= 2 then ShUtils.U32Bytes(U32(ins.a1)) else [])
      {
        WriteWord(bytecode, if j == 0 then U32(ins.a0) else U32(ins.a1));
        j := j + 1;
      }
    }

    /** `write_program`: the instructions' bytes, then the program with the constants. */
    method WriteProgram() returns (p: Program)
      ensures p == Program(Bytes(instrs), consts)
    {
      var bytecode := new CoUtils.U8Buffer(|instrs|);
      var i := 0;
      while i < |instrs|
        invariant i <= |instrs| && bytecode.Valid() && fresh(bytecode) && fresh(bytecode.data)
        invariant bytecode.Contents() == Flatten(Chunks(instrs)[..i])
      {
        WriteInst(bytecode, instrs[i]);
        assert Chunks(instrs)[..i + 1][..i] == Chunks(instrs)[..i];
        i := i + 1;
      }
      assert Chunks(instrs)[..i] == Chunks(instrs);
      p := Program(bytecode.data[..bytecode.size], consts);
    }
  }

  /**
   * The first loop of `recalc_index_to_bytecode_adress`: the address of
   * each instruction. As written the table has one entry per instruction;
   * corrected it has one more, the end of the code.
   */
  method AddressTable(instrs: seq<Inst>, reading: Reading) returns (idx2addr: array<nat>)
    ensures fresh(idx2addr) && idx2addr.Length == |instrs| + (if reading == Corrected then 1 else 0)
    ensures forall j :: 0 <= j < idx2addr.Length ==> idx2addr[j] == Addr(instrs, j)
  {
    var count := |instrs|;
    idx2addr := new nat[if reading == Corrected then count + 1 else count];
    var addr := 0;
    var i := 0;
    while i < count
      invariant i <= count && addr == Addr(instrs, i)
      invariant idx2addr[..i] == seq(i, j requires 0 <= j < i => Addr(instrs, j))
    {
      idx2addr[i] := addr;
      assert idx2addr[..i + 1] == idx2addr[..i] + [Addr(instrs, i)];
      addr := addr + 4 * ArgCount(instrs[i].op) + 1;
      i := i + 1;
    }
    if reading == Corrected {
      idx2addr[count] := addr;
    }
    assert forall j :: 0 <= j < count ==> idx2addr[j] == idx2addr[..count][j];
  }

  /** What the arms loop does once no arm is left: the else block, when it is not empty. */
  function ArmsAfter(next: P.Ast, s: CState, exits: seq<nat>): Arms
    requires Shaped(next)
  {
    if ValidElse(next) then
      match Gen(next, s)
      case Crashed(a) => ArmsCrashed(a)
      case Done(s6) => ArmsDone(s6, exits)
    else ArmsDone(s, exits)
  }

  /** `gvm_compile`, run on a fresh compiler state. */
  method GvmCompile(node: P.Ast, status: CresCode, reading: Reading) returns (r: Result<(Program, CresCode), Abort>)
    requires Shaped(node)
    ensures r == Compile(node, status, reading)
  {
    var c := new Compiler(status);
    var entrypoint := c.Add(Plain(EntryPoint));
    var crash := c.Codegen(node);
    if crash.Some? {
      return Err(crash.value);
    }
    if c.code != ROk {
      return Ok((EmptyProgram, c.code));
    }
    var index := FuncAddr(c.St(), MainRef);
    if index.None? {
      return Ok((EmptyProgram, RErrCompilation));
    }
    c.SetTarget(entrypoint, index.value);
    var err := c.Recalc(reading);
    if err.Some? {
      return Err(err.value);
    }
    var program := c.WriteProgram();
    return Ok((program, c.code));
  }
}
