/**
 * `gvm/gvm.c`: creating the grid machine, running a program on it, and
 * listing a program's instructions.
 *
 * The grid machine runs the instructions of `VmCore` on the opcode
 * numbering of `GvmAsmUtils`, with operands read by the `READ_U32` of
 * `gvm/gvm_asmutils.h` (which `gvm/gvm_validate.h` brings in). It starts
 * at code position 0 with the arguments of its execution arguments pushed
 * and runs for the cycle limit given there; a return with no frame to go
 * back to leaves the stack as it is. Two defects of the file are modelled
 * both ways (`Reading`): the operand read, and the return position a call
 * pushes, two bytes past the opcode's end where the operand is four bytes
 * long. `gvm_program_disassemble` lists a program's instructions.
 */
module Gvm {
  import opened Wrappers
  import opened ShValue
  import ShUtils
  import opened VmCore
  import A = GvmAsmUtils
  import Vm
  import G = GvmCompiler
  import F = GvmCompilerFacts
  import CC = CoCompiler

  // ------------------------------------------------------------ creation

  /**
   * `gvm_create`: the stack and the heap sizes are added in a C `int`; a
   * total above the addressable maximum is refused; the block is allocated
   * for the total (its byte count computed as in `vm_create`) and the mark
   * words for the heap; the heap follows the stack.
   */
  function Create(stackSize: int, dynSize: int, granted: int -> bool, reading: Reading): (r: Option<Vm.Layout>)
    ensures I32(stackSize + dynSize) > MaxAddressable as int ==> r.None?
    ensures r.Some? ==> (r.value.memSize == I32(stackSize + dynSize) && r.value.stackSize == stackSize &&
      r.value.heapStart == stackSize && r.value.heapSize == dynSize)
  {
    var total := I32(stackSize + dynSize);
    if total > MaxAddressable as int then None
    else
      var bytes := Vm.BlockBytes(total, reading);
      if !granted(bytes) || !granted(Vm.MarkBytes(dynSize)) then None
      else Some(Vm.Layout(bytes, total, stackSize, stackSize, dynSize))
  }

  /** Corrected, a created machine's block holds all its values, and the heap ends where the block does. */
  lemma CreateCorrectedFits(stackSize: int, dynSize: int, granted: int -> bool)
    requires 0 <= stackSize && 0 <= dynSize && stackSize + dynSize < 0x8000_0000
    ensures var r := Create(stackSize, dynSize, granted, Corrected);
      r.Some? ==> (r.value.blockBytes == 8 * r.value.memSize && r.value.heapStart + r.value.heapSize == r.value.memSize)
  {
  }

  /** As written, a stack and a heap of `0x1000_0000` values each are created on a block of zero bytes. */
  lemma CreateAsWrittenUndersized(granted: int -> bool)
    requires granted(0) && granted(Vm.MarkBytes(0x1000_0000))
    ensures var r := Create(0x1000_0000, 0x1000_0000, granted, AsWritten);
      r.Some? && r.value.memSize == 0x2000_0000 && r.value.blockBytes == 0
  {
    assert I32(0x2000_0000 * 8) == 0;
  }

  // ------------------------------------------------------------ decoding

  /** A 32-bit operand at `at`: as written by the faulty `READ_U32`, corrected by the shared one. */
  function Operand(code: seq<bv8>, at: int, reading: Reading): (r: Result<int, Abort>)
    ensures r.Ok? <==> 0 <= at && at + 4 <= |code|
    ensures r.Ok? && reading == Corrected ==> r.value == ShUtils.ReadU32(code, at) as int
    ensures r.Ok? && reading == AsWritten ==> r.value == A.ReadU32AsWritten(code, at) as int
    ensures r.Err? ==> r.error == OutOfBounds
  {
    if !(0 <= at && at + 4 <= |code|) then Err(OutOfBounds)
    else if reading == AsWritten then Ok(A.ReadU32AsWritten(code, at) as int)
    else Ok(ShUtils.ReadU32(code, at) as int)
  }

  /** The opcodes the model does not follow: floating point, heap allocation and host calls. */
  predicate Outside(op: int) {
    A.OpMul <= op <= A.OpNeg || A.OpCmpEqual <= op <= A.OpCmpMoreThan || op == A.OpMakeArray || op == A.OpCallNative
  }

  /** The opcodes with no operand and a case of their own. */
  predicate NoOperand(op: int) {
    op == A.OpPop1 || op == A.OpPop2 || op == A.OpAnd || op == A.OpOr || op == A.OpNot || op == A.OpDup1 ||
    op == A.OpDup2 || op == A.OpRot2 || op == A.OpHalt || op == A.OpReturn || op == A.OpPrint ||
    op == A.OpArrayLength || op == A.OpMakeIter
  }

  /** The opcodes with operands and a case of their own. */
  predicate WithOperands(op: int) {
    op == A.OpPushValue || op == A.OpJump || op == A.OpJumpIfFalse || op == A.OpExit || op == A.OpCall ||
    op == A.OpInit || op == A.OpMakeFrame || op == A.OpStoreLocal || op == A.OpLoadLocal || op == A.OpIterNext
  }

  // ------------------------------------------------------------ one cycle

  /** `PRINT`: the top is popped (and printed). */
  function PrintSpec(s: State): Outcome {
    var v := Load(s, s.top);
    if v.Err? then Crash(v.error) else Next(s.(top := s.top - 1))
  }

  /**
   * The return position a call pushes, `s.pc` at its operand: two bytes on
   * as written, inside the four-byte operand; past the operand corrected.
   */
  function CallReturn(pc: int, reading: Reading): int {
    if reading == AsWritten then U32(pc + 2) else U32(pc + 4)
  }

  /** The cases of the instructions without operands; `s.pc` is past the opcode. */
  function PlainStep(s: State, op: int, nums: Numbers): Outcome
    requires NoOperand(op)
  {
    if op == A.OpPop1 then PopSpec(s, 1)
    else if op == A.OpPop2 then PopSpec(s, 2)
    else if op == A.OpAnd then LogicSpec(s, true)
    else if op == A.OpOr then LogicSpec(s, false)
    else if op == A.OpNot then NotSpec(s)
    else if op == A.OpDup1 then Dup1Spec(s)
    else if op == A.OpDup2 then Dup2Spec(s)
    else if op == A.OpRot2 then Rot2Spec(s)
    else if op == A.OpHalt then Exit(s, nums.make(-1002))
    else if op == A.OpReturn then ReturnSpec(s, false)
    else if op == A.OpPrint then PrintSpec(s)
    else if op == A.OpArrayLength then ArrayLengthSpec(s, nums)
    else MakeIterSpec(s)
  }

  /** The cases of the instructions with operands; `s.pc` is at the first operand. */
  function OperandStep(code: seq<bv8>, consts: seq<Val>, nums: Numbers, s: State, op: int, reading: Reading): Outcome
    requires WithOperands(op)
  {
    var a := Operand(code, s.pc, reading);
    if op == A.OpJumpIfFalse then JumpIfFalseSpec(s, a)
    else if a.Err? then Crash(a.error)
    else if op == A.OpPushValue then PushConstSpec(s, consts, a.value)
    else if op == A.OpJump then Next(s.(pc := a.value))
    else if op == A.OpExit then Exit(s, nums.make(a.value))
    else if op == A.OpCall then CallSpec(s, CallReturn(s.pc, reading), a.value, nums)
    else if op == A.OpInit then CallSpec(s, -1, a.value, nums)
    else LocalStep(code, nums, s, op, a.value, reading)
  }

  /** The cases with operands that address a frame, its locals or an iterator; `a` is the first operand. */
  function LocalStep(code: seq<bv8>, nums: Numbers, s: State, op: int, a: int, reading: Reading): Outcome {
    if op == A.OpMakeFrame then
      var b := Operand(code, U32(s.pc + 4), reading);
      if b.Err? then Crash(b.error) else MakeFrameSpec(s, a, b.value, nums)
    else if op == A.OpStoreLocal then StoreLocalSpec(s, a)
    else if op == A.OpLoadLocal then LoadLocalSpec(s, a)
    else IterNextSpec(s, a)
  }

  /** The `switch` of `gvm_execute`; an opcode without a case ends the run with -1003. */
  function Dispatch(code: seq<bv8>, consts: seq<Val>, nums: Numbers, s: State, op: int, reading: Reading): Outcome {
    if Outside(op) then Unmodelled(op)
    else if NoOperand(op) then PlainStep(s, op, nums)
    else if WithOperands(op) then OperandStep(code, consts, nums, s, op, reading)
    else Exit(s, nums.make(-1003))
  }

  /** One cycle: the opcode fetched, the code moved past it, the opcode dispatched. */
  function Step(code: seq<bv8>, consts: seq<Val>, nums: Numbers, s: State, reading: Reading): Outcome {
    if !(0 <= s.pc < |code|) then Crash(OutOfBounds)
    else Dispatch(code, consts, nums, s.(pc := U32(s.pc + 1)), code[s.pc] as int, reading)
  }

  /** The loop `while (cycles_remaining-- != 0)`: the budget spent, the run ends with -1004. */
  function Run(code: seq<bv8>, consts: seq<Val>, nums: Numbers, s: State, cycles: nat, reading: Reading): Outcome
    decreases cycles
  {
    if cycles == 0 then Exit(s, nums.make(-1004))
    else
      var o := Step(code, consts, nums, s, reading);
      if o.Next? then Run(code, consts, nums, o.s, cycles - 1, reading) else o
  }

  /**
   * `gvm_execute`: the run starts at code position 0 with the stack
   * cleared and the arguments pushed, and the loop runs for the cycle
   * limit, none for an empty program.
   */
  function ExecuteSpec(code: seq<bv8>, consts: seq<Val>, nums: Numbers, args: seq<Val>, cycleLimit: int,
                       stackSize: int, s: State, reading: Reading): Outcome
  {
    var t := Vm.Started(s, stackSize, args, |args|);
    if t.Err? then Crash(t.error)
    else Run(code, consts, nums, t.value, if |code| == 0 then 0 else U32(cycleLimit), reading)
  }

  // ------------------------------------------------------------ properties

  /** With the code position inside the code, a cycle dispatches the opcode there. */
  lemma CycleDispatches(code: seq<bv8>, consts: seq<Val>, nums: Numbers, s: State, reading: Reading)
    requires 0 <= s.pc < |code| < Two32
    ensures Step(code, consts, nums, s, reading) == Dispatch(code, consts, nums, s.(pc := s.pc + 1), code[s.pc] as int, reading)
  {
  }

  /** An opcode with operands is dispatched to its case. */
  lemma DispatchesOperands(code: seq<bv8>, consts: seq<Val>, nums: Numbers, s: State, op: int, reading: Reading)
    requires WithOperands(op)
    ensures Dispatch(code, consts, nums, s, op, reading) == OperandStep(code, consts, nums, s, op, reading)
  {
  }

  /**
   * A call at `s.pc` pushes a return position and jumps to its operand.
   * As written the position is `s.pc + 3`, the third byte of the call's
   * own operand; corrected it is `s.pc + 5`, the next instruction.
   */
  lemma CallReturnPosition(code: seq<bv8>, consts: seq<Val>, nums: Numbers, s: State, reading: Reading)
    requires 0 <= s.pc && s.pc + 5 <= |code| < Two32 && code[s.pc] as int == A.OpCall
    requires StackOk(s) && s.top + 1 < |s.mem|
    ensures var o := Step(code, consts, nums, s, reading);
      o.Next? && StackOk(o.s) && o.s.frame == s.frame &&
      o.s.pc == Operand(code, s.pc + 1, reading).value &&
      Live(o.s) == Live(s) + [nums.make(if reading == AsWritten then s.pc + 3 else s.pc + 5)]
  {
    var t := s.(pc := s.pc + 1);
    CycleDispatches(code, consts, nums, s, reading);
    DispatchesOperands(code, consts, nums, t, A.OpCall, reading);
    var ret := if reading == AsWritten then s.pc + 3 else s.pc + 5;
    var target := Operand(code, s.pc + 1, reading).value;
    assert OperandStep(code, consts, nums, t, A.OpCall, reading) == CallSpec(t, ret, target, nums);
    var o := CallSpec(t, ret, target, nums);
    assert Live(o.s) == Live(s) + [nums.make(ret)];
  }

  /**
   * A return to the position a call pushed as written resumes inside the
   * call's operand: the position is neither the call nor the instruction
   * after it.
   */
  lemma AsWrittenReturnLandsInOperand(pc: int)
    requires 0 <= pc && pc + 5 < Two32
    ensures CallReturn(pc + 1, AsWritten) == pc + 3 && pc < pc + 3 < pc + 5
    ensures CallReturn(pc + 1, Corrected) == pc + 5
  {
  }

  /**
   * The entry instruction is a call from return position -1: the frame its
   * target builds ends the run on return (`Vm.EntryFrameExits`).
   */
  lemma EntryPointCalls(code: seq<bv8>, consts: seq<Val>, nums: Numbers, s: State, reading: Reading)
    requires 0 <= s.pc && s.pc + 5 <= |code| < Two32 && code[s.pc] as int == A.OpInit
    ensures Step(code, consts, nums, s, reading) ==
      CallSpec(s.(pc := s.pc + 1), -1, Operand(code, s.pc + 1, reading).value, nums)
  {
    var t := s.(pc := s.pc + 1);
    CycleDispatches(code, consts, nums, s, reading);
    DispatchesOperands(code, consts, nums, t, A.OpInit, reading);
  }

  /**
   * A jump whose operand the compiler wrote as 256 goes to 256 when
   * corrected, but to 0x0101_0100 as written.
   */
  lemma JumpOperandMisread(code: seq<bv8>, consts: seq<Val>, nums: Numbers, s: State)
    requires 0 <= s.pc && s.pc + 5 <= |code| < Two32 && code[s.pc] as int == A.OpJump
    requires code[s.pc + 1..s.pc + 5] == ShUtils.U32Bytes(256)
    ensures Step(code, consts, nums, s, Corrected) == Next(s.(pc := 256))
    ensures Step(code, consts, nums, s, AsWritten) == Next(s.(pc := 0x0101_0100))
  {
    var w := code[s.pc + 1..s.pc + 5];
    assert w == [0, 1, 0, 0];
    assert code[s.pc + 1] == 0 && code[s.pc + 2] == 1 && code[s.pc + 3] == 0 && code[s.pc + 4] == 0 by {
      assert code[s.pc + 1] == w[0] && code[s.pc + 2] == w[1] && code[s.pc + 3] == w[2] && code[s.pc + 4] == w[3];
    }
    var t := s.(pc := s.pc + 1);
    CycleDispatches(code, consts, nums, s, Corrected);
    DispatchesOperands(code, consts, nums, t, A.OpJump, Corrected);
    CycleDispatches(code, consts, nums, s, AsWritten);
    DispatchesOperands(code, consts, nums, t, A.OpJump, AsWritten);
  }

  /**
   * Outside any frame a return ends the run with the top value and, unlike
   * the language's machine, leaves the stack top where it was.
   */
  lemma ReturnExitKeepsStack(code: seq<bv8>, consts: seq<Val>, nums: Numbers, s: State, reading: Reading)
    requires 0 <= s.pc < |code| < Two32 && code[s.pc] as int == A.OpReturn
    requires s.frame == -1 && 0 <= s.top < |s.mem|
    ensures Step(code, consts, nums, s, reading) == Exit(s.(pc := s.pc + 1), s.mem[s.top])
  {
    CycleDispatches(code, consts, nums, s, reading);
    ReturnExits(s.(pc := s.pc + 1), false);
  }

  /** A program run with a cycle limit of 0 executes nothing and ends with -1004 on its started state. */
  lemma ZeroLimitRunsNothing(code: seq<bv8>, consts: seq<Val>, nums: Numbers, args: seq<Val>, stackSize: int, s: State, reading: Reading)
    requires |args| <= stackSize <= |s.mem|
    ensures var o := ExecuteSpec(code, consts, nums, args, 0, stackSize, s, reading);
      o.Exit? && o.value == nums.make(-1004) && o.s.pc == 0 && o.s.frame == -1 && StackOk(o.s) && Live(o.s) == args
  {
    Vm.StartedLayout(s, stackSize, args, |args|);
    assert args[..|args|] == args;
  }

  // ------------------------------------------------------------ the machine

  /** One cycle on the machine. */
  method Cycle(m: Machine, code: seq<bv8>, consts: seq<Val>, nums: Numbers, reading: Reading) returns (o: Outcome)
    modifies m, m.mem
    ensures o == Step(code, consts, nums, old(m.St()), reading) && m.Reached(o)
  {
    if !(0 <= m.pc < |code|) {
      return Crash(OutOfBounds);
    }
    var op := code[m.pc] as int;
    m.pc := U32(m.pc + 1);
    o := DispatchOp(m, code, consts, nums, op, reading);
  }

  /** The `switch` on the machine. */
  method DispatchOp(m: Machine, code: seq<bv8>, consts: seq<Val>, nums: Numbers, op: int, reading: Reading) returns (o: Outcome)
    modifies m, m.mem
    ensures o == Dispatch(code, consts, nums, old(m.St()), op, reading) && m.Reached(o)
  {
    if Outside(op) {
      return Unmodelled(op);
    } else if NoOperand(op) {
      o := PlainOp(m, op, nums);
    } else if WithOperands(op) {
      o := OperandOp(m, code, consts, nums, op, reading);
    } else {
      return Exit(m.St(), nums.make(-1003));
    }
  }

  /** The cases without operands, on the machine. */
  method PlainOp(m: Machine, op: int, nums: Numbers) returns (o: Outcome)
    requires NoOperand(op)
    modifies m, m.mem
    ensures o == PlainStep(old(m.St()), op, nums) && m.Reached(o)
  {
    if op == A.OpPop1 {
      o := m.Pop(1);
    } else if op == A.OpPop2 {
      o := m.Pop(2);
    } else if op == A.OpAnd {
      o := m.Logic(true);
    } else if op == A.OpOr {
      o := m.Logic(false);
    } else if op == A.OpNot {
      o := m.Not();
    } else if op == A.OpDup1 {
      o := m.Dup1();
    } else if op == A.OpDup2 {
      o := m.Dup2();
    } else if op == A.OpRot2 {
      o := m.Rot2();
    } else if op == A.OpHalt {
      o := Exit(m.St(), nums.make(-1002));
    } else if op == A.OpReturn {
      o := m.Return(false);
    } else if op == A.OpPrint {
      if !(0 <= m.top < m.mem.Length) {
        return Crash(OutOfBounds);
      }
      m.top := m.top - 1;
      o := Next(m.St());
    } else if op == A.OpArrayLength {
      o := m.ArrayLength(nums);
    } else {
      o := m.MakeIter();
    }
  }

  /** The cases with operands, on the machine. */
  method OperandOp(m: Machine, code: seq<bv8>, consts: seq<Val>, nums: Numbers, op: int, reading: Reading) returns (o: Outcome)
    requires WithOperands(op)
    modifies m, m.mem
    ensures o == OperandStep(code, consts, nums, old(m.St()), op, reading) && m.Reached(o)
  {
    var a := Operand(code, m.pc, reading);
    if op == A.OpJumpIfFalse {
      o := m.JumpIfFalse(a);
    } else if a.Err? {
      o := Crash(a.error);
    } else if op == A.OpPushValue {
      o := m.PushConst(consts, a.value);
    } else if op == A.OpJump {
      m.pc := a.value;
      o := Next(m.St());
    } else if op == A.OpExit {
      o := Exit(m.St(), nums.make(a.value));
    } else if op == A.OpCall {
      o := m.Call(CallReturn(m.pc, reading), a.value, nums);
    } else if op == A.OpInit {
      o := m.Call(-1, a.value, nums);
    } else {
      o := LocalOp(m, code, nums, op, a.value, reading);
    }
  }

  /** The cases with operands that address a frame, its locals or an iterator, on the machine. */
  method LocalOp(m: Machine, code: seq<bv8>, nums: Numbers, op: int, a: int, reading: Reading) returns (o: Outcome)
    modifies m, m.mem
    ensures o == LocalStep(code, nums, old(m.St()), op, a, reading) && m.Reached(o)
  {
    if op == A.OpMakeFrame {
      o := FrameOp(m, code, nums, a, reading);
    } else if op == A.OpStoreLocal {
      o := m.StoreLocal(a);
    } else if op == A.OpLoadLocal {
      o := m.LoadLocal(a);
    } else {
      o := m.IterNext(a);
    }
  }

  /** `MAKE_FRAME` on the machine: its second operand read, then the frame made. */
  method FrameOp(m: Machine, code: seq<bv8>, nums: Numbers, a: int, reading: Reading) returns (o: Outcome)
    modifies m, m.mem
    ensures o == LocalStep(code, nums, old(m.St()), A.OpMakeFrame, a, reading) && m.Reached(o)
  {
    var b := Operand(code, U32(m.pc + 4), reading);
    assert LocalStep(code, nums, m.St(), A.OpMakeFrame, a, reading) ==
      if b.Err? then Crash(b.error) else MakeFrameSpec(m.St(), a, b.value, nums);
    if b.Err? {
      o := Crash(b.error);
    } else {
      o := m.MakeFrame(a, b.value, nums);
    }
  }

  /** The fetch loop, spending the budget one cycle at a time. */
  method Loop(m: Machine, code: seq<bv8>, consts: seq<Val>, nums: Numbers, cycles: nat, reading: Reading) returns (o: Outcome)
    modifies m, m.mem
    ensures o == Run(code, consts, nums, old(m.St()), cycles, reading) && m.Reached(o)
  {
    var remaining := cycles;
    while remaining != 0
      invariant Run(code, consts, nums, m.St(), remaining, reading) == Run(code, consts, nums, old(m.St()), cycles, reading)
      decreases remaining
    {
      o := Cycle(m, code, consts, nums, reading);
      remaining := remaining - 1;
      if !o.Next? {
        return o;
      }
    }
    return Exit(m.St(), nums.make(-1004));
  }

  /** `gvm_execute` on the machine, with the argument values and the cycle limit of its execution arguments. */
  method Execute(m: Machine, code: seq<bv8>, consts: seq<Val>, nums: Numbers, args: seq<Val>, cycleLimit: int, reading: Reading)
    returns (o: Outcome)
    modifies m, m.mem
    ensures o == ExecuteSpec(code, consts, nums, args, cycleLimit, m.stackSize, old(m.St()), reading) && m.Reached(o)
  {
    m.pc := 0;
    assert m.St() == old(m.St()).(pc := 0);
    var ok := Vm.Clear(m, m.stackSize);
    if !ok {
      return Crash(OutOfBounds);
    }
    m.frame, m.top := -1, -1;
    ok := Vm.PushArgsOn(m, args, |args|);
    if !ok {
      return Crash(OutOfBounds);
    }
    var cycles := if |code| == 0 then 0 else U32(cycleLimit);
    o := Loop(m, code, consts, nums, cycles, reading);
  }

  // ------------------------------------------------------------ listing

  /** One operand as listed: its value as a C `int`, and the constant it names for a constant operand. */
  datatype Arg = Arg(value: int, constant: Option<Val>)

  /** One listed instruction: its byte offset, its opcode and its operands. */
  datatype Line = Line(offset: int, opcode: int, args: seq<Arg>)

  /** The operands the opcode table of `gvm/gvm_asminfo.h` types as constants: the first of `PUSH_VALUE` and `CALL_NATIVE`. */
  predicate IsConstantArg(op: int, i: nat) {
    i == 0 && (op == A.OpPushValue || op == A.OpCallNative)
  }

  /** Operand `i` of `op` with value `v`, with the constant it names when it is a constant operand in range. */
  function ArgOf(op: int, i: nat, v: int, consts: seq<Val>): Arg {
    Arg(v, if IsConstantArg(op, i) && 0 <= v < |consts| then Some(consts[v]) else None)
  }

  /** A `uint32_t` operand as the listing shows it: cast to a C `int`, the words from 2^31 up negative. */
  function Shown(w: int): int {
    if w >= 0x8000_0000 then w - Two32 else w
  }

  /** A listing's lines in front of the rest of it, an error passed on. */
  function Prepend<T>(front: seq<T>, r: Result<seq<T>, Abort>): (p: Result<seq<T>, Abort>)
    ensures p.Err? <==> r.Err?
    ensures front == [] ==> p == r
  {
    if r.Err? then r
    else
      assert front == [] ==> front + r.value == r.value;
      Ok(front + r.value)
  }

  /** Prepending twice is prepending both at once. */
  lemma PrependTwice<T>(a: seq<T>, b: seq<T>, r: Result<seq<T>, Abort>)
    ensures Prepend(a, Prepend(b, r)) == Prepend(a + b, r)
  {
    if r.Ok? {
      assert a + (b + r.value) == (a + b) + r.value;
    }
  }

  /**
   * Operands `i` onwards of an instruction `op` whose first operand is at
   * `base`: each read and cast to `int`, and a constant operand looked up,
   * an index outside the constants an error.
   */
  function Args(code: seq<bv8>, consts: seq<Val>, op: int, base: int, i: nat, reading: Reading): (r: Result<seq<Arg>, Abort>)
    requires i <= G.OpArgCount(op)
    ensures r.Ok? ==> |r.value| == G.OpArgCount(op) - i
    ensures r.Ok? && i < G.OpArgCount(op) ==> base + 4 * G.OpArgCount(op) <= |code|
    decreases G.OpArgCount(op) - i
  {
    if i == G.OpArgCount(op) then Ok([])
    else
      var w := Operand(code, base + 4 * i, reading);
      if w.Err? then Err(w.error)
      else
        var v := Shown(w.value);
        if IsConstantArg(op, i) && !(0 <= v < |consts|) then Err(OutOfBounds)
        else Prepend([ArgOf(op, i, v, consts)], Args(code, consts, op, base, i + 1, reading))
  }

  /**
   * The listing tiles the code from `at`: each line stands at the offset
   * where the previous one ends and records the opcode there, one in the
   * table, with its number of operands; the last one ends where the code
   * does.
   */
  predicate Tiles(lines: seq<Line>, code: seq<bv8>, at: int)
    decreases |lines|
  {
    if lines == [] then at == |code|
    else
      0 <= at < |code| && lines[0].offset == at && lines[0].opcode == code[at] as int &&
      lines[0].opcode < A.OpOpcodeCount && |lines[0].args| == G.OpArgCount(lines[0].opcode) &&
      Tiles(lines[1..], code, at + 1 + 4 * G.OpArgCount(lines[0].opcode))
  }

  /**
   * The line at byte `at` and the offset after it: an opcode beyond the
   * table, an operand past the end of the code or a constant index outside
   * the constants is an error.
   */
  function LineAt(code: seq<bv8>, consts: seq<Val>, at: nat, reading: Reading): (r: Result<(Line, nat), Abort>)
    requires at < |code|
    ensures r.Ok? ==> r.value.0.offset == at && r.value.0.opcode == code[at] as int < A.OpOpcodeCount
    ensures r.Ok? ==> |r.value.0.args| == G.OpArgCount(r.value.0.opcode)
    ensures r.Ok? ==> r.value.1 == at + 1 + 4 * G.OpArgCount(r.value.0.opcode) <= |code|
  {
    var op := code[at] as int;
    if op >= A.OpOpcodeCount then Err(OutOfBounds)
    else
      var args := Args(code, consts, op, at + 1, 0, reading);
      if args.Err? then Err(args.error)
      else Ok((Line(at, op, args.value), at + 1 + 4 * G.OpArgCount(op)))
  }

  /** `gvm_program_disassemble` from byte `at`: line after line to the end of the code, the first error ending it. */
  function Listing(code: seq<bv8>, consts: seq<Val>, at: nat, reading: Reading): Result<seq<Line>, Abort>
    requires at <= |code|
    decreases |code| - at
  {
    if at == |code| then Ok([])
    else
      var l := LineAt(code, consts, at, reading);
      if l.Err? then Err(l.error)
      else Prepend([l.value.0], Listing(code, consts, l.value.1, reading))
  }

  /** A listing that succeeds tiles the code. */
  lemma {:induction false} ListingTiles(code: seq<bv8>, consts: seq<Val>, at: nat, reading: Reading)
    requires at <= |code|
    ensures Listing(code, consts, at, reading).Ok? ==> Tiles(Listing(code, consts, at, reading).value, code, at)
    decreases |code| - at
  {
    var r := Listing(code, consts, at, reading);
    if at < |code| && r.Ok? {
      var l := LineAt(code, consts, at, reading).value;
      ListingTiles(code, consts, l.1, reading);
      var rest := Listing(code, consts, l.1, reading);
      assert r.value == [l.0] + rest.value;
      assert r.value[1..] == rest.value;
    }
  }

  /** `gvm_program_disassemble`: the listing built line by line, operand by operand. */
  method Disassemble(code: seq<bv8>, consts: seq<Val>, reading: Reading) returns (r: Result<seq<Line>, Abort>)
    ensures r == Listing(code, consts, 0, reading)
  {
    var current := 0;
    var lines: seq<Line> := [];
    while current < |code|
      invariant 0 <= current <= |code|
      invariant Prepend(lines, Listing(code, consts, current, reading)) == Listing(code, consts, 0, reading)
      decreases |code| - current
    {
      var l := ReadLine(code, consts, current, reading);
      if l.Err? {
        return Err(l.error);
      }
      PrependTwice(lines, [l.value.0], Listing(code, consts, l.value.1, reading));
      lines := lines + [l.value.0];
      current := l.value.1;
    }
    assert lines + [] == lines;
    return Ok(lines);
  }

  /** One line of the listing: the opcode looked up in the table, then its operands read. */
  method ReadLine(code: seq<bv8>, consts: seq<Val>, at: nat, reading: Reading) returns (r: Result<(Line, nat), Abort>)
    requires at < |code|
    ensures r == LineAt(code, consts, at, reading)
  {
    var op := code[at] as int;
    if op >= A.OpOpcodeCount {
      return Err(OutOfBounds);
    }
    var args := ReadArgs(code, consts, op, at + 1, reading);
    if args.Err? {
      return Err(args.error);
    }
    return Ok((Line(at, op, args.value), at + 1 + 4 * G.OpArgCount(op)));
  }

  /** The operands of one listed instruction, read one after the other from `base`. */
  method ReadArgs(code: seq<bv8>, consts: seq<Val>, op: int, base: int, reading: Reading) returns (r: Result<seq<Arg>, Abort>)
    ensures r == Args(code, consts, op, base, 0, reading)
  {
    var n := G.OpArgCount(op);
    var current := base;
    var args: seq<Arg> := [];
    var i := 0;
    while i < n
      invariant 0 <= i <= n && current == base + 4 * i
      invariant Prepend(args, Args(code, consts, op, base, i, reading)) == Args(code, consts, op, base, 0, reading)
      decreases n - i
    {
      var w := Operand(code, current, reading);
      if w.Err? {
        return Err(w.error);
      }
      var v := Shown(w.value);
      if IsConstantArg(op, i) && !(0 <= v < |consts|) {
        return Err(OutOfBounds);
      }
      PrependTwice(args, [ArgOf(op, i, v, consts)], Args(code, consts, op, base, i + 1, reading));
      args := args + [ArgOf(op, i, v, consts)];
      current := current + 4;
      i := i + 1;
    }
    assert args + [] == args;
    return Ok(args);
  }
  /** The operands the compiler wrote for `ins`, as listed. */
  function WrittenArgs(ins: G.IrInst, consts: seq<Val>): seq<Arg> {
    (if G.OpArgCount(ins.opcode) >= 1 then [ArgOf(ins.opcode, 0, Shown(CC.U32(ins.a0) as int), consts)] else []) +
    (if G.OpArgCount(ins.opcode) == 2 then [ArgOf(ins.opcode, 1, Shown(CC.U32(ins.a1) as int), consts)] else [])
  }

  /** The lines of instructions `k` onwards of a compiled program, each at its address. */
  function Written(instrs: seq<G.IrInst>, consts: seq<Val>, k: nat): seq<Line>
    requires k <= |instrs|
    decreases |instrs| - k
  {
    if k == |instrs| then []
    else [Line(G.Addr(instrs, k), instrs[k].opcode, WrittenArgs(instrs[k], consts))] + Written(instrs, consts, k + 1)
  }

  /** Instructions the listing can show as compiled: opcodes in the table, constant operands naming a constant. */
  predicate Listable(instrs: seq<G.IrInst>, consts: seq<Val>) {
    forall k :: 0 <= k < |instrs| ==>
      0 <= instrs[k].opcode < A.OpOpcodeCount &&
      (IsConstantArg(instrs[k].opcode, 0) ==> 0 <= Shown(CC.U32(instrs[k].a0) as int) < |consts|)
  }

  /** An instruction's bytes at `a` in `b`: its operands read back as the words written. */
  lemma OperandsRead(b: seq<bv8>, a: nat, ins: G.IrInst)
    requires a + G.Width(ins) <= |b|
    requires G.OpArgCount(ins.opcode) >= 1 ==> ShUtils.ReadU32(b, a + 1) == CC.U32(ins.a0)
    requires G.OpArgCount(ins.opcode) == 2 ==> ShUtils.ReadU32(b, a + 5) == CC.U32(ins.a1)
    ensures G.OpArgCount(ins.opcode) >= 1 ==> Operand(b, a + 1, Corrected) == Ok(CC.U32(ins.a0) as int)
    ensures G.OpArgCount(ins.opcode) == 2 ==> Operand(b, a + 5, Corrected) == Ok(CC.U32(ins.a1) as int)
  {
    if G.OpArgCount(ins.opcode) >= 1 {
      WordOperand(b, a + 1, CC.U32(ins.a0));
    }
    if G.OpArgCount(ins.opcode) == 2 {
      WordOperand(b, a + 5, CC.U32(ins.a1));
    }
  }

  /** A word read by the corrected `READ_U32` is the operand. */
  lemma WordOperand(b: seq<bv8>, at: int, w: bv32)
    requires 0 <= at && at + 4 <= |b| && ShUtils.ReadU32(b, at) == w
    ensures Operand(b, at, Corrected) == Ok(w as int)
  {
  }

  /** The operands of an instruction written at `a` are listed as they were written. */
  lemma ArgsRead(b: seq<bv8>, consts: seq<Val>, a: nat, ins: G.IrInst)
    requires a + G.Width(ins) <= |b|
    requires G.OpArgCount(ins.opcode) >= 1 ==> Operand(b, a + 1, Corrected) == Ok(CC.U32(ins.a0) as int)
    requires G.OpArgCount(ins.opcode) == 2 ==> Operand(b, a + 5, Corrected) == Ok(CC.U32(ins.a1) as int)
    requires IsConstantArg(ins.opcode, 0) ==> 0 <= Shown(CC.U32(ins.a0) as int) < |consts|
    ensures Args(b, consts, ins.opcode, a + 1, 0, Corrected) == Ok(WrittenArgs(ins, consts))
  {
    var op := ins.opcode;
    var n := G.OpArgCount(op);
    var arg0 := ArgOf(op, 0, Shown(CC.U32(ins.a0) as int), consts);
    var arg1 := ArgOf(op, 1, Shown(CC.U32(ins.a1) as int), consts);
    if n == 2 {
      ArgsStep(b, consts, op, a + 1, 1, Corrected, CC.U32(ins.a1) as int);
      ArgsStep(b, consts, op, a + 1, 0, Corrected, CC.U32(ins.a0) as int);
      assert [arg1] + [] == [arg1] && [arg0] + [arg1] == [arg0, arg1];
      assert WrittenArgs(ins, consts) == [arg0, arg1];
    } else if n == 1 {
      ArgsStep(b, consts, op, a + 1, 0, Corrected, CC.U32(ins.a0) as int);
      assert [arg0] + [] == [arg0];
      assert WrittenArgs(ins, consts) == [arg0];
    } else {
      assert WrittenArgs(ins, consts) == [];
    }
  }

  /** An operand read and accepted: it heads the rest of the operands. */
  lemma ArgsStep(code: seq<bv8>, consts: seq<Val>, op: int, base: int, i: nat, reading: Reading, w: int)
    requires i < G.OpArgCount(op) && Operand(code, base + 4 * i, reading) == Ok(w)
    requires IsConstantArg(op, i) ==> 0 <= Shown(w) < |consts|
    ensures Args(code, consts, op, base, i, reading) == Prepend([ArgOf(op, i, Shown(w), consts)], Args(code, consts, op, base, i + 1, reading))
  {
  }

  /** Instruction `ins` stands at `a` in `b`: its opcode byte, then its operands as the words written. */
  predicate WrittenAt(b: seq<bv8>, a: nat, ins: G.IrInst) {
    a + G.Width(ins) <= |b| && b[a] as int == ins.opcode &&
    (G.OpArgCount(ins.opcode) >= 1 ==> Operand(b, a + 1, Corrected) == Ok(CC.U32(ins.a0) as int)) &&
    (G.OpArgCount(ins.opcode) == 2 ==> Operand(b, a + 5, Corrected) == Ok(CC.U32(ins.a1) as int))
  }

  /** Every instruction the compiler wrote stands at its address in its program. */
  lemma WrittenAtAddr(instrs: seq<G.IrInst>, k: nat)
    requires k < |instrs| && 0 <= instrs[k].opcode < A.OpOpcodeCount
    ensures WrittenAt(G.Bytes(instrs), G.Addr(instrs, k), instrs[k])
  {
    var b := G.Bytes(instrs);
    var a := G.Addr(instrs, k);
    F.Decode(instrs, k);
    OperandsRead(b, a, instrs[k]);
    ShUtils.ByteRoundTrip(instrs[k].opcode);
  }

  /**
   * Listing bytes holding instructions `k` onwards, each at its address
   * and the last ending with the bytes, gives back those instructions
   * with their operands.
   */
  lemma {:induction false} ListingRoundTrip(b: seq<bv8>, instrs: seq<G.IrInst>, consts: seq<Val>, k: nat)
    requires k <= |instrs| && |b| == G.Addr(instrs, |instrs|)
    requires forall j {:trigger ListableAt(b, G.Addr(instrs, j), instrs[j], consts)} ::
      k <= j < |instrs| ==> ListableAt(b, G.Addr(instrs, j), instrs[j], consts)
    ensures G.Addr(instrs, k) <= |b|
    ensures Listing(b, consts, G.Addr(instrs, k), Corrected) == Ok(Written(instrs, consts, k))
    decreases |instrs| - k
  {
    if k < |instrs| {
      var a := G.Addr(instrs, k);
      assert ListableAt(b, a, instrs[k], consts);
      ListingRoundTrip(b, instrs, consts, k + 1);
      ListingHead(b, consts, a, instrs[k], G.Addr(instrs, k + 1), Written(instrs, consts, k + 1));
    }
  }

  /** Instruction `ins` stands at `a` in `b` and can be listed. */
  predicate ListableAt(b: seq<bv8>, a: nat, ins: G.IrInst, consts: seq<Val>) {
    WrittenAt(b, a, ins) && 0 <= ins.opcode < A.OpOpcodeCount &&
    (IsConstantArg(ins.opcode, 0) ==> 0 <= Shown(CC.U32(ins.a0) as int) < |consts|)
  }

  /** An instruction written at `a`, followed by listed lines, is listed in front of them. */
  lemma ListingHead(b: seq<bv8>, consts: seq<Val>, a: nat, ins: G.IrInst, next: nat, rest: seq<Line>)
    requires ListableAt(b, a, ins, consts)
    requires next == a + G.Width(ins) <= |b| && Listing(b, consts, next, Corrected) == Ok(rest)
    ensures Listing(b, consts, a, Corrected) == Ok([Line(a, ins.opcode, WrittenArgs(ins, consts))] + rest)
  {
    ArgsRead(b, consts, a, ins);
    assert LineAt(b, consts, a, Corrected) == Ok((Line(a, ins.opcode, WrittenArgs(ins, consts)), next));
  }

  /** The whole program listed: one line per compiled instruction. */
  lemma DisassembleCompiled(instrs: seq<G.IrInst>, consts: seq<Val>)
    requires Listable(instrs, consts)
    ensures Listing(G.Bytes(instrs), consts, 0, Corrected) == Ok(Written(instrs, consts, 0))
    ensures |Written(instrs, consts, 0)| == |instrs|
  {
    var b := G.Bytes(instrs);
    forall j | 0 <= j < |instrs|
      ensures ListableAt(b, G.Addr(instrs, j), instrs[j], consts)
    {
      WrittenAtAddr(instrs, j);
    }
    F.BytesLength(instrs);
    ListingRoundTrip(b, instrs, consts, 0);
    WrittenLength(instrs, consts, 0);
  }

  lemma {:induction false} WrittenLength(instrs: seq<G.IrInst>, consts: seq<Val>, k: nat)
    requires k <= |instrs|
    ensures |Written(instrs, consts, k)| == |instrs| - k
    decreases |instrs| - k
  {
    if k < |instrs| {
      WrittenLength(instrs, consts, k + 1);
    }
  }
}
