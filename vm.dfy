/**
 * `adder/vm/vm.c`: creating the language's virtual machine, and running a
 * program on it from an entry point.
 *
 * The instructions themselves are the ones `VmCore` defines; this module
 * decodes them from the instruction bytes, dispatches on the opcode
 * numbering of `ShOps`, runs the fetch loop under its cycle budget and
 * starts a run: clear the stack, push the entry point's arguments, select
 * the entry address. Floating-point arithmetic and comparisons, array
 * allocation on the heap and calls into the host leave the model
 * (`Unmodelled`).
 */
module Vm {
  import opened Wrappers
  import opened ShValue
  import ShUtils
  import opened VmCore
  import opened ShOps
  import VmEnv
  import ShProgram

  // ------------------------------------------------------------ creation

  /** The values the C `int` arithmetic of `vm_create` sees: truncating division. */
  function Half(x: int): (r: int)
    ensures 2 * r == x || 2 * r == x - 1 || 2 * r == x + 1
    ensures x >= 0 ==> 0 <= r && 2 * r <= x
  {
    if x >= 0 then x / 2 else -((-x) / 2)
  }

  /** A C `int` converted to `size_t`. */
  function SizeT(x: int): (r: int)
    ensures 0 <= r < 0x1_0000_0000_0000_0000
  {
    x % 0x1_0000_0000_0000_0000
  }

  /**
   * The byte count `vm_create` asks `malloc` for: `memory_size *
   * sizeof(val_t)` is stored into an `int` as written, and so wraps to 32
   * bits before it is widened again; computed in `size_t` when corrected.
   */
  function BlockBytes(memorySize: int, reading: Reading): (r: int)
    ensures 0 <= r
  {
    if reading == AsWritten then SizeT(I32(memorySize * 8)) else SizeT(memorySize * 8)
  }

  /** The byte count of the mark words for `n` heap values: one bit each, plus one word. */
  function MarkBytes(n: int): int {
    SizeT((1 + SizeT(n) / 64) * 8)
  }

  /** What `vm_create` records: the size of the block it got, the memory size, and the stack and heap halves. */
  datatype Layout = Layout(blockBytes: int, memSize: int, stackSize: int, heapStart: int, heapSize: int)

  /**
   * `vm_create`: a size above the addressable maximum is refused; the
   * block and the mark words are allocated (`granted` says which byte
   * counts `malloc` grants); the stack is the first half of the block and
   * the heap the second.
   */
  function Create(memorySize: int, granted: int -> bool, reading: Reading): (r: Option<Layout>)
    ensures memorySize > MaxAddressable as int ==> r.None?
    ensures r.Some? ==> r.value.memSize == memorySize && r.value.heapStart == r.value.stackSize
    ensures r.Some? ==> granted(r.value.blockBytes) && granted(MarkBytes(r.value.heapSize))
  {
    if memorySize > MaxAddressable as int then None
    else
      var half := Half(memorySize);
      var bytes := BlockBytes(memorySize, reading);
      if !granted(bytes) || !granted(MarkBytes(half)) then None
      else Some(Layout(bytes, memorySize, half, half, half))
  }

  /**
   * Corrected, a machine that is created has a block holding all its
   * values, and the stack and the heap lie side by side within it.
   */
  lemma CreateCorrectedFits(memorySize: int, granted: int -> bool)
    requires 0 <= memorySize
    ensures var r := Create(memorySize, granted, Corrected);
      r.Some? ==> (r.value.blockBytes == 8 * r.value.memSize &&
        0 <= r.value.stackSize && r.value.heapStart + r.value.heapSize <= r.value.memSize)
  {
  }

  /**
   * As written, a machine of `0x2000_0000` values is created on a block
   * of zero bytes whenever `malloc(0)` gives a pointer: the byte count
   * wrapped to 0.
   */
  lemma CreateAsWrittenUndersized(granted: int -> bool)
    requires granted(0) && granted(MarkBytes(0x1000_0000))
    ensures var r := Create(0x2000_0000, granted, AsWritten);
      r.Some? && r.value.memSize == 0x2000_0000 && r.value.blockBytes == 0
  {
    assert I32(0x2000_0000 * 8) == 0;
  }

  // ------------------------------------------------------------ decoding

  /** A 32-bit operand at `at`, read by `READ_U32`; outside the code it is an out-of-bounds read. */
  function Operand(code: seq<bv8>, at: int): (r: Result<int, Abort>)
    ensures r.Ok? <==> 0 <= at && at + 4 <= |code|
    ensures r.Ok? ==> 0 <= r.value < Two32 && r.value == ShUtils.ReadU32(code, at) as int
    ensures r.Err? ==> r.error == OutOfBounds
  {
    if 0 <= at && at + 4 <= |code| then Ok(ShUtils.ReadU32(code, at) as int) else Err(OutOfBounds)
  }

  /** The opcodes whose case computes in floating point. */
  predicate FloatOp(op: int) {
    OpMul <= op <= OpNeg || OpCmpEqual <= op <= OpCmpMoreThanOrEqual
  }

  /** The opcodes the model does not follow: floating point, heap allocation and host calls. */
  predicate Outside(op: int) {
    FloatOp(op) || op == OpMakeArray || op == OpCallNative
  }

  /** The opcodes with no operand and a case of their own. */
  predicate NoOperand(op: int) {
    op == OpPop1 || op == OpPop2 || op == OpAnd || op == OpOr || op == OpNot || op == OpDup1 || op == OpDup2 ||
    op == OpRot2 || op == OpHalt || op == OpReturnNothing || op == OpReturnValue || op == OpArrayLength || op == OpMakeIter
  }

  /** The opcodes with operands and a case of their own. */
  predicate WithOperands(op: int) {
    op == OpPushValue || op == OpJump || op == OpJumpIfFalse || op == OpExit || op == OpCall ||
    op == OpMakeFrame || op == OpStoreLocal || op == OpLoadLocal || op == OpIterNext
  }

  // ------------------------------------------------------------ one cycle

  /** The cases of the instructions without operands; `s.pc` is past the opcode. */
  function PlainStep(s: State, op: int, nums: Numbers): Outcome
    requires NoOperand(op)
  {
    if op == OpPop1 then PopSpec(s, 1)
    else if op == OpPop2 then PopSpec(s, 2)
    else if op == OpAnd then LogicSpec(s, true)
    else if op == OpOr then LogicSpec(s, false)
    else if op == OpNot then NotSpec(s)
    else if op == OpDup1 then Dup1Spec(s)
    else if op == OpDup2 then Dup2Spec(s)
    else if op == OpRot2 then Rot2Spec(s)
    else if op == OpHalt then Exit(s, nums.make(-1002))
    else if op == OpReturnNothing then ReturnNothingSpec(s)
    else if op == OpReturnValue then ReturnSpec(s, true)
    else if op == OpArrayLength then ArrayLengthSpec(s, nums)
    else MakeIterSpec(s)
  }

  /** The cases of the instructions with operands; `s.pc` is at the first operand. */
  function OperandStep(code: seq<bv8>, consts: seq<Val>, nums: Numbers, s: State, op: int): Outcome
    requires WithOperands(op)
  {
    var a := Operand(code, s.pc);
    if op == OpJumpIfFalse then JumpIfFalseSpec(s, a)
    else if a.Err? then Crash(a.error)
    else if op == OpPushValue then PushConstSpec(s, consts, a.value)
    else if op == OpJump then Next(s.(pc := a.value))
    else if op == OpExit then Exit(s, nums.make(a.value))
    else if op == OpCall then CallSpec(s, U32(s.pc + 4), a.value, nums)
    else if op == OpMakeFrame then
      var b := Operand(code, U32(s.pc + 4));
      if b.Err? then Crash(b.error) else MakeFrameSpec(s, a.value, b.value, nums)
    else if op == OpStoreLocal then StoreLocalSpec(s, a.value)
    else if op == OpLoadLocal then LoadLocalSpec(s, a.value)
    else IterNextSpec(s, a.value)
  }

  /**
   * The `switch` of `vm_execute` on an opcode; any opcode without a case
   * (the entry-point and print opcodes among them) ends the run with -1003.
   */
  function Dispatch(code: seq<bv8>, consts: seq<Val>, nums: Numbers, s: State, op: int): Outcome {
    if Outside(op) then Unmodelled(op)
    else if NoOperand(op) then PlainStep(s, op, nums)
    else if WithOperands(op) then OperandStep(code, consts, nums, s, op)
    else Exit(s, nums.make(-1003))
  }

  /** The message of the opcode-count assertion in the loop. */
  const CountChanged: string := "Opcode count changed."

  /**
   * One cycle of the loop: the opcode is fetched and the code moves past
   * it. As written, the assertion that the opcode count is 37 fails on
   * every cycle, for the numbering has 38 opcodes; corrected, it holds and
   * the opcode is dispatched.
   */
  function Step(code: seq<bv8>, consts: seq<Val>, nums: Numbers, s: State, reading: Reading): Outcome {
    if !(0 <= s.pc < |code|) then Crash(OutOfBounds)
    else if reading == AsWritten && OpOpcodeCount != 37 then Crash(AssertFailed(CountChanged))
    else Dispatch(code, consts, nums, s.(pc := U32(s.pc + 1)), code[s.pc] as int)
  }

  /** The loop `while (cycles_remaining-- != 0)`: the budget spent, the run ends with -1004. */
  function Run(code: seq<bv8>, consts: seq<Val>, nums: Numbers, s: State, cycles: nat, reading: Reading): Outcome
    decreases cycles
  {
    if cycles == 0 then Exit(s, nums.make(-1004))
    else
      var o := Step(code, consts, nums, s, reading);
      if o.Next? then Run(code, consts, nums, o.s, cycles - 1, reading) else o
  }

  // ------------------------------------------------------------ starting

  /** The cycle budget of a run. */
  const MaxCycles: nat := 1_000_000

  /** The `memset` of the stack: its first `n` words zeroed. */
  function Cleared(s: State, n: int): Result<State, Abort> {
    if 0 <= n <= |s.mem| then Ok(s.(mem := Zeros(n) + s.mem[n..])) else Err(OutOfBounds)
  }

  /** The loop pushing the entry point's arguments from `i` on. */
  function PushArgs(s: State, argvals: seq<Val>, argcount: int, i: nat): (r: Result<State, Abort>)
    ensures r.Err? ==> r.error == OutOfBounds
    decreases argcount - i
  {
    if i >= argcount then Ok(s)
    else if i >= |argvals| then Err(OutOfBounds)
    else
      var s1 := Push(s, argvals[i]);
      if s1.Err? then s1 else PushArgs(s1.value, argvals, argcount, i + 1)
  }

  /** The state a run starts from: the code at 0, the stack cleared, no frame, and the arguments pushed. */
  function Started(s: State, stackSize: int, argvals: seq<Val>, argcount: int): Result<State, Abort> {
    var c := Cleared(s.(pc := 0), stackSize);
    if c.Err? then c else PushArgs(c.value.(frame := -1, top := -1), argvals, argcount, 0)
  }

  /** The message of `vm_select_entry_point`'s assertion. */
  const EntryInRange: string := "program->inst.size >= address"

  /**
   * `vm_select_entry_point`: the address is asserted to be at most the code
   * size; an entry at a `MAKE_FRAME` is entered as if called from return
   * position -1, so that returning from it ends the run; otherwise the code
   * jumps there. As written, the opcode is read even at an address equal
   * to the size, one past the code; corrected, only inside it.
   */
  function SelectEntry(code: seq<bv8>, s: State, address: int, nums: Numbers, reading: Reading): Outcome {
    if address > |code| then Crash(AssertFailed(EntryInRange))
    else if address == |code| && reading == AsWritten then Crash(OutOfBounds)
    else if 0 <= address < |code| && code[address] as int == OpMakeFrame then CallSpec(s, -1, address, nums)
    else Next(s.(pc := address))
  }

  /**
   * `vm_execute`: with the environment not ready the run ends at once with
   * -1099; otherwise it starts, the entry address is checked and
   * selected, and the loop runs with a budget of a million cycles, none
   * for an empty program.
   */
  function ExecuteSpec(ready: bool, code: seq<bv8>, consts: seq<Val>, nums: Numbers, ep: ShProgram.EntryPoint,
                   stackSize: int, s: State, reading: Reading): Outcome
  {
    if !ready then Exit(s, nums.make(-1099))
    else
      var t := Started(s, stackSize, ep.argvals, ep.argcount);
      if t.Err? then Crash(t.error)
      else if ep.address < 0 then Crash(AssertFailed("ep->address >= 0"))
      else
        var e := SelectEntry(code, t.value, ep.address, nums, reading);
        if !e.Next? then e
        else Run(code, consts, nums, e.s, if |code| == 0 then 0 else MaxCycles, reading)
  }

  // ------------------------------------------------------------ properties

  /**
   * As written, no cycle gets past the opcode-count assertion: every run
   * that has code to execute at its position aborts there.
   */
  lemma AsWrittenCycleAborts(code: seq<bv8>, consts: seq<Val>, nums: Numbers, s: State, cycles: nat)
    requires 0 <= s.pc < |code| && cycles > 0
    ensures Run(code, consts, nums, s, cycles, AsWritten) == Crash(AssertFailed(CountChanged))
  {
    assert Step(code, consts, nums, s, AsWritten) == Crash(AssertFailed(CountChanged));
  }

  /** Corrected, a cycle dispatches the opcode at the code position with the code past it. */
  lemma CorrectedCycleDispatches(code: seq<bv8>, consts: seq<Val>, nums: Numbers, s: State)
    requires 0 <= s.pc < |code| < Two32
    ensures Step(code, consts, nums, s, Corrected) == Dispatch(code, consts, nums, s.(pc := s.pc + 1), code[s.pc] as int)
  {
  }

  /** An opcode with operands is dispatched to its case. */
  lemma DispatchesOperands(code: seq<bv8>, consts: seq<Val>, nums: Numbers, s: State, op: int)
    requires WithOperands(op)
    ensures Dispatch(code, consts, nums, s, op) == OperandStep(code, consts, nums, s, op)
  {
  }

  /**
   * A call pushes the position just after its operand, the next
   * instruction, as the return position, and jumps to its operand; with an
   * exact codec that position reads back from the pushed number.
   */
  lemma CallPushesNextInstruction(code: seq<bv8>, consts: seq<Val>, nums: Numbers, s: State)
    requires 0 <= s.pc && s.pc + 5 <= |code| < Two32 && code[s.pc] as int == OpCall
    requires StackOk(s) && s.top + 1 < |s.mem|
    ensures var o := Step(code, consts, nums, s, Corrected);
      o.Next? && o.s.pc == ShUtils.ReadU32(code, s.pc + 1) as int && StackOk(o.s) &&
      Live(o.s) == Live(s) + [nums.make(s.pc + 5)] && o.s.frame == s.frame
    ensures Exact(nums) && Small(s.pc + 5) ==>
      ShUtils.Int32(nums.read(Step(code, consts, nums, s, Corrected).s.mem[s.top + 1])) == s.pc + 5
  {
    var t := s.(pc := s.pc + 1);
    CorrectedCycleDispatches(code, consts, nums, s);
    DispatchesOperands(code, consts, nums, t, OpCall);
    var target := ShUtils.ReadU32(code, s.pc + 1) as int;
    assert OperandStep(code, consts, nums, t, OpCall) == CallSpec(t, s.pc + 5, target, nums);
    var o := CallSpec(t, s.pc + 5, target, nums);
    assert Live(o.s) == Live(s) + [nums.make(s.pc + 5)];
  }

  /** Every opcode without a case of its own ends the run with -1003. */
  lemma UnhandledOpcodeExits(code: seq<bv8>, consts: seq<Val>, nums: Numbers, s: State)
    requires 0 <= s.pc < |code| < Two32
    requires var op := code[s.pc] as int; op == OpEntryPoint || op == OpPrint || op >= OpOpcodeCount
    ensures var o := Step(code, consts, nums, s, Corrected);
      o.Exit? && o.value == nums.make(-1003) && o.s == s.(pc := s.pc + 1)
  {
  }

  /**
   * A jump to itself exhausts any budget: the run ends with -1004 at the
   * jump, the stack untouched.
   */
  lemma {:induction false} SelfJumpExhausts(code: seq<bv8>, consts: seq<Val>, nums: Numbers, s: State, cycles: nat)
    requires 0 <= s.pc && s.pc + 5 <= |code| < Two32 && code[s.pc] as int == OpJump
    requires ShUtils.ReadU32(code, s.pc + 1) as int == s.pc
    ensures Run(code, consts, nums, s, cycles, Corrected) == Exit(s, nums.make(-1004))
    decreases cycles
  {
    if cycles > 0 {
      SelfJumpSteps(code, consts, nums, s);
      SelfJumpExhausts(code, consts, nums, s, cycles - 1);
    }
  }

  /** A jump to itself comes back to the state it left. */
  lemma SelfJumpSteps(code: seq<bv8>, consts: seq<Val>, nums: Numbers, s: State)
    requires 0 <= s.pc && s.pc + 5 <= |code| < Two32 && code[s.pc] as int == OpJump
    requires ShUtils.ReadU32(code, s.pc + 1) as int == s.pc
    ensures Step(code, consts, nums, s, Corrected) == Next(s)
  {
    var t := s.(pc := s.pc + 1);
    CorrectedCycleDispatches(code, consts, nums, s);
    DispatchesOperands(code, consts, nums, t, OpJump);
    assert Operand(code, t.pc) == Ok(s.pc);
  }

  /**
   * The start of a run: the code at 0, no frame, exactly the entry point's
   * arguments on the stack, and the rest of the stack region zeroed.
   */
  lemma {:induction false} StartedLayout(s: State, stackSize: int, argvals: seq<Val>, argcount: int)
    requires 0 <= argcount <= |argvals| && argcount <= stackSize <= |s.mem|
    ensures Started(s, stackSize, argvals, argcount).Ok?
    ensures var t := Started(s, stackSize, argvals, argcount).value;
      |t.mem| == |s.mem| && t.pc == 0 && t.frame == -1 && StackOk(t) && Live(t) == argvals[..argcount] &&
      t.mem[argcount..stackSize] == Zeros(stackSize - argcount)
  {
    var c := Cleared(s.(pc := 0), stackSize).value.(frame := -1, top := -1);
    PushArgsLayout(c, argvals, argcount, 0, stackSize);
  }

  /** The argument loop from `i`: the arguments from `i` on are pushed over the stack's first `i` words. */
  lemma {:induction false} PushArgsLayout(s: State, argvals: seq<Val>, argcount: int, i: nat, stackSize: int)
    requires i <= argcount <= |argvals| && argcount <= stackSize <= |s.mem|
    requires s.top == i - 1 && s.mem[i..stackSize] == Zeros(stackSize - i)
    ensures PushArgs(s, argvals, argcount, i).Ok?
    ensures var t := PushArgs(s, argvals, argcount, i).value;
      |t.mem| == |s.mem| && t.top == argcount - 1 && t.mem[..i] == s.mem[..i] && t.mem[i..argcount] == argvals[i..argcount] &&
      t.mem[argcount..stackSize] == Zeros(stackSize - argcount) && t.pc == s.pc && t.frame == s.frame
    decreases argcount - i
  {
    if i < argcount {
      var s1 := Push(s, argvals[i]).value;
      assert s1.mem[i + 1..stackSize] == s.mem[i + 1..stackSize];
      assert s.mem[i + 1..stackSize] == Zeros(stackSize - i)[1..];
      PushArgsLayout(s1, argvals, argcount, i + 1, stackSize);
      var t := PushArgs(s1, argvals, argcount, i + 1).value;
      assert t.mem[..i] == s1.mem[..i + 1][..i];
      assert t.mem[i..argcount] == [t.mem[i]] + t.mem[i + 1..argcount];
    }
  }

  /** An entry at a `MAKE_FRAME` is entered as a call from return position -1. */
  lemma EntryIsCall(code: seq<bv8>, s: State, address: int, nums: Numbers, reading: Reading)
    requires 0 <= address < |code| && code[address] as int == OpMakeFrame
    ensures SelectEntry(code, s, address, nums, reading) == CallSpec(s, -1, address, nums)
  {
  }

  /**
   * The frame the entry's `MAKE_FRAME` builds has return position -1, so
   * that a return from it, with or without a value, ends the run
   * (`ReturnExits`).
   */
  lemma EntryFrameExits(s: State, address: int, nargs: int, nlocals: int, nums: Numbers)
    requires Exact(nums)
    requires 0 <= nargs <= s.top + 1 && 0 <= nlocals
    requires StackOk(s) && s.top + 1 + nlocals < |s.mem| && |s.mem| < 0x8000_0000
    ensures CallSpec(s, -1, address, nums).Next?
    ensures MakeFrameSpec(CallSpec(s, -1, address, nums).s, nargs, nlocals, nums).Next?
    ensures var m := MakeFrameSpec(CallSpec(s, -1, address, nums).s, nargs, nlocals, nums).s;
      0 <= m.frame <= m.top < |m.mem| && ReturnPc(m) == -1
  {
    CallThenFramePlaced(s, -1, address, nargs, nlocals, nums);
    var m := MakeFrameSpec(CallSpec(s, -1, address, nums).s, nargs, nlocals, nums).s;
    ReturnsToMinusOne(m, nargs, nlocals, nums);
  }

  /** A frame word holding the number -1 as its return position gives -1 back. */
  lemma ReturnsToMinusOne(m: State, nargs: int, nlocals: int, nums: Numbers)
    requires Exact(nums) && 0 <= m.frame < |m.mem|
    requires m.mem[m.frame] == FrameWord(nums.read(nums.make(-1)), nargs, nlocals)
    ensures ReturnPc(m) == -1
  {
    var bits := nums.read(nums.make(-1));
    assert ShUtils.Int32(bits) == -1 by {
      assert Small(-1);
    }
    FrameWordDecodes(bits, nargs, nlocals);
  }

  /**
   * As written, an empty program entered at address 0 passes the entry
   * assertion and has its first opcode read, past the end of the code.
   */
  lemma EmptyProgramAsWrittenReadsPastEnd(consts: seq<Val>, nums: Numbers, ep: ShProgram.EntryPoint, stackSize: int, s: State)
    requires ep.address == 0 && 0 <= ep.argcount <= |ep.argvals| && ep.argcount <= stackSize <= |s.mem|
    ensures ExecuteSpec(true, [], consts, nums, ep, stackSize, s, AsWritten) == Crash(OutOfBounds)
  {
    StartedLayout(s, stackSize, ep.argvals, ep.argcount);
  }

  /**
   * Corrected, an empty program entered at address 0 runs no cycle and
   * ends with -1004, the arguments left on the stack.
   */
  lemma EmptyProgramCorrectedEnds(consts: seq<Val>, nums: Numbers, ep: ShProgram.EntryPoint, stackSize: int, s: State)
    requires ep.address == 0 && 0 <= ep.argcount <= |ep.argvals| && ep.argcount <= stackSize <= |s.mem|
    ensures var o := ExecuteSpec(true, [], consts, nums, ep, stackSize, s, Corrected);
      o.Exit? && o.value == nums.make(-1004) && o.s.pc == 0 && StackOk(o.s) && Live(o.s) == ep.argvals[..ep.argcount]
  {
    StartedLayout(s, stackSize, ep.argvals, ep.argcount);
  }

  // ------------------------------------------------------------ the machine

  /** One cycle on the machine: the fetch, the count assertion and the dispatch. */
  method Cycle(m: Machine, code: seq<bv8>, consts: seq<Val>, nums: Numbers, reading: Reading) returns (o: Outcome)
    modifies m, m.mem
    ensures o == Step(code, consts, nums, old(m.St()), reading) && m.Reached(o)
  {
    if !(0 <= m.pc < |code|) {
      return Crash(OutOfBounds);
    }
    if reading == AsWritten && OpOpcodeCount != 37 {
      return Crash(AssertFailed(CountChanged));
    }
    var op := code[m.pc] as int;
    m.pc := U32(m.pc + 1);
    o := DispatchOp(m, code, consts, nums, op);
  }

  /** The `switch` on the machine. */
  method DispatchOp(m: Machine, code: seq<bv8>, consts: seq<Val>, nums: Numbers, op: int) returns (o: Outcome)
    modifies m, m.mem
    ensures o == Dispatch(code, consts, nums, old(m.St()), op) && m.Reached(o)
  {
    if Outside(op) {
      return Unmodelled(op);
    } else if NoOperand(op) {
      o := PlainOp(m, op, nums);
    } else if WithOperands(op) {
      o := OperandOp(m, code, consts, nums, op);
    } else {
      return Exit(m.St(), nums.make(-1003));
    }
  }

  /** The cases without operands, on the machine. */
  method PlainOp(m: Machine, op: int, nums: Numbers) returns (o: Outcome)
    requires NoOperand(op)
    modifies m, m.mem
    ensures o == PlainStep(old(m.St()), op, nums) && m.Reached(o)
  {
    if op == OpPop1 {
      o := m.Pop(1);
    } else if op == OpPop2 {
      o := m.Pop(2);
    } else if op == OpAnd {
      o := m.Logic(true);
    } else if op == OpOr {
      o := m.Logic(false);
    } else if op == OpNot {
      o := m.Not();
    } else if op == OpDup1 {
      o := m.Dup1();
    } else if op == OpDup2 {
      o := m.Dup2();
    } else if op == OpRot2 {
      o := m.Rot2();
    } else if op == OpHalt {
      o := Exit(m.St(), nums.make(-1002));
    } else if op == OpReturnNothing {
      o := m.ReturnNothing();
    } else if op == OpReturnValue {
      o := m.Return(true);
    } else if op == OpArrayLength {
      o := m.ArrayLength(nums);
    } else {
      o := m.MakeIter();
    }
  }

  /** The cases with operands, on the machine. */
  method OperandOp(m: Machine, code: seq<bv8>, consts: seq<Val>, nums: Numbers, op: int) returns (o: Outcome)
    requires WithOperands(op)
    modifies m, m.mem
    ensures o == OperandStep(code, consts, nums, old(m.St()), op) && m.Reached(o)
  {
    var a := Operand(code, m.pc);
    if op == OpJumpIfFalse {
      o := m.JumpIfFalse(a);
    } else if a.Err? {
      o := Crash(a.error);
    } else if op == OpPushValue {
      o := m.PushConst(consts, a.value);
    } else if op == OpJump {
      m.pc := a.value;
      o := Next(m.St());
    } else if op == OpExit {
      o := Exit(m.St(), nums.make(a.value));
    } else if op == OpCall {
      o := m.Call(U32(m.pc + 4), a.value, nums);
    } else {
      o := LocalOp(m, code, nums, op, a.value);
    }
  }

  /** The cases with operands that address a frame, its locals or an iterator, on the machine. */
  method LocalOp(m: Machine, code: seq<bv8>, nums: Numbers, op: int, a: int) returns (o: Outcome)
    requires op == OpMakeFrame || op == OpStoreLocal || op == OpLoadLocal || op == OpIterNext
    requires Operand(code, m.pc) == Ok(a)
    modifies m, m.mem
    ensures forall consts :: o == OperandStep(code, consts, nums, old(m.St()), op)
    ensures m.Reached(o)
  {
    if op == OpMakeFrame {
      var b := Operand(code, U32(m.pc + 4));
      if b.Err? {
        o := Crash(b.error);
      } else {
        o := m.MakeFrame(a, b.value, nums);
      }
    } else if op == OpStoreLocal {
      o := m.StoreLocal(a);
    } else if op == OpLoadLocal {
      o := m.LoadLocal(a);
    } else {
      o := m.IterNext(a);
    }
  }

  /** The fetch loop, spending the budget one cycle at a time. */
  method Loop(m: Machine, code: seq<bv8>, consts: seq<Val>, nums: Numbers, cycles: nat, reading: Reading) returns (o: Outcome)
    modifies m, m.mem
    ensures o == Run(code, consts, nums, old(m.St()), cycles, reading) && m.Reached(o)
  {
    var remaining := cycles;
    while remaining != 0
      invariant Run(code, consts, nums, m.St(), remaining, reading) == Run(code, consts, nums, old(m.St()), cycles, reading)
      decreases remaining
    {
      o := Cycle(m, code, consts, nums, reading);
      remaining := remaining - 1;
      if !o.Next? {
        return o;
      }
    }
    return Exit(m.St(), nums.make(-1004));
  }

  /** The `memset` of the stack region on the machine. */
  method Clear(m: Machine, n: int) returns (ok: bool)
    modifies m.mem
    ensures var c := Cleared(old(m.St()), n); ok == c.Ok? && (ok ==> m.St() == c.value)
  {
    if !(0 <= n <= m.mem.Length) {
      return false;
    }
    var i := 0;
    while i < n
      invariant 0 <= i <= n && m.mem[..] == Zeros(i) + old(m.mem[..])[i..]
    {
      m.mem[i] := 0;
      i := i + 1;
    }
    return true;
  }

  /** The argument loop on the machine. */
  method PushArgsOn(m: Machine, argvals: seq<Val>, argcount: int) returns (ok: bool)
    modifies m, m.mem
    ensures var r := PushArgs(old(m.St()), argvals, argcount, 0); ok == r.Ok? && (ok ==> m.St() == r.value)
  {
    var i: nat := 0;
    while i < argcount
      invariant PushArgs(m.St(), argvals, argcount, i) == PushArgs(old(m.St()), argvals, argcount, 0)
      decreases argcount - i
    {
      if i >= |argvals| || !(0 <= m.top + 1 < m.mem.Length) {
        return false;
      }
      m.top := m.top + 1;
      m.mem[m.top] := argvals[i];
      i := i + 1;
    }
    return true;
  }

  /** `vm_select_entry_point` on the machine. */
  method Select(m: Machine, code: seq<bv8>, address: int, nums: Numbers, reading: Reading) returns (o: Outcome)
    modifies m, m.mem
    ensures o == SelectEntry(code, old(m.St()), address, nums, reading) && m.Reached(o)
  {
    if address > |code| {
      return Crash(AssertFailed(EntryInRange));
    }
    if address == |code| && reading == AsWritten {
      return Crash(OutOfBounds);
    }
    if 0 <= address < |code| && code[address] as int == OpMakeFrame {
      o := m.Call(-1, address, nums);
    } else {
      m.pc := address;
      o := Next(m.St());
    }
  }

  /** `vm_execute` on the machine and its environment. */
  method Execute(m: Machine, env: VmEnv.Env, code: seq<bv8>, consts: seq<Val>, nums: Numbers, ep: ShProgram.EntryPoint, reading: Reading)
    returns (o: Outcome)
    modifies m, m.mem
    ensures o == ExecuteSpec(env.isready, code, consts, nums, ep, m.stackSize, old(m.St()), reading) && m.Reached(o)
  {
    var ready := env.IsReady();
    if !ready {
      return Exit(m.St(), nums.make(-1099));
    }
    m.pc := 0;
    assert m.St() == old(m.St()).(pc := 0);
    var ok := Clear(m, m.stackSize);
    if !ok {
      return Crash(OutOfBounds);
    }
    m.frame, m.top := -1, -1;
    ok := PushArgsOn(m, ep.argvals, ep.argcount);
    if !ok {
      return Crash(OutOfBounds);
    }
    var cycles := if |code| == 0 then 0 else MaxCycles;
    if ep.address < 0 {
      return Crash(AssertFailed("ep->address >= 0"));
    }
    o := Select(m, code, ep.address, nums, reading);
    if !o.Next? {
      return o;
    }
    o := Loop(m, code, consts, nums, cycles, reading);
  }
}
