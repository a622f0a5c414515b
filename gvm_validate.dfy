/**
 * `gvm/gvm_validate.h`: the runtime checks of the grid machine. The stack
 * and argument checks are those of `StackChecks`, except that a missing call
 * frame fails the stack check; the pre-check adds ordering rules: `OP_CALL`
 * must be followed by `OP_MAKE_FRAME`, `OP_MAKE_FRAME` must follow `OP_CALL`
 * or `OP_INIT`, and `OP_INIT` must be the first instruction run. The local
 * index operand is a signed 16-bit number here.
 */
module GvmValidate {
  import opened Wrappers
  import opened ShValue
  import opened StackChecks
  import opened GvmAsmUtils

  /** The opcodes that take two numbers. */
  predicate NumericBinary(opcode: int) {
    opcode == OpAdd || opcode == OpSub || opcode == OpMul ||
    opcode == OpCmpLessThan || opcode == OpCmpMoreThan || opcode == OpCmpEqual
  }

  /** The opcodes whose arguments the pre-check examines. */
  predicate PreChecked(opcode: int) {
    NumericBinary(opcode) || opcode == OpAnd || opcode == OpOr ||
    opcode == OpDup1 || opcode == OpPop1 || opcode == OpReturn || opcode == OpPrint ||
    opcode == OpPop2 || opcode == OpDup2 || opcode == OpRot2 ||
    opcode == OpNot || opcode == OpJumpIfFalse || opcode == OpNeg || opcode == OpMakeFrame ||
    opcode == OpStoreLocal || opcode == OpLoadLocal || opcode == OpInit
  }

  /**
   * The ordering rules of `validation_pre_exec`, on the previous opcode and
   * the number of instructions run before this one.
   */
  function OrderVerdict(last: int, count: int, opcode: int): (v: Verdict)
    ensures v == Pass <==> StepOrderOk(last, count, opcode)
  {
    if last == OpCall && opcode != OpMakeFrame then Fail(CallNotFollowedByFrame)
    else if opcode == OpMakeFrame && last != OpCall && last != OpInit then Fail(FrameNotAfterCall)
    else if opcode == OpInit && count != 0 then Fail(InitNotFirst)
    else Pass
  }

  /** One step keeps the ordering rules. */
  predicate StepOrderOk(prev: int, count: int, opcode: int) {
    (prev == OpCall ==> opcode == OpMakeFrame) &&
    (opcode == OpMakeFrame ==> prev == OpCall || prev == OpInit) &&
    (opcode == OpInit ==> count == 0)
  }

  /** The check of a local access: the 16-bit index must lie in `[0, args + locals)` of the current frame. */
  function LocalVerdict(s: Stack, code: seq<bv8>, pc: int): (r: Result<Verdict, Abort>)
    ensures r.Err? <==> !(0 <= s.frame < |s.values|) || !(0 <= pc && pc + 2 <= |code|)
    ensures r.Ok? ==> (r.value == Pass <==> 0 <= ReadI16(code, pc) < Reserved(s))
    ensures r.Ok? && r.value.Fail? ==> r.value.failure == LocalOutOfRange(ReadI16(code, pc), Reserved(s))
  {
    if !(0 <= s.frame < |s.values|) then Err(OutOfBounds)
    else if !(0 <= pc && pc + 2 <= |code|) then Err(OutOfBounds)
    else
      var id := ReadI16(code, pc);
      var nreserved := Reserved(s);
      if id < 0 || id >= nreserved then Ok(Fail(LocalOutOfRange(id, nreserved))) else Ok(Pass)
  }

  /**
   * `validation_pre_exec`'s verdict: the ordering rules first; then each
   * opcode's arguments by count, by type or by index, as in `adder/vm/vm_validate.h`.
   */
  function PreVerdict(last: int, opcntr: bv32, opcode: int, s: Stack, code: seq<bv8>, pc: int): (r: Result<Verdict, Abort>)
    ensures OrderVerdict(last, opcntr as int, opcode) != Pass ==> r == Ok(OrderVerdict(last, opcntr as int, opcode))
    ensures r == Ok(Pass) ==> StepOrderOk(last, opcntr as int, opcode)
    ensures StepOrderOk(last, opcntr as int, opcode) && NumericBinary(opcode) ==> (r == Ok(Pass) <==>
      1 <= s.top && s.top < |s.values| &&
      GetType(s.values[s.top]) == TypeOrdinal(VNumber) && GetType(s.values[s.top - 1]) == TypeOrdinal(VNumber))
    ensures StepOrderOk(last, opcntr as int, opcode) && (opcode == OpStoreLocal || opcode == OpLoadLocal) ==>
      r == LocalVerdict(s, code, pc)
    ensures StepOrderOk(last, opcntr as int, opcode) && !PreChecked(opcode) ==> r == Ok(Pass)
    ensures opcode == OpInit ==> (r == Ok(Pass) <==> opcntr == 0 && last != OpCall)
  {
    var order := OrderVerdict(last, opcntr as int, opcode);
    if order != Pass then Ok(order)
    else if NumericBinary(opcode) then
      ArgsVerdictMeaning(s, [VNumber, VNumber]);
      ArgsVerdict(s, [VNumber, VNumber])
    else if opcode == OpAnd || opcode == OpOr then
      ArgsVerdict(s, [VBool, VBool])
    else if opcode == OpDup1 || opcode == OpPop1 || opcode == OpReturn || opcode == OpPrint then
      Ok(ArgCountVerdict(s, 1))
    else if opcode == OpPop2 || opcode == OpDup2 || opcode == OpRot2 then
      Ok(ArgCountVerdict(s, 2))
    else if opcode == OpNot || opcode == OpJumpIfFalse then
      ArgsVerdict(s, [VBool])
    else if opcode == OpNeg || opcode == OpMakeFrame then
      ArgsVerdict(s, [VNumber])
    else if opcode == OpStoreLocal || opcode == OpLoadLocal then
      LocalVerdict(s, code, pc)
    else Ok(Pass)
  }

  /** The opcodes after which `validation_post_exec` checks the stack. */
  predicate PostChecked(opcode: int) {
    opcode == OpPushValue || opcode == OpPop1 || opcode == OpPop2 || NumericBinary(opcode) ||
    opcode == OpNeg || opcode == OpAnd || opcode == OpOr || opcode == OpNot ||
    opcode == OpDup1 || opcode == OpDup2 || opcode == OpJumpIfFalse || opcode == OpCall ||
    opcode == OpMakeFrame || opcode == OpPrint || opcode == OpStoreLocal || opcode == OpLoadLocal
  }

  /** `validation_post_exec`'s verdict: the stack check, with a frame required, for the listed opcodes. */
  function PostVerdict(opcode: int, s: Stack): (r: Result<Verdict, Abort>)
    ensures !PostChecked(opcode) ==> r == Ok(Pass)
    ensures PostChecked(opcode) && s.frame < 0 && -1 <= s.top < |s.values| ==> r == Ok(Fail(MissingFrame))
    ensures PostChecked(opcode) ==> r == StackVerdict(s, true)
  {
    if PostChecked(opcode) then StackVerdict(s, true) else Ok(Pass)
  }

  /** The branches of `validation_pre_exec` that decide its verdict. */
  method PreCheck(last: int, opcntr: bv32, opcode: int, s: Stack, code: seq<bv8>, pc: int) returns (v: Result<Verdict, Abort>)
    ensures v == PreVerdict(last, opcntr, opcode, s, code, pc)
  {
    if last == OpCall && opcode != OpMakeFrame {
      v := Ok(Fail(CallNotFollowedByFrame));
    } else if opcode == OpMakeFrame && last != OpCall && last != OpInit {
      v := Ok(Fail(FrameNotAfterCall));
    } else if NumericBinary(opcode) {
      v := CheckStackArgs(s, [VNumber, VNumber]);
    } else if opcode == OpAnd || opcode == OpOr {
      v := CheckStackArgs(s, [VBool, VBool]);
    } else if opcode == OpDup1 || opcode == OpPop1 || opcode == OpReturn || opcode == OpPrint {
      v := Ok(ArgCountVerdict(s, 1));
    } else if opcode == OpPop2 || opcode == OpDup2 || opcode == OpRot2 {
      v := Ok(ArgCountVerdict(s, 2));
    } else if opcode == OpNot || opcode == OpJumpIfFalse {
      v := CheckStackArgs(s, [VBool]);
    } else if opcode == OpNeg || opcode == OpMakeFrame {
      v := CheckStackArgs(s, [VNumber]);
    } else if opcode == OpStoreLocal || opcode == OpLoadLocal {
      v := LocalVerdict(s, code, pc);
    } else if opcode == OpInit && opcntr != 0 {
      v := Ok(Fail(InitNotFirst));
    } else {
      v := Ok(Pass);
    }
  }

  /** `validation_t` of the grid machine. */
  class Validation {
    var lastOpcode: int
    var opcntr: bv32
    var message: Option<Failure>

    /** `validation_init` (allocation failure is not modelled): zeroed, so the last opcode reads as `OP_HALT`. */
    constructor ()
      ensures lastOpcode == OpHalt && opcntr == 0 && message == None
    {
      lastOpcode, opcntr, message := OpHalt, 0, None;
    }

    /** `validation_pre_exec`: the verdict of `PreVerdict`; the opcode is recorded and the counter advanced either way. */
    method PreExec(opcode: int, s: Stack, code: seq<bv8>, pc: int) returns (r: Result<bool, Abort>)
      modifies this
      ensures var v := PreVerdict(old(lastOpcode), old(opcntr), opcode, s, code, pc);
        (r.Err? <==> v.Err?) && (r == Ok(true) <==> v == Ok(Pass)) &&
        (r == Ok(false) ==> message == Some(v.value.failure)) &&
        (r != Ok(false) ==> message == old(message))
      ensures r.Ok? ==> lastOpcode == opcode && opcntr == old(opcntr) + 1
      ensures r.Err? ==> lastOpcode == old(lastOpcode) && opcntr == old(opcntr)
    {
      var v := PreCheck(lastOpcode, opcntr, opcode, s, code, pc);
      if v.Err? {
        return Err(v.error);
      }
      lastOpcode := opcode;
      opcntr := opcntr + 1;
      if v.value.Fail? {
        message := Some(v.value.failure);
        return Ok(false);
      }
      return Ok(true);
    }

    /** `validation_post_exec`: the verdict of `PostVerdict`; a failure's message is kept. */
    method PostExec(opcode: int, s: Stack) returns (r: Result<bool, Abort>)
      modifies this
      ensures var v := PostVerdict(opcode, s);
        (r.Err? <==> v.Err?) && (r == Ok(true) <==> v == Ok(Pass)) &&
        (r == Ok(false) ==> message == Some(v.value.failure)) &&
        (r != Ok(false) ==> message == old(message))
      ensures lastOpcode == old(lastOpcode) && opcntr == old(opcntr)
    {
      var v := Ok(Pass);
      if PostChecked(opcode) {
        v := StackVerdict(s, true);
      }
      if v.Err? {
        return Err(v.error);
      }
      if v.value.Fail? {
        message := Some(v.value.failure);
        return Ok(false);
      }
      return Ok(true);
    }
  }

  // Ordering over a run

  /** The ordering rules pass for every instruction of a run, from the given previous opcode and count. */
  predicate OrderRunPasses(last: int, count: int, ops: seq<int>)
    decreases |ops|
  {
    ops == [] || (OrderVerdict(last, count, ops[0]) == Pass && OrderRunPasses(ops[0], count + 1, ops[1..]))
  }

  /** The opcode run before instruction `i`. */
  function Prev(last: int, ops: seq<int>, i: nat): int
    requires i < |ops|
  {
    if i == 0 then last else ops[i - 1]
  }

  /** Every instruction keeps the ordering rules with respect to the one before it. */
  predicate OrderedFrom(last: int, count: int, ops: seq<int>) {
    forall i :: 0 <= i < |ops| ==> StepOrderOk(Prev(last, ops, i), count + i, ops[i])
  }

  lemma {:induction false} OrderRunMeaningFrom(last: int, count: int, ops: seq<int>)
    ensures OrderRunPasses(last, count, ops) <==> OrderedFrom(last, count, ops)
    decreases |ops|
  {
    if ops != [] {
      OrderRunMeaningFrom(ops[0], count + 1, ops[1..]);
      if OrderedFrom(last, count, ops) {
        forall i | 0 <= i < |ops[1..]|
          ensures StepOrderOk(Prev(ops[0], ops[1..], i), count + 1 + i, ops[1..][i])
        {
          assert StepOrderOk(Prev(last, ops, i + 1), count + (i + 1), ops[i + 1]);
        }
        assert StepOrderOk(Prev(last, ops, 0), count, ops[0]);
      }
      if OrderRunPasses(last, count, ops) {
        forall i | 0 <= i < |ops|
          ensures StepOrderOk(Prev(last, ops, i), count + i, ops[i])
        {
          if i > 0 {
            assert StepOrderOk(Prev(ops[0], ops[1..], i - 1), count + 1 + (i - 1), ops[1..][i - 1]);
          }
        }
      }
    }
  }

  /**
   * A run from a freshly initialised validation passes the ordering rules
   * exactly when every `OP_CALL` is directly followed by `OP_MAKE_FRAME`,
   * every `OP_MAKE_FRAME` directly follows `OP_CALL` or `OP_INIT` (so none
   * comes first), and `OP_INIT` occurs at most as the first instruction.
   */
  lemma OrderRunMeaning(ops: seq<int>)
    ensures OrderRunPasses(OpHalt, 0, ops) <==>
      (forall i :: 0 <= i < |ops| - 1 && ops[i] == OpCall ==> ops[i + 1] == OpMakeFrame) &&
      (|ops| > 0 ==> ops[0] != OpMakeFrame) &&
      (forall i :: 1 <= i < |ops| && ops[i] == OpMakeFrame ==> ops[i - 1] == OpCall || ops[i - 1] == OpInit) &&
      (forall i :: 1 <= i < |ops| ==> ops[i] != OpInit)
  {
    OrderRunMeaningFrom(OpHalt, 0, ops);
    if OrderedFrom(OpHalt, 0, ops) {
      forall i | 0 <= i < |ops| - 1 && ops[i] == OpCall
        ensures ops[i + 1] == OpMakeFrame
      {
        assert StepOrderOk(Prev(OpHalt, ops, i + 1), i + 1, ops[i + 1]);
      }
      if |ops| > 0 {
        assert StepOrderOk(Prev(OpHalt, ops, 0), 0, ops[0]);
      }
      forall i | 1 <= i < |ops| && ops[i] == OpMakeFrame
        ensures ops[i - 1] == OpCall || ops[i - 1] == OpInit
      {
        assert StepOrderOk(Prev(OpHalt, ops, i), i, ops[i]);
      }
      forall i | 1 <= i < |ops|
        ensures ops[i] != OpInit
      {
        assert StepOrderOk(Prev(OpHalt, ops, i), i, ops[i]);
      }
    }
  }
}
