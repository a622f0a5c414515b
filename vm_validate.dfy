/**
 * The stack checks shared by `adder/vm/vm_validate.h` and
 * `gvm/gvm_validate.h`: the argument count, the argument types and the
 * bounds of the stack and its call frame. The checks only read the stack;
 * a failing check's message is modelled as the kind of failure, not its text.
 */
module StackChecks {
  import opened Wrappers
  import opened ShValue

  /** The stack the checks read: its values (as many as `stack.size`), the top index and the frame index. */
  datatype Stack = Stack(values: seq<Val>, top: int, frame: int)

  /** The failure each message of the validators reports. */
  datatype Failure =
    | MissingArgs(nargs: int)
    | WrongArgType(argNo: nat, expected: ValType, actual: bv64)
    | StackOverflow
    | StackUnderflow
    | MissingFrame
    | FrameCompromised
    | CallNotFollowedByFrame
    | FrameNotAfterCall
    | LocalOutOfRange(id: int, nreserved: int)
    | InitNotFirst

  /** The outcome of one check. */
  datatype Verdict = Pass | Fail(failure: Failure)

  /** `validation_check_stack_arg_count`: the stack must hold at least `nargs` values. */
  function ArgCountVerdict(s: Stack, nargs: int): (v: Verdict)
    ensures v == Pass <==> nargs <= s.top + 1
    ensures v != Pass ==> v == Fail(MissingArgs(nargs))
  {
    if s.top + 1 < nargs then Fail(MissingArgs(nargs)) else Pass
  }

  /** Argument `i` (the value `i` below the top) is stored and has the `i`-th expected type. */
  predicate ArgTypeOk(s: Stack, expected: seq<ValType>, i: nat)
    requires i < |expected|
  {
    0 <= s.top - i < |s.values| && GetType(s.values[s.top - i]) == TypeOrdinal(expected[i])
  }

  /** The typed comparison from argument `i` on, in order; a read outside the stack aborts. */
  function ArgTypesFrom(s: Stack, expected: seq<ValType>, i: nat): Result<Verdict, Abort>
    decreases |expected| - i
  {
    if i >= |expected| then Ok(Pass)
    else if !(0 <= s.top - i < |s.values|) then Err(OutOfBounds)
    else if GetType(s.values[s.top - i]) != TypeOrdinal(expected[i]) then
      Ok(Fail(WrongArgType(i + 1, expected[i], GetType(s.values[s.top - i]))))
    else ArgTypesFrom(s, expected, i + 1)
  }

  /** `validation_check_stack_args`: the count check, then the typed comparison of every argument. */
  function ArgsVerdict(s: Stack, expected: seq<ValType>): Result<Verdict, Abort> {
    if s.top + 1 < |expected| then Ok(Fail(MissingArgs(|expected|))) else ArgTypesFrom(s, expected, 0)
  }

  /**
   * The typed comparison passes exactly when every remaining argument has its
   * type; a failure names the first argument that does not, after arguments
   * that all did; and on a stack whose top is a stored index nothing aborts.
   */
  lemma {:induction false} ArgTypesFromMeaning(s: Stack, expected: seq<ValType>, i: nat)
    requires i <= |expected|
    ensures ArgTypesFrom(s, expected, i) == Ok(Pass) <==> forall k :: i <= k < |expected| ==> ArgTypeOk(s, expected, k)
    ensures ArgTypesFrom(s, expected, i).Ok? && ArgTypesFrom(s, expected, i).value.Fail? ==>
      var f := ArgTypesFrom(s, expected, i).value.failure;
      f.WrongArgType? && i + 1 <= f.argNo <= |expected| && !ArgTypeOk(s, expected, f.argNo - 1) &&
      f.expected == expected[f.argNo - 1] &&
      forall k :: i <= k < f.argNo - 1 ==> ArgTypeOk(s, expected, k)
    ensures |expected| <= s.top + 1 && s.top < |s.values| ==> ArgTypesFrom(s, expected, i).Ok?
    decreases |expected| - i
  {
    if i < |expected| && 0 <= s.top - i < |s.values| && GetType(s.values[s.top - i]) == TypeOrdinal(expected[i]) {
      ArgTypesFromMeaning(s, expected, i + 1);
      assert ArgTypeOk(s, expected, i);
    } else if i < |expected| {
      assert !ArgTypeOk(s, expected, i);
    }
  }

  /**
   * `validation_check_stack_args` passes exactly when the stack holds the
   * arguments and each has its expected type; it fails with the count when
   * the stack is too short, and never aborts on a stack within its bounds.
   */
  lemma ArgsVerdictMeaning(s: Stack, expected: seq<ValType>)
    ensures ArgsVerdict(s, expected) == Ok(Pass) <==>
      |expected| <= s.top + 1 && forall k :: 0 <= k < |expected| ==> ArgTypeOk(s, expected, k)
    ensures s.top + 1 < |expected| ==> ArgsVerdict(s, expected) == Ok(Fail(MissingArgs(|expected|)))
    ensures s.top < |s.values| ==> ArgsVerdict(s, expected).Ok?
  {
    ArgTypesFromMeaning(s, expected, 0);
  }

  /** The loop of `validation_check_stack_args`. */
  method CheckStackArgs(s: Stack, expected: seq<ValType>) returns (r: Result<Verdict, Abort>)
    ensures r == ArgsVerdict(s, expected)
  {
    if s.top + 1 < |expected| {
      return Ok(Fail(MissingArgs(|expected|)));
    }
    var i := 0;
    while i < |expected|
      invariant 0 <= i <= |expected|
      invariant ArgTypesFrom(s, expected, 0) == ArgTypesFrom(s, expected, i)
    {
      if !(0 <= s.top - i < |s.values|) {
        return Err(OutOfBounds);
      }
      var argType := GetType(s.values[s.top - i]);
      if argType != TypeOrdinal(expected[i]) {
        return Ok(Fail(WrongArgType(i + 1, expected[i], argType)));
      }
      i := i + 1;
    }
    return Ok(Pass);
  }

  /** The first index above the current frame's arguments and locals. */
  function FrameUpper(s: Stack): int
    requires 0 <= s.frame < |s.values|
  {
    var f := ValIntoFrame(s.values[s.frame]);
    s.frame + f.numArgs as int + f.numLocals as int
  }

  /**
   * `validation_check_stack`: the top must lie in `[-1, size)`, and the
   * stack must reach past the current frame's arguments and locals. Without
   * a frame (`frame < 0`) the check passes here; `frameRequired` is the
   * variant of `gvm/gvm_validate.h`, which fails instead.
   */
  function StackVerdict(s: Stack, frameRequired: bool): (r: Result<Verdict, Abort>)
    ensures r == Ok(Fail(StackOverflow)) <==> s.top >= |s.values|
    ensures r == Ok(Fail(StackUnderflow)) <==> s.top < -1
    ensures r == Ok(Fail(MissingFrame)) <==> frameRequired && -1 <= s.top < |s.values| && s.frame < 0
    ensures r.Err? <==> -1 <= s.top < |s.values| && s.frame >= |s.values|
    ensures r == Ok(Pass) <==> (-1 <= s.top < |s.values| &&
      ((s.frame < 0 && !frameRequired) || (0 <= s.frame < |s.values| && FrameUpper(s) <= s.top)))
  {
    if s.top >= |s.values| then Ok(Fail(StackOverflow))
    else if s.top < -1 then Ok(Fail(StackUnderflow))
    else if s.frame < 0 then (if frameRequired then Ok(Fail(MissingFrame)) else Ok(Pass))
    else if s.frame >= |s.values| then Err(OutOfBounds)
    else if s.top < FrameUpper(s) then Ok(Fail(FrameCompromised))
    else Ok(Pass)
  }

  /** The number of argument and local slots the current frame reserves. */
  function Reserved(s: Stack): int
    requires 0 <= s.frame < |s.values|
  {
    var f := ValIntoFrame(s.values[s.frame]);
    f.numLocals as int + f.numArgs as int
  }
}

/**
 * `adder/vm/vm_validate.h`: the checks the virtual machine runs before and
 * after each instruction when runtime validation is compiled in.
 * `validation_pre_exec` also records the last opcode and counts the
 * instructions, and a failing check leaves its message behind.
 */
module VmValidate {
  import opened Wrappers
  import opened ShUtils
  import opened ShValue
  import opened ShOps
  import opened StackChecks

  /** The local index operand at `pc`, a 32-bit word stored into an `int`. */
  function LocalId(code: seq<bv8>, pc: int): int
    requires 0 <= pc && pc + 4 <= |code|
  {
    Int32(ReadU32(code, pc))
  }

  /**
   * The check of `OP_STORE_LOCAL` and `OP_LOAD_LOCAL`: the index must lie in
   * `[0, args + locals)` of the current frame. Reading the frame outside the
   * stack, or the operand outside the code, aborts.
   */
  function LocalVerdict(s: Stack, code: seq<bv8>, pc: int): (r: Result<Verdict, Abort>)
    ensures r.Err? <==> !(0 <= s.frame < |s.values|) || !(0 <= pc && pc + 4 <= |code|)
    ensures r.Ok? ==> (r.value == Pass <==> 0 <= LocalId(code, pc) < Reserved(s))
    ensures r.Ok? && r.value.Fail? ==> r.value.failure == LocalOutOfRange(LocalId(code, pc), Reserved(s))
  {
    if !(0 <= s.frame < |s.values|) then Err(OutOfBounds)
    else if !(0 <= pc && pc + 4 <= |code|) then Err(OutOfBounds)
    else
      var id := LocalId(code, pc);
      var nreserved := Reserved(s);
      if id < 0 || id >= nreserved then Ok(Fail(LocalOutOfRange(id, nreserved))) else Ok(Pass)
  }

  /** The opcodes that take two numbers. */
  predicate NumericBinary(opcode: int) {
    opcode == OpAdd || opcode == OpSub || opcode == OpMul || opcode == OpDiv || opcode == OpMod ||
    opcode == OpCmpLessThan || opcode == OpCmpMoreThan || opcode == OpCmpLessThanOrEqual ||
    opcode == OpCmpMoreThanOrEqual || opcode == OpCmpNotEqual || opcode == OpCmpEqual
  }

  /** The opcodes whose arguments `validation_pre_exec` checks, and how. */
  predicate PreChecked(opcode: int) {
    NumericBinary(opcode) || opcode == OpAnd || opcode == OpOr ||
    opcode == OpDup1 || opcode == OpPop1 || opcode == OpReturnValue || opcode == OpPrint ||
    opcode == OpPop2 || opcode == OpDup2 || opcode == OpRot2 ||
    opcode == OpNot || opcode == OpJumpIfFalse || opcode == OpNeg || opcode == OpMakeFrame ||
    opcode == OpStoreLocal || opcode == OpLoadLocal
  }

  /**
   * `validation_pre_exec`'s verdict: after `OP_CALL` only `OP_MAKE_FRAME` may
   * run; otherwise each opcode's arguments are checked by count, by type, or
   * (local access) by index, and any other opcode passes.
   */
  function PreVerdict(last: int, opcode: int, s: Stack, code: seq<bv8>, pc: int): (r: Result<Verdict, Abort>)
    ensures last == OpCall && opcode != OpMakeFrame ==> r == Ok(Fail(CallNotFollowedByFrame))
    ensures last != OpCall && NumericBinary(opcode) ==> (r == Ok(Pass) <==>
      1 <= s.top && s.top < |s.values| &&
      GetType(s.values[s.top]) == TypeOrdinal(VNumber) && GetType(s.values[s.top - 1]) == TypeOrdinal(VNumber))
    ensures last != OpCall && (opcode == OpAnd || opcode == OpOr) ==> (r == Ok(Pass) <==>
      1 <= s.top && s.top < |s.values| &&
      GetType(s.values[s.top]) == TypeOrdinal(VBool) && GetType(s.values[s.top - 1]) == TypeOrdinal(VBool))
    ensures last != OpCall && (opcode == OpStoreLocal || opcode == OpLoadLocal) ==> r == LocalVerdict(s, code, pc)
    ensures last != OpCall && !PreChecked(opcode) ==> r == Ok(Pass)
    ensures s.top < |s.values| && !(opcode == OpStoreLocal || opcode == OpLoadLocal) ==> r.Ok?
  {
    if last == OpCall && opcode != OpMakeFrame then Ok(Fail(CallNotFollowedByFrame))
    else if NumericBinary(opcode) then
      ArgsVerdictMeaning(s, [VNumber, VNumber]);
      ArgsVerdict(s, [VNumber, VNumber])
    else if opcode == OpAnd || opcode == OpOr then
      ArgsVerdictMeaning(s, [VBool, VBool]);
      ArgsVerdict(s, [VBool, VBool])
    else if opcode == OpDup1 || opcode == OpPop1 || opcode == OpReturnValue || opcode == OpPrint then
      Ok(ArgCountVerdict(s, 1))
    else if opcode == OpPop2 || opcode == OpDup2 || opcode == OpRot2 then
      Ok(ArgCountVerdict(s, 2))
    else if opcode == OpNot || opcode == OpJumpIfFalse then
      ArgsVerdictMeaning(s, [VBool]);
      ArgsVerdict(s, [VBool])
    else if opcode == OpNeg || opcode == OpMakeFrame then
      ArgsVerdictMeaning(s, [VNumber]);
      ArgsVerdict(s, [VNumber])
    else if opcode == OpStoreLocal || opcode == OpLoadLocal then
      LocalVerdict(s, code, pc)
    else Ok(Pass)
  }

  /** The opcodes after which `validation_post_exec` checks the stack. */
  predicate PostChecked(opcode: int) {
    opcode == OpPushValue || opcode == OpPop1 || opcode == OpPop2 || NumericBinary(opcode) ||
    opcode == OpNeg || opcode == OpAnd || opcode == OpOr || opcode == OpNot ||
    opcode == OpDup1 || opcode == OpDup2 || opcode == OpJumpIfFalse || opcode == OpCall ||
    opcode == OpMakeFrame || opcode == OpPrint || opcode == OpStoreLocal || opcode == OpLoadLocal
  }

  /** `validation_post_exec`'s verdict: the stack check for the listed opcodes, nothing for the rest. */
  function PostVerdict(opcode: int, s: Stack): (r: Result<Verdict, Abort>)
    ensures !PostChecked(opcode) ==> r == Ok(Pass)
    ensures PostChecked(opcode) ==> r == StackVerdict(s, false)
  {
    if PostChecked(opcode) then StackVerdict(s, false) else Ok(Pass)
  }

  /** The branches of `validation_pre_exec` that decide its verdict. */
  method PreCheck(last: int, opcode: int, s: Stack, code: seq<bv8>, pc: int) returns (v: Result<Verdict, Abort>)
    ensures v == PreVerdict(last, opcode, s, code, pc)
  {
    if last == OpCall && opcode != OpMakeFrame {
      v := Ok(Fail(CallNotFollowedByFrame));
    } else if NumericBinary(opcode) {
      v := CheckStackArgs(s, [VNumber, VNumber]);
    } else if opcode == OpAnd || opcode == OpOr {
      v := CheckStackArgs(s, [VBool, VBool]);
    } else if opcode == OpDup1 || opcode == OpPop1 || opcode == OpReturnValue || opcode == OpPrint {
      v := Ok(ArgCountVerdict(s, 1));
    } else if opcode == OpPop2 || opcode == OpDup2 || opcode == OpRot2 {
      v := Ok(ArgCountVerdict(s, 2));
    } else if opcode == OpNot || opcode == OpJumpIfFalse {
      v := CheckStackArgs(s, [VBool]);
    } else if opcode == OpNeg || opcode == OpMakeFrame {
      v := CheckStackArgs(s, [VNumber]);
    } else if opcode == OpStoreLocal || opcode == OpLoadLocal {
      v := LocalVerdict(s, code, pc);
    } else {
      v := Ok(Pass);
    }
  }

  /** `validation_t`. */
  class Validation {
    var lastOpcode: int
    var opcntr: bv32
    var message: Option<Failure>

    /** `validation_init` (allocation failure is not modelled): zeroed, so the last opcode reads as `OP_HALT`. */
    constructor ()
      ensures lastOpcode == OpHalt && opcntr == 0 && message == None
    {
      lastOpcode, opcntr, message := OpHalt, 0, None;
    }

    /**
     * `validation_pre_exec`: the verdict of `PreVerdict` on the previous
     * opcode; then the opcode is recorded and the counter advanced (wrapping
     * at 32 bits), also when the check failed, whose message is kept.
     */
    method PreExec(opcode: int, s: Stack, code: seq<bv8>, pc: int) returns (r: Result<bool, Abort>)
      modifies this
      ensures var v := PreVerdict(old(lastOpcode), opcode, s, code, pc);
        (r.Err? <==> v.Err?) && (r == Ok(true) <==> v == Ok(Pass)) &&
        (r == Ok(false) ==> message == Some(v.value.failure)) &&
        (r != Ok(false) ==> message == old(message))
      ensures r.Ok? ==> lastOpcode == opcode && opcntr == old(opcntr) + 1
      ensures r.Err? ==> lastOpcode == old(lastOpcode) && opcntr == old(opcntr)
    {
      var v := PreCheck(lastOpcode, opcode, s, code, pc);
      if v.Err? {
        return Err(v.error);
      }
      lastOpcode := opcode;
      opcntr := opcntr + 1;
      if v.value.Fail? {
        message := Some(v.value.failure);
        return Ok(false);
      }
      return Ok(true);
    }

    /** `validation_post_exec`: the verdict of `PostVerdict`; a failure's message is kept. */
    method PostExec(opcode: int, s: Stack) returns (r: Result<bool, Abort>)
      modifies this
      ensures var v := PostVerdict(opcode, s);
        (r.Err? <==> v.Err?) && (r == Ok(true) <==> v == Ok(Pass)) &&
        (r == Ok(false) ==> message == Some(v.value.failure)) &&
        (r != Ok(false) ==> message == old(message))
      ensures lastOpcode == old(lastOpcode) && opcntr == old(opcntr)
    {
      var v := Ok(Pass);
      if PostChecked(opcode) {
        v := StackVerdict(s, false);
      }
      if v.Err? {
        return Err(v.error);
      }
      if v.value.Fail? {
        message := Some(v.value.failure);
        return Ok(false);
      }
      return Ok(true);
    }
  }
}
