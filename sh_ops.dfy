/** `gvm_op_t` of `adder/shared/sh_types.h`: the opcodes of the language's virtual machine, numbered from 0. */
module ShOps {
  const OpHalt: int := 0
  const OpAnd: int := 1
  const OpOr: int := 2
  const OpNot: int := 3
  const OpMul: int := 4
  const OpDiv: int := 5
  const OpMod: int := 6
  const OpAdd: int := 7
  const OpSub: int := 8
  const OpNeg: int := 9
  const OpDup1: int := 10
  const OpDup2: int := 11
  const OpRot2: int := 12
  const OpCmpEqual: int := 13
  const OpCmpNotEqual: int := 14
  const OpCmpLessThan: int := 15
  const OpCmpMoreThan: int := 16
  const OpCmpLessThanOrEqual: int := 17
  const OpCmpMoreThanOrEqual: int := 18
  const OpPushValue: int := 19
  const OpPop1: int := 20
  const OpPop2: int := 21
  const OpJump: int := 22
  const OpJumpIfFalse: int := 23
  const OpExit: int := 24
  const OpCall: int := 25
  const OpEntryPoint: int := 26
  const OpMakeFrame: int := 27
  const OpReturnNothing: int := 28
  const OpReturnValue: int := 29
  const OpStoreLocal: int := 30
  const OpLoadLocal: int := 31
  const OpPrint: int := 32
  const OpMakeArray: int := 33
  const OpArrayLength: int := 34
  const OpMakeIter: int := 35
  const OpIterNext: int := 36
  const OpCallNative: int := 37
  const OpOpcodeCount: int := 38
}
