/**
 * The stack machine that `adder/vm/vm.c` and `gvm/gvm.c` both run, and the
 * instructions that behave alike in the two, defined once.
 *
 * A machine owns one block of value words: the stack from index 0 upwards
 * (`top` is the index of its last value, -1 when empty; `frame` the index of
 * the current call's frame word, -1 outside any call), then the heap. No
 * instruction checks an index: an index outside the block is undefined
 * behaviour in C and a crash (`OutOfBounds`) here, while a stack that grows
 * past its half runs on into the heap, as it does there.
 *
 * `val_number` and the truncating `(int) val_into_number(..)` convert
 * through a 32-bit float; the machine is parameterised by that pair of
 * conversions (`Numbers`), and the properties that need it require it to be
 * exact on the integers a float holds exactly (`Exact`).
 */
module VmCore {
  import opened Wrappers
  import opened ShValue
  import ShUtils

  // ------------------------------------------------------------ conversions

  const Two32: int := 0x1_0000_0000

  /** An integer stored into a C `int`: its 32-bit two's-complement reading. */
  function I32(x: int): (r: int)
    ensures -0x8000_0000 <= r < 0x8000_0000
    ensures (x - r) % Two32 == 0
    ensures -0x8000_0000 <= x < 0x8000_0000 ==> r == x
  {
    var m := x % Two32;
    if m >= 0x8000_0000 then m - Two32 else m
  }

  /** An integer stored into a `uint32_t`. */
  function U32(x: int): (r: int)
    ensures 0 <= r < Two32
    ensures (x - r) % Two32 == 0
    ensures 0 <= x < Two32 ==> r == x
  {
    x % Two32
  }

  /** `val_number` of an integer, and the bit pattern of `(int) val_into_number(..)`. */
  datatype Numbers = Numbers(make: int -> Val, read: Val -> CInt)

  /** The integers a 32-bit float holds exactly. */
  predicate Small(x: int) {
    -0x100_0000 <= x <= 0x100_0000
  }

  /** The conversions give back every small integer, and what `make` makes is tagged as a number. */
  ghost predicate Exact(n: Numbers) {
    forall x {:trigger n.make(x)} :: Small(x) ==> ShUtils.Int32(n.read(n.make(x))) == x && GetType(n.make(x)) == TypeOrdinal(VNumber)
  }

  // ------------------------------------------------------------ states

  /** The block of value words, the stack and frame indices, and the position in the code. */
  datatype State = State(mem: seq<Val>, top: int, frame: int, pc: int)

  /** What one instruction does: go on, end the run with a value, crash, or leave the model. */
  datatype Outcome = Next(s: State) | Exit(s: State, value: Val) | Crash(abort: Abort) | Unmodelled(opcode: int)

  /** The stack is within the block. */
  predicate StackOk(s: State) {
    -1 <= s.top < |s.mem|
  }

  /** The values on the stack, bottom first. */
  function Live(s: State): seq<Val>
    requires StackOk(s)
  {
    s.mem[..s.top + 1]
  }

  /** `stack[i]` read. */
  function Load(s: State, i: int): Result<Val, Abort> {
    if 0 <= i < |s.mem| then Ok(s.mem[i]) else Err(OutOfBounds)
  }

  /** `stack[i] = v`. */
  function Store(s: State, i: int, v: Val): Result<State, Abort> {
    if 0 <= i < |s.mem| then Ok(s.(mem := s.mem[i := v])) else Err(OutOfBounds)
  }

  /** `stack[++top] = v`. */
  function Push(s: State, v: Val): Result<State, Abort> {
    Store(s.(top := s.top + 1), s.top + 1, v)
  }

  function Lift(r: Result<State, Abort>): Outcome {
    if r.Ok? then Next(r.value) else Crash(r.error)
  }

  // ------------------------------------------------------------ instructions

  /** `POP_1`, `POP_2`: the top is lowered; nothing is read. */
  function PopSpec(s: State, n: int): Outcome {
    Next(s.(top := s.top - n))
  }

  /** `DUP_1`. */
  function Dup1Spec(s: State): Outcome {
    var a := Load(s, s.top);
    if a.Err? then Crash(a.error) else Lift(Push(s, a.value))
  }

  /** `DUP_2`: the value under the top, then the top. */
  function Dup2Spec(s: State): Outcome {
    var a := Load(s, s.top - 1);
    var b := Load(s, s.top);
    if a.Err? then Crash(a.error)
    else if b.Err? then Crash(b.error)
    else
      var s1 := Push(s, a.value);
      if s1.Err? then Crash(s1.error) else Lift(Push(s1.value, b.value))
  }

  /** `ROT_2`. */
  function Rot2Spec(s: State): Outcome {
    var a := Load(s, s.top - 1);
    var b := Load(s, s.top);
    if a.Err? then Crash(a.error)
    else if b.Err? then Crash(b.error)
    else
      var s1 := Store(s, s.top - 1, b.value);
      if s1.Err? then Crash(s1.error) else Lift(Store(s1.value, s.top, a.value))
  }

  /** `AND` (`isAnd`) and `OR`: two booleans popped, one pushed. */
  function LogicSpec(s: State, isAnd: bool): Outcome {
    var a := Load(s, s.top);
    var b := Load(s, s.top - 1);
    if a.Err? then Crash(a.error)
    else if b.Err? then Crash(b.error)
    else
      var x, y := ValIntoBool(a.value), ValIntoBool(b.value);
      Lift(Store(s.(top := s.top - 1), s.top - 1, ValBool(if isAnd then x && y else x || y)))
  }

  /** `NOT`: the top replaced by its negation. */
  function NotSpec(s: State): Outcome {
    var a := Load(s, s.top);
    if a.Err? then Crash(a.error) else Lift(Store(s, s.top, ValBool(!ValIntoBool(a.value))))
  }

  /**
   * `JUMP_IF_FALSE` (`s.pc` at the operand): the condition is popped; the
   * target operand is read only when the condition is false, and the code
   * steps past it otherwise.
   */
  function JumpIfFalseSpec(s: State, target: Result<int, Abort>): Outcome {
    var c := Load(s, s.top);
    if c.Err? then Crash(c.error)
    else if ValIntoBool(c.value) then Next(s.(top := s.top - 1, pc := U32(s.pc + 4)))
    else if target.Err? then Crash(target.error)
    else Next(s.(top := s.top - 1, pc := target.value))
  }

  /** `CALL` and the entry instruction: a return position pushed as a number, then a jump. */
  function CallSpec(s: State, ret: int, target: int, nums: Numbers): Outcome {
    var s1 := Push(s, nums.make(ret));
    if s1.Err? then Crash(s1.error) else Next(s1.value.(pc := target))
  }

  /** `PUSH_VALUE` with the constant index read. */
  function PushConstSpec(s: State, consts: seq<Val>, index: int): Outcome {
    if !(0 <= index < |consts|) then Crash(OutOfBounds)
    else
      var s1 := Push(s, consts[index]);
      if s1.Err? then Crash(s1.error) else Next(s1.value.(pc := U32(s.pc + 4)))
  }

  /** The stack index of local `index`: `frame + 1 + index`, computed unsigned. */
  function LocalSlot(s: State, index: int): int {
    U32(s.frame + 1 + index)
  }

  /** `STORE_LOCAL` with the local's index read: the popped top goes to the local's slot. */
  function StoreLocalSpec(s: State, index: int): Outcome {
    var v := Load(s, s.top);
    if v.Err? then Crash(v.error)
    else
      var s1 := Store(s.(top := s.top - 1), LocalSlot(s, index), v.value);
      if s1.Err? then Crash(s1.error) else Next(s1.value.(pc := U32(s.pc + 4)))
  }

  /** `LOAD_LOCAL` with the local's index read: the local's value pushed. */
  function LoadLocalSpec(s: State, index: int): Outcome {
    var v := Load(s, LocalSlot(s, index));
    if v.Err? then Crash(v.error)
    else
      var s1 := Push(s, v.value);
      if s1.Err? then Crash(s1.error) else Next(s1.value.(pc := U32(s.pc + 4)))
  }

  /** `ARRAY_LENGTH`: the array on top replaced by its length as a number. */
  function ArrayLengthSpec(s: State, nums: Numbers): Outcome {
    var v := Load(s, s.top);
    if v.Err? then Crash(v.error)
    else Lift(Store(s, s.top, nums.make(ValIntoArray(v.value).length as int)))
  }

  /** `MAKE_ITER`: the array on top replaced by an iterator over it. */
  function MakeIterSpec(s: State): Outcome {
    var v := Load(s, s.top);
    if v.Err? then Crash(v.error)
    else
      var a := ValIntoArray(v.value);
      Lift(Store(s, s.top, ValIter(Iter(a.address, a.length))))
  }

  /** The memory index of the element an iterator is at. */
  function ElementIndex(it: Iter): int {
    AddrToIndex(it.current) as int
  }

  /** The iterator moved one element on: the next index as a program address, one fewer remaining. */
  function Advance(it: Iter): Iter {
    Iter(MkProgrAddr(AddrToIndex(it.current) + 1), it.remaining - 1)
  }

  /**
   * `ITER_NEXT` with the exit position read: an exhausted iterator is
   * popped and the code jumps to the exit; otherwise the iterator is
   * advanced in place and the element it was at pushed above it.
   */
  function IterNextSpec(s: State, exitPc: int): Outcome {
    var v := Load(s, s.top);
    if v.Err? then Crash(v.error)
    else
      var it := ValIntoIter(v.value);
      if it.remaining == 0 then Next(s.(top := s.top - 1, pc := exitPc))
      else
        var e := Load(s, ElementIndex(it));
        if e.Err? then Crash(e.error)
        else
          var s1 := Store(s, s.top, ValIter(Advance(it)));
          if s1.Err? then Crash(s1.error)
          else
            var s2 := Push(s1.value, e.value);
            if s2.Err? then Crash(s2.error) else Next(s2.value.(pc := U32(s.pc + 4)))
  }

  /** The loop moving the arguments up one slot: `stack[start + i] = stack[start + i - 1]` for `i` from `count` down to 1. */
  function ShiftArgs(s: State, start: int, i: int): (r: Result<State, Abort>)
    ensures r.Err? ==> r.error == OutOfBounds
    decreases i
  {
    if i <= 0 then Ok(s)
    else
      var v := Load(s, start + i - 1);
      if v.Err? then Err(v.error)
      else
        var s1 := Store(s, start + i, v.value);
        if s1.Err? then Err(s1.error) else ShiftArgs(s1.value, start, i - 1)
  }

  /** The loop zeroing the locals: `stack[base + i] = 0` for `i` from `i` up to `n`, indices unsigned. */
  function ZeroLocals(s: State, base: int, i: int, n: int): (r: Result<State, Abort>)
    ensures r.Err? ==> r.error == OutOfBounds
    decreases n - i
  {
    if i >= n then Ok(s)
    else
      var s1 := Store(s, U32(base + i), 0);
      if s1.Err? then Err(s1.error) else ZeroLocals(s1.value, base, i + 1, n)
  }

  /** The frame `MAKE_FRAME` writes: the popped return position and the two counts, narrowed to their fields. */
  function NewFrame(callSite: CInt, nargs: int, nlocals: int): Frame {
    Frame(callSite, (nargs % 256) as bv8, (nlocals % 256) as bv8)
  }

  function FrameWord(callSite: CInt, nargs: int, nlocals: int): Val {
    ValFrame(NewFrame(callSite, nargs, nlocals))
  }

  /**
   * `MAKE_FRAME` after the return position is popped (`s.top` just below
   * the arguments): the arguments moved up one slot, the frame word written
   * at `start` and made current, the locals zeroed, and the top raised over
   * them.
   */
  function PlaceFrame(s: State, start: int, word: Val, nargs: int, nlocals: int): Outcome {
    var s2 := ShiftArgs(s, start, I32(nargs));
    if s2.Err? then Crash(s2.error)
    else
      var s3 := Store(s2.value, start, word);
      if s3.Err? then Crash(s3.error)
      else
        var s4 := ZeroLocals(s3.value.(frame := start), U32(start + 1 + nargs), 0, nlocals);
        if s4.Err? then Crash(s4.error) else Next(s4.value.(top := I32(s.top + nlocals + 1)))
  }

  /**
   * `MAKE_FRAME` with both counts read (`s.pc` at the first): the return
   * position is popped and the frame placed where the first argument was.
   */
  function MakeFrameSpec(s: State, nargs: int, nlocals: int, nums: Numbers): Outcome {
    var c := Load(s, s.top);
    if c.Err? then Crash(c.error)
    else
      var t1 := s.top - 1;
      PlaceFrame(s.(top := t1, pc := U32(s.pc + 8)), I32(t1 - nargs + 1), FrameWord(nums.read(c.value), nargs, nlocals), nargs, nlocals)
  }

  /** The frame search after a return: the highest index at or below `i` holding a frame word, or -1. */
  function PrevFrame(mem: seq<Val>, i: int): int
    requires i < |mem|
    decreases i
  {
    if i < 0 then -1
    else if GetType(mem[i]) == TypeOrdinal(VFrame) then i
    else PrevFrame(mem, i - 1)
  }

  /** The return position of the current frame, or -1 outside any frame. */
  function ReturnPc(s: State): int
    requires s.frame < |s.mem|
  {
    if s.frame >= 0 then ShUtils.Int32(ValIntoFrame(s.mem[s.frame]).returnPc) else -1
  }

  /**
   * `RETURN_VALUE` (`RETURN` in the grid machine). Outside a frame, or with
   * a negative return position, the run ends with the top value (none on an
   * empty stack); `resetOnExit` says whether the top is then set to 0.
   * Otherwise the frame and everything above it are dropped, the value that
   * was on top is pushed back if it lay above the arguments and locals, the
   * code resumes at the return position, and the nearest frame word below
   * becomes current.
   */
  function ReturnSpec(s: State, resetOnExit: bool): Outcome {
    if s.frame >= |s.mem| then Crash(OutOfBounds)
    else if ReturnPc(s) < 0 then
      if s.top >= 0 then
        var r := Load(s, s.top);
        if r.Err? then Crash(r.error) else Exit(if resetOnExit then s.(top := 0) else s, r.value)
      else Exit(s, ValNone())
    else ResumeSpec(s)
  }

  /** The part of `ReturnSpec` that goes back into the calling frame. */
  function ResumeSpec(s: State): Outcome
    requires 0 <= s.frame < |s.mem|
  {
    var u := Unwound(s);
    if u.Err? then Crash(u.error) else Next(u.value.(frame := PrevFrame(u.value.mem, u.value.top)))
  }

  /**
   * The frame and all above it dropped, the code at the return position,
   * and the value that was on top pushed back if it lay above the
   * arguments and locals; the frame search comes after.
   */
  function Unwound(s: State): Result<State, Abort>
    requires 0 <= s.frame < |s.mem|
  {
    var f := ValIntoFrame(s.mem[s.frame]);
    var bodyStart := s.frame + f.numLocals as int + f.numArgs as int;
    var r := Load(s, s.top);
    if r.Err? then Err(r.error)
    else
      var s1 := s.(top := s.frame - 1, pc := f.returnPc as int);
      Ok(if s.top > bodyStart then s1.(top := s.frame, mem := s.mem[s.frame := r.value]) else s1)
  }

  /** `RETURN_NOTHING`: as `ReturnSpec` with no value; ending the run sets the top to 0. */
  function ReturnNothingSpec(s: State): Outcome {
    if s.frame >= |s.mem| then Crash(OutOfBounds)
    else if ReturnPc(s) < 0 then Exit(s.(top := 0), ValNone())
    else
      var s1 := s.(top := s.frame - 1, pc := ValIntoFrame(s.mem[s.frame]).returnPc as int);
      Next(s1.(frame := PrevFrame(s1.mem, s1.top)))
  }

  // ------------------------------------------------------------ stack effects

  /** `POP_1` and `POP_2` drop the top one or two values and touch nothing else. */
  lemma PopDrops(s: State, n: int)
    requires StackOk(s) && 0 <= n <= s.top + 1
    ensures PopSpec(s, n).Next? && StackOk(PopSpec(s, n).s)
    ensures var t := PopSpec(s, n).s;
      Live(t) == Live(s)[..|Live(s)| - n] && t.mem == s.mem && t.frame == s.frame && t.pc == s.pc
  {
  }

  /** `DUP_1` goes on exactly when there is a top and room above it, and then pushes a copy of the top. */
  lemma Dup1Copies(s: State)
    requires StackOk(s)
    ensures Dup1Spec(s).Next? <==> 0 <= s.top && s.top + 1 < |s.mem|
    ensures Dup1Spec(s).Next? ==> var t := Dup1Spec(s).s;
      StackOk(t) && Live(t) == Live(s) + [s.mem[s.top]] && t.mem[t.top + 1..] == s.mem[t.top + 1..] &&
      t.frame == s.frame && t.pc == s.pc
  {
    if Dup1Spec(s).Next? {
      var t := Dup1Spec(s).s;
      assert Live(t) == Live(s) + [s.mem[s.top]];
    }
  }

  /** `DUP_2` goes on exactly when there are two values and room for two more, and then pushes copies of both, in order. */
  lemma Dup2Copies(s: State)
    requires StackOk(s)
    ensures Dup2Spec(s).Next? <==> 1 <= s.top && s.top + 2 < |s.mem|
    ensures Dup2Spec(s).Next? ==> var t := Dup2Spec(s).s;
      StackOk(t) && Live(t) == Live(s) + Live(s)[s.top - 1..] && t.mem[t.top + 1..] == s.mem[t.top + 1..] &&
      t.frame == s.frame && t.pc == s.pc
  {
    if Dup2Spec(s).Next? {
      var t := Dup2Spec(s).s;
      var a, b := s.mem[s.top - 1], s.mem[s.top];
      assert t.top == s.top + 2 && t.mem == s.mem[s.top + 1 := a][s.top + 2 := b];
      assert Live(s)[s.top - 1..] == [a, b];
      assert Live(t) == Live(s) + [a, b];
    }
  }

  /** `ROT_2` goes on exactly when there are two values, and then swaps them. */
  lemma Rot2Swaps(s: State)
    requires StackOk(s)
    ensures Rot2Spec(s).Next? <==> 1 <= s.top
    ensures Rot2Spec(s).Next? ==> var t := Rot2Spec(s).s;
      t.top == s.top && Live(t) == Live(s)[..s.top - 1] + [s.mem[s.top], s.mem[s.top - 1]] &&
      t.mem[t.top + 1..] == s.mem[t.top + 1..] && t.frame == s.frame && t.pc == s.pc
  {
    if Rot2Spec(s).Next? {
      var t := Rot2Spec(s).s;
      assert Live(t) == Live(s)[..s.top - 1] + [s.mem[s.top], s.mem[s.top - 1]];
    }
  }

  // ------------------------------------------------------------ frames

  /** A run of `n` zero words. */
  function Zeros(n: nat): seq<Val> {
    seq(n, _ => 0)
  }

  /** The argument loop moves `count` values up one slot and leaves the rest. */
  lemma {:induction false} ShiftArgsMoves(s: State, start: int, count: int)
    requires 0 <= start && 0 <= count && start + count < |s.mem|
    ensures ShiftArgs(s, start, count).Ok?
    ensures var m := ShiftArgs(s, start, count).value.mem;
      ShiftArgs(s, start, count).value == s.(mem := m) && |m| == |s.mem| &&
      (forall k :: 0 <= k < |m| && !(start < k <= start + count) ==> m[k] == s.mem[k]) &&
      (forall k :: start <= k < start + count ==> m[k + 1] == s.mem[k])
    decreases count
  {
    if count > 0 {
      var s1 := s.(mem := s.mem[start + count := s.mem[start + count - 1]]);
      assert ShiftArgs(s, start, count) == ShiftArgs(s1, start, count - 1);
      ShiftArgsMoves(s1, start, count - 1);
      var m := ShiftArgs(s1, start, count - 1).value.mem;
      forall k | start <= k < start + count
        ensures m[k + 1] == s.mem[k]
      {
        if k + 1 == start + count {
          assert m[k + 1] == s1.mem[k + 1];
        } else {
          assert m[k + 1] == s1.mem[k];
        }
      }
    }
  }

  /** The local loop zeroes the words from `base + i` up to `base + n` and leaves the rest. */
  lemma {:induction false} ZeroLocalsZeroes(s: State, base: int, i: int, n: int)
    requires 0 <= base && 0 <= i <= n && base + n <= |s.mem| && base + n < Two32
    ensures ZeroLocals(s, base, i, n).Ok?
    ensures var m := ZeroLocals(s, base, i, n).value.mem;
      ZeroLocals(s, base, i, n).value == s.(mem := m) && |m| == |s.mem| &&
      forall k :: 0 <= k < |m| ==> m[k] == if base + i <= k < base + n then 0 else s.mem[k]
    decreases n - i
  {
    if i < n {
      var s1 := s.(mem := s.mem[base + i := 0]);
      assert ZeroLocals(s, base, i, n) == ZeroLocals(s1, base, i + 1, n);
      ZeroLocalsZeroes(s1, base, i + 1, n);
    }
  }

  /** The frame word is tagged as a frame and decodes to the frame it was made from. */
  lemma FrameWordDecodes(callSite: CInt, nargs: int, nlocals: int)
    ensures GetType(FrameWord(callSite, nargs, nlocals)) == TypeOrdinal(VFrame)
    ensures ValIntoFrame(FrameWord(callSite, nargs, nlocals)) == NewFrame(callSite, nargs, nlocals)
  {
    var f := NewFrame(callSite, nargs, nlocals);
    TagsRoundTrip(false, 0, ArrayRef(0, 0), f, Iter(0, 0));
    FrameRoundTrip(f);
  }

  /**
   * What `MAKE_FRAME` leaves in the word at index `k`, with the arguments
   * at `start .. start + n - 1` before it: the frame word at `start`, the
   * arguments one slot higher, `l` zeroed locals after them, the rest as it
   * was.
   */
  function Framed(mem: seq<Val>, start: nat, word: Val, n: nat, l: nat, k: nat): Val
    requires k < |mem|
  {
    if k == start then word
    else if start < k <= start + n then mem[k - 1]
    else if start + n < k <= start + n + l then 0
    else mem[k]
  }

  /** Placing a frame that fits the memory succeeds and leaves every word as `Framed` says. */
  lemma PlaceFrameWords(a: State, start: nat, word: Val, n: nat, l: nat)
    requires start + n + l < |a.mem| && |a.mem| < 0x8000_0000 && -1 <= a.top && a.top + l + 1 < |a.mem|
    ensures PlaceFrame(a, start, word, n, l).Next?
    ensures var t := PlaceFrame(a, start, word, n, l).s;
      t.frame == start && t.top == a.top + l + 1 && t.pc == a.pc && |t.mem| == |a.mem| &&
      forall k :: 0 <= k < |t.mem| ==> t.mem[k] == Framed(a.mem, start, word, n, l, k)
  {
    assert I32(n) == n;
    ShiftArgsMoves(a, start, n);
    var s2 := ShiftArgs(a, start, n).value;
    var s3 := s2.(mem := s2.mem[start := word], frame := start);
    assert U32(start + 1 + n) == start + 1 + n;
    ZeroLocalsZeroes(s3, start + 1 + n, 0, l);
    var s4 := ZeroLocals(s3, start + 1 + n, 0, l).value;
    assert I32(a.top + l + 1) == a.top + l + 1;
    assert PlaceFrame(a, start, word, n, l) == Next(s4.(top := a.top + l + 1));
    forall k | 0 <= k < |s4.mem|
      ensures s4.mem[k] == Framed(a.mem, start, word, n, l, k)
    {
      if start < k <= start + n {
        assert s2.mem[k] == a.mem[k - 1];
      } else if k != start {
        assert s2.mem[k] == a.mem[k];
      }
    }
  }

  /**
   * Placing a frame over the arguments at `start .. a.top`: the frame word
   * takes the first argument's slot and becomes current, the arguments
   * follow it in order, then the zeroed locals, and the top is the last
   * local. Nothing above the new top changes.
   */
  lemma PlaceFrameLayout(a: State, start: nat, word: Val, nargs: nat, nlocals: nat)
    requires a.top + 1 == start + nargs
    requires a.top + 1 + nlocals < |a.mem| && |a.mem| < 0x8000_0000
    ensures PlaceFrame(a, start, word, nargs, nlocals).Next?
    ensures var t := PlaceFrame(a, start, word, nargs, nlocals).s;
      t.frame == start && t.top == a.top + 1 + nlocals && t.pc == a.pc && StackOk(t) &&
      Live(t) == Live(a)[..start] + [word] + Live(a)[start..] + Zeros(nlocals) &&
      t.mem[t.top + 1..] == a.mem[t.top + 1..]
  {
    PlaceFrameWords(a, start, word, nargs, nlocals);
    var t := PlaceFrame(a, start, word, nargs, nlocals).s;
    var want := Live(a)[..start] + [word] + Live(a)[start..] + Zeros(nlocals);
    forall k | 0 <= k < |want|
      ensures Live(t)[k] == want[k]
    {
      assert t.mem[k] == Framed(a.mem, start, word, nargs, nlocals, k);
      if start < k <= start + nargs {
        assert want[k] == Live(a)[start..][k - start - 1];
      } else if start + nargs < k {
        assert want[k] == Zeros(nlocals)[k - start - nargs - 1];
      }
    }
    forall k | t.top + 1 <= k < |a.mem|
      ensures t.mem[k] == a.mem[k]
    {
      assert t.mem[k] == Framed(a.mem, start, word, nargs, nlocals, k);
    }
    assert t.mem[t.top + 1..] == a.mem[t.top + 1..];
  }

  /**
   * The layout `MAKE_FRAME` leaves: the return position on top is consumed,
   * the frame word takes the first argument's slot and becomes current, the
   * arguments follow it in order, then the zeroed locals, and the top is the
   * last local. The code goes on past both counts and nothing above the new
   * top changes.
   */
  lemma MakeFrameLayout(s: State, nargs: int, nlocals: int, nums: Numbers)
    requires 0 <= nargs <= s.top && 0 <= nlocals && s.top + nlocals < |s.mem| && |s.mem| < 0x8000_0000
    ensures MakeFrameSpec(s, nargs, nlocals, nums).Next?
    ensures MakeFrameSpec(s, nargs, nlocals, nums).s.pc == U32(s.pc + 8)
    ensures MakeFrameSpec(s, nargs, nlocals, nums).s.frame == s.top - nargs
    ensures MakeFrameSpec(s, nargs, nlocals, nums).s.top == s.top + nlocals
    ensures var t := MakeFrameSpec(s, nargs, nlocals, nums).s; var start := s.top - nargs;
      StackOk(t) &&
      Live(t) == Live(s)[..start] + [FrameWord(nums.read(s.mem[s.top]), nargs, nlocals)] + Live(s)[start..s.top] + Zeros(nlocals)
    ensures var t := MakeFrameSpec(s, nargs, nlocals, nums).s;
      t.mem[t.top + 1..] == s.mem[t.top + 1..]
  {
    var n, l := nargs, nlocals;
    var start := s.top - n;
    var a := s.(top := s.top - 1, pc := U32(s.pc + 8));
    var word := FrameWord(nums.read(s.mem[s.top]), nargs, nlocals);
    MakeFramePlaces(s, nargs, nlocals, nums);
    PlaceFrameLayout(a, start, word, n, l);
    assert Live(a) == Live(s)[..s.top];
    assert Live(a)[..start] == Live(s)[..start];
    assert Live(a)[start..] == Live(s)[start..s.top];
  }

  /** `MAKE_FRAME` pops the return position and places the frame where the first argument was. */
  lemma MakeFramePlaces(s: State, nargs: int, nlocals: int, nums: Numbers)
    requires 0 <= nargs <= s.top < |s.mem| && |s.mem| < 0x8000_0000
    ensures MakeFrameSpec(s, nargs, nlocals, nums) ==
      PlaceFrame(s.(top := s.top - 1, pc := U32(s.pc + 8)), s.top - nargs, FrameWord(nums.read(s.mem[s.top]), nargs, nlocals), nargs, nlocals)
  {
    assert Load(s, s.top) == Ok(s.mem[s.top]);
    assert I32(s.top - 1 - nargs + 1) == s.top - nargs;
  }

  /** The frame search finds the nearest frame word at or below `i`, or -1 when there is none. */
  lemma {:induction false} PrevFrameNearest(mem: seq<Val>, i: int)
    requires -1 <= i < |mem|
    ensures var r := PrevFrame(mem, i);
      -1 <= r <= i && (r >= 0 ==> GetType(mem[r]) == TypeOrdinal(VFrame)) &&
      forall k :: r < k <= i ==> GetType(mem[k]) != TypeOrdinal(VFrame)
    decreases i
  {
    if i >= 0 && GetType(mem[i]) != TypeOrdinal(VFrame) {
      PrevFrameNearest(mem, i - 1);
    }
  }

  /**
   * A return from a frame with a non-negative return position: the frame
   * and all above it are dropped, the old top value is pushed back exactly
   * when it lay above the arguments and locals, the code resumes at the
   * return position, and the nearest frame word below becomes current.
   */
  lemma ReturnRestores(s: State, resetOnExit: bool)
    requires 0 <= s.frame <= s.top < |s.mem| && ReturnPc(s) >= 0
    ensures ReturnSpec(s, resetOnExit).Next?
    ensures var t := ReturnSpec(s, resetOnExit).s; var f := ValIntoFrame(s.mem[s.frame]);
      var pushed := s.top > s.frame + f.numLocals as int + f.numArgs as int;
      t.pc == ReturnPc(s) && StackOk(t) && t.top == (if pushed then s.frame else s.frame - 1) &&
      Live(t) == Live(s)[..s.frame] + (if pushed then [s.mem[s.top]] else []) &&
      t.frame == PrevFrame(t.mem, t.top) && t.mem[s.frame + 1..] == s.mem[s.frame + 1..]
  {
    var t := ReturnSpec(s, resetOnExit).s;
    var f := ValIntoFrame(s.mem[s.frame]);
    if s.top > s.frame + f.numLocals as int + f.numArgs as int {
      assert Live(t) == Live(s)[..s.frame] + [s.mem[s.top]];
    } else {
      assert Live(t) == Live(s)[..s.frame];
    }
  }

  /** Outside a frame, or with a negative return position, a return ends the run with the top value, or with none on an empty stack. */
  lemma ReturnExits(s: State, resetOnExit: bool)
    requires s.frame < |s.mem| && s.top < |s.mem| && ReturnPc(s) < 0
    ensures ReturnSpec(s, resetOnExit).Exit?
    ensures ReturnSpec(s, resetOnExit).value == if s.top >= 0 then s.mem[s.top] else ValNone()
    ensures ReturnSpec(s, resetOnExit).s.top == if resetOnExit && s.top >= 0 then 0 else s.top
  {
  }

  // ------------------------------------------------------------ iteration

  /** Advancing moves an iterator to the next memory index and counts one element off. */
  lemma AdvanceSteps(it: Iter)
    requires it.remaining != 0 && AddrToIndex(it.current) < MaxAddressable
    ensures AddrToIndex(Advance(it).current) == AddrToIndex(it.current) + 1
    ensures Advance(it).remaining < it.remaining
  {
    ProgrAddrIndex(AddrToIndex(it.current) + 1);
  }

  /**
   * `ITER_NEXT`: on an exhausted iterator the iterator is popped and the
   * code jumps to the exit; otherwise the advanced iterator stays in place,
   * the element it was at is pushed above it, and the code goes on past the
   * operand.
   */
  lemma IterNextSteps(s: State, exitPc: int)
    requires 0 <= s.top < |s.mem|
    ensures var it := ValIntoIter(s.mem[s.top]);
      it.remaining == 0 ==> IterNextSpec(s, exitPc) == Next(s.(top := s.top - 1, pc := exitPc))
    ensures var it := ValIntoIter(s.mem[s.top]);
      it.remaining != 0 && ElementIndex(it) < |s.mem| && s.top + 1 < |s.mem| ==>
        IterNextSpec(s, exitPc).Next? && StackOk(IterNextSpec(s, exitPc).s) &&
        Live(IterNextSpec(s, exitPc).s) == Live(s)[..s.top] + [ValIter(Advance(it)), s.mem[ElementIndex(it)]] &&
        IterNextSpec(s, exitPc).s.pc == U32(s.pc + 4)
  {
    var it := ValIntoIter(s.mem[s.top]);
    if it.remaining != 0 && ElementIndex(it) < |s.mem| && s.top + 1 < |s.mem| {
      var t := IterNextSpec(s, exitPc).s;
      assert Live(t) == Live(s)[..s.top] + [ValIter(Advance(it)), s.mem[ElementIndex(it)]];
    }
  }

  // ------------------------------------------------------------ calls

  /**
   * A call followed by the callee's `MAKE_FRAME`: the frame sits where the
   * first argument was, records the pushed return position and both counts,
   * its top is the last local, and the stack below the arguments is as it
   * was.
   */
  lemma CallThenFrame(s: State, ret: int, target: int, nargs: int, nlocals: int, nums: Numbers)
    requires Exact(nums) && 0 <= ret <= 0x100_0000
    requires 0 <= nargs < 256 && 0 <= nlocals < 256
    requires StackOk(s) && nargs <= s.top + 1 && s.top + 1 + nlocals < |s.mem| && |s.mem| < 0x8000_0000
    ensures CallSpec(s, ret, target, nums).Next?
    ensures MakeFrameSpec(CallSpec(s, ret, target, nums).s, nargs, nlocals, nums).Next?
    ensures var m := MakeFrameSpec(CallSpec(s, ret, target, nums).s, nargs, nlocals, nums).s;
      m.frame == s.top + 1 - nargs && m.top == m.frame + nargs + nlocals && StackOk(m)
    ensures var m := MakeFrameSpec(CallSpec(s, ret, target, nums).s, nargs, nlocals, nums).s;
      ReturnPc(m) == ret &&
      ValIntoFrame(m.mem[m.frame]).numArgs as int == nargs && ValIntoFrame(m.mem[m.frame]).numLocals as int == nlocals
  {
    CallThenFramePlaced(s, ret, target, nargs, nlocals, nums);
    assert Small(ret);
    var bits := nums.read(nums.make(ret));
    FrameWordDecodes(bits, nargs, nlocals);
    ShUtils.ByteRoundTrip(nargs);
    ShUtils.ByteRoundTrip(nlocals);
  }

  /** The frame word a call and `MAKE_FRAME` write holds the pushed return position, as the codec gives it back. */
  lemma CallThenFramePlaced(s: State, ret: int, target: int, nargs: int, nlocals: int, nums: Numbers)
    requires 0 <= nargs <= s.top + 1 && 0 <= nlocals
    requires StackOk(s) && s.top + 1 + nlocals < |s.mem| && |s.mem| < 0x8000_0000
    ensures CallSpec(s, ret, target, nums).Next?
    ensures MakeFrameSpec(CallSpec(s, ret, target, nums).s, nargs, nlocals, nums).Next?
    ensures var m := MakeFrameSpec(CallSpec(s, ret, target, nums).s, nargs, nlocals, nums).s;
      m.frame == s.top + 1 - nargs && m.top == m.frame + nargs + nlocals && StackOk(m) &&
      m.mem[m.frame] == FrameWord(nums.read(nums.make(ret)), nargs, nlocals)
  {
    var c := CallSpec(s, ret, target, nums).s;
    assert c.mem[c.top] == nums.make(ret);
    MakeFrameLayout(c, nargs, nlocals, nums);
    var m := MakeFrameSpec(c, nargs, nlocals, nums).s;
    assert m.mem[m.frame] == Live(m)[m.frame];
  }

  /** A call and the callee's `MAKE_FRAME` leave the stack below the arguments as it was. */
  lemma CallThenFrameBelow(s: State, ret: int, target: int, nargs: int, nlocals: int, nums: Numbers)
    requires 0 <= nargs <= s.top + 1 && 0 <= nlocals
    requires StackOk(s) && s.top + 1 + nlocals < |s.mem| && |s.mem| < 0x8000_0000
    ensures CallSpec(s, ret, target, nums).Next?
    ensures MakeFrameSpec(CallSpec(s, ret, target, nums).s, nargs, nlocals, nums).Next?
    ensures var m := MakeFrameSpec(CallSpec(s, ret, target, nums).s, nargs, nlocals, nums).s;
      m.frame == s.top + 1 - nargs && StackOk(m) && m.frame <= m.top &&
      Live(m)[..m.frame] == Live(s)[..m.frame]
  {
    var c := CallSpec(s, ret, target, nums).s;
    assert Live(c) == Live(s) + [nums.make(ret)];
    MakeFrameLayout(c, nargs, nlocals, nums);
    var m := MakeFrameSpec(c, nargs, nlocals, nums).s;
    var start := c.top - nargs;
    assert Live(m)[..start] == Live(c)[..start];
  }

  /**
   * A call followed by the callee's `MAKE_FRAME` and a return with nothing
   * above the locals: the code resumes at the pushed return position, the
   * arguments are gone from the stack, what lay below them is as it was,
   * and the nearest frame word below becomes current again.
   */
  lemma CallFrameReturn(s: State, ret: int, target: int, nargs: int, nlocals: int, nums: Numbers, resetOnExit: bool)
    requires Exact(nums) && 0 <= ret <= 0x100_0000
    requires 0 <= nargs < 256 && 0 <= nlocals < 256
    requires StackOk(s) && nargs <= s.top + 1 && s.top + 1 + nlocals < |s.mem| && |s.mem| < 0x8000_0000
    ensures CallSpec(s, ret, target, nums).Next?
    ensures MakeFrameSpec(CallSpec(s, ret, target, nums).s, nargs, nlocals, nums).Next?
    ensures var t := ReturnSpec(MakeFrameSpec(CallSpec(s, ret, target, nums).s, nargs, nlocals, nums).s, resetOnExit);
      t.Next? && t.s.pc == ret && StackOk(t.s) && Live(t.s) == Live(s)[..s.top + 1 - nargs] &&
      t.s.frame == PrevFrame(t.s.mem, t.s.top)
  {
    CallThenFrame(s, ret, target, nargs, nlocals, nums);
    CallThenFrameBelow(s, ret, target, nargs, nlocals, nums);
    var m := MakeFrameSpec(CallSpec(s, ret, target, nums).s, nargs, nlocals, nums).s;
    ReturnRestores(m, resetOnExit);
  }

  // ------------------------------------------------------------ the machine

  /**
   * The memory and the registers of `vm_t` / `gvm_t`: the block of values
   * (`membase`), the size recorded for it, the stack and heap sizes, the
   * stack and frame indices, and the program counter.
   */
  class Machine {
    const mem: array<Val>
    const memSize: int
    const stackSize: int
    const heapSize: int
    var top: int
    var frame: int
    var pc: int

    /** The block laid out as the creators do: the stack from 0, the heap from `stackSize`; the stack empty. */
    constructor (mem: array<Val>, memSize: int, stackSize: int, heapSize: int)
      ensures this.mem == mem && this.memSize == memSize && this.stackSize == stackSize && this.heapSize == heapSize
      ensures top == -1 && pc == 0
    {
      this.mem, this.memSize, this.stackSize, this.heapSize := mem, memSize, stackSize, heapSize;
      top, frame, pc := -1, -1, 0;
    }

    function St(): State
      reads this, mem
    {
      State(mem[..], top, frame, pc)
    }

    /** The machine holds the state an outcome that goes on or ends carries. */
    predicate Reached(o: Outcome)
      reads this, mem
    {
      (o.Next? || o.Exit?) ==> St() == o.s
    }

    method Pop(n: int) returns (o: Outcome)
      modifies this
      ensures o == PopSpec(old(St()), n) && Reached(o)
    {
      top := top - n;
      return Next(St());
    }

    method Dup1() returns (o: Outcome)
      modifies this, mem
      ensures o == Dup1Spec(old(St())) && Reached(o)
    {
      if !(0 <= top < mem.Length) {
        return Crash(OutOfBounds);
      }
      var a := mem[top];
      if !(0 <= top + 1 < mem.Length) {
        return Crash(OutOfBounds);
      }
      top := top + 1;
      mem[top] := a;
      return Next(St());
    }

    method Dup2() returns (o: Outcome)
      modifies this, mem
      ensures o == Dup2Spec(old(St())) && Reached(o)
    {
      if !(0 <= top - 1 < mem.Length) || !(0 <= top < mem.Length) {
        return Crash(OutOfBounds);
      }
      var a, b := mem[top - 1], mem[top];
      if !(0 <= top + 1 < mem.Length) {
        return Crash(OutOfBounds);
      }
      top := top + 1;
      mem[top] := a;
      if !(0 <= top + 1 < mem.Length) {
        return Crash(OutOfBounds);
      }
      top := top + 1;
      mem[top] := b;
      return Next(St());
    }

    method Rot2() returns (o: Outcome)
      modifies this, mem
      ensures o == Rot2Spec(old(St())) && Reached(o)
    {
      if !(0 <= top - 1 < mem.Length) || !(0 <= top < mem.Length) {
        return Crash(OutOfBounds);
      }
      var a, b := mem[top - 1], mem[top];
      mem[top - 1] := b;
      mem[top] := a;
      return Next(St());
    }

    method Logic(isAnd: bool) returns (o: Outcome)
      modifies this, mem
      ensures o == LogicSpec(old(St()), isAnd) && Reached(o)
    {
      if !(0 <= top < mem.Length) || !(0 <= top - 1 < mem.Length) {
        return Crash(OutOfBounds);
      }
      var a := ValIntoBool(mem[top]);
      var b := ValIntoBool(mem[top - 1]);
      top := top - 1;
      mem[top] := ValBool(if isAnd then a && b else a || b);
      return Next(St());
    }

    method Not() returns (o: Outcome)
      modifies this, mem
      ensures o == NotSpec(old(St())) && Reached(o)
    {
      if !(0 <= top < mem.Length) {
        return Crash(OutOfBounds);
      }
      mem[top] := ValBool(!ValIntoBool(mem[top]));
      return Next(St());
    }

    method JumpIfFalse(target: Result<int, Abort>) returns (o: Outcome)
      modifies this
      ensures o == JumpIfFalseSpec(old(St()), target) && Reached(o)
    {
      if !(0 <= top < mem.Length) {
        return Crash(OutOfBounds);
      }
      var c := ValIntoBool(mem[top]);
      top := top - 1;
      if !c {
        if target.Err? {
          return Crash(target.error);
        }
        pc := target.value;
      } else {
        pc := U32(pc + 4);
      }
      return Next(St());
    }

    method Call(ret: int, target: int, nums: Numbers) returns (o: Outcome)
      modifies this, mem
      ensures o == CallSpec(old(St()), ret, target, nums) && Reached(o)
    {
      if !(0 <= top + 1 < mem.Length) {
        return Crash(OutOfBounds);
      }
      top := top + 1;
      mem[top] := nums.make(ret);
      pc := target;
      return Next(St());
    }

    method PushConst(consts: seq<Val>, index: int) returns (o: Outcome)
      modifies this, mem
      ensures o == PushConstSpec(old(St()), consts, index) && Reached(o)
    {
      if !(0 <= index < |consts|) || !(0 <= top + 1 < mem.Length) {
        return Crash(OutOfBounds);
      }
      top := top + 1;
      mem[top] := consts[index];
      pc := U32(pc + 4);
      return Next(St());
    }

    method StoreLocal(index: int) returns (o: Outcome)
      modifies this, mem
      ensures o == StoreLocalSpec(old(St()), index) && Reached(o)
    {
      var slot := U32(frame + 1 + index);
      if !(0 <= top < mem.Length) || !(slot < mem.Length) {
        return Crash(OutOfBounds);
      }
      var v := mem[top];
      top := top - 1;
      mem[slot] := v;
      pc := U32(pc + 4);
      return Next(St());
    }

    method LoadLocal(index: int) returns (o: Outcome)
      modifies this, mem
      ensures o == LoadLocalSpec(old(St()), index) && Reached(o)
    {
      var slot := U32(frame + 1 + index);
      if !(slot < mem.Length) || !(0 <= top + 1 < mem.Length) {
        return Crash(OutOfBounds);
      }
      var v := mem[slot];
      top := top + 1;
      mem[top] := v;
      pc := U32(pc + 4);
      return Next(St());
    }

    method ArrayLength(nums: Numbers) returns (o: Outcome)
      modifies this, mem
      ensures o == ArrayLengthSpec(old(St()), nums) && Reached(o)
    {
      if !(0 <= top < mem.Length) {
        return Crash(OutOfBounds);
      }
      var a := ValIntoArray(mem[top]);
      mem[top] := nums.make(a.length as int);
      return Next(St());
    }

    method MakeIter() returns (o: Outcome)
      modifies this, mem
      ensures o == MakeIterSpec(old(St())) && Reached(o)
    {
      if !(0 <= top < mem.Length) {
        return Crash(OutOfBounds);
      }
      var a := ValIntoArray(mem[top]);
      mem[top] := ValIter(Iter(a.address, a.length));
      return Next(St());
    }

    method IterNext(exitPc: int) returns (o: Outcome)
      modifies this, mem
      ensures o == IterNextSpec(old(St()), exitPc) && Reached(o)
    {
      if !(0 <= top < mem.Length) {
        return Crash(OutOfBounds);
      }
      var it := ValIntoIter(mem[top]);
      if it.remaining == 0 {
        top := top - 1;
        pc := exitPc;
        return Next(St());
      }
      o := IterStep(it, exitPc);
    }

    /** `ITER_NEXT` on an iterator with elements left. */
    method IterStep(it: Iter, ghost exitPc: int) returns (o: Outcome)
      requires 0 <= top < mem.Length && it == ValIntoIter(mem[top]) && it.remaining != 0
      modifies this, mem
      ensures o == IterNextSpec(old(St()), exitPc) && Reached(o)
    {
      var index := ElementIndex(it);
      if !(index < mem.Length) || !(top + 1 < mem.Length) {
        return Crash(OutOfBounds);
      }
      var value := mem[index];
      mem[top] := ValIter(Advance(it));
      top := top + 1;
      mem[top] := value;
      pc := U32(pc + 4);
      return Next(St());
    }

    /** The argument-moving loop of `MAKE_FRAME`. */
    method ShiftUp(start: int, count: int) returns (ok: bool)
      modifies mem
      ensures var r := ShiftArgs(old(St()), start, count); ok == r.Ok? && (ok ==> St() == r.value)
    {
      ghost var s0 := St();
      var i := count;
      while i > 0
        invariant ShiftArgs(s0, start, count) == ShiftArgs(St(), start, i)
        decreases i
      {
        if !(0 <= start + i - 1 < mem.Length) || !(0 <= start + i < mem.Length) {
          return false;
        }
        mem[start + i] := mem[start + i - 1];
        i := i - 1;
      }
      return true;
    }

    /** The local-zeroing loop of `MAKE_FRAME`. */
    method ZeroUp(base: int, n: int) returns (ok: bool)
      modifies mem
      ensures var r := ZeroLocals(old(St()), base, 0, n); ok == r.Ok? && (ok ==> St() == r.value)
    {
      ghost var s0 := St();
      var j := 0;
      while j < n
        invariant ZeroLocals(s0, base, 0, n) == ZeroLocals(St(), base, j, n)
        decreases n - j
      {
        if !(U32(base + j) < mem.Length) {
          return false;
        }
        mem[U32(base + j)] := 0;
        j := j + 1;
      }
      return true;
    }

    method MakeFrame(nargs: int, nlocals: int, nums: Numbers) returns (o: Outcome)
      modifies this, mem
      ensures o == MakeFrameSpec(old(St()), nargs, nlocals, nums) && Reached(o)
    {
      ghost var s0 := St();
      pc := U32(pc + 8);
      if !(0 <= top < mem.Length) {
        assert Load(s0, s0.top) == Err(OutOfBounds);
        return Crash(OutOfBounds);
      }
      assert Load(s0, s0.top) == Ok(mem[top]);
      var callSite := nums.read(mem[top]);
      top := top - 1;
      assert St() == s0.(top := s0.top - 1, pc := U32(s0.pc + 8));
      ghost var spec := PlaceFrame(St(), I32(top - nargs + 1), FrameWord(callSite, nargs, nlocals), nargs, nlocals);
      assert MakeFrameSpec(s0, nargs, nlocals, nums) == spec;
      o := Place(I32(top - nargs + 1), FrameWord(callSite, nargs, nlocals), nargs, nlocals);
    }

    method Place(start: int, word: Val, nargs: int, nlocals: int) returns (o: Outcome)
      modifies this, mem
      ensures o == PlaceFrame(old(St()), start, word, nargs, nlocals) && Reached(o)
    {
      ghost var s0 := St();
      var ok := ShiftUp(start, I32(nargs));
      ghost var s2 := ShiftArgs(s0, start, I32(nargs));
      if !ok {
        return Crash(OutOfBounds);
      }
      if !(0 <= start < mem.Length) {
        return Crash(OutOfBounds);
      }
      mem[start] := word;
      frame := start;
      ghost var s3 := Store(s2.value, start, word);
      assert St() == s3.value.(frame := start);
      ok := ZeroUp(U32(start + 1 + nargs), nlocals);
      if !ok {
        return Crash(OutOfBounds);
      }
      top := I32(top + nlocals + 1);
      return Next(St());
    }

    /** The loop that finds the frame to return to: downwards from the top, the first frame word. */
    method FindFrame()
      requires top < mem.Length
      modifies this
      ensures top == old(top) && pc == old(pc)
      ensures frame == PrevFrame(mem[..], top)
    {
      frame := -1;
      var i := top;
      while i >= 0
        invariant i <= top && PrevFrame(mem[..], top) == PrevFrame(mem[..], i)
        invariant frame == -1 && top == old(top) && pc == old(pc)
        decreases i
      {
        if GetType(mem[i]) == TypeOrdinal(VFrame) {
          frame := i;
          return;
        }
        i := i - 1;
      }
    }

    method Return(resetOnExit: bool) returns (o: Outcome)
      modifies this, mem
      ensures o == ReturnSpec(old(St()), resetOnExit) && Reached(o)
    {
      if frame >= mem.Length {
        return Crash(OutOfBounds);
      }
      if frame < 0 || ShUtils.Int32(ValIntoFrame(mem[frame]).returnPc) < 0 {
        o := ReturnExit(resetOnExit);
      } else {
        o := Resume();
      }
    }

    /** A return with no frame to go back to: the run ends with the top value. */
    method ReturnExit(resetOnExit: bool) returns (o: Outcome)
      requires frame < mem.Length && ReturnPc(St()) < 0
      modifies this
      ensures o == ReturnSpec(old(St()), resetOnExit) && Reached(o)
    {
      if top >= 0 {
        if top >= mem.Length {
          return Crash(OutOfBounds);
        }
        var rval := mem[top];
        if resetOnExit {
          top := 0;
        }
        return Exit(St(), rval);
      }
      return Exit(St(), ValNone());
    }

    /** A return into the caller's frame. */
    method Resume() returns (o: Outcome)
      requires 0 <= frame < mem.Length
      modifies this, mem
      ensures o == ResumeSpec(old(St())) && Reached(o)
    {
      var ok := Unwind();
      if !ok {
        return Crash(OutOfBounds);
      }
      ghost var s2 := St();
      FindFrame();
      assert St() == s2.(frame := PrevFrame(s2.mem, s2.top));
      return Next(St());
    }

    /** Everything `Resume` does before the frame search. */
    method Unwind() returns (ok: bool)
      requires 0 <= frame < mem.Length
      modifies this, mem
      ensures var u := Unwound(old(St())); ok == u.Ok? && (ok ==> St() == u.value) && (!ok ==> u.error == OutOfBounds)
      ensures ok ==> top < mem.Length
    {
      var f := ValIntoFrame(mem[frame]);
      var bodyStart := frame + f.numLocals as int + f.numArgs as int;
      var invokedTop := top;
      if !(0 <= invokedTop < mem.Length) {
        return false;
      }
      var retVal := mem[invokedTop];
      top := frame - 1;
      pc := f.returnPc as int;
      if invokedTop > bodyStart {
        top := top + 1;
        mem[top] := retVal;
      }
      return true;
    }

    method ReturnNothing() returns (o: Outcome)
      modifies this, mem
      ensures o == ReturnNothingSpec(old(St())) && Reached(o)
    {
      if frame >= mem.Length {
        return Crash(OutOfBounds);
      }
      var retPc, bits := -1, 0;
      if frame >= 0 {
        bits := ValIntoFrame(mem[frame]).returnPc;
        retPc := ShUtils.Int32(bits);
      }
      if retPc < 0 {
        top := 0;
        return Exit(St(), ValNone());
      }
      pc := bits as int;
      top := frame - 1;
      FindFrame();
      return Next(St());
    }
  }
}
