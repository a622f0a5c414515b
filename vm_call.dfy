/**
 * `adder/vm/vm_call.c`: preparing a call into a program: the argument
 * values, their count, and the entry point (an export whose address holds
 * `OP_MAKE_FRAME`), with a check that the count matches the entry's.
 *
 * `vm_call_t` and `vm_program_t` are not declared in the headers of this
 * revision. The call here holds what the file reads and writes: the program
 * (a `ShProgram.Program`, or none for NULL), the fixed array of argument
 * values and its count, the entry point's address and argument count, and
 * the failures appended to its message buffer, as kinds instead of text.
 * `ffi_get_func_arg_count` is `ShIft.ArgCount`.
 */
module VmCall {
  import opened Wrappers
  import opened ShUtils
  import opened ShIft
  import opened ShValue
  import opened ShOps
  import opened ShProgram

  /** The failure each message of the file reports. */
  datatype Failure =
    | ProgramNull
    | InvalidIndex(index: int)
    | InvalidAddress(address: nat)
    | NotAFrame
    | NotFound
    | NoTypeMatch
    | ArgCountMismatch(required: int, given: int)

  /**
   * The checks of `vm_call_set_entry`: a program, an export index in range,
   * and an address inside the code that holds `OP_MAKE_FRAME`.
   */
  predicate EntryOk(program: Option<Program>, index: int) {
    program.Some? && 0 <= index < |program.value.exports| && index < |program.value.expaddr| &&
    program.value.expaddr[index] < |program.value.inst| &&
    program.value.inst[program.value.expaddr[index]] == OpMakeFrame
  }

  /** The failure `vm_call_set_entry` reports when its checks fail. */
  function EntryFailure(program: Option<Program>, index: int): (f: Failure)
    requires program.Some? ==> |program.value.expaddr| == |program.value.exports|
    requires !EntryOk(program, index)
    ensures f.ProgramNull? <==> program.None?
    ensures f.InvalidIndex? <==> program.Some? && !(0 <= index < |program.value.exports|)
  {
    if program.None? then ProgramNull
    else if index < 0 || index >= |program.value.exports| then InvalidIndex(index)
    else if program.value.expaddr[index] >= |program.value.inst| then InvalidAddress(program.value.expaddr[index])
    else NotAFrame
  }

  /** The message buffer's append: a full buffer ignores the message. */
  function Logged(messages: seq<Failure>, f: Failure, maxMessages: nat): (r: seq<Failure>)
    ensures |messages| < maxMessages ==> r == messages + [f]
    ensures |messages| >= maxMessages ==> r == messages
  {
    if |messages| < maxMessages then messages + [f] else messages
  }

  class Call {
    var program: Option<Program>
    /** `args.vals`, of `sizeof(args.vals)` elements. */
    const vals: array<Val>
    /** `args.count`. */
    var argCount: int
    var epAddress: int
    var epArgcount: int
    var messages: seq<Failure>
    const maxMessages: nat

    ghost predicate Valid()
      reads this
    {
      (program.Some? ==> ProgramWf(program.value)) && (argCount <= 0 || argCount < vals.Length) &&
      |messages| <= maxMessages
    }

    /** `vm_call_init`: everything zero except the program and an entry address of -1. */
    constructor (program: Option<Program>, maxArgs: nat, maxMessages: nat)
      requires program.Some? ==> ProgramWf(program.value)
      ensures Valid() && this.program == program && vals.Length == maxArgs && fresh(vals)
      ensures (forall i :: 0 <= i < maxArgs ==> vals[i] == 0) && argCount == 0
      ensures epAddress == -1 && epArgcount == 0 && messages == [] && this.maxMessages == maxMessages
    {
      this.program := program;
      vals := new Val[maxArgs](_ => 0);
      argCount := 0;
      epAddress, epArgcount := -1, 0;
      messages := [];
      this.maxMessages := maxMessages;
    }

    /** `vm_call_set_arg`: only an index below the argument count is written. */
    method SetArg(index: int, val: Val) returns (ok: bool)
      requires Valid()
      modifies vals
      ensures ok <==> 0 <= index < argCount
      ensures ok ==> vals[..] == old(vals[..])[index := val]
      ensures !ok ==> vals[..] == old(vals[..])
    {
      if index >= 0 && index < argCount {
        vals[index] := val;
        return true;
      }
      return false;
    }

    /** `vm_call_set_arg_count`: a count that is not below the array's size is refused. */
    method SetArgCount(n: int) returns (ok: bool)
      requires Valid()
      modifies this
      ensures Valid()
      ensures ok <==> n < vals.Length
      ensures argCount == (if ok then n else old(argCount))
      ensures program == old(program) && epAddress == old(epAddress) && epArgcount == old(epArgcount) && messages == old(messages)
    {
      if n >= vals.Length {
        return false;
      }
      argCount := n;
      return true;
    }

    /** `vm_call_set_entry_unchecked`. */
    method SetEntryUnchecked(address: nat, argcount: int)
      requires Valid()
      modifies this
      ensures Valid()
      ensures epAddress == address && epArgcount == argcount
      ensures program == old(program) && argCount == old(argCount) && messages == old(messages)
    {
      epAddress, epArgcount := address, argcount;
    }

    /**
     * `vm_call_set_entry`: with the checks of `EntryOk` passed, the entry is
     * the export's address with the argument count of its type; otherwise
     * the entry stays and the failure is logged.
     */
    method SetEntry(index: int) returns (ok: bool)
      requires Valid()
      modifies this
      ensures Valid()
      ensures ok <==> EntryOk(program, index)
      ensures ok ==> (epAddress == program.value.expaddr[index] && epArgcount == ArgCount(program.value.exports[index].ty) &&
        messages == old(messages))
      ensures !ok ==> (epAddress == old(epAddress) && epArgcount == old(epArgcount) &&
        messages == Logged(old(messages), EntryFailure(program, index), maxMessages))
      ensures program == old(program) && argCount == old(argCount)
    {
      if program.None? {
        messages := Logged(messages, ProgramNull, maxMessages);
        return false;
      }
      var prog := program.value;
      if index < 0 || index >= |prog.exports| {
        messages := Logged(messages, InvalidIndex(index), maxMessages);
        return false;
      }
      var address := prog.expaddr[index];
      if address >= |prog.inst| {
        messages := Logged(messages, InvalidAddress(address), maxMessages);
        return false;
      }
      if prog.inst[address] != OpMakeFrame {
        messages := Logged(messages, NotAFrame, maxMessages);
        return false;
      }
      SetEntryUnchecked(address, ArgCount(prog.exports[index].ty));
      return true;
    }

    /**
     * `vm_call_lookup_entry`: the name is made an `sstr` (which asserts on a
     * name too long for one) and looked up among the exports; a name not
     * found or of another type is logged, and otherwise the entry is set by
     * index.
     */
    method LookupEntry(name: seq<char>, ty: Option<Ift>) returns (r: Result<bool, Abort>)
      requires Valid()
      modifies this
      ensures Valid()
      ensures r.Err? <==> MakeSstr(name).Err?
      ensures r.Ok? ==> (r.value <==> (program.Some? &&
        EntryOk(program, FindEntry(program.value.exports, MakeSstr(name).value, ty, 0))))
      ensures r == Ok(true) ==> (
        var k := FindEntry(program.value.exports, MakeSstr(name).value, ty, 0);
        epAddress == program.value.expaddr[k] && epArgcount == ArgCount(program.value.exports[k].ty))
      ensures r != Ok(true) ==> epAddress == old(epAddress) && epArgcount == old(epArgcount)
      ensures program == old(program) && argCount == old(argCount)
    {
      var s := MakeSstr(name);
      if s.Err? {
        return Err(s.error);
      }
      var index := FindEntrypoint(program, s.value, ty);
      if index == -1 {
        messages := Logged(messages, NotFound, maxMessages);
        return Ok(false);
      }
      if index == -2 {
        messages := Logged(messages, NoTypeMatch, maxMessages);
        return Ok(false);
      }
      var ok := SetEntry(index);
      return Ok(ok);
    }

    /** `vm_call_validate`: a program, and as many arguments as the entry expects. */
    method Validate() returns (ok: bool)
      requires Valid()
      modifies this
      ensures Valid()
      ensures ok <==> program.Some? && argCount == epArgcount
      ensures ok ==> messages == old(messages)
      ensures !ok && program.None? ==> messages == Logged(old(messages), ProgramNull, maxMessages)
      ensures !ok && program.Some? ==> messages == Logged(old(messages), ArgCountMismatch(epArgcount, argCount), maxMessages)
      ensures program == old(program) && argCount == old(argCount) && epAddress == old(epAddress) && epArgcount == old(epArgcount)
    {
      if program.None? {
        messages := Logged(messages, ProgramNull, maxMessages);
        return false;
      }
      if argCount != epArgcount {
        messages := Logged(messages, ArgCountMismatch(epArgcount, argCount), maxMessages);
        return false;
      }
      return true;
    }
  }

  /**
   * Setting the entry by name agrees with `program_get_entry_point`: the
   * export found passes the checks of `vm_call_set_entry` exactly when
   * `program_get_entry_point` returns it (the argument bound permitting),
   * with the same address and argument count.
   */
  lemma {:induction false} EntryAgreesWithGetEntryPoint(prog: Program, name: seq<char>, ty: Option<Ift>, maxArgs: nat)
    requires ProgramWf(prog) && (ty.Some? ==> Wf(ty.value)) && MakeSstr(name).Ok? && ArgCountOf(ty) <= maxArgs
    ensures var k := FindEntry(prog.exports, MakeSstr(name).value, ty, 0);
      var ep := GetEntryPoint(Some(prog), Some(name), ty, maxArgs);
      ep.Ok? && (EntryOk(Some(prog), k) <==> ep.value.address != -1)
    ensures var k := FindEntry(prog.exports, MakeSstr(name).value, ty, 0);
      var ep := GetEntryPoint(Some(prog), Some(name), ty, maxArgs);
      EntryOk(Some(prog), k) ==> ep.Ok? && ep.value.address == prog.expaddr[k] && ep.value.argcount == ArgCount(prog.exports[k].ty)
  {
    GetEntryPointFound(prog, name, ty, maxArgs);
  }
}
