/**
 * `adder/shared/sh_program.c`: a compiled program's exported entry points,
 * found by name and checked against an expected type, and the entry point
 * handed to the machine with its argument values.
 *
 * `program_t`, `entry_point_t` and `ift_type_equals` are not declared in
 * the headers of this revision. A program here holds what the file reads of
 * it: the instruction bytes, the export and import definitions, and the
 * address of each export; `entry_point_t` holds `maxArgs` argument values;
 * two types are equal when their tags in use are.
 */
module ShProgram {
  import opened Wrappers
  import opened ShUtils
  import opened ShIft
  import opened ShFfi
  import opened ShValue
  import opened ShOps

  /** `program_t`, as far as this file reads it. */
  datatype Program = Program(inst: seq<int>, exports: seq<Definition>, imports: seq<Definition>, expaddr: seq<nat>)

  /** Each export has an address and every type is well formed. */
  predicate ProgramWf(p: Program) {
    |p.expaddr| == |p.exports| &&
    (forall i :: 0 <= i < |p.exports| ==> Wf(p.exports[i].ty)) &&
    (forall i :: 0 <= i < |p.imports| ==> Wf(p.imports[i].ty))
  }

  /** `ift_type_equals`: the same tags in use. */
  predicate TypeEquals(a: Ift, b: Ift) {
    Wf(a) && Wf(b) && Tags(a) == Tags(b)
  }

  /**
   * The loop of `program_find_entrypoint` from export `i` on: the first
   * export with the name decides, giving its index, or -2 when an expected
   * type is given and differs; -1 when no export has the name.
   */
  function FindEntry(exports: seq<Definition>, name: Sstr, expected: Option<Ift>, i: nat): (r: int)
    ensures r == -1 || r == -2 || i <= r < |exports|
    decreases |exports| - i
  {
    if i >= |exports| then -1
    else if !SstrEqual(name, exports[i].name) then FindEntry(exports, name, expected, i + 1)
    else if expected.Some? && !TypeEquals(expected.value, exports[i].ty) then -2
    else i
  }

  /**
   * An index is the first export with the name and, if a type is expected,
   * that type; -1 means no export has the name; -2 means the first export
   * with the name has another type.
   */
  lemma {:induction false} FindEntryMeaning(exports: seq<Definition>, name: Sstr, expected: Option<Ift>, i: nat)
    ensures var r := FindEntry(exports, name, expected, i);
      (r == -1 <==> forall k :: i <= k < |exports| ==> !SstrEqual(name, exports[k].name)) &&
      (r >= 0 ==> (SstrEqual(name, exports[r].name) && (expected.Some? ==> TypeEquals(expected.value, exports[r].ty)) &&
        forall k :: i <= k < r ==> !SstrEqual(name, exports[k].name))) &&
      (r == -2 <==> exists k :: (i <= k < |exports| && SstrEqual(name, exports[k].name) && expected.Some? &&
        !TypeEquals(expected.value, exports[k].ty) && forall j :: i <= j < k ==> !SstrEqual(name, exports[j].name)))
    decreases |exports| - i
  {
    if i < |exports| {
      FindEntryMeaning(exports, name, expected, i + 1);
      if !SstrEqual(name, exports[i].name) {
        var r := FindEntry(exports, name, expected, i + 1);
        if r == -2 {
          var k :| i + 1 <= k < |exports| && SstrEqual(name, exports[k].name) && expected.Some? &&
            !TypeEquals(expected.value, exports[k].ty) && forall j :: i + 1 <= j < k ==> !SstrEqual(name, exports[j].name);
          assert forall j :: i <= j < k ==> !SstrEqual(name, exports[j].name);
        }
        if FindEntry(exports, name, expected, i) != -2 {
          forall k | i <= k < |exports| && SstrEqual(name, exports[k].name) && expected.Some? && !TypeEquals(expected.value, exports[k].ty)
            ensures exists j :: i <= j < k && SstrEqual(name, exports[j].name)
          {
            assert k != i;
          }
        }
      } else {
        if FindEntry(exports, name, expected, i) != -2 {
          forall k | i <= k < |exports| && SstrEqual(name, exports[k].name) && expected.Some? && !TypeEquals(expected.value, exports[k].ty)
            ensures exists j :: i <= j < k && SstrEqual(name, exports[j].name)
          {
            assert i < k;
          }
        }
      }
    }
  }

  /** `program_find_entrypoint`: -1 for a NULL program. */
  method FindEntrypoint(prog: Option<Program>, name: Sstr, expected: Option<Ift>) returns (r: int)
    ensures prog.None? ==> r == -1
    ensures prog.Some? ==> r == FindEntry(prog.value.exports, name, expected, 0)
  {
    if prog.None? {
      return -1;
    }
    var exports := prog.value.exports;
    var i := 0;
    while i < |exports|
      invariant 0 <= i <= |exports|
      invariant FindEntry(exports, name, expected, 0) == FindEntry(exports, name, expected, i)
    {
      if !SstrEqual(name, exports[i].name) {
        i := i + 1;
        continue;
      }
      if expected.Some? && !TypeEquals(expected.value, exports[i].ty) {
        return -2;
      }
      return i;
    }
    return -1;
  }

  /** `entry_point_t`. */
  datatype EntryPoint = EntryPoint(argvals: seq<Val>, argcount: int, address: int)

  /** The entry point every failure returns: no argument values, argument count and address -1. */
  function NoEntry(maxArgs: nat): EntryPoint {
    EntryPoint(seq(maxArgs, _ => 0), -1, -1)
  }

  /** The argument count of an optional type: zero without one. */
  function ArgCountOf(t: Option<Ift>): nat
    requires t.Some? ==> Wf(t.value)
  {
    if t.Some? then ArgCount(t.value) else 0
  }

  /**
   * `program_get_entry_point`. Without a name the entry is address 0 with
   * the given type's argument count; with one it is the export found by
   * `program_find_entrypoint`, whose address must lie in the code and hold
   * `OP_MAKE_FRAME`, with the export's own argument count. Every failure
   * gives `NoEntry`. The name is first made an `sstr`, which asserts on a
   * name too long for it.
   */
  function GetEntryPoint(prog: Option<Program>, name: Option<seq<char>>, ty: Option<Ift>, maxArgs: nat): (r: Result<EntryPoint, Abort>)
    requires prog.Some? ==> ProgramWf(prog.value)
    requires ty.Some? ==> Wf(ty.value)
    ensures r.Err? ==> prog.Some? && name.Some? && |prog.value.exports| > 0 && MakeSstr(name.value).Err?
    ensures r.Ok? ==> |r.value.argvals| == maxArgs
    ensures r.Ok? && r.value.address != -1 ==> (prog.Some? && ArgCountOf(ty) <= maxArgs &&
      (name.None? ==> r.value == EntryPoint(seq(maxArgs, _ => 0), ArgCountOf(ty), 0)))
    ensures r.Ok? && r.value.address == -1 ==> r.value == NoEntry(maxArgs)
  {
    if prog.None? then Ok(NoEntry(maxArgs))
    else if name.None? then
      var argc := ArgCountOf(ty);
      if argc > maxArgs then Ok(NoEntry(maxArgs))
      else Ok(EntryPoint(seq(maxArgs, _ => 0), argc, 0))
    else if |prog.value.exports| <= 0 then Ok(NoEntry(maxArgs))
    else match MakeSstr(name.value)
      case Err(e) => Err(e)
      case Ok(s) =>
        var index := FindEntry(prog.value.exports, s, ty, 0);
        if index == -1 || index == -2 then Ok(NoEntry(maxArgs))
        else
          var address := prog.value.expaddr[index];
          if address >= |prog.value.inst| || prog.value.inst[address] != OpMakeFrame then Ok(NoEntry(maxArgs))
          else if ArgCountOf(ty) > maxArgs then Ok(NoEntry(maxArgs))
          else Ok(EntryPoint(seq(maxArgs, _ => 0), ArgCount(prog.value.exports[index].ty), address))
  }

  /**
   * A named entry point that is returned is the export `FindEntry` picks
   * (by `FindEntryMeaning`, the first of that name, of the expected type if
   * one is given); its address lies in the code and holds `OP_MAKE_FRAME`;
   * its argument count is the export's own.
   */
  lemma GetEntryPointFound(prog: Program, name: seq<char>, ty: Option<Ift>, maxArgs: nat)
    requires ProgramWf(prog) && (ty.Some? ==> Wf(ty.value)) && MakeSstr(name).Ok?
    ensures GetEntryPoint(Some(prog), Some(name), ty, maxArgs).Ok?
    ensures var ep := GetEntryPoint(Some(prog), Some(name), ty, maxArgs).value;
      var k := FindEntry(prog.exports, MakeSstr(name).value, ty, 0);
      ep.address != -1 ==> (0 <= k < |prog.exports| && ep.address == prog.expaddr[k] && ep.argcount == ArgCount(prog.exports[k].ty))
    ensures var ep := GetEntryPoint(Some(prog), Some(name), ty, maxArgs).value;
      ep.address != -1 ==> 0 <= ep.address < |prog.inst| && prog.inst[ep.address] == OpMakeFrame
  {
  }

  /** Looking a name up that no export carries gives `NoEntry`. */
  lemma GetEntryPointMissing(prog: Program, name: seq<char>, ty: Option<Ift>, maxArgs: nat)
    requires ProgramWf(prog) && (ty.Some? ==> Wf(ty.value)) && MakeSstr(name).Ok?
    requires forall k :: 0 <= k < |prog.exports| ==> !SstrEqual(MakeSstr(name).value, prog.exports[k].name)
    ensures GetEntryPoint(Some(prog), Some(name), ty, maxArgs) == Ok(NoEntry(maxArgs))
  {
    FindEntryMeaning(prog.exports, MakeSstr(name).value, ty, 0);
  }

  /** The entry point `entry_point_set_arg` and `entry_point_set_arg_unsafe` update through their pointer. */
  class EntryPointVar {
    var ep: EntryPoint

    constructor (ep: EntryPoint)
      ensures this.ep == ep
    {
      this.ep := ep;
    }

    /**
     * `entry_point_set_arg`: an index at or past the argument count is
     * refused; any other is written, and one outside the argument values
     * (a negative index) lands outside them.
     */
    method SetArg(index: int, arg: Val) returns (r: Result<bool, Abort>)
      modifies this
      ensures index >= old(ep.argcount) ==> r == Ok(false) && ep == old(ep)
      ensures index < old(ep.argcount) && !(0 <= index < |old(ep.argvals)|) ==> r == Err(OutOfBounds)
      ensures index < old(ep.argcount) && 0 <= index < |old(ep.argvals)| ==>
        r == Ok(true) && ep == old(ep).(argvals := old(ep.argvals)[index := arg])
    {
      if index >= ep.argcount {
        return Ok(false);
      }
      if !(0 <= index < |ep.argvals|) {
        return Err(OutOfBounds);
      }
      ep := ep.(argvals := ep.argvals[index := arg]);
      return Ok(true);
    }

    /** `entry_point_set_arg_unsafe`: the value is written and the argument count raised to cover the index. */
    method SetArgUnsafe(index: int, arg: Val) returns (r: Result<(), Abort>)
      modifies this
      ensures !(0 <= index < |old(ep.argvals)|) ==> r == Err(OutOfBounds)
      ensures 0 <= index < |old(ep.argvals)| ==> (r == Ok(()) &&
        ep == old(ep).(argvals := old(ep.argvals)[index := arg], argcount := if old(ep.argcount) > index + 1 then old(ep.argcount) else index + 1))
      ensures r.Ok? ==> ep.argcount > index && ep.argvals[index] == arg
    {
      if !(0 <= index < |ep.argvals|) {
        return Err(OutOfBounds);
      }
      var count := if ep.argcount > index + 1 then ep.argcount else index + 1;
      ep := ep.(argvals := ep.argvals[index := arg], argcount := count);
      return Ok(());
    }
  }
}
