/**
 * `gvm/gvm_value.h`: the same value encoders as the shared header (this
 * module reuses `ShValue`), plus element access through an array value's
 * address into the machine's constants or its memory.
 */
module GvmValue {
  import opened Wrappers
  import opened ShValue

  /** Where an element pointer points: the constants, or the memory base. */
  datatype Loc = ConstLoc(index: int) | MemLoc(index: int)

  /** The two value stores an address can select (`vm->run.constants`, `vm->mem.membase`). */
  class Machine {
    const constants: array<Val>
    const membase: array<Val>

    /** The constants and the memory are two different buffers. */
    predicate Valid()
      reads this
    {
      constants != membase
    }

    constructor (consts: seq<Val>, memSize: nat)
      ensures Valid() && constants[..] == consts && membase.Length == memSize && fresh(constants) && fresh(membase)
    {
      constants := new Val[|consts|](i requires 0 <= i < |consts| => consts[i]);
      membase := new Val[memSize](_ => 0);
    }

    /**
     * `array_get_ptr`: asserts the address is not null, then offsets into the
     * constants when the address is a constant one and into the memory
     * otherwise.
     */
    static function ArrayGetPtr(a: ArrayRef, index: int): (r: Result<Loc, Abort>)
      ensures AddrIsNull(a.address) <==> r == Err(AssertFailed("ADDR_IS_NULL(array.address) == false"))
      ensures r.Ok? ==> (r.value.ConstLoc? <==> AddrIsConst(a.address))
      ensures r.Ok? ==> r.value.index == AddrToIndex(a.address) as int + index
    {
      if AddrIsNull(a.address) then Err(AssertFailed("ADDR_IS_NULL(array.address) == false"))
      else if AddrIsConst(a.address) then Ok(ConstLoc(AddrToIndex(a.address) as int + index))
      else Ok(MemLoc(AddrToIndex(a.address) as int + index))
    }

    /** Whether a location lies inside its store. */
    predicate InBounds(l: Loc)
      reads this
    {
      match l
      case ConstLoc(i) => 0 <= i < constants.Length
      case MemLoc(i) => 0 <= i < membase.Length
    }

    /** `array_get`: the value at the element pointer; a location outside its store is an out-of-bounds read. */
    function ArrayGet(a: ArrayRef, index: int): (r: Result<Val, Abort>)
      reads this, constants, membase
      ensures r.Ok? <==> ArrayGetPtr(a, index).Ok? && InBounds(ArrayGetPtr(a, index).value)
    {
      var p := ArrayGetPtr(a, index);
      if p.Err? then Err(p.error)
      else if !InBounds(p.value) then Err(OutOfBounds)
      else match p.value
        case ConstLoc(i) => Ok(constants[i])
        case MemLoc(i) => Ok(membase[i])
    }

    /** `array_set`: writes the value at the element pointer, and nowhere else. */
    method ArraySet(a: ArrayRef, index: int, value: Val) returns (r: Result<(), Abort>)
      requires Valid()
      modifies constants, membase
      ensures r.Ok? <==> ArrayGetPtr(a, index).Ok? && InBounds(ArrayGetPtr(a, index).value)
      ensures r.Err? ==> r.error == old(ArrayGet(a, index)).error
      ensures r.Err? ==> unchanged(constants) && unchanged(membase)
      ensures r.Ok? ==> ArrayGet(a, index) == Ok(value)
      ensures r.Ok? && AddrIsConst(a.address) ==>
        constants[..] == old(constants[..])[ArrayGetPtr(a, index).value.index := value] && unchanged(membase)
      ensures r.Ok? && !AddrIsConst(a.address) ==>
        membase[..] == old(membase[..])[ArrayGetPtr(a, index).value.index := value] && unchanged(constants)
    {
      var p := ArrayGetPtr(a, index);
      if p.Err? {
        return Err(p.error);
      }
      if !InBounds(p.value) {
        return Err(OutOfBounds);
      }
      match p.value {
        case ConstLoc(i) => constants[i] := value;
        case MemLoc(i) => membase[i] := value;
      }
      r := Ok(());
    }
  }

}
