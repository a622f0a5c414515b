/**
 * `gvm/gvm_ir.h`: the assembler compiler's list of intermediate
 * instructions. `irl_reserve` reallocates the block to exactly the required
 * number of entries but never records a new capacity, so once the list
 * outgrows its first capacity every addition reallocates; the block still
 * always covers the entries, which is what this model proves.
 */
module GvmIr {
  import opened Wrappers

  /** `ir_inst_t`: an opcode and two operands. */
  datatype IrInst = IrInst(opcode: int, arg0: nat, arg1: nat)

  /** `ir_index_tag_t`. */
  datatype IrIndexTag = IridInvalid | IridVar | IridFun | IridIns

  /** `ir_index_t`. */
  datatype IrIndex = IrIndex(tag: IrIndexTag, idx: nat)

  /** `ir_list_t`; `irs` is the allocated block, whose length is the number of entries allocated. */
  class IrList {
    var count: nat
    var capacity: nat
    var irs: array<IrInst>

    ghost predicate Valid()
      reads this
    {
      count <= irs.Length && capacity <= irs.Length
    }

    /** The entries added so far. */
    ghost function Contents(): seq<IrInst>
      reads this, irs
      requires Valid()
    {
      irs[..count]
    }

    /** `irl_init` (allocation failure is not modelled): no entries, a block of `capacity`. */
    constructor (capacity: nat)
      ensures Valid() && count == 0 && this.capacity == capacity && irs.Length == capacity && fresh(irs)
    {
      count := 0;
      irs := new IrInst[capacity](_ => IrInst(0, 0, 0));
      this.capacity := capacity;
    }

    /** `irl_destroy`: the block freed, capacity and count zero. */
    method Destroy()
      modifies this
      ensures Valid() && count == 0 && capacity == 0 && irs.Length == 0
    {
      irs := new IrInst[0];
      capacity := 0;
      count := 0;
    }

    /**
     * `irl_reserve`: with `capacity <= count + additional` the block is
     * reallocated to exactly `count + additional` entries, keeping those it
     * held; `capacity` is left as it was.
     */
    method Reserve(additional: nat)
      requires Valid()
      modifies this
      ensures Valid() && count == old(count) && capacity == old(capacity)
      ensures old(capacity) <= old(count) + additional ==> fresh(irs) && irs.Length == old(count) + additional
      ensures old(capacity) > old(count) + additional ==> irs == old(irs)
      ensures irs[..count] == old(irs[..count])
    {
      var required := count + additional;
      if capacity <= required {
        var src := irs;
        var ptr := new IrInst[required](_ => IrInst(0, 0, 0));
        var keep := if src.Length < required then src.Length else required;
        var i := 0;
        while i < keep
          invariant 0 <= i <= keep
          invariant ptr[..i] == src[..i]
          invariant irs == src && count == old(count) && capacity == old(capacity)
        {
          ptr[i] := src[i];
          i := i + 1;
        }
        assert ptr[..count] == ptr[..keep][..count] && src[..count] == src[..keep][..count];
        irs := ptr;
      }
    }

    /**
     * `irl_add`: the instruction is appended and its index returned, tagged
     * `IRID_INS`; the capacity is unchanged.
     */
    method Add(instr: IrInst) returns (r: IrIndex)
      requires Valid()
      modifies this, irs
      ensures Valid() && capacity == old(capacity)
      ensures Contents() == old(Contents()) + [instr]
      ensures r == IrIndex(IridIns, count - 1) && r.idx < irs.Length && irs[r.idx] == instr
      ensures irs == old(irs) || fresh(irs)
    {
      Reserve(1);
      irs[count] := instr;
      count := count + 1;
      r := IrIndex(IridIns, count - 1);
    }

    /** `irl_get`: asserts the tag is `IRID_INS`, then gives the entry at the index (outside the block, out of bounds). */
    method Get(index: IrIndex) returns (r: Result<IrInst, Abort>)
      requires Valid()
      ensures index.tag != IridIns ==> r.Err? && r.error.AssertFailed?
      ensures index.tag == IridIns && index.idx < irs.Length ==> r == Ok(irs[index.idx])
      ensures index.tag == IridIns && index.idx >= irs.Length ==> r == Err(OutOfBounds)
    {
      if index.tag != IridIns {
        return Err(AssertFailed("index has mismatching tag"));
      }
      if index.idx >= irs.Length {
        return Err(OutOfBounds);
      }
      return Ok(irs[index.idx]);
    }
  }
}
