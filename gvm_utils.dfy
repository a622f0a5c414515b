/**
 * `gvm/gvm_utils.c`: the assembler's byte buffer, and the value-buffer
 * operations of this revision. `valbuffer_create`, `valbuffer_add`,
 * `valbuffer_find_int/bool/char` and `valbuffer_destroy` do what the
 * `GvmValBuffer` members do; the string search differs, because it advances
 * the buffer pointer itself instead of indexing the list's offset.
 */
module GvmUtils {
  import opened Wrappers
  import opened GvmValBuffer

  /** `u8buffer_t` of the assembler. */
  class U8Buffer {
    var data: array<bv8>
    var size: nat
    var capacity: nat

    ghost predicate Valid()
      reads this
    {
      capacity == data.Length && size <= capacity
    }

    function Contents(): seq<bv8>
      reads this, data
      requires Valid()
    {
      data[..size]
    }

    /** `u8buffer_create`. */
    constructor (capacity: nat)
      ensures Valid() && Contents() == [] && this.capacity == capacity && fresh(data)
    {
      data := new bv8[capacity];
      size := 0;
      this.capacity := capacity;
    }

    /**
     * `u8buffer_write`: a full buffer doubles its size, then the byte is
     * written after the last one. An empty buffer of capacity zero stays at
     * zero, and the write lands outside the block.
     */
    method Write(b: bv8) returns (r: Result<(), Abort>)
      requires Valid()
      modifies this, data
      ensures Valid()
      ensures r.Err? <==> old(size) == 0 && old(capacity) == 0
      ensures r.Err? ==> r.error == OutOfBounds && Contents() == old(Contents()) && capacity == old(capacity)
      ensures r.Ok? ==> Contents() == old(Contents()) + [b]
      ensures r.Ok? && old(size) >= old(capacity) ==> capacity == old(size) * 2
      ensures r.Ok? && old(size) < old(capacity) ==> capacity == old(capacity) && data == old(data)
      ensures data == old(data) || fresh(data)
    {
      if size >= capacity {
        if size == 0 {
          return Err(OutOfBounds);
        }
        var grown := new bv8[size * 2];
        forall i | 0 <= i < size {
          grown[i] := data[i];
        }
        data := grown;
        capacity := size * 2;
      }
      data[size] := b;
      size := size + 1;
      r := Ok(());
    }

    /** `u8buffer_destroy`. */
    method Destroy()
      modifies this
      ensures Valid() && Contents() == [] && capacity == 0
    {
      data := new bv8[0];
      capacity := 0;
      size := 0;
    }
  }

  /**
   * `valbuffer_find_string` as written: for a list of the wanted length it
   * sets `buffer = buffer + buffer_offset`, stepping the pointer to the
   * buffer structure rather than into its values. With offset 0 nothing
   * moves and element `j` is value `j`; with another offset the elements
   * are read through a pointer that no longer points at a buffer, unless
   * no element is read at all.
   */
  function FindStringAsWrittenFrom(vals: seq<GVal>, i: nat, chars: seq<char>): (r: Result<int, Abort>)
    decreases |vals| - i
  {
    if i >= |vals| then Ok(-1)
    else if !vals[i].List? || vals[i].length != |chars| then FindStringAsWrittenFrom(vals, i + 1, chars)
    else if chars == [] then Ok(i)
    else if vals[i].offset != 0 then Err(OutOfBounds)
    else match ListMatches(vals, 0, chars, 0)
      case Err(e) => Err(e)
      case Ok(true) => Ok(i)
      case Ok(false) => FindStringAsWrittenFrom(vals, i + 1, chars)
  }

  /** The loop of `valbuffer_find_string`, as written. */
  method FindStringAsWritten(buffer: ValBuffer, chars: seq<char>, len: int) returns (r: Result<int, Abort>)
    requires buffer.Valid() && len <= |chars|
    ensures len >= 0 ==> r == FindStringAsWrittenFrom(buffer.Contents(), 0, chars[..len])
    ensures len < 0 ==> r == Ok(-1)
  {
    var want := if len < 0 then [] else chars[..len];
    var i := 0;
    while i < buffer.size
      invariant 0 <= i <= buffer.size
      invariant len >= 0 ==> FindStringAsWrittenFrom(buffer.Contents(), 0, want) == FindStringAsWrittenFrom(buffer.Contents(), i, want)
    {
      var v := buffer.values[i];
      if v.List? && v.length == len {
        if len == 0 {
          return Ok(i);
        }
        if v.offset != 0 {
          return Err(OutOfBounds);
        }
        var m := buffer.MatchList(0, want);
        if m.Err? {
          return Err(m.error);
        }
        if m.value {
          return Ok(i);
        }
      }
      i := i + 1;
    }
    r := Ok(-1);
  }

  /** Where every list of the wanted length starts at offset 0, or the string is empty, the search as written is the intended one. */
  lemma {:induction false} AsWrittenAgreesAtOffsetZero(vals: seq<GVal>, i: nat, chars: seq<char>)
    requires chars == [] || forall k :: i <= k < |vals| && vals[k].List? && vals[k].length == |chars| ==> vals[k].offset == 0
    ensures FindStringAsWrittenFrom(vals, i, chars) == FindString(vals, i, chars)
    decreases |vals| - i
  {
    if i < |vals| {
      AsWrittenAgreesAtOffsetZero(vals, i + 1, chars);
    }
  }

  /** A buffer holding the list `"a"` at offset 1: the intended search finds it at index 0, the search as written aborts. */
  lemma AsWrittenMissesOffsetList()
    ensures FindString([List(1, 1), Character('a')], 0, "a") == Ok(0)
    ensures FindStringAsWrittenFrom([List(1, 1), Character('a')], 0, "a") == Err(OutOfBounds)
  {
  }

  /** `valbuffer_find_string` with the list's elements read at its offset, as the search intends. */
  method FindStringCorrected(buffer: ValBuffer, chars: seq<char>, len: int) returns (r: Result<int, Abort>)
    requires buffer.Valid() && len <= |chars|
    ensures len >= 0 ==> r == FindString(buffer.Contents(), 0, chars[..len])
    ensures len < 0 ==> r == Ok(-1)
    ensures len >= 0 && r.Ok? && r.value >= 0 ==> HoldsString(buffer.Contents(), r.value, chars[..len])
  {
    r := buffer.FindInternalString(chars, len);
    if len >= 0 {
      FindStringMeaning(buffer.Contents(), 0, chars[..len]);
    }
  }
}
