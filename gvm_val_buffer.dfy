/**
 * `gvm/gvm_val_buffer.c`: a growable buffer of the assembler's tagged values
 * (`val_t` of `gvm_types.h`: a number, a bool, a char, or a list given by
 * its length and the offset of its first element in the same buffer), with
 * appending and first-match searches.
 */
module GvmValBuffer {
  import opened Wrappers

  /** `val_t`: the tag and the union member it selects (an `ivec2_t` is a pair of integers). */
  datatype GVal = Number(n: int) | Boolean(b: bool) | Character(c: char) | List(offset: int, length: nat) | Vec2(x: int, y: int)

  /** `gvm_mem_location_t`: where a buffer's values are stored. */
  datatype MemLocation = MemLocation(id: nat)

  /** The first index from `i` on whose value satisfies the search, or -1. */
  function FirstMatch(vals: seq<GVal>, i: nat, p: GVal -> bool): (r: int)
    ensures r == -1 || i <= r < |vals|
    decreases |vals| - i
  {
    if i >= |vals| then -1 else if p(vals[i]) then i else FirstMatch(vals, i + 1, p)
  }

  /** `FirstMatch` is the least index satisfying the search, and -1 exactly when there is none. */
  lemma {:induction false} FirstMatchMeaning(vals: seq<GVal>, i: nat, p: GVal -> bool)
    ensures FirstMatch(vals, i, p) == -1 <==> forall k :: i <= k < |vals| ==> !p(vals[k])
    ensures FirstMatch(vals, i, p) >= 0 ==> (p(vals[FirstMatch(vals, i, p)]) &&
      forall k :: i <= k < FirstMatch(vals, i, p) ==> !p(vals[k]))
    decreases |vals| - i
  {
    if i < |vals| && !p(vals[i]) {
      FirstMatchMeaning(vals, i + 1, p);
    }
  }

  /**
   * The comparison of a list value with `chars`: element `j` of the list is
   * read at `offset + j` in `vals`, in order, stopping at the first element
   * that is not the char `chars[j]`; a read outside the stored values aborts.
   */
  function ListMatches(vals: seq<GVal>, offset: int, chars: seq<char>, j: nat): (r: Result<bool, Abort>)
    decreases |chars| - j
  {
    if j >= |chars| then Ok(true)
    else if !(0 <= offset + j < |vals|) then Err(OutOfBounds)
    else if vals[offset + j] != Character(chars[j]) then Ok(false)
    else ListMatches(vals, offset, chars, j + 1)
  }

  /** Element `k` of the list at `offset` is stored and is the char `chars[k]`. */
  predicate ElementIs(vals: seq<GVal>, offset: int, chars: seq<char>, k: nat)
    requires k < |chars|
  {
    0 <= offset + k < |vals| && vals[offset + k] == Character(chars[k])
  }

  /** The comparison answers true exactly when every remaining element is stored and is the matching char. */
  lemma {:induction false} ListMatchesMeaning(vals: seq<GVal>, offset: int, chars: seq<char>, j: nat)
    requires j <= |chars|
    ensures ListMatches(vals, offset, chars, j) == Ok(true) <==>
      forall k :: j <= k < |chars| ==> ElementIs(vals, offset, chars, k)
    decreases |chars| - j
  {
    if j < |chars| {
      if ElementIs(vals, offset, chars, j) {
        ListMatchesMeaning(vals, offset, chars, j + 1);
      }
    }
  }

  /** `val_buffer_find_internal_string` over the values from index `i` on. */
  function FindString(vals: seq<GVal>, i: nat, chars: seq<char>): (r: Result<int, Abort>)
    ensures r.Ok? ==> r.value == -1 || (i <= r.value < |vals| && vals[r.value].List?)
    decreases |vals| - i
  {
    if i >= |vals| then Ok(-1)
    else if !vals[i].List? || vals[i].length != |chars| then FindString(vals, i + 1, chars)
    else match ListMatches(vals, vals[i].offset, chars, 0)
      case Err(e) => Err(e)
      case Ok(true) => Ok(i)
      case Ok(false) => FindString(vals, i + 1, chars)
  }

  /** The list of length `|chars|` at `k` has exactly those chars stored at its offset. */
  ghost predicate HoldsString(vals: seq<GVal>, k: nat, chars: seq<char>)
    requires k < |vals|
  {
    vals[k].List? && vals[k].length == |chars| && ListMatches(vals, vals[k].offset, chars, 0) == Ok(true)
  }

  /** A found index holds the string and no earlier list does; -1 means no list holds it. */
  lemma {:induction false} FindStringMeaning(vals: seq<GVal>, i: nat, chars: seq<char>)
    ensures var r := FindString(vals, i, chars);
      r.Ok? ==> ((r.value >= 0 ==> (HoldsString(vals, r.value, chars) &&
        forall k :: i <= k < r.value ==> !HoldsString(vals, k, chars))) &&
      (r.value == -1 ==> forall k :: i <= k < |vals| ==> !HoldsString(vals, k, chars)))
    decreases |vals| - i
  {
    if i < |vals| {
      FindStringMeaning(vals, i + 1, chars);
    }
  }

  class ValBuffer {
    var values: array<GVal>
    var size: nat
    var capacity: nat
    var storage: MemLocation

    ghost predicate Valid()
      reads this
    {
      capacity == values.Length && size <= capacity
    }

    function Contents(): seq<GVal>
      reads this, values
      requires Valid()
    {
      values[..size]
    }

    /** `val_buffer_create`. */
    constructor (location: MemLocation, capacity: nat)
      ensures Valid() && Contents() == [] && this.capacity == capacity && storage == location && fresh(values)
    {
      values := new GVal[capacity](_ => Number(0));
      size := 0;
      this.capacity := capacity;
      storage := location;
    }

    /**
     * `val_buffer_add`: a full buffer grows to twice its size, then the value
     * is written after the last one. A buffer of capacity zero stays at zero,
     * and its first write lands outside the block.
     */
    method Add(value: GVal) returns (r: Result<(), Abort>)
      requires Valid()
      modifies this, values
      ensures Valid() && storage == old(storage)
      ensures r.Err? <==> old(size) == 0 && old(capacity) == 0
      ensures r.Err? ==> r.error == OutOfBounds && Contents() == old(Contents()) && capacity == old(capacity)
      ensures r.Ok? ==> Contents() == old(Contents()) + [value]
      ensures r.Ok? && old(size) >= old(capacity) ==> capacity == old(size) * 2
      ensures r.Ok? && old(size) < old(capacity) ==> capacity == old(capacity) && values == old(values)
      ensures values == old(values) || fresh(values)
    {
      if size >= capacity {
        if size * 2 <= size {
          return Err(OutOfBounds);
        }
        var grown := new GVal[size * 2](_ => Number(0));
        forall i | 0 <= i < size {
          grown[i] := values[i];
        }
        values := grown;
        capacity := size * 2;
      }
      values[size] := value;
      size := size + 1;
      r := Ok(());
    }

    /** The loop shared by the number, bool and char searches: the first stored value satisfying `p`, or -1. */
    method Find(p: GVal -> bool) returns (r: int)
      requires Valid()
      ensures r == FirstMatch(Contents(), 0, p)
    {
      var i := 0;
      while i < size
        invariant 0 <= i <= size
        invariant FirstMatch(Contents(), 0, p) == FirstMatch(Contents(), i, p)
      {
        if p(values[i]) {
          return i;
        }
        i := i + 1;
      }
      return -1;
    }

    /** `val_buffer_find_int`: the first number equal to `value`. */
    method FindInt(value: int) returns (r: int)
      requires Valid()
      ensures r >= -1 && (r == -1 <==> Number(value) !in Contents())
      ensures r >= 0 ==> r < size && Contents()[r] == Number(value) && Number(value) !in Contents()[..r]
    {
      var p := (v: GVal) => v == Number(value);
      r := Find(p);
      FirstMatchMeaning(Contents(), 0, p);
    }

    /** `val_buffer_find_bool`: the first bool equal to `value`. */
    method FindBool(value: bool) returns (r: int)
      requires Valid()
      ensures r >= -1 && (r == -1 <==> Boolean(value) !in Contents())
      ensures r >= 0 ==> r < size && Contents()[r] == Boolean(value) && Boolean(value) !in Contents()[..r]
    {
      var p := (v: GVal) => v == Boolean(value);
      r := Find(p);
      FirstMatchMeaning(Contents(), 0, p);
    }

    /** `val_buffer_find_char`: the first char equal to `value`. */
    method FindChar(value: char) returns (r: int)
      requires Valid()
      ensures r >= -1 && (r == -1 <==> Character(value) !in Contents())
      ensures r >= 0 ==> r < size && Contents()[r] == Character(value) && Character(value) !in Contents()[..r]
    {
      var p := (v: GVal) => v == Character(value);
      r := Find(p);
      FirstMatchMeaning(Contents(), 0, p);
    }

    /**
     * `val_buffer_find_internal_string`: the first list of length `len`
     * whose elements, read at its offset, are the chars `chars[..len]`.
     */
    method FindInternalString(chars: seq<char>, len: int) returns (r: Result<int, Abort>)
      requires Valid() && len <= |chars|
      ensures len >= 0 ==> r == FindString(Contents(), 0, chars[..len])
      ensures len < 0 ==> r == Ok(-1)
    {
      var want := if len < 0 then [] else chars[..len];
      var i := 0;
      while i < size
        invariant 0 <= i <= size
        invariant len >= 0 ==> FindString(Contents(), 0, want) == FindString(Contents(), i, want)
      {
        if values[i].List? && values[i].length == len {
          var m := MatchList(values[i].offset, want);
          if m.Err? {
            return Err(m.error);
          }
          if m.value {
            return Ok(i);
          }
        }
        i := i + 1;
      }
      r := Ok(-1);
    }

    /** The inner loop of the string search. */
    method MatchList(offset: int, chars: seq<char>) returns (m: Result<bool, Abort>)
      requires Valid()
      ensures m == ListMatches(Contents(), offset, chars, 0)
    {
      var j := 0;
      while j < |chars|
        invariant 0 <= j <= |chars|
        invariant ListMatches(Contents(), offset, chars, 0) == ListMatches(Contents(), offset, chars, j)
      {
        if !(0 <= offset + j < size) {
          return Err(OutOfBounds);
        }
        if values[offset + j] != Character(chars[j]) {
          return Ok(false);
        }
        j := j + 1;
      }
      m := Ok(true);
    }

    /** The fields `val_buffer_create` sets on a buffer it was handed: fresh storage for `capacity` values, none stored. */
    method Reinit(capacity: nat)
      modifies this
      ensures Valid() && Contents() == [] && this.capacity == capacity && fresh(values) && storage == old(storage)
    {
      values := new GVal[capacity](_ => Number(0));
      size := 0;
      this.capacity := capacity;
    }

    /** `val_buffer_destroy`. */
    method Destroy()
      modifies this
      ensures Valid() && Contents() == [] && capacity == 0
    {
      values := new GVal[0];
      capacity := 0;
      size := 0;
    }
  }
}
