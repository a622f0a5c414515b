/**
 * `adder/shared/sh_ffi.c`: the definition tables of the foreign-function
 * interface. The host's native exports pair each named, typed definition
 * with a handle; a definition set holds named types only. Both grow by
 * doubling and refuse a name already present.
 */
module ShFfi {
  import opened Wrappers
  import opened ShUtils
  import opened ShIft

  /** `ffi_definition_t`. */
  datatype Definition = Definition(name: Sstr, ty: Ift)

  /** The first index from `i` on whose name is `sstr_equal` to `name`, or -1. */
  function IndexOfName(defs: seq<Definition>, name: Sstr, i: nat): (r: int)
    ensures r == -1 || i <= r < |defs|
    decreases |defs| - i
  {
    if i >= |defs| then -1
    else if SstrEqual(defs[i].name, name) then i
    else IndexOfName(defs, name, i + 1)
  }

  /** The index found is the least with an equal name, and -1 means no name is equal. */
  lemma {:induction false} IndexOfNameMeaning(defs: seq<Definition>, name: Sstr, i: nat)
    ensures IndexOfName(defs, name, i) == -1 <==> forall k :: i <= k < |defs| ==> !SstrEqual(defs[k].name, name)
    ensures IndexOfName(defs, name, i) >= 0 ==> (SstrEqual(defs[IndexOfName(defs, name, i)].name, name) &&
      forall k :: i <= k < IndexOfName(defs, name, i) ==> !SstrEqual(defs[k].name, name))
    decreases |defs| - i
  {
    if i < |defs| && !SstrEqual(defs[i].name, name) {
      IndexOfNameMeaning(defs, name, i + 1);
    }
  }

  /** No definition's name is equal to that of a definition before it. */
  predicate UniqueNames(defs: seq<Definition>) {
    forall i, j :: 0 <= i < j < |defs| ==> !SstrEqual(defs[i].name, defs[j].name)
  }

  /** Appending a definition whose name matches none keeps the names unique. */
  lemma AppendUnique(defs: seq<Definition>, d: Definition)
    requires UniqueNames(defs) && IndexOfName(defs, d.name, 0) == -1
    ensures UniqueNames(defs + [d])
  {
    IndexOfNameMeaning(defs, d.name, 0);
    var e := defs + [d];
    forall i, j | 0 <= i < j < |e| ensures !SstrEqual(e[i].name, e[j].name) {
      if j == |defs| {
        assert e[i] == defs[i];
      } else {
        assert e[i] == defs[i] && e[j] == defs[j];
      }
    }
  }

  /** The capacity after an insertion that found `count` definitions in `capacity` slots. */
  function Grown(count: nat, capacity: nat): nat {
    if count >= capacity then count * 2 else capacity
  }

  /** `ffi_native_exports_t`: definitions and their handles, at the same indices. */
  class NativeExports {
    var defs: seq<Definition>
    var handles: seq<nat>
    var capacity: nat

    ghost predicate Valid()
      reads this
    {
      |defs| == |handles| <= capacity
    }

    /** `ffi_native_exports_init` (allocation failure is not modelled). */
    constructor (capacity: nat)
      ensures Valid() && defs == [] && handles == [] && this.capacity == capacity
    {
      defs, handles := [], [];
      this.capacity := capacity;
    }

    /** `ffi_native_exports_index_of`. */
    method IndexOf(name: Sstr) returns (r: int)
      requires Valid()
      ensures r == IndexOfName(defs, name, 0)
    {
      var i := 0;
      while i < |defs|
        invariant 0 <= i <= |defs|
        invariant IndexOfName(defs, name, 0) == IndexOfName(defs, name, i)
      {
        if SstrEqual(defs[i].name, name) {
          return i;
        }
        i := i + 1;
      }
      return -1;
    }

    /**
     * `ffi_native_exports_define`: a name already present is refused and
     * nothing changes; otherwise a full table doubles its count, and the
     * definition and the handle go to the same new index. An empty table of
     * capacity zero stays at zero, and the write lands outside the block.
     */
    method Define(name: Sstr, handle: nat, ty: Ift) returns (r: Result<bool, Abort>)
      requires Valid()
      modifies this
      ensures Valid()
      ensures IndexOfName(old(defs), name, 0) >= 0 ==> r == Ok(false)
      ensures IndexOfName(old(defs), name, 0) == -1 && old(|defs|) == 0 && old(capacity) == 0 ==> r == Err(OutOfBounds)
      ensures IndexOfName(old(defs), name, 0) == -1 && (old(|defs|) > 0 || old(capacity) > 0) ==> r == Ok(true)
      ensures r == Ok(true) ==> (defs == old(defs) + [Definition(name, ty)] && handles == old(handles) + [handle] &&
        capacity == Grown(old(|defs|), old(capacity)))
      ensures r != Ok(true) ==> defs == old(defs) && handles == old(handles) && capacity == old(capacity)
      ensures r.Ok? && UniqueNames(old(defs)) ==> UniqueNames(defs)
    {
      var index := IndexOf(name);
      if index >= 0 {
        return Ok(false);
      }
      if |defs| >= capacity {
        var newCap := |defs| * 2;
        if newCap == 0 {
          return Err(OutOfBounds);
        }
        capacity := newCap;
      }
      if UniqueNames(defs) {
        AppendUnique(defs, Definition(name, ty));
      }
      defs := defs + [Definition(name, ty)];
      handles := handles + [handle];
      r := Ok(true);
    }

    /** `ffi_native_exports_get_type`: the type of the first definition named `name`, or NULL. */
    method GetType(name: Sstr) returns (r: Option<Ift>)
      requires Valid()
      ensures r.Some? <==> exists k :: 0 <= k < |defs| && SstrEqual(defs[k].name, name)
      ensures r.Some? ==> IndexOfName(defs, name, 0) >= 0 && r.value == defs[IndexOfName(defs, name, 0)].ty
    {
      var index := IndexOf(name);
      IndexOfNameMeaning(defs, name, 0);
      if index >= 0 {
        return Some(defs[index].ty);
      }
      return None;
    }
  }

  /** `ffi_definition_set_t`. */
  class DefinitionSet {
    var defs: seq<Definition>
    var capacity: nat

    ghost predicate Valid()
      reads this
    {
      |defs| <= capacity
    }

    /** `ffi_definition_set_init` (allocation failure is not modelled). */
    constructor (capacity: nat)
      ensures Valid() && defs == [] && this.capacity == capacity
    {
      defs := [];
      this.capacity := capacity;
    }

    /** `ffi_definition_set_index_of`. */
    method IndexOf(name: Sstr) returns (r: int)
      requires Valid()
      ensures r == IndexOfName(defs, name, 0)
    {
      var i := 0;
      while i < |defs|
        invariant 0 <= i <= |defs|
        invariant IndexOfName(defs, name, 0) == IndexOfName(defs, name, i)
      {
        if SstrEqual(defs[i].name, name) {
          return i;
        }
        i := i + 1;
      }
      return -1;
    }

    /**
     * `ffi_definition_set_add`: names are unique, so a present one is
     * refused; a full set doubles its count. An empty set of capacity zero
     * stays at zero, and the write lands outside the block.
     */
    method Add(name: Sstr, ty: Ift) returns (r: Result<bool, Abort>)
      requires Valid()
      modifies this
      ensures Valid()
      ensures IndexOfName(old(defs), name, 0) >= 0 ==> r == Ok(false)
      ensures IndexOfName(old(defs), name, 0) == -1 && old(|defs|) == 0 && old(capacity) == 0 ==> r == Err(OutOfBounds)
      ensures IndexOfName(old(defs), name, 0) == -1 && (old(|defs|) > 0 || old(capacity) > 0) ==> r == Ok(true)
      ensures r == Ok(true) ==> defs == old(defs) + [Definition(name, ty)] && capacity == Grown(old(|defs|), old(capacity))
      ensures r != Ok(true) ==> defs == old(defs) && capacity == old(capacity)
      ensures r.Ok? && UniqueNames(old(defs)) ==> UniqueNames(defs)
    {
      var index := IndexOf(name);
      if index >= 0 {
        return Ok(false);
      }
      if |defs| >= capacity {
        var newCap := |defs| * 2;
        if newCap == 0 {
          return Err(OutOfBounds);
        }
        capacity := newCap;
      }
      if UniqueNames(defs) {
        AppendUnique(defs, Definition(name, ty));
      }
      defs := defs + [Definition(name, ty)];
      r := Ok(true);
    }

    /** `ffi_definition_set_get_type`: the stored type of the name, or NULL when it is absent. */
    method GetType(name: Sstr) returns (r: Option<Ift>)
      requires Valid()
      ensures r.Some? <==> exists k :: 0 <= k < |defs| && SstrEqual(defs[k].name, name)
      ensures r.Some? ==> IndexOfName(defs, name, 0) >= 0 && r.value == defs[IndexOfName(defs, name, 0)].ty
    {
      var index := IndexOf(name);
      IndexOfNameMeaning(defs, name, 0);
      if index >= 0 {
        return Some(defs[index].ty);
      }
      return None;
    }
  }

  /** After a successful insertion the new name is found at the new, last index. */
  lemma AddedIsFound(defs: seq<Definition>, d: Definition)
    requires IndexOfName(defs, d.name, 0) == -1
    ensures IndexOfName(defs + [d], d.name, 0) == |defs|
  {
    IndexOfNameMeaning(defs, d.name, 0);
    IndexOfNameMeaning(defs + [d], d.name, 0);
    var e := defs + [d];
    assert SstrEqual(e[|defs|].name, d.name) by {
      SstrEqualMeaning(d.name, d.name, []);
    }
    assert forall k :: 0 <= k < |defs| ==> !SstrEqual(e[k].name, d.name) by {
      forall k | 0 <= k < |defs| ensures !SstrEqual(e[k].name, d.name) {
        assert e[k] == defs[k];
      }
    }
  }
}
