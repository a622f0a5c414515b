/**
 * `gvm/gvm_memory.c`: a global pool of `MAX_MEM_BUFFFERS` value buffers,
 * each slot with a used flag and the id stored in its buffer. The buffers
 * themselves are `GvmValBuffer.ValBuffer`s; `val_buffer_add` of this file is
 * `GvmValBuffer.ValBuffer.Add`.
 */
module GvmMemory {
  import opened Wrappers
  import opened GvmValBuffer

  /** `MAX_MEM_BUFFFERS`. */
  const MaxBuffers: nat := 16

  /** `global_memory_t`, zero-initialised. */
  class GlobalMemory {
    const buffers: array<ValBuffer>
    const used: array<bool>
    /** The `id` field of each slot's buffer. */
    const ids: array<int>
    /** `buffer_count`: nothing in the file ever changes it. */
    var bufferCount: int

    ghost predicate Valid()
      reads this, buffers, set k | 0 <= k < buffers.Length :: buffers[k]
    {
      buffers.Length == MaxBuffers && used.Length == MaxBuffers && ids.Length == MaxBuffers &&
      (forall k :: 0 <= k < MaxBuffers ==> buffers[k].Valid()) &&
      (forall j, k :: 0 <= j < k < MaxBuffers ==> buffers[j] != buffers[k])
    }

    constructor ()
      ensures Valid() && bufferCount == 0
      ensures forall k :: 0 <= k < MaxBuffers ==> !used[k] && ids[k] == 0 && buffers[k].Contents() == [] && buffers[k].capacity == 0
    {
      var b0 := new ValBuffer(MemLocation(0), 0);
      var slots := new ValBuffer[MaxBuffers](_ => b0);
      var i := 1;
      while i < MaxBuffers
        invariant 1 <= i <= MaxBuffers
        invariant forall k :: 0 <= k < MaxBuffers ==> fresh(slots[k])
        invariant forall k :: 0 <= k < MaxBuffers ==> slots[k].Valid() && slots[k].Contents() == [] && slots[k].capacity == 0
        invariant forall j, k :: 0 <= j < k < i ==> slots[j] != slots[k]
        invariant forall k :: i <= k < MaxBuffers ==> slots[k] == b0
      {
        var b := new ValBuffer(MemLocation(0), 0);
        slots[i] := b;
        i := i + 1;
      }
      buffers := slots;
      used := new bool[MaxBuffers](_ => false);
      ids := new int[MaxBuffers](_ => 0);
      bufferCount := 0;
    }

    /** `alloc_buffer_id`: the lowest unused slot, now marked used and given its own index as id, or -1 when all are used. */
    method AllocBufferId() returns (id: int)
      requires Valid()
      modifies used, ids
      ensures Valid() && -1 <= id
      ensures id == -1 <==> forall k :: 0 <= k < MaxBuffers ==> old(used[k])
      ensures id == -1 ==> used[..] == old(used[..]) && ids[..] == old(ids[..])
      ensures id >= 0 ==> (id < MaxBuffers && !old(used[id]) && (forall k :: 0 <= k < id ==> old(used[k])) &&
        used[..] == old(used[..])[id := true] && ids[..] == old(ids[..])[id := id])
    {
      var i := 0;
      while i < MaxBuffers
        invariant 0 <= i <= MaxBuffers
        invariant forall k :: 0 <= k < i ==> used[k]
        invariant used[..] == old(used[..]) && ids[..] == old(ids[..])
      {
        if !used[i] {
          used[i] := true;
          ids[i] := i;
          return i;
        }
        i := i + 1;
      }
      return -1;
    }

    /** `return_buffer_id`: ids outside the pool are ignored, others marked unused. */
    method ReturnBufferId(id: int)
      requires Valid()
      modifies used
      ensures Valid()
      ensures 0 <= id < MaxBuffers ==> used[..] == old(used[..])[id := false]
      ensures !(0 <= id < MaxBuffers) ==> used[..] == old(used[..])
    {
      if id < 0 || id >= MaxBuffers {
        return;
      }
      used[id] := false;
    }

    /** `val_buffer_find`: the slot's buffer, or NULL outside the pool. */
    function Find(id: int): (r: Option<ValBuffer>)
      reads this, buffers, set k | 0 <= k < buffers.Length :: buffers[k]
      requires Valid()
      ensures r.None? <==> !(0 <= id < MaxBuffers)
      ensures r.Some? ==> r.value == buffers[id]
    {
      if id < 0 || id >= MaxBuffers then None else Some(buffers[id])
    }

    /**
     * `val_buffer_create` as written: the `buffer_count` guard, a slot from
     * `alloc_buffer_id`, its buffer from `val_buffer_find`, then the values
     * block (`mallocFails` stands for malloc returning NULL, which releases
     * the slot). With all slots used the buffer is NULL and the writes to
     * it dereference NULL, since the guard never fires.
     */
    method CreateAsWritten(capacity: nat, mallocFails: bool) returns (r: Result<Option<nat>, Abort>)
      requires Valid()
      modifies used, ids, buffers[..]
      ensures Valid() && bufferCount == old(bufferCount)
      ensures old(bufferCount) < MaxBuffers && (forall k :: 0 <= k < MaxBuffers ==> old(used[k])) && !mallocFails ==>
        r == Err(NullDereference)
      ensures old(bufferCount) < MaxBuffers && (exists k :: 0 <= k < MaxBuffers && !old(used[k])) ==>
        (mallocFails ==> r == Ok(None) && used[..] == old(used[..])) &&
        (!mallocFails ==> (r.Ok? && r.value.Some? && r.value.value < MaxBuffers && !old(used[r.value.value]) &&
          used[r.value.value] && buffers[r.value.value].Contents() == [] && buffers[r.value.value].capacity == capacity))
      ensures old(bufferCount) >= MaxBuffers ==> r == Ok(None)
    {
      if bufferCount >= MaxBuffers {
        return Ok(None);
      }
      var id := AllocBufferId();
      var buffer := Find(id);
      if mallocFails {
        ReturnBufferId(id);
        if id >= 0 {
          assert used[..] == old(used[..])[id := true][id := false] == old(used[..]);
        }
        return Ok(None);
      }
      if buffer.None? {
        return Err(NullDereference);
      }
      buffer.value.Reinit(capacity);
      r := Ok(Some(id));
    }

    /**
     * `val_buffer_create` with the guard it evidently intends: it gives NULL
     * when no slot is free, instead of writing through NULL.
     */
    method Create(capacity: nat, mallocFails: bool) returns (r: Option<nat>)
      requires Valid()
      modifies used, ids, buffers[..]
      ensures Valid() && bufferCount == old(bufferCount)
      ensures (forall k :: 0 <= k < MaxBuffers ==> old(used[k])) ==> r.None? && used[..] == old(used[..])
      ensures r.Some? ==> (r.value < MaxBuffers && !old(used[r.value]) && used[r.value] &&
        buffers[r.value].Contents() == [] && buffers[r.value].capacity == capacity)
      ensures (exists k :: 0 <= k < MaxBuffers && !old(used[k])) && !mallocFails ==> r.Some?
      ensures mallocFails ==> r.None? && used[..] == old(used[..])
    {
      var id := AllocBufferId();
      if id < 0 {
        return None;
      }
      var buffer := Find(id).value;
      if mallocFails {
        ReturnBufferId(id);
        assert used[..] == old(used[..])[id := true][id := false] == old(used[..]);
        return None;
      }
      buffer.Reinit(capacity);
      r := Some(id);
    }

    /** `val_buffer_destroy` of slot `slot` (NULL is `None`): the slot named by its buffer's id is released and the buffer emptied. */
    method Destroy(slot: Option<nat>)
      requires Valid() && (slot.Some? ==> slot.value < MaxBuffers)
      modifies used, buffers[..]
      ensures Valid()
      ensures slot.None? ==> used[..] == old(used[..])
      ensures slot.Some? ==> (buffers[slot.value].Contents() == [] && buffers[slot.value].capacity == 0 &&
        (0 <= ids[slot.value] < MaxBuffers ==> used[..] == old(used[..])[ids[slot.value] := false]) &&
        (!(0 <= ids[slot.value] < MaxBuffers) ==> used[..] == old(used[..])))
    {
      if slot.None? {
        return;
      }
      ReturnBufferId(ids[slot.value]);
      buffers[slot.value].Destroy();
    }
  }
}
