/**
 * `adder/shared/sh_arena.c`: a bump allocator over a chain of blocks. Each
 * block has a data buffer at some address, a capacity and a used size;
 * `aalloc` takes the first block of the chain with room, aligning the start
 * to `ALIGNMENT`, and appends a new block when none has room. The chain the
 * `next` pointers form is the sequence `chain`; an allocation is a block
 * index and an offset into its buffer.
 */
module ShArena {
  import opened Wrappers

  /** `ALIGNMENT`: `sizeof(intptr_t)` on a 64-bit target. */
  const Alignment: nat := 8

  /** `ARENA_MIN_SIZE`. */
  const MinSize: nat := 1024 * 16

  /** `get_padding`: `-(uintptr_t)ptr & (ALIGNMENT - 1)`; the wrap-around of the negation is a multiple of 8. */
  function GetPadding(address: nat): int {
    (-(address as int)) % Alignment
  }

  /** The padding is below the alignment, makes the address aligned, and is the least amount that does. */
  lemma PaddingAligns(address: nat)
    ensures 0 <= GetPadding(address) < Alignment
    ensures (address + GetPadding(address)) % Alignment == 0
    ensures address % Alignment == 0 ==> GetPadding(address) == 0
  {
  }

  function Max(a: int, b: int): int { if a > b then a else b }

  function Min(a: int, b: int): int { if a < b then a else b }

  /** One `arena_t` block: its buffer (at address `base`), whose length is the capacity, and the used size. */
  class Block {
    const base: nat
    const data: array<bv8>
    var size: nat

    /** `arena_create`: capacity `max(ARENA_MIN_SIZE, size)` at the address malloc gave, nothing used. */
    constructor (requested: int, base: nat)
      ensures this.base == base && data.Length == Max(MinSize, requested) && size == 0
      ensures fresh(data)
    {
      this.base := base;
      data := new bv8[Max(MinSize, requested)];
      size := 0;
    }
  }

  /** An allocation: the block it lies in and its offset in that block's buffer. */
  datatype Ptr = Ptr(block: nat, offset: nat)

  class Arena {
    /** The head block and the blocks reached from it through `next`. */
    var chain: seq<Block>

    ghost function Repr(): set<object>
      reads this
    {
      (set b | b in chain :: b as object) + (set b | b in chain :: b.data as object)
    }

    /** Block `k` and its bytes are part of the footprint. */
    lemma InRepr(k: nat)
      requires k < |chain|
      ensures chain[k] in Repr() && chain[k].data in Repr()
    {
      assert chain[k] in chain;
    }

    ghost predicate Valid()
      reads this, Repr()
    {
      |chain| >= 1 &&
      (forall i :: 0 <= i < |chain| ==> chain[i].size <= chain[i].data.Length) &&
      (forall i, j :: 0 <= i < j < |chain| ==> chain[i] != chain[j] && chain[i].data != chain[j].data)
    }

    /** `arena_create` of the head block. */
    constructor (requested: int, base: nat)
      ensures Valid() && fresh(Repr())
      ensures |chain| == 1 && chain[0].base == base && chain[0].size == 0
      ensures chain[0].data.Length == Max(MinSize, requested)
    {
      var b := new Block(requested, base);
      chain := [b];
    }

    /** The room left in block `k` once its next allocation is aligned. */
    function Available(k: nat): int
      reads this, chain
      requires k < |chain|
    {
      chain[k].data.Length - chain[k].size - GetPadding(chain[k].base + chain[k].size)
    }

    /** The first block from `k` on with room for `size` bytes, or the chain length when none has. */
    function FirstFit(k: nat, size: nat): (f: nat)
      reads this, chain
      ensures k <= f <= |chain| || (k > |chain| && f == k)
      ensures f < |chain| ==> Available(f) >= size
      ensures forall i :: k <= i < f && i < |chain| ==> Available(i) < size
      decreases |chain| - k
    {
      if k >= |chain| then k
      else if Available(k) >= size then k
      else FirstFit(k + 1, size)
    }

    /**
     * `aalloc` called on block `start`: the first block from there on with
     * room grows by padding plus `size` and the aligned place is zeroed;
     * without such a block a new one, at address `freshBase`, is appended
     * with `size` used and its first `size` bytes zeroed. Nothing else
     * changes.
     */
    method AllocFrom(start: nat, size: nat, freshBase: nat) returns (p: Ptr)
      requires Valid() && start < |chain|
      modifies Repr()
      modifies this
      ensures Valid()
      ensures var f := old(FirstFit(start, size));
        (f < |old(chain)| ==>
          chain == old(chain) &&
          p == Ptr(f, old(chain[f].size) + old(GetPadding(chain[f].base + chain[f].size))) &&
          chain[f].size == p.offset + size &&
          (forall i :: 0 <= i < |chain| && i != f ==> chain[i].size == old(chain[i].size))) &&
        (f == |old(chain)| ==>
          |chain| == |old(chain)| + 1 && chain[..|old(chain)|] == old(chain) &&
          fresh(chain[f]) && fresh(chain[f].data) &&
          chain[f].base == freshBase && chain[f].data.Length == Max(MinSize, size) && chain[f].size == size &&
          p == Ptr(f, 0) &&
          (forall i :: 0 <= i < f ==> chain[i].size == old(chain[i].size)))
      ensures p.block < |chain| && p.offset + size <= chain[p.block].data.Length
      ensures chain[p.block].data in old(Repr()) || fresh(chain[p.block].data)
      ensures forall i :: p.offset <= i < p.offset + size ==> chain[p.block].data[i] == 0
      ensures forall i :: 0 <= i < |old(chain)| && i != p.block ==> chain[i].data[..] == old(chain[i].data[..])
      ensures p.block < |old(chain)| ==>
        forall i :: 0 <= i < chain[p.block].data.Length && !(p.offset <= i < p.offset + size) ==>
          chain[p.block].data[i] == old(chain[p.block].data[i])
    {
      var k := FindBlock(start, size);
      if k == |chain| {
        p := AllocInNewBlock(size, freshBase);
      } else {
        InRepr(k);
        p := AllocInBlock(k, size);
      }
    }

    /** The allocation in a block `k` with room: bumped and zeroed, every other block and byte untouched. */
    method AllocInBlock(k: nat, size: nat) returns (p: Ptr)
      requires Valid() && k < |chain| && Available(k) >= size
      modifies chain[k], chain[k].data
      ensures Valid() && chain == old(chain)
      ensures p == Ptr(k, old(chain[k].size) + old(GetPadding(chain[k].base + chain[k].size)))
      ensures chain[k].size == p.offset + size <= chain[k].data.Length
      ensures forall i :: 0 <= i < |chain| && i != k ==> chain[i].size == old(chain[i].size)
      ensures forall i :: 0 <= i < |chain| && i != k ==> chain[i].data[..] == old(chain[i].data[..])
      ensures forall i :: p.offset <= i < p.offset + size ==> chain[k].data[i] == 0
      ensures forall i :: 0 <= i < chain[k].data.Length && !(p.offset <= i < p.offset + size) ==>
        chain[k].data[i] == old(chain[k].data[i])
    {
      p := Bump(k, size);
      Zero(chain[k].data, p.offset, size);
    }

    /** The allocation in a new block appended for it, zeroed. */
    method AllocInNewBlock(size: nat, freshBase: nat) returns (p: Ptr)
      requires Valid()
      modifies this
      ensures Valid()
      ensures |chain| == |old(chain)| + 1 && chain[..|old(chain)|] == old(chain)
      ensures fresh(chain[|old(chain)|]) && fresh(chain[|old(chain)|].data)
      ensures chain[|old(chain)|].base == freshBase && chain[|old(chain)|].data.Length == Max(MinSize, size)
      ensures chain[|old(chain)|].size == size
      ensures p == Ptr(|old(chain)|, 0)
      ensures forall i :: 0 <= i < size ==> chain[p.block].data[i] == 0
    {
      p := AppendBlock(size, freshBase);
      Zero(chain[p.block].data, 0, size);
    }

    /** The search loop of `aalloc`: the first block from `start` on with room. */
    method FindBlock(start: nat, size: nat) returns (k: nat)
      requires Valid() && start < |chain|
      ensures k == FirstFit(start, size)
      ensures forall i :: 0 <= i < |chain| ==> chain[i].size == old(chain[i].size)
    {
      k := start;
      while k < |chain| && Available(k) < size
        invariant start <= k <= |chain|
        invariant FirstFit(start, size) == FirstFit(k, size)
        decreases |chain| - k
      {
        k := k + 1;
      }
    }

    /** Block `k` has room: its size grows by the padding and `size`, and the allocation starts after the padding. */
    method Bump(k: nat, size: nat) returns (p: Ptr)
      requires Valid() && k < |chain| && Available(k) >= size
      modifies chain[k]
      ensures Valid() && chain == old(chain)
      ensures p == Ptr(k, old(chain[k].size) + old(GetPadding(chain[k].base + chain[k].size)))
      ensures chain[k].size == p.offset + size <= chain[k].data.Length
      ensures forall i :: 0 <= i < |chain| && i != k ==> chain[i].size == old(chain[i].size)
      ensures forall i :: 0 <= i < |chain| && i != k ==> chain[i].data[..] == old(chain[i].data[..])
    {
      var block := chain[k];
      var padding := GetPadding(block.base + block.size);
      PaddingAligns(block.base + block.size);
      p := Ptr(k, block.size + padding);
      block.size := block.size + padding + size;
    }

    /** No block has room: a new block, created for `size` bytes, is appended with `size` used. */
    method AppendBlock(size: nat, freshBase: nat) returns (p: Ptr)
      requires Valid()
      modifies this
      ensures Valid()
      ensures |chain| == |old(chain)| + 1 && chain[..|old(chain)|] == old(chain)
      ensures fresh(chain[|old(chain)|]) && fresh(chain[|old(chain)|].data)
      ensures chain[|old(chain)|].base == freshBase && chain[|old(chain)|].data.Length == Max(MinSize, size)
      ensures chain[|old(chain)|].size == size
      ensures p == Ptr(|old(chain)|, 0)
    {
      var b := new Block(size, freshBase);
      b.size := b.size + size;
      chain := chain + [b];
      p := Ptr(|chain| - 1, 0);
      assert chain[..|old(chain)|] == old(chain);
    }

    /** The `memset` of a new allocation. */
    static method Zero(d: array<bv8>, from: nat, size: nat)
      requires from + size <= d.Length
      modifies d
      ensures forall i :: from <= i < from + size ==> d[i] == 0
      ensures forall i :: 0 <= i < d.Length && !(from <= i < from + size) ==> d[i] == old(d[i])
    {
      forall i | from <= i < from + size {
        d[i] := 0;
      }
    }

    /** `aalloc` on the head block. */
    method Alloc(size: nat, freshBase: nat) returns (p: Ptr)
      requires Valid()
      modifies Repr()
      modifies this
      ensures Valid()
      ensures var f := old(FirstFit(0, size));
        (f < |old(chain)| ==> chain == old(chain) && p.block == f) &&
        (f == |old(chain)| ==> |chain| == |old(chain)| + 1 && p == Ptr(f, 0))
      ensures p.block < |chain| && p.offset + size <= chain[p.block].data.Length
      ensures chain[p.block].data in old(Repr()) || fresh(chain[p.block].data)
      ensures forall i :: p.offset <= i < p.offset + size ==> chain[p.block].data[i] == 0
    {
      p := AllocFrom(0, size, freshBase);
    }

    /** The block whose buffer holds `address` last in the chain, and the bytes from there to the end of its buffer. */
    function SourceExtent(address: nat): (r: Option<(nat, nat)>)
      reads this, chain
      ensures r.Some? ==> (r.value.0 < |chain| && chain[r.value.0].base <= address &&
        r.value.1 == chain[r.value.0].base + chain[r.value.0].data.Length - address > 0)
      ensures r.Some? ==> Holds(r.value.0, address) && forall i :: r.value.0 < i < |chain| ==> !Holds(i, address)
      ensures r.None? <==> forall i :: 0 <= i < |chain| ==> !Holds(i, address)
    {
      SourceExtentFrom(address, 0, None)
    }

    function SourceExtentFrom(address: nat, k: nat, found: Option<(nat, nat)>): (r: Option<(nat, nat)>)
      reads this, chain
      requires found.Some? ==> (found.value.0 < k && found.value.0 < |chain| && chain[found.value.0].base <= address &&
        found.value.1 == chain[found.value.0].base + chain[found.value.0].data.Length - address > 0)
      requires found.Some? ==> forall i :: found.value.0 < i < k && i < |chain| ==> !Holds(i, address)
      ensures r.Some? ==> (r.value.0 < |chain| && chain[r.value.0].base <= address &&
        r.value.1 == chain[r.value.0].base + chain[r.value.0].data.Length - address > 0)
      ensures r.Some? ==> Holds(r.value.0, address)
      ensures r.Some? ==> forall i :: r.value.0 < i < |chain| && k <= i ==> !Holds(i, address)
      ensures r.Some? && found.Some? && r != found ==> k <= r.value.0
      ensures r.None? ==> found.None? && forall i :: k <= i < |chain| ==> !Holds(i, address)
      decreases |chain| - k
    {
      if k >= |chain| then found
      else if Holds(k, address) then
        SourceExtentFrom(address, k + 1, Some((k, chain[k].base + chain[k].data.Length - address)))
      else SourceExtentFrom(address, k + 1, found)
    }

    /** `0 <= ptr - data < capacity`. */
    predicate Holds(k: nat, address: nat)
      reads this, chain
      requires k < |chain|
    {
      0 <= address - chain[k].base < chain[k].data.Length
    }

    /**
     * `arealloc`: when no block holds `address` it fails; otherwise it
     * allocates `size` bytes starting the search at the last block and copies
     * `min(size, bytes from address to the end of its block's buffer)`
     * bytes from `address` into the new place. The copied extent runs to
     * the end of the block's capacity, past what was allocated, so when the
     * new place lies in that same block the source and destination of the
     * C `memcpy` can overlap (undefined in C) and the tail of the source
     * has just been zeroed by `aalloc`. The model copies the bytes as they
     * were before the allocation, which is what `memmove` of a snapshot
     * gives.
     */
    method Realloc(address: nat, size: nat, freshBase: nat) returns (r: Option<Ptr>)
      requires Valid()
      modifies Repr()
      modifies this
      ensures Valid()
      ensures r.None? <==> old(SourceExtent(address)).None?
      ensures r.Some? ==> var (j, len) := old(SourceExtent(address)).value; var p := r.value;
        p.block < |chain| && p.block >= |old(chain)| - 1 && p.offset + size <= chain[p.block].data.Length &&
        (forall i :: p.offset <= i < p.offset + Min(size, len) ==>
          chain[p.block].data[i] == old(chain[j].data[address - chain[j].base + i - p.offset])) &&
        (forall i :: p.offset + Min(size, len) <= i < p.offset + size ==> chain[p.block].data[i] == 0)
      ensures r.None? ==> chain == old(chain) && forall b :: b in chain ==> b.size == old(b.size)
    {
      var found := SourceExtent(address);
      if found.None? {
        return None;
      }
      var (j, len) := found.value;
      var src := chain[j].data;
      var from := address - chain[j].base;
      var copy := Min(size, len);
      var saved := src[from..from + copy];
      assert forall i :: 0 <= i < copy ==> saved[i] == old(chain[j].data[from + i]);
      var p := AllocCopy(|chain| - 1, size, saved, freshBase);
      r := Some(p);
    }

    /** An allocation of `size` bytes searched from block `start` whose first bytes are `saved` and the rest zero. */
    method AllocCopy(start: nat, size: nat, saved: seq<bv8>, freshBase: nat) returns (p: Ptr)
      requires Valid() && start < |chain| && |saved| <= size
      modifies Repr()
      modifies this
      ensures Valid()
      ensures start <= p.block < |chain| && p.offset + size <= chain[p.block].data.Length
      ensures forall i :: p.offset <= i < p.offset + |saved| ==> chain[p.block].data[i] == saved[i - p.offset]
      ensures forall i :: p.offset + |saved| <= i < p.offset + size ==> chain[p.block].data[i] == 0
    {
      p := AllocFrom(start, size, freshBase);
      Fill(chain[p.block].data, p.offset, saved);
    }

    /** `astrcopy`: an allocation of `len + 1` bytes holding the first `len` bytes of `src` and a NUL. */
    method StrCopy(src: seq<bv8>, len: nat, freshBase: nat) returns (p: Ptr)
      requires Valid() && len <= |src|
      modifies Repr()
      modifies this
      ensures Valid()
      ensures p.block < |chain| && p.offset + len + 1 <= chain[p.block].data.Length
      ensures chain[p.block].data[p.offset..p.offset + len + 1] == src[..len] + [0]
    {
      p := Alloc(len + 1, freshBase);
      Fill(chain[p.block].data, p.offset, src[..len] + [0]);
    }

    /** Writes `vals` into `d` from `at` on, leaving the other bytes as they were. */
    static method Fill(d: array<bv8>, at: nat, vals: seq<bv8>)
      requires at + |vals| <= d.Length
      modifies d
      ensures d[at..at + |vals|] == vals
      ensures forall i :: 0 <= i < |vals| ==> d[at + i] == vals[i]
      ensures forall i :: 0 <= i < d.Length && !(at <= i < at + |vals|) ==> d[i] == old(d[i])
    {
      forall i | 0 <= i < |vals| {
        d[at + i] := vals[i];
      }
    }
  }
}
