/**
 * The mark-bitmap heap of the adder virtual machine (`adder/vm/vm_heap.c`)
 * and of the grid machine (`gvm/gvm_heap.c`, an older copy of the same
 * allocator). One bit per heap value in an array of 64-bit mark words says
 * whether that value belongs to a live array. Allocation looks for a run of
 * clear bits, retrying once after a collection; a collection clears every
 * bit and marks again what the stack reaches.
 *
 * Both machines lay their memory out as one buffer of values: the stack
 * first, then the heap. Heap index `h` is memory index `stackSize + h`.
 */
module GcHeap {
  import opened Wrappers
  import opened ShValue
  import opened ShUtils

  /** The two copies of the allocator; they differ in the retry test and in how far a collection scans an array. */
  datatype Revision = AdderVm | GridVm

  const AllOnes: bv64 := 0xFFFF_FFFF_FFFF_FFFF

  // Mark words

  /** Bit `b` of a mark word. */
  predicate BitAt(w: bv64, b: bv8)
    requires b < 64
  {
    (w >> b) & 1 == 1
  }

  /** `1UL << b`. */
  function One(b: bv8): bv64
    requires b < 64
  {
    1 << b
  }

  /** `MK_CHUNK_MASK(n)`: the `n` low bits of a word set. */
  function ChunkMask(n: bv8): bv64
    requires n < 64
  {
    !(AllOnes << n)
  }

  /** The mask has exactly the bits below `n`. */
  lemma ChunkMaskBits(n: bv8, j: bv8)
    requires n < 64 && j < 64
    ensures BitAt(ChunkMask(n), j) <==> j < n
  {
  }

  /** Shifting left by `c` leaves every bit below `c` clear. */
  lemma ShiftedLowClear(x: bv64, c: bv8, j: bv8)
    requires c < 64 && j < c
    ensures !BitAt(x << c, j)
  {
  }

  /** A set bit `j` of `x << c` comes from bit `j - c` of `x`. */
  lemma ShiftedBitFrom(x: bv64, c: bv8, j: bv8)
    requires c <= j < 64 && BitAt(x << c, j)
    ensures BitAt(x, j - c)
  {
  }

  /** A set bit `j - c` of `x` lands on bit `j` of `x << c`. */
  lemma ShiftedBitTo(x: bv64, c: bv8, j: bv8)
    requires c <= j < 64 && BitAt(x, j - c)
    ensures BitAt(x << c, j)
  {
  }

  /** Inside the window, bit `j` of `chunk_mask << c` is set. */
  lemma ChunkBitInside(n: bv8, c: bv8, j: bv8)
    requires n < 64 && c <= j < 64 && j - c < n
    ensures BitAt(ChunkMask(n) << c, j)
  {
    ChunkMaskBits(n, j - c);
    ShiftedBitTo(ChunkMask(n), c, j);
  }

  /** Above the window, bit `j` of `chunk_mask << c` is clear. */
  lemma ChunkBitAbove(n: bv8, c: bv8, j: bv8)
    requires n < 64 && c <= j < 64 && j - c >= n
    ensures !BitAt(ChunkMask(n) << c, j)
  {
    ChunkMaskBits(n, j - c);
    if BitAt(ChunkMask(n) << c, j) {
      ShiftedBitFrom(ChunkMask(n), c, j);
    }
  }

  lemma BvBelow(j: bv8, c: bv8)
    requires j as int < c as int
    ensures j < c
  {
  }

  lemma BvInside(j: bv8, c: bv8, w: bv8)
    requires c as int <= j as int < c as int + w as int && j < 64
    ensures c <= j && j - c < w
  {
  }

  lemma BvAbove(j: bv8, c: bv8, w: bv8)
    requires c as int + w as int <= j as int && j < 64
    ensures c <= j && j - c >= w
  {
  }

  /** `chunk_mask << c` has exactly the bits from `c` to `c + n - 1` that fit in the word. */
  lemma ShiftedChunkBits(n: bv8, c: bv8, j: bv8)
    requires n < 64 && c < 64 && j < 64
    ensures BitAt(Window(n, c), j) <==> c as int <= j as int < c as int + n as int
  {
    if j as int < c as int {
      BvBelow(j, c);
      ShiftedLowClear(ChunkMask(n), c, j);
    } else if j as int < c as int + n as int {
      BvInside(j, c, n);
      ChunkBitInside(n, c, j);
    } else {
      BvAbove(j, c, n);
      ChunkBitAbove(n, c, j);
    }
  }

  /** `HEAP_TO_PAGE_INDEX`: the mark word of a heap index. */
  function PageOf(h: int): int {
    h / 64
  }

  /** `HEAP_TO_BIT_INDEX`: the bit of a heap index within its word. */
  function BitOf(h: int): (b: bv8)
    ensures b < 64
  {
    (h % 64) as bv8
  }

  /** `CALC_GC_MARK_U64_COUNT`: one word per 64 values, plus one. */
  function MarkWords(count: int): int {
    1 + count / 64
  }

  /** Whether heap index `h` is marked. */
  predicate Marked(m: seq<bv64>, h: int) {
    0 <= h && PageOf(h) < |m| && BitAt(m[PageOf(h)], BitOf(h))
  }

  /** The words after `put_mark(h)`: bit `h % 64` of word `h / 64` or-ed in. */
  function WithMark(m: seq<bv64>, h: int): (r: seq<bv64>)
    requires 0 <= h && PageOf(h) < |m|
    ensures |r| == |m|
  {
    m[PageOf(h) := m[PageOf(h)] | One(BitOf(h))]
  }

  lemma PutBit(w: bv64, b: bv8, c: bv8)
    requires b < 64 && c < 64
    ensures BitAt(w | One(b), c) <==> BitAt(w, c) || c == b
  {
  }

  lemma BitOfValue(h: int)
    ensures BitOf(h) as int == h % 64
  {
  }

  /** Two heap indices of one word have different bits. */
  lemma BitOfDistinct(h: int, k: int)
    requires PageOf(h) == PageOf(k) && h != k
    ensures BitOf(h) != BitOf(k)
  {
    BitOfValue(h);
    BitOfValue(k);
  }

  /** Within one word, or-ing in the bit of `h` sets the bit of `k` exactly when it was set or `k` is `h`. */
  lemma WordMark(w: bv64, h: int, k: int)
    requires PageOf(k) == PageOf(h)
    ensures BitAt(w | One(BitOf(h)), BitOf(k)) <==> BitAt(w, BitOf(k)) || k == h
  {
    if k != h {
      BitOfDistinct(h, k);
      PutBit(w, BitOf(h), BitOf(k));
    } else {
      PutBit(w, BitOf(h), BitOf(h));
    }
  }

  lemma WithMarkAt(m: seq<bv64>, h: int, k: int)
    requires 0 <= h && PageOf(h) < |m|
    ensures Marked(WithMark(m, h), k) <==> Marked(m, k) || k == h
  {
    var m' := WithMark(m, h);
    if 0 <= k && PageOf(k) == PageOf(h) {
      assert m'[PageOf(k)] == m[PageOf(h)] | One(BitOf(h));
      WordMark(m[PageOf(h)], h, k);
    } else if 0 <= k && PageOf(k) < |m| {
      assert m'[PageOf(k)] == m[PageOf(k)];
    }
  }

  /** `put_mark(h)` marks `h` and leaves every other index as it was. */
  lemma WithMarkMarksExactly(m: seq<bv64>, h: int)
    requires 0 <= h && PageOf(h) < |m|
    ensures forall k :: Marked(WithMark(m, h), k) <==> Marked(m, k) || k == h
  {
    forall k
      ensures Marked(WithMark(m, h), k) <==> Marked(m, k) || k == h
    {
      WithMarkAt(m, h, k);
    }
  }

  /** A cleared bitmap marks nothing. */
  lemma ZeroWordsMarkNothing(m: seq<bv64>, h: int)
    requires forall k :: 0 <= k < |m| ==> m[k] == 0
    ensures !Marked(m, h)
  {
  }

  // Chunk search

  /** A count below 64 as a `bv8` shift amount, counted up one at a time. */
  function Bv8(k: nat): (b: bv8)
    requires k < 64
    ensures b < 64 && b as int == k
  {
    if k == 0 then 0 else Bv8(k - 1) + 1
  }

  /** `chunk_mask << bit` with `chunk_mask = MK_CHUNK_MASK(n)`, on shift amounts. */
  function Window(n: bv8, bit: bv8): bv64
    requires n < 64 && bit < 64
  {
    ChunkMask(n) << bit
  }

  /** The same window with its sizes as integers. */
  function WindowMask(n: nat, bit: nat): bv64
    requires n < 64 && bit < 64
  {
    Window(Bv8(n), Bv8(bit))
  }

  /** A window bound `b` names its bit exactly when `lo <= b < lo + n`. */
  lemma RangeLink(b: bool, n: nat, lo: nat, j: bv8)
    requires n < 64 && lo < 64 && j < 64
    requires b <==> Bv8(lo) as int <= j as int < Bv8(lo) as int + Bv8(n) as int
    ensures b <==> lo <= j as int < lo + n
  {
  }

  lemma WindowMaskBit(n: nat, bit: nat, j: bv8)
    requires n < 64 && bit < 64 && j < 64
    ensures BitAt(WindowMask(n, bit), j) == BitAt(Window(Bv8(n), Bv8(bit)), j)
  {
  }

  /** Bit `j` of the window of `n` bits from `bit` is set exactly when `bit <= j < bit + n`. */
  lemma WindowBitsAt(n: nat, bit: nat, j: bv8)
    requires n < 64 && bit < 64 && j < 64
    ensures BitAt(WindowMask(n, bit), j) <==> bit <= j as int < bit + n
  {
    WindowMaskBit(n, bit, j);
    ShiftedChunkBits(Bv8(n), Bv8(bit), j);
    RangeLink(BitAt(Window(Bv8(n), Bv8(bit)), j), n, bit, j);
  }

  /** Heap index `h` has its bit in the window of `n` bits from `bit` exactly when `bit <= h % 64 < bit + n`. */
  lemma WindowBits(n: nat, bit: nat, h: int)
    requires n < 64 && bit < 64
    ensures BitAt(WindowMask(n, bit), BitOf(h)) <==> bit <= h % 64 < bit + n
  {
    BitOfValue(h);
    WindowBitsAt(n, bit, BitOf(h));
  }

  /**
   * The test `(page & (chunk_mask << bit)) == 0`: no mark meets the window of
   * `n` bits from `bit` up. The large-chunk search's unshifted test is the
   * window at bit 0.
   */
  predicate WindowFree(page: bv64, n: nat, bit: nat)
    requires n < 64 && bit < 64
  {
    page & WindowMask(n, bit) == 0
  }

  /** The window test at page `q`, bit `c`, with the positions as integers. */
  predicate FreeAt(m: seq<bv64>, n: nat, q: int, c: int)
    requires n < 64 && 0 <= q < |m| && 0 <= c < 64
  {
    WindowFree(m[q], n, c)
  }

  /** A word that does not meet a mask has none of the mask's bits. */
  lemma MeetClear(w: bv64, mask: bv64, b: bv8)
    requires b < 64 && w & mask == 0 && BitAt(mask, b)
    ensures !BitAt(w, b)
  {
  }

  /**
   * The window test passing at page `q`, bit `c` leaves unmarked every index
   * of page `q` whose bit the window mask holds.
   */
  lemma FreeAtUnmarked(m: seq<bv64>, n: nat, q: int, c: int, h: int)
    requires n < 64 && 0 <= q < |m| && 0 <= c < 64 && FreeAt(m, n, q, c)
    requires 0 <= h && PageOf(h) == q && BitAt(WindowMask(n, c), BitOf(h))
    ensures !Marked(m, h)
  {
    MeetClear(m[q], WindowMask(n, c), BitOf(h));
  }

  /** A free window of `n` bits at page `q`, bit `c`, that fits in its word leaves the `n` indices from `64 * q + c` unmarked. */
  lemma WindowUnmarked(m: seq<bv64>, n: nat, q: int, c: int, h: int)
    requires n < 64 && 0 <= q < |m| && 0 <= c < 64 && c + n <= 64 && FreeAt(m, n, q, c)
    requires 64 * q + c <= h < 64 * q + c + n
    ensures !Marked(m, h)
  {
    assert PageOf(h) == q && c <= h % 64 < c + n;
    WindowBits(n, c, h);
    FreeAtUnmarked(m, n, q, c, h);
  }

  /** Page `q`, bit `c` comes at or after page `p`, bit `b` in the scan, and is a bit the scan tries. */
  predicate Scanned(m: seq<bv64>, n: nat, p: int, b: int, q: int, c: int) {
    0 <= p <= q < |m| && 0 <= c < 64 - n && (q > p || c >= b)
  }

  /** Position `(q, c)` comes before `(p, b)`. */
  predicate Before(q: int, c: int, p: int, b: int) {
    q < p || (q == p && c < b)
  }

  /** The nested loops of `heap_find_small_chunk`, resumed at page `p`, bit `b`. */
  function SmallFrom(m: seq<bv64>, n: nat, p: nat, b: nat): int
    requires n < 64 && b <= 64 - n
    decreases |m| - p, 64 - b
  {
    if p >= |m| then -1
    else if b >= 64 - n then SmallFrom(m, n, p + 1, 0)
    else if FreeAt(m, n, p, b) then 64 * p + b
    else SmallFrom(m, n, p, b + 1)
  }

  /** `heap_find_small_chunk(n)`: the whole scan. */
  function SmallChunk(m: seq<bv64>, n: nat): int
    requires n < 64
  {
    SmallFrom(m, n, 0, 0)
  }

  /** The scan answers -1 exactly when no window it tries is free. */
  lemma {:induction false} SmallFromNone(m: seq<bv64>, n: nat, p: nat, b: nat)
    requires n < 64 && b <= 64 - n
    ensures SmallFrom(m, n, p, b) == -1 <==> forall q, c :: Scanned(m, n, p, b, q, c) ==> !FreeAt(m, n, q, c)
    decreases |m| - p, 64 - b
  {
    if p >= |m| {
    } else if b >= 64 - n {
      SmallFromNone(m, n, p + 1, 0);
      assert forall q, c :: Scanned(m, n, p, b, q, c) <==> Scanned(m, n, p + 1, 0, q, c);
    } else if FreeAt(m, n, p, b) {
      assert Scanned(m, n, p, b, p, b);
    } else {
      SmallFromNone(m, n, p, b + 1);
      assert forall q, c :: Scanned(m, n, p, b, q, c) <==> (q == p && c == b) || Scanned(m, n, p, b + 1, q, c);
    }
  }

  /**
   * A found window is the first free one in page-then-bit order among the
   * bits the scan tries (those below `64 - n`).
   */
  lemma {:induction false} SmallFromOrder(m: seq<bv64>, n: nat, p: nat, b: nat)
    requires n < 64 && b <= 64 - n
    ensures var r := SmallFrom(m, n, p, b);
      r != -1 ==>
        0 <= r && Scanned(m, n, p, b, r / 64, r % 64) && FreeAt(m, n, r / 64, r % 64) &&
        forall q, c :: Scanned(m, n, p, b, q, c) && Before(q, c, r / 64, r % 64) ==> !FreeAt(m, n, q, c)
    decreases |m| - p, 64 - b
  {
    if p >= |m| {
    } else if b >= 64 - n {
      SmallFromOrder(m, n, p + 1, 0);
      assert forall q, c :: Scanned(m, n, p, b, q, c) <==> Scanned(m, n, p + 1, 0, q, c);
    } else if FreeAt(m, n, p, b) {
    } else {
      SmallFromOrder(m, n, p, b + 1);
      assert forall q, c :: Scanned(m, n, p, b, q, c) <==> (q == p && c == b) || Scanned(m, n, p, b + 1, q, c);
    }
  }

  /**
   * The found window is the first free one in scan order, and the `n`
   * heap indices from it on are unmarked.
   */
  lemma SmallFromFirst(m: seq<bv64>, n: nat, p: nat, b: nat)
    requires n < 64 && b <= 64 - n
    ensures var r := SmallFrom(m, n, p, b);
      r != -1 ==>
        0 <= r && Scanned(m, n, p, b, r / 64, r % 64) && FreeAt(m, n, r / 64, r % 64) &&
        forall q, c :: Scanned(m, n, p, b, q, c) && Before(q, c, r / 64, r % 64) ==> !FreeAt(m, n, q, c)
    ensures var r := SmallFrom(m, n, p, b);
      r != -1 ==> forall h :: r <= h < r + n ==> !Marked(m, h)
  {
    SmallFromOrder(m, n, p, b);
    var r := SmallFrom(m, n, p, b);
    if r != -1 {
      forall h | r <= h < r + n
        ensures !Marked(m, h)
      {
        WindowUnmarked(m, n, r / 64, r % 64, h);
      }
    }
  }

  /** The number of zero words from `p` on; the word after them, if any, is not zero. */
  function EmptyRun(m: seq<bv64>, p: nat): (r: nat)
    ensures p <= |m| ==> p + r <= |m|
    ensures p + r < |m| ==> m[p + r] != 0
    decreases |m| - p
  {
    if p >= |m| || m[p] != 0 then 0 else 1 + EmptyRun(m, p + 1)
  }

  /** Every word of the run is zero. */
  lemma {:induction false} EmptyRunZero(m: seq<bv64>, p: nat, k: int)
    requires p <= k < p + EmptyRun(m, p)
    ensures k < |m| && m[k] == 0
    decreases |m| - p
  {
    if k > p {
      EmptyRunZero(m, p + 1, k);
    }
  }

  function Max(a: int, b: int): int {
    if a > b then a else b
  }


  /**
   * The loop of `heap_find_large_chunk` from page `p`: a run of empty words
   * longer than the `req` whole pages wanted is taken; a run exactly as long
   * is taken when the `trailing` low bits are clear in word
   * `p + free + probe`. The source reads `page_index + num_free + 1` (probe
   * 1), which can lie past the mark words; the allocation then marks word
   * `page_index + num_free` (probe 0).
   */
  function LargeFrom(m: seq<bv64>, req: nat, trailing: nat, p: nat, maxCheck: int, probe: nat): Result<int, Abort>
    requires trailing < 64
    decreases maxCheck - p
  {
    if p >= maxCheck then Ok(-1)
    else
      var free := if p >= |m| then -1 else EmptyRun(m, p);
      if free > req then Ok(p * 64)
      else if free == req && p + free + probe >= |m| then Err(OutOfBounds)
      else if free == req && WindowFree(m[p + free + probe], trailing, 0) then Ok(p * 64)
      else if free < 0 then Ok(-1)
      else LargeFrom(m, req, trailing, p + Max(free, 1), maxCheck, probe)
  }

  /** `heap_find_large_chunk(n)`: whole pages `n / 64`, trailing bits `n % 64`. */
  function LargeChunk(m: seq<bv64>, heapSize: int, n: int, probe: nat): Result<int, Abort>
    requires n >= 0
  {
    if n > heapSize then Ok(-1)
    else LargeFrom(m, n / 64, n % 64, 0, |m| - n / 64, probe)
  }

  lemma PageStart(p: int)
    ensures (p * 64) % 64 == 0 && (p * 64) / 64 == p
  {
  }

  /**
   * Page `q` starts a large chunk: it and the `req - 1` pages after it are
   * empty, and either one more page is empty or the trailing bits are clear
   * in the word probed.
   */
  predicate LargeFits(m: seq<bv64>, req: nat, trailing: nat, probe: nat, q: nat)
    requires trailing < 64
  {
    EmptyRun(m, q) >= req &&
    (EmptyRun(m, q) > req || (q + req + probe < |m| && WindowFree(m[q + req + probe], trailing, 0)))
  }

  /** A large chunk found starts a page between `p` and `maxCheck` that fits the chunk. */
  lemma {:induction false} LargeFromMeaning(m: seq<bv64>, req: nat, trailing: nat, p: nat, maxCheck: int, probe: nat)
    requires trailing < 64 && maxCheck <= |m|
    ensures var r := LargeFrom(m, req, trailing, p, maxCheck, probe);
      r.Ok? && r.value >= 0 ==>
        r.value % 64 == 0 && p <= r.value / 64 < maxCheck && LargeFits(m, req, trailing, probe, r.value / 64)
    ensures var r := LargeFrom(m, req, trailing, p, maxCheck, probe);
      r.Ok? ==> r.value >= -1
    decreases maxCheck - p
  {
    if p < maxCheck {
      var free := EmptyRun(m, p);
      var r := LargeFrom(m, req, trailing, p, maxCheck, probe);
      if free > req || (free == req && p + free + probe < |m| && WindowFree(m[p + free + probe], trailing, 0)) {
        assert r == Ok(p * 64);
        PageStart(p);
        assert LargeFits(m, req, trailing, probe, p);
      } else if free == req && p + free + probe >= |m| {
      } else {
        LargeFromMeaning(m, req, trailing, p + Max(free, 1), maxCheck, probe);
        assert r == LargeFrom(m, req, trailing, p + Max(free, 1), maxCheck, probe);
      }
    }
  }

  /** Probing the word right after the run never reads past the mark words: the search cannot fail. */
  lemma {:induction false} LargeFromInBounds(m: seq<bv64>, req: nat, trailing: nat, p: nat, maxCheck: int)
    requires trailing < 64 && maxCheck <= |m| - req
    ensures LargeFrom(m, req, trailing, p, maxCheck, 0).Ok?
    decreases maxCheck - p
  {
    if p < maxCheck {
      var free := EmptyRun(m, p);
      if !(free > req || (free == req && WindowFree(m[p + free], trailing, 0))) {
        LargeFromInBounds(m, req, trailing, p + Max(free, 1), maxCheck);
      }
    }
  }

  /** `heap_find_free_chunk`: small chunks below one page, large ones from one page on. */
  function FreeChunk(m: seq<bv64>, heapSize: int, n: int, probe: nat): Result<int, Abort>
    requires n >= 0
  {
    if n < 64 then Ok(SmallChunk(m, n)) else LargeChunk(m, heapSize, n, probe)
  }

  /** One step of the large search from a page inside the bitmap. */
  lemma LargeFromStep(m: seq<bv64>, req: nat, trailing: nat, p: nat, maxCheck: int, probe: nat)
    requires trailing < 64 && p < maxCheck && p < |m|
    ensures var free := EmptyRun(m, p);
      LargeFrom(m, req, trailing, p, maxCheck, probe) ==
        if free > req then Ok(p * 64)
        else if free == req && p + free + probe >= |m| then Err(OutOfBounds)
        else if free == req && WindowFree(m[p + free + probe], trailing, 0) then Ok(p * 64)
        else LargeFrom(m, req, trailing, p + Max(free, 1), maxCheck, probe)
  {
  }

  /** The only way a search fails is by reading past the bitmap. */
  lemma {:induction false} LargeFromFailsOutOfBounds(m: seq<bv64>, req: nat, trailing: nat, p: nat, maxCheck: int, probe: nat)
    requires trailing < 64
    ensures LargeFrom(m, req, trailing, p, maxCheck, probe).Err? ==> LargeFrom(m, req, trailing, p, maxCheck, probe).error == OutOfBounds
    decreases maxCheck - p
  {
    if p < maxCheck {
      var free := if p >= |m| then -1 else EmptyRun(m, p);
      if free >= 0 {
        LargeFromFailsOutOfBounds(m, req, trailing, p + Max(free, 1), maxCheck, probe);
      }
    }
  }

  lemma FreeChunkFailsOutOfBounds(m: seq<bv64>, heapSize: int, n: int, probe: nat)
    requires n >= 0
    ensures FreeChunk(m, heapSize, n, probe).Err? ==> FreeChunk(m, heapSize, n, probe).error == OutOfBounds
  {
    if n >= 64 && n <= heapSize {
      LargeFromFailsOutOfBounds(m, n / 64, n % 64, 0, |m| - n / 64, probe);
    }
  }

  // Allocation

  /** A fresh bitmap or value buffer. */
  function Zeros(n: nat): (z: seq<bv64>)
    ensures |z| == n && forall k :: 0 <= k < n ==> z[k] == 0
  {
    seq(n, _ => 0)
  }

  /**
   * The whole-page loop of `heap_array_alloc`: each page lo `lo` below
   * `hi` must be zero (the source asserts it) and becomes all ones.
   */
  function FillPages(m: seq<bv64>, lo: int, hi: int): (r: Result<seq<bv64>, Abort>)
    ensures r.Ok? ==> |r.value| == |m|
    decreases hi - lo
  {
    if lo >= hi then Ok(m)
    else if !(0 <= lo < |m|) then Err(OutOfBounds)
    else if m[lo] != 0 then Err(AssertFailed("page already in use"))
    else FillPages(m[lo := AllOnes], lo + 1, hi)
  }

  /** `(w & mask) != 0`: some bit of the mask is already marked. */
  predicate Overlaps(w: bv64, mask: bv64) {
    w & mask != 0
  }

  /** `w | mask`. */
  function SetBits(w: bv64, mask: bv64): bv64 {
    w | mask
  }

  /** The trailing mark of `heap_array_alloc`: the mask must not meet a mark (the source asserts it) and is then set. */
  function MarkTrail(m: seq<bv64>, page: int, mask: bv64): (r: Result<seq<bv64>, Abort>)
    ensures r.Ok? ==> |r.value| == |m|
  {
    if !(0 <= page < |m|) then Err(OutOfBounds)
    else if Overlaps(m[page], mask) then Err(AssertFailed("trailing bits already in use"))
    else Ok(m[page := SetBits(m[page], mask)])
  }

  /** The mask the allocation sets in the trailing page of an `n`-value chunk at `addr`. */
  function TrailMask(addr: int, n: int): bv64
    requires n >= 0
  {
    WindowMask(n % 64, (addr + 64 * (n / 64)) % 64)
  }

  /** The marks after allocating `n` values at `addr`, with whole pages filled from `PageOf(addr)` below `fillTo`. */
  function Placed(m: seq<bv64>, addr: int, n: int, fillTo: int): (r: Result<seq<bv64>, Abort>)
    requires n >= 0
    ensures r.Ok? ==> |r.value| == |m|
  {
    match FillPages(m, PageOf(addr), fillTo)
    case Err(e) => Err(e)
    case Ok(m1) => MarkTrail(m1, PageOf(addr) + n / 64, TrailMask(addr, n))
  }

  // A `Reading` of the allocator is as written or with its three defects repaired.

  /**
   * The end of the whole-page loop. The source stops at `num_pages`, the
   * number of whole pages, as if every chunk started at page 0; the
   * corrected loop stops `num_pages` after the chunk's first page.
   */
  function FillEnd(reading: Reading, addr: int, n: int): int {
    if reading == AsWritten then n / 64 else PageOf(addr) + n / 64
  }

  /** The word the large-chunk search probes, relative to the end of the run. */
  function Probe(reading: Reading): nat {
    if reading == AsWritten then 1 else 0
  }

  /** A filled range: pages `[lo, hi)` are all ones, the others are as before. */
  lemma {:induction false} FillPagesMeaning(m: seq<bv64>, lo: int, hi: int, k: int)
    requires FillPages(m, lo, hi).Ok? && 0 <= k < |m|
    ensures lo <= k < hi ==> m[k] == 0 && FillPages(m, lo, hi).value[k] == AllOnes
    ensures !(lo <= k < hi) ==> FillPages(m, lo, hi).value[k] == m[k]
    decreases hi - lo
  {
    if lo < hi {
      FillPagesMeaning(m[lo := AllOnes], lo + 1, hi, k);
    }
  }

  /** Filling zero pages cannot fail on an assert. */
  lemma {:induction false} FillPagesOfEmpty(m: seq<bv64>, lo: int, hi: int)
    requires 0 <= lo && hi <= |m| && forall k :: lo <= k < hi ==> m[k] == 0
    ensures FillPages(m, lo, hi).Ok?
    decreases hi - lo
  {
    if lo < hi {
      FillPagesOfEmpty(m[lo := AllOnes], lo + 1, hi);
    }
  }

  /** Position `64 * q + c` has page `q` and bit `c`, as the allocation computes them. */
  lemma SlotBits(q: int, c: int)
    requires 0 <= q && 0 <= c < 64
    ensures PageOf(64 * q + c) == q && BitOf(64 * q + c) == c as bv8
  {
    BitOfValue(64 * q + c);
  }

  /** Below one page the trailing mask is the window mask at the chunk's bit. */
  lemma SmallTrailMask(addr: int, n: nat)
    requires n < 64
    ensures TrailMask(addr, n) == WindowMask(n, addr % 64)
  {
    assert n / 64 == 0 && n % 64 == n;
  }

  /** A small chunk the search finds passes the trailing assert: its window is the one the search tested. */
  lemma SmallPlacementSucceeds(m: seq<bv64>, n: nat)
    requires n < 64 && SmallChunk(m, n) >= 0
    ensures Placed(m, SmallChunk(m, n), n, FillEnd(Corrected, SmallChunk(m, n), n)).Ok?
  {
    var addr := SmallChunk(m, n);
    SmallFromOrder(m, n, 0, 0);
    SmallTrailMask(addr, n);
    assert FillPages(m, PageOf(addr), FillEnd(Corrected, addr, n)) == Ok(m);
    assert FreeAt(m, n, addr / 64, addr % 64);
  }

  /** The run of a large chunk: its whole pages are zero. */
  lemma LargeRunEmpty(m: seq<bv64>, req: nat, t: nat, addr: int)
    requires t < 64 && LargeFrom(m, req, t, 0, |m| - req, 0) == Ok(addr) && addr >= 0
    ensures addr % 64 == 0 && addr / 64 + req < |m|
    ensures forall k :: addr / 64 <= k < addr / 64 + req ==> m[k] == 0
    ensures m[addr / 64 + req] == 0 || WindowFree(m[addr / 64 + req], t, 0)
  {
    LargeFromMeaning(m, req, t, 0, |m| - req, 0);
    var page := addr / 64;
    assert LargeFits(m, req, t, 0, page);
    forall k | page <= k < page + req
      ensures m[k] == 0
    {
      EmptyRunZero(m, page, k);
    }
    if EmptyRun(m, page) > req {
      EmptyRunZero(m, page, page + req);
    }
  }

  /** A large chunk the corrected search finds passes both asserts: its pages are empty and its trailing bits clear. */
  lemma LargePlacementSucceeds(m: seq<bv64>, heapSize: int, n: int)
    requires n >= 64 && LargeChunk(m, heapSize, n, 0).Ok? && LargeChunk(m, heapSize, n, 0).value >= 0
    ensures Placed(m, LargeChunk(m, heapSize, n, 0).value, n, FillEnd(Corrected, LargeChunk(m, heapSize, n, 0).value, n)).Ok?
  {
    var addr := LargeChunk(m, heapSize, n, 0).value;
    var req, t := n / 64, n % 64;
    LargeRunEmpty(m, req, t, addr);
    var page := addr / 64;
    assert PageOf(addr) == page;
    FillPagesOfEmpty(m, page, page + req);
    FillPagesMeaning(m, page, page + req, page + req);
    var m1 := FillPages(m, page, page + req).value;
    assert m1[page + req] == m[page + req];
    assert addr == 64 * page;
    TrailMaskAligned(page, n);
    TrailFree(m[page + req], t);
    assert MarkTrail(m1, page + req, TrailMask(addr, n)).Ok?;
    assert FillEnd(Corrected, addr, n) == page + req;
  }

  /** Or-ing a mask into a word sets exactly the mask's bits besides the word's. */
  lemma OrBit(w: bv64, mask: bv64, b: bv8)
    requires b < 64
    ensures BitAt(w | mask, b) <==> BitAt(w, b) || BitAt(mask, b)
  {
  }

  lemma OrWordAt(w: bv64, mask: bv64, h: int)
    ensures BitAt(w | mask, BitOf(h)) <==> BitAt(w, BitOf(h)) || BitAt(mask, BitOf(h))
  {
    OrBit(w, mask, BitOf(h));
  }

  lemma AllOnesBit(b: bv8)
    requires b < 64
    ensures BitAt(AllOnes, b)
  {
  }

  /** Or-ing a mask into word `page` marks the indices of that page whose bits the mask holds. */
  lemma MarkedAfterOr(m: seq<bv64>, page: int, mask: bv64, h: int)
    requires 0 <= page < |m|
    ensures Marked(m[page := m[page] | mask], h) <==>
      Marked(m, h) || (0 <= h && PageOf(h) == page && BitAt(mask, BitOf(h)))
  {
    var m' := m[page := m[page] | mask];
    if 0 <= h && PageOf(h) == page {
      assert m'[PageOf(h)] == m[page] | mask;
      OrWordAt(m[page], mask, h);
    } else if 0 <= h && PageOf(h) < |m| {
      assert m'[PageOf(h)] == m[PageOf(h)];
    }
  }

  /** After the whole-page loop, the indices of the filled pages are marked and the others are as before. */
  lemma MarkedAfterFill(m: seq<bv64>, lo: int, hi: int, h: int)
    requires FillPages(m, lo, hi).Ok?
    ensures Marked(FillPages(m, lo, hi).value, h) <==>
      Marked(m, h) || (0 <= h && PageOf(h) < |m| && lo <= PageOf(h) < hi)
  {
    if 0 <= h && PageOf(h) < |m| {
      FillPagesMeaning(m, lo, hi, PageOf(h));
      if lo <= PageOf(h) < hi {
        AllOnesBit(BitOf(h));
      }
    }
  }

  /**
   * The marks after an allocation: what was marked, every index of the
   * filled pages, and in the trailing page the bits of the trailing mask.
   */
  lemma PlacedMarks(m: seq<bv64>, addr: int, n: int, fillTo: int, h: int)
    requires n >= 0 && Placed(m, addr, n, fillTo).Ok?
    ensures Marked(Placed(m, addr, n, fillTo).value, h) <==>
      Marked(m, h) ||
      (0 <= h && PageOf(h) < |m| &&
        (PageOf(addr) <= PageOf(h) < fillTo ||
         (PageOf(h) == PageOf(addr) + n / 64 && BitAt(TrailMask(addr, n), BitOf(h)))))
  {
    var m1 := FillPages(m, PageOf(addr), fillTo).value;
    var page, mask := PageOf(addr) + n / 64, TrailMask(addr, n);
    assert Placed(m, addr, n, fillTo).value == m1[page := m1[page] | mask];
    MarkedAfterFill(m, PageOf(addr), fillTo, h);
    MarkedAfterOr(m1, page, mask, h);
  }

  /** A chunk starting on a page boundary has its trailing window at bit 0. */
  lemma TrailMaskAligned(page: nat, n: nat)
    ensures TrailMask(64 * page, n) == WindowMask(n % 64, 0)
  {
    assert 64 * page + 64 * (n / 64) == 64 * (page + n / 64);
    assert (64 * page + 64 * (n / 64)) % 64 == 0;
  }

  /** An empty trailing word, or one whose bottom `t` bits are clear, does not meet the trailing mask. */
  lemma TrailFree(w: bv64, t: nat)
    requires t < 64 && (w == 0 || WindowFree(w, t, 0))
    ensures !Overlaps(w, WindowMask(t, 0))
  {
    if w == 0 {
      ZeroMeetsNothing(WindowMask(t, 0));
    }
  }

  lemma ZeroMeetsNothing(mask: bv64)
    ensures !Overlaps(0, mask)
  {
  }

  /**
   * With the corrected reading every chunk the search finds passes both
   * asserts of `heap_array_alloc`.
   */
  lemma CorrectedPlacementSucceeds(m: seq<bv64>, heapSize: int, n: int)
    requires n >= 0 && FreeChunk(m, heapSize, n, 0).Ok? && FreeChunk(m, heapSize, n, 0).value >= 0
    ensures Placed(m, FreeChunk(m, heapSize, n, 0).value, n, FillEnd(Corrected, FreeChunk(m, heapSize, n, 0).value, n)).Ok?
    ensures var a := FreeChunk(m, heapSize, n, 0).value;
      forall h :: Marked(Placed(m, a, n, FillEnd(Corrected, a, n)).value, h) <==> Marked(m, h) || a <= h < a + n
  {
    if n < 64 {
      SmallPlacementSucceeds(m, n);
    } else {
      LargePlacementSucceeds(m, heapSize, n);
    }
    var a := FreeChunk(m, heapSize, n, 0).value;
    forall h
      ensures Marked(Placed(m, a, n, FillEnd(Corrected, a, n)).value, h) <==> Marked(m, h) || a <= h < a + n
    {
      if n < 64 {
        SmallPlacedMarks(m, n, h);
      } else {
        LargePlacedMarks(m, heapSize, n, h);
      }
    }
  }

  /** A small chunk marks exactly its `n` indices besides what was marked. */
  lemma SmallPlacedMarks(m: seq<bv64>, n: nat, h: int)
    requires n < 64 && SmallChunk(m, n) >= 0
    ensures var a := SmallChunk(m, n);
      Placed(m, a, n, FillEnd(Corrected, a, n)).Ok? &&
      (Marked(Placed(m, a, n, FillEnd(Corrected, a, n)).value, h) <==> Marked(m, h) || a <= h < a + n)
  {
    var a := SmallChunk(m, n);
    SmallFromOrder(m, n, 0, 0);
    assert a / 64 < |m| && a % 64 + n < 64;
    assert n / 64 == 0 && FillEnd(Corrected, a, n) == PageOf(a);
    SmallPlacementSucceeds(m, n);
    SmallTrailMask(a, n);
    PlacedMarks(m, a, n, PageOf(a), h);
    WindowBits(n, a % 64, h);
    SmallSpan(a, n, h);
  }

  /** Within one word, the indices from bit `a % 64` on for `n` bits are those from `a` to `a + n - 1`. */
  lemma SmallSpan(a: int, n: nat, h: int)
    requires 0 <= a && a % 64 + n <= 64
    ensures (0 <= h && PageOf(h) == PageOf(a) && a % 64 <= h % 64 < a % 64 + n) <==> a <= h < a + n
  {
  }

  /** A large chunk marks exactly its `n` indices besides what was marked. */
  lemma LargePlacedMarks(m: seq<bv64>, heapSize: int, n: int, h: int)
    requires n >= 64 && LargeChunk(m, heapSize, n, 0).Ok? && LargeChunk(m, heapSize, n, 0).value >= 0
    ensures var a := LargeChunk(m, heapSize, n, 0).value;
      Placed(m, a, n, FillEnd(Corrected, a, n)).Ok? &&
      (Marked(Placed(m, a, n, FillEnd(Corrected, a, n)).value, h) <==> Marked(m, h) || a <= h < a + n)
  {
    var a := LargeChunk(m, heapSize, n, 0).value;
    LargePlacementSucceeds(m, heapSize, n);
    LargeRunEmpty(m, n / 64, n % 64, a);
    var page := a / 64;
    assert a == 64 * page && PageOf(a) == page;
    TrailMaskAligned(page, n);
    assert FillEnd(Corrected, a, n) == page + n / 64;
    PlacedMarks(m, a, n, page + n / 64, h);
    WindowBits(n % 64, 0, h);
  }

  // Collection

  /** `MEM_MK_PROGR_ADDR(stack.size)`: the address of heap index 0. */
  function HeapBase(stackSize: nat): Addr {
    MkProgrAddr((stackSize % 0x1_0000_0000) as bv32)
  }

  /** The heap span of an array reference that points into the heap and is not empty. */
  function Span(a: ArrayRef, heapBase: Addr): (t: Option<(int, int)>)
    ensures t.Some? ==> t.value.0 >= 0
  {
    if a.address < heapBase || a.length == 0 then None
    else Some(((a.address - heapBase) as int, a.length as int))
  }

  /**
   * What `heap_gc_mark_used` follows in a value: an array that points into
   * the heap and is not empty, as its heap start and length.
   */
  function Target(v: Val, heapBase: Addr): (t: Option<(int, int)>)
    ensures t.Some? ==> t.value.0 >= 0
  {
    if GetType(v) != TypeOrdinal(VArray) then None
    else Span(ValIntoArray(v), heapBase)
  }

  /**
   * Which values of a marked array the collection scans next. The adder
   * machine scans `length - 1` values from the array's second value, the
   * grid machine `length` values from its second value; the whole array is
   * its values from the first.
   */
  datatype ScanRule = AdderScan | GridScan | WholeArray

  function ScanStart(rule: ScanRule, start: int): int {
    if rule == WholeArray then start else start + 1
  }

  function ScanCount(rule: ScanRule, length: int): int {
    if rule == AdderScan then length - 1 else length
  }

  function Rule(revision: Revision, reading: Reading): ScanRule {
    if reading == Corrected then WholeArray
    else if revision == AdderVm then AdderScan
    else GridScan
  }

  /** The inner loop: `put_mark` on `len` indices from `start`; an index whose word is past the bitmap is an out-of-bounds write. */
  function MarkSpan(m: seq<bv64>, start: int, len: int): (r: Result<seq<bv64>, Abort>)
    ensures r.Ok? ==> |r.value| == |m|
    ensures r.Err? ==> r.error == OutOfBounds
    decreases len
  {
    if len <= 0 then Ok(m)
    else if start < 0 || PageOf(start) >= |m| then Err(OutOfBounds)
    else MarkSpan(WithMark(m, start), start + 1, len - 1)
  }

  /** A marked span: the indices from `start` are marked besides what was, and the span fits exactly when its last index has a word. */
  lemma {:induction false} MarkSpanMeaning(m: seq<bv64>, start: int, len: int, h: int)
    ensures MarkSpan(m, start, len).Ok? <==> len <= 0 || (start >= 0 && PageOf(start + len - 1) < |m|)
    ensures MarkSpan(m, start, len).Ok? ==>
      (Marked(MarkSpan(m, start, len).value, h) <==> Marked(m, h) || start <= h < start + len)
    decreases len
  {
    if len > 0 && start >= 0 && PageOf(start) < |m| {
      WithMarkAt(m, start, h);
      MarkSpanMeaning(WithMark(m, start), start + 1, len - 1, h);
    }
  }

  /**
   * What a collection reads: for each value of the memory (stack, then
   * heap) the array it points to, if any; the stack size; and the scan rule.
   */
  datatype Gc = Gc(targets: seq<Option<(int, int)>>, stackSize: nat, rule: ScanRule)

  /** The targets of a memory's values. */
  function Targets(mem: seq<Val>, heapBase: Addr): (t: seq<Option<(int, int)>>)
    ensures |t| == |mem|
  {
    seq(|mem|, k requires 0 <= k < |mem| => Target(mem[k], heapBase))
  }

  /**
   * `heap_gc_mark_used` on the `count` values at memory index `lo`, from
   * value `i` on, with `d` more levels of recursion available on the host
   * stack.
   */
  function MarkItems(g: Gc, m: seq<bv64>, lo: int, i: int, count: int, d: nat): (r: Result<seq<bv64>, Abort>)
    ensures r.Ok? ==> |r.value| == |m|
    ensures r.Err? ==> r.error == OutOfBounds || r.error == StackExhausted
    decreases d, count - i, 1
  {
    if i >= count then Ok(m)
    else
      match MarkItem(g, m, lo + i, d)
      case Err(e) => Err(e)
      case Ok(m1) => MarkItems(g, m1, lo, i + 1, count, d)
  }

  /**
   * One value of that loop, at memory index `at`: reading past the memory is
   * out of bounds; an array into the heap has its values marked and is then
   * scanned one level deeper, which needs a level of host stack.
   */
  function MarkItem(g: Gc, m: seq<bv64>, at: int, d: nat): (r: Result<seq<bv64>, Abort>)
    ensures r.Ok? ==> |r.value| == |m|
    ensures r.Err? ==> r.error == OutOfBounds || r.error == StackExhausted
    decreases d, 0, 0
  {
    if !(0 <= at < |g.targets|) then Err(OutOfBounds)
    else match g.targets[at]
      case None => Ok(m)
      case Some(t) =>
        match MarkSpan(m, t.0, t.1)
        case Err(e) => Err(e)
        case Ok(m1) =>
          if d == 0 then Err(StackExhausted)
          else MarkItems(g, m1, g.stackSize + ScanStart(g.rule, t.0), 0, ScanCount(g.rule, t.1), d - 1)
  }

  /**
   * Heap index `h` lies in an array that one of the values `i` to `count`
   * at `lo` points to, directly or through the values the collection scans
   * in the arrays it reaches, within `d` levels.
   */
  predicate Reaches(g: Gc, lo: int, i: int, count: int, d: nat, h: int)
    decreases d, count - i, 1
  {
    i < count && (ItemReaches(g, lo + i, d, h) || Reaches(g, lo, i + 1, count, d, h))
  }

  /** The value at memory index `at` reaches heap index `h` within `d` levels. */
  predicate ItemReaches(g: Gc, at: int, d: nat, h: int)
    decreases d, 0, 0
  {
    0 <= at < |g.targets| && g.targets[at].Some? &&
    var t := g.targets[at].value;
    (t.0 <= h < t.0 + t.1 ||
     (d > 0 && Reaches(g, g.stackSize + ScanStart(g.rule, t.0), 0, ScanCount(g.rule, t.1), d - 1, h)))
  }

  /** Any scanned value that reaches `h` makes the scan reach it. */
  lemma {:induction false} ReachesViaItem(g: Gc, lo: int, i: int, count: int, d: nat, k: int, h: int)
    requires i <= k < count && ItemReaches(g, lo + k, d, h)
    ensures Reaches(g, lo, i, count, d, h)
    decreases k - i
  {
    if k > i {
      ReachesViaItem(g, lo, i + 1, count, d, k, h);
    }
  }

  /**
   * Scanning whole arrays, a value stored anywhere in a reached array is
   * itself followed: what it reaches, the array reaches, one level deeper.
   */
  lemma WholeArrayScansEveryValue(g: Gc, at: int, d: nat, e: int, h: int)
    requires g.rule == WholeArray && 0 <= at < |g.targets| && g.targets[at].Some?
    requires var t := g.targets[at].value; t.0 <= e < t.0 + t.1
    requires d > 0 && ItemReaches(g, g.stackSize + e, d - 1, h)
    ensures ItemReaches(g, at, d, h)
  {
    var t := g.targets[at].value;
    var lo := g.stackSize + t.0;
    assert lo + (e - t.0) == g.stackSize + e;
    ReachesViaItem(g, lo, 0, t.1, d - 1, e - t.0, h);
    assert Reaches(g, g.stackSize + ScanStart(g.rule, t.0), 0, ScanCount(g.rule, t.1), d - 1, h);
  }

  /** A marking that completes marks exactly what was marked and what the scanned values reach. */
  lemma {:induction false} MarkItemsMarksReached(g: Gc, m: seq<bv64>, lo: int, i: int, count: int, d: nat, h: int)
    requires MarkItems(g, m, lo, i, count, d).Ok?
    ensures Marked(MarkItems(g, m, lo, i, count, d).value, h) <==> Marked(m, h) || Reaches(g, lo, i, count, d, h)
    decreases d, count - i, 1
  {
    if i < count {
      MarkItemMarksReached(g, m, lo + i, d, h);
      MarkItemsMarksReached(g, MarkItem(g, m, lo + i, d).value, lo, i + 1, count, d, h);
    }
  }

  /** The same for one value. */
  lemma {:induction false} MarkItemMarksReached(g: Gc, m: seq<bv64>, at: int, d: nat, h: int)
    requires MarkItem(g, m, at, d).Ok?
    ensures Marked(MarkItem(g, m, at, d).value, h) <==> Marked(m, h) || ItemReaches(g, at, d, h)
    decreases d, 0, 0
  {
    var target := g.targets[at];
    if target.Some? {
      var t := target.value;
      MarkSpanMeaning(m, t.0, t.1, h);
      var m1 := MarkSpan(m, t.0, t.1).value;
      MarkItemsMarksReached(g, m1, g.stackSize + ScanStart(g.rule, t.0), 0, ScanCount(g.rule, t.1), d - 1, h);
    }
  }

  /**
   * A two-value stack holding an array of one value at heap index 0, whose
   * value is an array of one value at heap index 1.
   */
  function NestedExample(rule: ScanRule): Gc {
    Gc(Targets([ValArray(ArrayRef(0x8000_0002, 1)), 0, ValArray(ArrayRef(0x8000_0003, 1)), 0], HeapBase(2)), 2, rule)
  }

  /**
   * A two-value stack holding an array of one value at heap index 0, whose
   * value is zero; heap index 1, outside that array, holds an array at heap
   * index 1.
   */
  function StrayExample(rule: ScanRule): Gc {
    Gc(Targets([ValArray(ArrayRef(0x8000_0002, 1)), 0, 0, ValArray(ArrayRef(0x8000_0003, 1))], HeapBase(2)), 2, rule)
  }

  /** The arrays of the two examples' values, as heap spans. */
  lemma ExampleTargets(rule: ScanRule)
    ensures NestedExample(rule) == Gc([Some((0, 1)), None, Some((1, 1)), None], 2, rule)
    ensures StrayExample(rule) == Gc([Some((0, 1)), None, None, Some((1, 1))], 2, rule)
  {
    var hb := HeapBase(2);
    assert hb == 0x8000_0002;
    assert Target(ValArray(ArrayRef(0x8000_0002, 1)), hb) == Some((0, 1));
    assert Target(ValArray(ArrayRef(0x8000_0003, 1)), hb) == Some((1, 1));
    assert Target(0, hb) == None;
  }

  /** Starting one value in, the adder machine's scan misses an array stored as the first value of a live array. */
  lemma AdderScanSkipsFirstValue()
    ensures !Reaches(NestedExample(AdderScan), 0, 0, 1, 2, 1)
    ensures Reaches(NestedExample(WholeArray), 0, 0, 1, 2, 1)
  {
    ExampleTargets(AdderScan);
    ExampleTargets(WholeArray);
    assert ItemReaches(NestedExample(WholeArray), 2, 1, 1);
  }

  /** Scanning `length` values from the second, the grid machine follows the value after a live array. */
  lemma GridScanReadsPastArray()
    ensures Reaches(StrayExample(GridScan), 0, 0, 1, 2, 1)
    ensures !Reaches(StrayExample(WholeArray), 0, 0, 1, 2, 1)
  {
    ExampleTargets(GridScan);
    ExampleTargets(WholeArray);
    assert ItemReaches(StrayExample(GridScan), 3, 1, 1);
  }

  /** A completed collection marks exactly what the stack reaches. */
  lemma CollectMarksReached(g: Gc, words: nat, top: int, d: nat, h: int)
    requires MarkItems(g, Zeros(words), 0, 0, top + 1, d).Ok?
    ensures Marked(MarkItems(g, Zeros(words), 0, 0, top + 1, d).value, h) <==> Reaches(g, 0, 0, top + 1, d, h)
  {
    MarkItemsMarksReached(g, Zeros(words), 0, 0, top + 1, d, h);
    ZeroWordsMarkNothing(Zeros(words), h);
  }

  // The heap

  /** The allocation gives up and runs a collection: no chunk, or (adder machine) one that does not end before the heap does. */
  predicate Retry(revision: Revision, addr: int, n: int, heapSize: int) {
    addr < 0 || (revision == AdderVm && addr + n >= heapSize)
  }

  /** `s` with the `n` values from `at` set to zero. */
  function Zeroed(s: seq<Val>, at: int, n: int): (r: seq<Val>)
    ensures |r| == |s|
  {
    seq(|s|, k requires 0 <= k < |s| => if at <= k < at + n then 0 else s[k])
  }

  /** `s` with the `n` values from `at` replaced by the first `n` of `src`. */
  function Copied(s: seq<Val>, at: int, src: seq<Val>, n: int): (r: seq<Val>)
    requires n <= |src|
    ensures |r| == |s|
  {
    seq(|s|, k requires 0 <= k < |s| => if at <= k < at + n then src[k - at] else s[k])
  }

  /**
   * What placing `n` values at heap index `addr` leaves, from marks `m` and
   * memory `mem` to `r`, `m2` and `mem2`: a failed assert of the placement
   * passes through; otherwise the marks are the placed ones, and the values
   * are zeroed and the array returned when they fit the memory.
   */
  /** The reference `heap_array_alloc` returns for `n` values at heap index `addr`, with `uint32_t` fields. */
  function HeapArray(stackSize: nat, addr: int, n: int): ArrayRef {
    ArrayRef(MkProgrAddr(((stackSize + addr) % 0x1_0000_0000) as bv32), (n % 0x1_0000_0000) as bv32)
  }

  ghost predicate Allocated(reading: Reading, stackSize: nat, m: seq<bv64>, mem: seq<Val>, addr: int, n: int,
                            r: Result<ArrayRef, Abort>, m2: seq<bv64>, mem2: seq<Val>)
    requires 0 <= addr && 0 <= n && |mem| <= 0x3FFF_FFFF
  {
    var placed := Placed(m, addr, n, FillEnd(reading, addr, n));
    (placed.Err? ==> r == Err(placed.error)) &&
    (placed.Ok? ==> m2 == placed.value) &&
    (placed.Ok? && n > 0 && stackSize + addr + n > |mem| ==> r == Err(OutOfBounds)) &&
    (placed.Ok? && (n == 0 || stackSize + addr + n <= |mem|) ==>
      r == Ok(HeapArray(stackSize, addr, n)) &&
      mem2 == Zeroed(mem, stackSize + addr, n))
  }

  /** Reading back a copy gives the values copied, and the memory outside is untouched. */
  lemma CopiedReadsBack(s: seq<Val>, at: int, src: seq<Val>, n: int)
    requires 0 <= at && 0 <= n <= |src| && at + n <= |s|
    ensures Copied(s, at, src, n)[at..at + n] == src[..n]
    ensures Copied(s, at, src, n)[..at] == s[..at] && Copied(s, at, src, n)[at + n..] == s[at + n..]
  {
    var r := Copied(s, at, src, n);
    assert forall k | 0 <= k < n :: r[at..at + n][k] == r[at + k] == src[k];
  }

  function Min(a: int, b: int): int {
    if a < b then a else b
  }

  /**
   * The memory of a machine and its heap bookkeeping: `membase` holds the
   * stack's `stackSize` values and then the heap's `heapSize`; `marks` is
   * `gc_marks`, one bit per heap value.
   */
  class Heap {
    const revision: Revision
    const reading: Reading
    const stackSize: nat
    const heapSize: nat
    /** How many nested calls of `heap_gc_mark_used` the host stack holds. */
    const depth: nat
    const membase: array<Val>
    const marks: array<bv64>

    ghost predicate Valid() {
      membase != marks && stackSize + heapSize <= membase.Length <= 0x3FFF_FFFF &&
      marks.Length == MarkWords(heapSize)
    }

    /** The memory of `vm_create`/`gvm_create`: `memSize` values, zero, and a cleared bitmap. */
    constructor (revision: Revision, reading: Reading, stackSize: nat, heapSize: nat, memSize: nat, depth: nat)
      requires stackSize + heapSize <= memSize <= 0x3FFF_FFFF
      ensures Valid() && fresh(membase) && fresh(marks)
      ensures this.revision == revision && this.reading == reading && this.depth == depth
      ensures this.stackSize == stackSize && this.heapSize == heapSize
      ensures membase[..] == Zeros(memSize) && marks[..] == Zeros(MarkWords(heapSize))
    {
      this.revision := revision;
      this.reading := reading;
      this.stackSize := stackSize;
      this.heapSize := heapSize;
      this.depth := depth;
      membase := new Val[memSize](_ => 0);
      marks := new bv64[MarkWords(heapSize)](_ => 0);
    }

    /** What a collection reads. */
    function Scan(): Gc
      reads membase
    {
      Gc(Targets(membase[..], HeapBase(stackSize)), stackSize, Rule(revision, reading))
    }

    /** `put_mark`. */
    method PutMark(h: int)
      requires Valid() && 0 <= h && PageOf(h) < marks.Length
      modifies marks
      ensures marks[..] == WithMark(old(marks[..]), h)
    {
      marks[PageOf(h)] := marks[PageOf(h)] | One(BitOf(h));
    }

    /** `heap_clear`, and the first step of `heap_gc_collect`. */
    method Clear()
      requires Valid()
      modifies marks
      ensures marks[..] == Zeros(marks.Length)
    {
      forall i | 0 <= i < marks.Length {
        marks[i] := 0;
      }
    }

    /** The loop of `heap_gc_mark_used` that marks one array's values. */
    method MarkArray(start: int, len: int) returns (err: Option<Abort>)
      requires Valid()
      modifies marks
      ensures var spec := MarkSpan(old(marks[..]), start, len);
        (spec.Ok? ==> err.None? && marks[..] == spec.value) && (spec.Err? ==> err == Some(spec.error))
    {
      var j := 0;
      while j < len
        invariant 0 <= j && (len > 0 ==> j <= len)
        invariant MarkSpan(old(marks[..]), start, len) == MarkSpan(marks[..], start + j, len - j)
      {
        if start + j < 0 || PageOf(start + j) >= marks.Length {
          return Some(OutOfBounds);
        }
        PutMark(start + j);
        j := j + 1;
      }
      return None;
    }

    /** `heap_gc_mark_used(checkmem, count)` with `checkmem` at memory index `lo` and `d` more levels of recursion. */
    method MarkUsed(lo: int, count: int, d: nat) returns (err: Option<Abort>)
      requires Valid()
      modifies marks
      ensures var spec := MarkItems(Scan(), old(marks[..]), lo, 0, count, d);
        (spec.Ok? ==> err.None? && marks[..] == spec.value) && (spec.Err? ==> err == Some(spec.error))
      decreases d, 1
    {
      var i := 0;
      while i < count
        invariant 0 <= i
        invariant MarkItems(Scan(), old(marks[..]), lo, 0, count, d) == MarkItems(Scan(), marks[..], lo, i, count, d)
      {
        err := MarkValue(lo + i, d);
        if err.Some? {
          return;
        }
        i := i + 1;
      }
      return None;
    }

    /** One pass of that loop, on the value at memory index `at`. */
    method MarkValue(at: int, d: nat) returns (err: Option<Abort>)
      requires Valid()
      modifies marks
      ensures var spec := MarkItem(Scan(), old(marks[..]), at, d);
        (spec.Ok? ==> err.None? && marks[..] == spec.value) && (spec.Err? ==> err == Some(spec.error))
      decreases d, 0
    {
      if !(0 <= at < membase.Length) {
        return Some(OutOfBounds);
      }
      ghost var g := Scan();
      var t := TargetAt(at);
      if t.None? {
        return None;
      }
      ghost var m0 := marks[..];
      err := MarkArray(t.value.0, t.value.1);
      if err.Some? {
        return;
      }
      if d == 0 {
        return Some(StackExhausted);
      }
      assert Scan() == g;
      var rule := Rule(revision, reading);
      ghost var m1 := marks[..];
      assert MarkSpan(m0, t.value.0, t.value.1) == Ok(m1);
      err := MarkUsed(stackSize + ScanStart(rule, t.value.0), ScanCount(rule, t.value.1), d - 1);
    }

    /** The array the value at memory index `at` points to, as the collection reads it. */
    method TargetAt(at: int) returns (t: Option<(int, int)>)
      requires Valid() && 0 <= at < membase.Length
      ensures t == Scan().targets[at]
    {
      t := Target(membase[at], HeapBase(stackSize));
    }

    /** `heap_gc_collect`: clear every mark, then mark what the stack values `0..top` reach. */
    method GcCollect(top: int) returns (err: Option<Abort>)
      requires Valid()
      modifies marks
      ensures var spec := MarkItems(Scan(), Zeros(marks.Length), 0, 0, top + 1, depth);
        (spec.Ok? ==> err.None? && marks[..] == spec.value) && (spec.Err? ==> err == Some(spec.error))
    {
      Clear();
      err := MarkUsed(0, top + 1, depth);
    }

    /** `heap_find_small_chunk`: the nested page and bit loops. */
    method FindSmallChunk(n: int) returns (r: int)
      requires Valid() && 0 <= n < 64
      ensures r == SmallChunk(marks[..], n)
    {
      var p := 0;
      while p < marks.Length
        invariant 0 <= p <= marks.Length
        invariant SmallChunk(marks[..], n) == SmallFrom(marks[..], n, p, 0)
      {
        var page := marks[p];
        var b := 0;
        while b < 64 - n
          invariant 0 <= b <= 64 - n
          invariant SmallChunk(marks[..], n) == SmallFrom(marks[..], n, p, b)
        {
          if WindowFree(page, n, b) {
            return 64 * p + b;
          }
          b := b + 1;
        }
        p := p + 1;
      }
      return -1;
    }

    /** `heap_count_empty_pages(p, num_pages)`, with `num_pages` the whole bitmap, as its only caller passes. */
    method CountEmptyPages(p: int) returns (r: int)
      requires Valid() && p >= 0
      ensures r == if p >= marks.Length then -1 else EmptyRun(marks[..], p)
    {
      if p >= marks.Length {
        return -1;
      }
      var count := 0;
      var q := p;
      while q < marks.Length
        invariant p <= q <= marks.Length && count == q - p
        invariant EmptyRun(marks[..], p) == count + EmptyRun(marks[..], q)
      {
        if marks[q] == 0 {
          count := count + 1;
          q := q + 1;
        } else {
          return count;
        }
      }
      return count;
    }

    /** One round of the loop of `heap_find_large_chunk`, at page `page`: an answer, or the page to go on from. */
    method LargeStep(req: nat, trailing: nat, page: nat, maxCheck: int, probe: nat) returns (done: bool, r: Result<int, Abort>, next: nat)
      requires Valid() && trailing < 64 && page < maxCheck <= marks.Length
      ensures done ==> r == LargeFrom(marks[..], req, trailing, page, maxCheck, probe)
      ensures !done ==> page < next && LargeFrom(marks[..], req, trailing, next, maxCheck, probe) == LargeFrom(marks[..], req, trailing, page, maxCheck, probe)
    {
      ghost var m := marks[..];
      ghost var spec := LargeFrom(m, req, trailing, page, maxCheck, probe);
      LargeFromStep(m, req, trailing, page, maxCheck, probe);
      var free := CountEmptyPages(page);
      assert free == EmptyRun(m, page) && marks[..] == m;
      if free > req {
        assert spec == Ok(page * 64);
        return true, Ok(page * 64), page;
      }
      if free == req {
        if page + free + probe >= marks.Length {
          assert spec == Err(OutOfBounds);
          return true, Err(OutOfBounds), page;
        }
        var fits := WindowFree(marks[page + free + probe], trailing, 0);
        assert fits == WindowFree(m[page + free + probe], trailing, 0);
        if fits {
          assert spec == Ok(page * 64);
          return true, Ok(page * 64), page;
        }
      }
      assert spec == LargeFrom(m, req, trailing, page + Max(free, 1), maxCheck, probe);
      return false, Ok(-1), page + Max(free, 1);
    }

    /** `heap_find_large_chunk`, probing the word the reading says. */
    method FindLargeChunk(n: int) returns (r: Result<int, Abort>)
      requires Valid() && n >= 0
      ensures r == LargeChunk(marks[..], heapSize, n, Probe(reading))
    {
      if n > heapSize {
        return Ok(-1);
      }
      var req := n / 64;
      var trailing := n % 64;
      var maxCheck := marks.Length - req;
      var page := 0;
      while page < maxCheck
        invariant LargeChunk(marks[..], heapSize, n, Probe(reading)) == LargeFrom(marks[..], req, trailing, page, maxCheck, Probe(reading))
        decreases maxCheck - page
      {
        var done;
        done, r, page := LargeStep(req, trailing, page, maxCheck, Probe(reading));
        if done {
          return;
        }
      }
      return Ok(-1);
    }

    /** `heap_find_free_chunk`. */
    method FindFreeChunk(n: int) returns (r: Result<int, Abort>)
      requires Valid() && n >= 0
      ensures r == FreeChunk(marks[..], heapSize, n, Probe(reading))
    {
      if n < 64 {
        var a := FindSmallChunk(n);
        return Ok(a);
      }
      r := FindLargeChunk(n);
    }

    /** The whole-page loop of `heap_array_alloc`. */
    method FillWholePages(lo: int, hi: int) returns (err: Option<Abort>)
      requires Valid()
      modifies marks
      ensures var spec := FillPages(old(marks[..]), lo, hi);
        (spec.Ok? ==> err.None? && marks[..] == spec.value) && (spec.Err? ==> err == Some(spec.error))
    {
      var pageIndex := lo;
      while pageIndex < hi
        invariant lo <= pageIndex || hi <= lo
        invariant FillPages(old(marks[..]), lo, hi) == FillPages(marks[..], pageIndex, hi)
        decreases hi - pageIndex
      {
        if !(0 <= pageIndex < marks.Length) {
          return Some(OutOfBounds);
        }
        if marks[pageIndex] != 0 {
          return Some(AssertFailed("page already in use"));
        }
        marks[pageIndex] := AllOnes;
        pageIndex := pageIndex + 1;
      }
      return None;
    }

    /** The trailing mark of `heap_array_alloc`. */
    method MarkTrailing(page: int, mask: bv64) returns (err: Option<Abort>)
      requires Valid()
      modifies marks
      ensures var spec := MarkTrail(old(marks[..]), page, mask);
        (spec.Ok? ==> err.None? && marks[..] == spec.value) && (spec.Err? ==> err == Some(spec.error) && marks[..] == old(marks[..]))
    {
      if !(0 <= page < marks.Length) {
        return Some(OutOfBounds);
      }
      var word := marks[page];
      if Overlaps(word, mask) {
        return Some(AssertFailed("trailing bits already in use"));
      }
      marks[page] := SetBits(word, mask);
      return None;
    }

    /** The loop of `heap_array_alloc` that zeroes the new array's values. */
    method ZeroValues(at: int, n: int) returns (err: Option<Abort>)
      requires Valid() && 0 <= at
      modifies membase
      ensures n <= 0 || at + n <= membase.Length ==> err.None? && membase[..] == Zeroed(old(membase[..]), at, n)
      ensures n > 0 && at + n > membase.Length ==> err == Some(OutOfBounds)
    {
      var i := 0;
      while i < n
        invariant 0 <= i && (n >= 0 ==> i <= n) && (n < 0 ==> i == 0) && (i > 0 ==> at + i <= membase.Length)
        invariant forall k :: 0 <= k < membase.Length ==>
          membase[k] == if at <= k < at + i then 0 else old(membase[k])
      {
        if at + i >= membase.Length {
          return Some(OutOfBounds);
        }
        membase[at + i] := 0;
        i := i + 1;
      }
      assert forall k | 0 <= k < membase.Length :: membase[k] == Zeroed(old(membase[..]), at, n)[k];
      assert membase[..] == Zeroed(old(membase[..]), at, n);
      return None;
    }

    /**
     * The placing half of `heap_array_alloc` at heap index `addr`: mark the
     * whole pages and the trailing bits, both under the source's asserts,
     * then zero the `n` values and return the array.
     */
    method AllocAt(addr: int, n: int) returns (r: Result<ArrayRef, Abort>)
      requires Valid() && 0 <= addr && 0 <= n
      modifies marks, membase
      ensures Allocated(reading, stackSize, old(marks[..]), old(membase[..]), addr, n, r, marks[..], membase[..])
    {
      ghost var m0 := marks[..];
      ghost var placed := Placed(m0, addr, n, FillEnd(reading, addr, n));
      var err := FillWholePages(PageOf(addr), FillEnd(reading, addr, n));
      if err.Some? {
        assert placed == Err(err.value);
        return Err(err.value);
      }
      assert FillPages(m0, PageOf(addr), FillEnd(reading, addr, n)) == Ok(marks[..]);
      assert placed == MarkTrail(marks[..], PageOf(addr) + n / 64, TrailMask(addr, n));
      err := MarkTrailing(PageOf(addr) + n / 64, TrailMask(addr, n));
      if err.Some? {
        assert placed == Err(err.value);
        return Err(err.value);
      }
      assert placed == Ok(marks[..]);
      err := ZeroValues(stackSize + addr, n);
      if err.Some? {
        return Err(err.value);
      }
      return Ok(HeapArray(stackSize, addr, n));
    }

    /**
     * Where `heap_array_alloc` places `n` values, and the marks it places
     * them into: the first search's chunk, or, when that one gives up, the
     * chunk a second search finds after a collection.
     */
    function Locate(m: seq<bv64>, g: Gc, top: int, n: int): Result<(int, seq<bv64>), Abort>
      requires n >= 0
    {
      match FreeChunk(m, heapSize, n, Probe(reading))
      case Err(e) => Err(e)
      case Ok(addr) =>
        if !Retry(revision, addr, n, heapSize) then Ok((addr, m))
        else
          match MarkItems(g, Zeros(|m|), 0, 0, top + 1, depth)
          case Err(e) => Err(e)
          case Ok(collected) =>
            match FreeChunk(collected, heapSize, n, Probe(reading))
            case Err(e) => Err(e)
            case Ok(addr2) => Ok((addr2, collected))
    }

    /** The searching half of `heap_array_alloc`: the search, and the collection and second search when the first gives up. */
    method LocateChunk(n: int, top: int) returns (r: Result<int, Abort>)
      requires Valid() && n >= 0
      modifies marks
      ensures var plan := Locate(old(marks[..]), Scan(), top, n);
        (plan.Err? ==> r == Err(plan.error)) && (plan.Ok? ==> r == Ok(plan.value.0) && marks[..] == plan.value.1)
      ensures r.Err? ==> r.error == OutOfBounds || r.error == StackExhausted
      ensures r.Ok? ==> FreeChunk(marks[..], heapSize, n, Probe(reading)) == r
    {
      FreeChunkFailsOutOfBounds(marks[..], heapSize, n, Probe(reading));
      r := FindFreeChunk(n);
      if r.Err? || !Retry(revision, r.value, n, heapSize) {
        return;
      }
      var err := GcCollect(top);
      if err.Some? {
        return Err(err.value);
      }
      FreeChunkFailsOutOfBounds(marks[..], heapSize, n, Probe(reading));
      r := FindFreeChunk(n);
    }

    /**
     * `heap_array_alloc(n)` with the stack's top at `top`: locate a chunk,
     * give back the null array when even the collection leaves none, and
     * otherwise place the chunk and zero its values. With the corrected
     * reading neither assert of the source can fire.
     */
    method ArrayAlloc(n: int, top: int) returns (r: Result<ArrayRef, Abort>)
      requires Valid() && n >= 0
      modifies marks, membase
      ensures var plan := Locate(old(marks[..]), old(Scan()), top, n);
        (plan.Err? ==> r == Err(plan.error)) &&
        (plan.Ok? && Retry(revision, plan.value.0, n, heapSize) ==>
          r == Ok(ArrayRef(0, 0)) && marks[..] == plan.value.1 && membase[..] == old(membase[..])) &&
        (plan.Ok? && !Retry(revision, plan.value.0, n, heapSize) ==>
          Allocated(reading, stackSize, plan.value.1, old(membase[..]), plan.value.0, n, r, marks[..], membase[..]))
      ensures reading == Corrected && r.Err? ==> !r.error.AssertFailed?
    {
      var found := LocateChunk(n, top);
      if found.Err? {
        return Err(found.error);
      }
      var addr := found.value;
      if Retry(revision, addr, n, heapSize) {
        return Ok(ArrayRef(0, 0));
      }
      if reading == Corrected {
        CorrectedPlacementSucceeds(marks[..], heapSize, n);
      }
      r := AllocAt(addr, n);
    }

    /** The copying loop of `heap_array_copy_to`: `n` values of `src` to memory index `at`. */
    method CopyValues(src: seq<Val>, at: int, n: int) returns (err: Option<Abort>)
      requires Valid() && 0 <= at && n <= |src|
      modifies membase
      ensures n <= 0 || at + n <= membase.Length ==> err.None? && membase[..] == Copied(old(membase[..]), at, src, n)
      ensures n > 0 && at + n > membase.Length ==> err == Some(OutOfBounds)
    {
      var i := 0;
      while i < n
        invariant 0 <= i && (n >= 0 ==> i <= n) && (n < 0 ==> i == 0) && (i > 0 ==> at + i <= membase.Length)
        invariant forall k :: 0 <= k < membase.Length ==>
          membase[k] == if at <= k < at + i then src[k - at] else old(membase[k])
      {
        if at + i >= membase.Length {
          return Some(OutOfBounds);
        }
        membase[at + i] := src[i];
        i := i + 1;
      }
      assert forall k | 0 <= k < membase.Length :: membase[k] == Copied(old(membase[..]), at, src, n)[k];
      assert membase[..] == Copied(old(membase[..]), at, src, n);
      return None;
    }

    /**
     * `heap_array_copy_to`: copies `min(dest.length, length)` values of
     * `src` to the memory the destination array's address indexes, and
     * returns that count (negative when the destination's length, read as
     * a C `int`, is).
     */
    method CopyTo(src: seq<Val>, length: int, dest: ArrayRef) returns (r: Result<int, Abort>)
      requires Valid() && length <= |src|
      modifies membase
      ensures var n := Min(Int32(dest.length), length); var at := AddrToIndex(dest.address) as int;
        ((n <= 0 || at + n <= membase.Length) ==> r == Ok(n) && membase[..] == Copied(old(membase[..]), at, src, n)) &&
        (n > 0 && at + n > membase.Length ==> r == Err(OutOfBounds))
    {
      var n := Min(Int32(dest.length), length);
      var err := CopyValues(src, AddrToIndex(dest.address) as int, n);
      r := if err.Some? then Err(err.value) else Ok(n);
    }
  }

  // Scenarios

  /** The trailing masks of the scenarios below: the low `n % 64` bits of a page. */
  lemma LowWindows()
    ensures TrailMask(0, 70) == 0x3F && TrailMask(128, 70) == 0x3F
    ensures TrailMask(0, 2) == 3 && TrailMask(0, 65) == 1 && WindowMask(0, 0) == 0
  {
    SixBitWindow();
    LowWindow(2, 0);
    LowWindow(1, 64);
    ZeroWindow();
  }

  lemma ZeroWindow()
    ensures WindowMask(0, 0) == 0
  {
    assert Bv8(0) == 0;
    assert Window(0, 0) == 0;
  }

  lemma SixBitWindow()
    ensures TrailMask(0, 70) == 0x3F && TrailMask(128, 70) == 0x3F
  {
    assert 70 % 64 == 6 && 70 / 64 == 1 && (0 + 64 * 1) % 64 == 0 && (128 + 64 * 1) % 64 == 0;
    assert Bv8(6) == 6 && Bv8(0) == 0;
    assert Window(6, 0) == 0x3F;
  }

  lemma LowWindow(k: nat, base: nat)
    requires (k == 2 && base == 0) || (k == 1 && base == 64)
    ensures TrailMask(0, k + base) == if k == 2 then 3 else 1
  {
    assert (k + base) % 64 == k && ((k + base) / 64) * 64 % 64 == 0;
    assert Bv8(0) == 0 && Bv8(1) == 1 && Bv8(2) == 2;
    assert Window(1, 0) == 1 && Window(2, 0) == 3;
  }

  /** The bitmap of a five-page heap after one 70-value allocation: a whole page and six trailing bits. */
  const AfterFirst: seq<bv64> := [AllOnes, 0x3F, 0, 0, 0]

  /** On a fresh five-page heap a 70-value array goes to heap index 0 under either reading. */
  lemma FirstLargeSearch()
    ensures FreeChunk(Zeros(5), 320, 70, 1) == Ok(0) && FreeChunk(Zeros(5), 320, 70, 0) == Ok(0)
  {
    var z := Zeros(5);
    assert z == [0, 0, 0, 0, 0];
    assert EmptyRun(z, 0) == 5;
  }

  /** It takes the first page and six bits of the second, under either reading. */
  lemma FirstLargeAllocation()
    ensures Placed(Zeros(5), 0, 70, FillEnd(AsWritten, 0, 70)) == Ok(AfterFirst)
    ensures Placed(Zeros(5), 0, 70, FillEnd(Corrected, 0, 70)) == Ok(AfterFirst)
  {
    var z := Zeros(5);
    assert z == [0, 0, 0, 0, 0];
    var m1 := z[0 := AllOnes];
    assert m1 == [AllOnes, 0, 0, 0, 0];
    assert FillPages(m1, 1, 1) == Ok(m1);
    assert FillPages(z, 0, 1) == Ok(m1);
    LowWindows();
    assert SetBits(0, 0x3F) == 0x3F;
    assert m1[1 := 0x3F] == AfterFirst;
  }

  /** On a fresh heap a 2-value array takes the two lowest bits of page 0. */
  lemma FirstSmallAllocation()
    ensures FreeChunk(Zeros(5), 320, 2, 1) == Ok(0)
    ensures Placed(Zeros(5), 0, 2, FillEnd(AsWritten, 0, 2)) == Ok([3, 0, 0, 0, 0])
  {
    var z := Zeros(5);
    assert z == [0, 0, 0, 0, 0];
    assert FreeAt(z, 2, 0, 0);
    assert FillPages(z, 0, 0) == Ok(z);
    LowWindows();
    assert SetBits(0, 3) == 3;
    assert z[0 := 3] == [3, 0, 0, 0, 0];
  }

  /** The mark of a second 70-value array, at heap index 128, as written: the loop from page 2 to `num_pages` 1 fills nothing. */
  const AfterSecondAsWritten: seq<bv64> := [AllOnes, 0x3F, 0, 0x3F, 0]

  /** A second 70-value array goes to heap index 128, the first page of the run of three empty pages. */
  lemma SecondLargeSearch()
    ensures FreeChunk(AfterFirst, 320, 70, 1) == Ok(128)
  {
    assert EmptyRun(AfterFirst, 0) == 0 && EmptyRun(AfterFirst, 1) == 0 && EmptyRun(AfterFirst, 2) == 3;
    assert LargeFrom(AfterFirst, 1, 6, 0, 4, 1) == LargeFrom(AfterFirst, 1, 6, 1, 4, 1) == LargeFrom(AfterFirst, 1, 6, 2, 4, 1);
  }

  /** As written, its placement fills no page and sets the trailing bits in page 3. */
  lemma SecondLargePlacedAsWritten()
    ensures Placed(AfterFirst, 128, 70, FillEnd(AsWritten, 128, 70)) == Ok(AfterSecondAsWritten)
  {
    assert FillPages(AfterFirst, 2, 1) == Ok(AfterFirst);
    LowWindows();
    assert SetBits(0, 0x3F) == 0x3F;
    assert AfterFirst[3 := 0x3F] == AfterSecondAsWritten;
  }

  /** The next 64-value array is then placed over page 2, which the second array holds. */
  lemma ThirdLargeSearchAsWritten()
    ensures FreeChunk(AfterSecondAsWritten, 320, 64, 1) == Ok(128)
  {
    assert EmptyRun(AfterSecondAsWritten, 0) == 0 && EmptyRun(AfterSecondAsWritten, 1) == 0;
    assert EmptyRun(AfterSecondAsWritten, 2) == 1;
    assert LargeFrom(AfterSecondAsWritten, 1, 0, 0, 4, 1) == LargeFrom(AfterSecondAsWritten, 1, 0, 1, 4, 1) == LargeFrom(AfterSecondAsWritten, 1, 0, 2, 4, 1);
    LowWindows();
  }

  /** The corrected placement of the second array fills page 2. */
  lemma SecondLargePlacedCorrected()
    ensures Placed(AfterFirst, 128, 70, FillEnd(Corrected, 128, 70)) == Ok([AllOnes, 0x3F, AllOnes, 0x3F, 0])
  {
    var m2 := AfterFirst[2 := AllOnes];
    assert m2 == [AllOnes, 0x3F, AllOnes, 0, 0];
    assert FillPages(m2, 3, 3) == Ok(m2);
    assert FillPages(AfterFirst, 2, 3) == Ok(m2);
    LowWindows();
    assert SetBits(0, 0x3F) == 0x3F;
    assert m2[3 := 0x3F] == [AllOnes, 0x3F, AllOnes, 0x3F, 0];
  }

  /**
   * The whole-page loop as written marks nothing for a large chunk that
   * does not start at page 0: page 2 of the second array stays free, and
   * the next 64-value array is placed over it.
   */
  lemma FillFromPageZeroLosesPages()
    ensures FreeChunk(AfterFirst, 320, 70, 1) == Ok(128)
    ensures Placed(AfterFirst, 128, 70, FillEnd(AsWritten, 128, 70)) == Ok(AfterSecondAsWritten)
    ensures FreeChunk(AfterSecondAsWritten, 320, 64, 1) == Ok(128)
    ensures Placed(AfterFirst, 128, 70, FillEnd(Corrected, 128, 70)) == Ok([AllOnes, 0x3F, AllOnes, 0x3F, 0])
  {
    SecondLargeSearch();
    SecondLargePlacedAsWritten();
    ThirdLargeSearchAsWritten();
    SecondLargePlacedCorrected();
  }

  /** A bitmap with one mark in page 1. */
  const OneMarkInPage1: seq<bv64> := [0, 1, 0, 0, 0]

  /**
   * The large search as written probes the page after the one the
   * trailing bits go to: for a 65-value array it accepts page 0 although
   * the trailing bit lands on the mark in page 1, and the allocation's
   * assert fails. The corrected search goes on to page 2.
   */
  lemma ProbePastTrailingPage()
    ensures FreeChunk(OneMarkInPage1, 320, 65, 1) == Ok(0)
    ensures Placed(OneMarkInPage1, 0, 65, FillEnd(AsWritten, 0, 65)) == Err(AssertFailed("trailing bits already in use"))
    ensures FreeChunk(OneMarkInPage1, 320, 65, 0) == Ok(128)
  {
    OneMarkRuns();
    OneMarkPlacedAsWritten();
  }

  /** The as-written probe finds page 0, the corrected one page 2. */
  lemma OneMarkRuns()
    ensures FreeChunk(OneMarkInPage1, 320, 65, 1) == Ok(0)
    ensures FreeChunk(OneMarkInPage1, 320, 65, 0) == Ok(128)
  {
    assert EmptyRun(OneMarkInPage1, 0) == 1 && EmptyRun(OneMarkInPage1, 1) == 0 && EmptyRun(OneMarkInPage1, 2) == 3;
  }

  /** The as-written placement at page 0 meets the mark in page 1. */
  lemma OneMarkPlacedAsWritten()
    ensures Placed(OneMarkInPage1, 0, 65, FillEnd(AsWritten, 0, 65)) == Err(AssertFailed("trailing bits already in use"))
  {
    assert ChunkMask(1) == 1;
    var m1 := OneMarkInPage1[0 := AllOnes];
    assert m1 == [AllOnes, 1, 0, 0, 0];
    assert FillPages(m1, 1, 1) == Ok(m1);
    assert FillPages(OneMarkInPage1, 0, 1) == Ok(m1);
    LowWindows();
    assert Overlaps(m1[1], 1);
  }
}
