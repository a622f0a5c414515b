/**
 * `gvm/gvm_grid.c`: a grid of type ids stored row by row (cell `(x, y)` at
 * index `y * width + x`), resized keeping the overlap, filled, and flood
 * selected: from a start cell, every cell the caller's predicate accepts
 * against the start cell's value is collected through its four neighbours.
 */
module GvmGrid {
  import opened Wrappers

  /** `type_id_t`. */
  type TypeId = bv8

  /** `GRID_INITIAL_WIDTH` and `GRID_INITIAL_HEIGHT` of `gvm/gvm_config.h`. */
  const InitialWidth: nat := 6
  const InitialHeight: nat := 8

  /** `GRID_CALC_INDEX`. */
  function Idx(x: int, y: int, w: int): int {
    y * w + x
  }

  /** `CLAMP(val, min, max)`, that is `MAX(MIN(val, max), min)`. */
  function Clamp(v: int, lo: int, hi: int): (r: int)
    requires lo <= hi
    ensures lo <= r <= hi
    ensures lo <= v <= hi ==> r == v
    ensures v < lo ==> r == lo
    ensures v > hi ==> r == hi
  {
    var m := if v < hi then v else hi;
    if m > lo then m else lo
  }

  lemma {:induction false} MulMono(a: int, b: int, c: int)
    requires a <= b && c >= 0
    ensures a * c <= b * c
    decreases c
  {
    if c > 0 {
      MulMono(a, b, c - 1);
      assert a * c == a * (c - 1) + a && b * c == b * (c - 1) + b;
    }
  }

  lemma MulMonoIf(a: int, b: int, c: int)
    ensures a <= b && c >= 0 ==> a * c <= b * c
  {
    if a <= b && c >= 0 {
      MulMono(a, b, c);
    }
  }

  /** A cell of a `w` by `h` grid lies inside its `w * h` entries. */
  lemma IdxInRange(x: int, y: int, w: int, h: int)
    requires 0 <= x < w && 0 <= y < h
    ensures 0 <= Idx(x, y, w) < w * h
  {
    MulMono(0, y, w);
    MulMono(y + 1, h, w);
    assert (y + 1) * w == y * w + w;
  }

  /** Distinct cells of a row width have distinct indices. */
  lemma IdxInjective(x1: int, y1: int, x2: int, y2: int, w: int)
    requires 0 <= x1 < w && 0 <= x2 < w
    ensures Idx(x1, y1, w) == Idx(x2, y2, w) ==> x1 == x2 && y1 == y2
  {
    MulMonoIf(y1 + 1, y2, w);
    MulMonoIf(y2 + 1, y1, w);
    assert (y1 + 1) * w == y1 * w + w && (y2 + 1) * w == y2 * w + w;
  }

  /** `GRID_CALC_X` and `GRID_CALC_Y` give a cell's coordinates back. */
  lemma Coords(x: int, y: int, w: int)
    requires 0 <= x < w
    ensures Idx(x, y, w) % w == x && Idx(x, y, w) / w == y
  {
    var i := Idx(x, y, w);
    IdxInjective(i % w, i / w, x, y, w);
  }

  /** Every index of a `w` by `h` grid is the index of a cell. */
  lemma CoordsOf(i: int, w: int, h: int)
    requires 0 <= i < w * h && w > 0
    ensures 0 <= i % w < w && 0 <= i / w < h && Idx(i % w, i / w, w) == i
  {
    MulMonoIf(h, i / w, w);
  }

  /** The index of the clamped cell `(x, y)`, as `_try_select` and `grid_select` compute it. */
  function ClampedIndex(x: int, y: int, w: int, h: int): (c: int)
    requires w > 0 && h > 0
    ensures 0 <= c < w * h
    ensures c == Idx(Clamp(x, 0, w - 1), Clamp(y, 0, h - 1), w)
  {
    IdxInRange(Clamp(x, 0, w - 1), Clamp(y, 0, h - 1), w, h);
    Idx(Clamp(x, 0, w - 1), Clamp(y, 0, h - 1), w)
  }

  /** The entry of cell `(x, y)` in the `w`-wide cells `a` (0 outside them). */
  function At(a: seq<TypeId>, x: int, y: int, w: int): TypeId {
    if 0 <= Idx(x, y, w) < |a| then a[Idx(x, y, w)] else 0
  }

  /** The entry of cell `(x, y)` in the `w`-wide block `a` (0 outside it). */
  function Entry(a: array<TypeId>, x: int, y: int, w: int): TypeId
    reads a
  {
    if 0 <= Idx(x, y, w) < a.Length then a[Idx(x, y, w)] else 0
  }

  /** Entry `i` of a `w2`-wide grid resized from the `w` by `h` cells `c`. */
  function ResizedAt(c: seq<TypeId>, w: nat, h: nat, w2: nat, i: int): TypeId
    requires |c| == w * h
  {
    if w2 == 0 || i < 0 then 0
    else
      var x := i % w2;
      var y := i / w2;
      if x < w && y < h then At(c, x, y, w) else 0
  }

  /** The cells of `grid_set_size`'s result. */
  function Resized(c: seq<TypeId>, w: nat, h: nat, w2: nat, h2: nat): (r: seq<TypeId>)
    requires |c| == w * h
    ensures |r| == w2 * h2
  {
    MulMono(0, h2, w2);
    seq(w2 * h2, i => ResizedAt(c, w, h, w2, i))
  }

  /**
   * Resizing keeps cell `(x, y)` when it lies inside the old grid as well,
   * and makes every other cell 0.
   */
  lemma ResizedCell(c: seq<TypeId>, w: nat, h: nat, w2: nat, h2: nat, x: int, y: int)
    requires |c| == w * h && 0 <= x < w2 && 0 <= y < h2
    ensures 0 <= Idx(x, y, w2) < w2 * h2
    ensures x < w && y < h ==> 0 <= Idx(x, y, w) < |c| && Resized(c, w, h, w2, h2)[Idx(x, y, w2)] == c[Idx(x, y, w)]
    ensures !(x < w && y < h) ==> Resized(c, w, h, w2, h2)[Idx(x, y, w2)] == 0
  {
    IdxInRange(x, y, w2, h2);
    Coords(x, y, w2);
    if x < w && y < h {
      IdxInRange(x, y, w, h);
    }
  }

  /** A block whose every cell is as `ResizedCell` says is the resized block. */
  lemma CellsResized(d: seq<TypeId>, c: seq<TypeId>, w: nat, h: nat, w2: nat, h2: nat)
    requires |c| == w * h && |d| == w2 * h2
    requires forall x, y :: 0 <= x < w2 && 0 <= y < h2 ==>
      At(d, x, y, w2) == (if x < w && y < h then At(c, x, y, w) else 0)
    ensures d == Resized(c, w, h, w2, h2)
  {
    var r := Resized(c, w, h, w2, h2);
    forall i | 0 <= i < |d| ensures d[i] == r[i] {
      CoordsOf(i, w2, h2);
      var x, y := i % w2, i / w2;
      assert At(d, x, y, w2) == d[i];
    }
  }

  /** Growing a grid and shrinking it back gives the same cells. */
  lemma ResizeRoundTrip(c: seq<TypeId>, w: nat, h: nat, w2: nat, h2: nat)
    requires |c| == w * h && w <= w2 && h <= h2
    ensures Resized(Resized(c, w, h, w2, h2), w2, h2, w, h) == c
  {
    var big := Resized(c, w, h, w2, h2);
    var back := Resized(big, w2, h2, w, h);
    forall i | 0 <= i < |c| ensures back[i] == c[i] {
      CoordsOf(i, w, h);
      var x, y := i % w, i / w;
      ResizedCell(big, w2, h2, w, h, x, y);
      ResizedCell(c, w, h, w2, h2, x, y);
    }
  }

  /** The inner loop of `grid_set_size`: rows `0 .. ch - 1` of column `x` are copied from `src` to `dst`. */
  method CopyColumn(dst: array<TypeId>, w2: int, h2: int, src: array<TypeId>, w: int, h: int, x: int, ch: int)
    requires dst != src && dst.Length == w2 * h2 && src.Length == w * h
    requires 0 <= x < w && x < w2 && 0 <= ch <= h && ch <= h2
    modifies dst
    ensures forall x', y' :: 0 <= x' < w2 && 0 <= y' < h2 ==>
      Entry(dst, x', y', w2) == (if x' == x && y' < ch then Entry(src, x', y', w) else old(Entry(dst, x', y', w2)))
  {
    var y := 0;
    while y < ch
      invariant 0 <= y <= ch
      invariant forall x', y' :: 0 <= x' < w2 && 0 <= y' < h2 ==>
        Entry(dst, x', y', w2) == (if x' == x && y' < y then Entry(src, x', y', w) else old(Entry(dst, x', y', w2)))
    {
      IdxInRange(x, y, w2, h2);
      IdxInRange(x, y, w, h);
      dst[Idx(x, y, w2)] := src[Idx(x, y, w)];
      forall x', y' | 0 <= x' < w2 && 0 <= y' < h2
        ensures Idx(x', y', w2) == Idx(x, y, w2) ==> x' == x && y' == y
      {
        IdxInjective(x', y', x, y, w2);
      }
      y := y + 1;
    }
  }

  /** `grid_t`; a freed grid has an empty block. */
  class Grid {
    var width: int
    var height: int
    var data: array<TypeId>

    ghost predicate Valid()
      reads this
    {
      0 <= width && 0 <= height && data.Length == width * height
    }

    /** `grid_init` (allocation failure is not modelled): `InitialWidth` by `InitialHeight` cells, all 0. */
    constructor ()
      ensures Valid() && width == InitialWidth && height == InitialHeight && fresh(data)
      ensures forall i :: 0 <= i < data.Length ==> data[i] == 0
    {
      data := new TypeId[InitialHeight * InitialWidth](_ => 0);
      height := InitialHeight;
      width := InitialWidth;
    }

    /**
     * `grid_set_size`: a new zeroed block of the new size, into which the
     * cells inside both the old and the new size are copied column by
     * column.
     */
    method SetSize(newWidth: int, newHeight: int)
      requires Valid() && newWidth >= 0 && newHeight >= 0
      modifies this
      ensures Valid() && width == newWidth && height == newHeight && fresh(data)
      ensures data[..] == Resized(old(data[..]), old(width), old(height), newWidth, newHeight)
    {
      MulMono(0, newHeight, newWidth);
      var src, oldW, oldH := data, width, height;
      var newGrid := new TypeId[newWidth * newHeight](_ => 0);
      var cw := if newWidth < oldW then newWidth else oldW;
      var ch := if newHeight < oldH then newHeight else oldH;
      var x := 0;
      while x < cw
        invariant 0 <= x <= cw
        invariant data == src && width == oldW && height == oldH
        invariant forall x', y' :: 0 <= x' < newWidth && 0 <= y' < newHeight ==>
          Entry(newGrid, x', y', newWidth) == (if x' < x && y' < ch then Entry(src, x', y', oldW) else 0)
      {
        CopyColumn(newGrid, newWidth, newHeight, src, oldW, oldH, x, ch);
        x := x + 1;
      }
      forall x', y' | 0 <= x' < newWidth && 0 <= y' < newHeight
        ensures At(newGrid[..], x', y', newWidth) == (if x' < oldW && y' < oldH then At(src[..], x', y', oldW) else 0)
      {
        assert Entry(newGrid, x', y', newWidth) == At(newGrid[..], x', y', newWidth);
      }
      CellsResized(newGrid[..], src[..], oldW, oldH, newWidth, newHeight);
      height := newHeight;
      width := newWidth;
      data := newGrid;
    }

    /** `grid_fill`: every cell gets the value. */
    method Fill(val: TypeId)
      requires Valid()
      modifies data
      ensures forall i :: 0 <= i < data.Length ==> data[i] == val
    {
      var i := 0;
      while i < height * width
        invariant 0 <= i <= data.Length
        invariant forall k :: 0 <= k < i ==> data[k] == val
      {
        data[i] := val;
        i := i + 1;
      }
    }

    /** `grid_destroy`: no cells, width and height zero. */
    method Destroy()
      modifies this
      ensures Valid() && width == 0 && height == 0 && data.Length == 0
    {
      data := new TypeId[0];
      height := 0;
      width := 0;
    }

    /**
     * `grid_select`: the start coordinates are clamped into the grid and the
     * flood selection runs from there, writing the selected indices to the
     * front of `indexBuffer`, and their number is returned. An empty grid
     * has no start cell to read. The selected cells are distinct, each is
     * accepted by the predicate against the start cell's value, each after
     * the first is a neighbour of one selected before it, and the first is
     * the start cell, selected exactly when the predicate accepts it.
     */
    method Select(x: int, y: int, accepts: (TypeId, TypeId) -> bool, indexBuffer: array<int>) returns (r: Result<nat, Abort>)
      requires Valid() && indexBuffer.Length >= width * height
      modifies indexBuffer
      ensures (width == 0 || height == 0) <==> r == Err(OutOfBounds)
      ensures r.Ok? ==> r.value <= width * height && width > 0 && height > 0
      ensures r.Ok? ==> Distinct(indexBuffer[..r.value]) && Connected(indexBuffer[..r.value], width)
      ensures r.Ok? ==> var s := ClampedIndex(x, y, width, height); var cells := old(data[..]);
        Accepted(indexBuffer[..r.value], cells, cells[s], accepts) &&
        (r.value > 0 <==> accepts(cells[s], cells[s])) && (r.value > 0 ==> indexBuffer[0] == s)
    {
      if width == 0 || height == 0 {
        return Err(OutOfBounds);
      }
      var start := ClampedIndex(x, y, width, height);
      var sel := new Selector(width, height, data[..], data[start], accepts, indexBuffer);
      var added := sel.TrySelect(x, y, 0);
      assert indexBuffer[..sel.selectedCount] == sel.selection[..sel.selectedCount];
      return Ok(sel.selectedCount);
    }
  }

  /** No index occurs twice. */
  ghost predicate Distinct(s: seq<int>) {
    forall i, j :: 0 <= i < j < |s| ==> s[i] != s[j]
  }

  /** Cells `a` and `b` of a `w`-wide grid share a side. */
  ghost predicate Adjacent(a: int, b: int, w: int) {
    w > 0 &&
    ((a % w == b % w && (a / w - b / w == 1 || b / w - a / w == 1)) ||
     (a / w == b / w && (a % w - b % w == 1 || b % w - a % w == 1)))
  }

  /** Every index after the first is adjacent to an earlier one. */
  ghost predicate Connected(s: seq<int>, w: int) {
    forall k :: 0 < k < |s| ==> exists j :: 0 <= j < k && Adjacent(s[j], s[k], w)
  }

  /** Every index is a cell the predicate accepts against `initial`. */
  ghost predicate Accepted(s: seq<int>, cells: seq<TypeId>, initial: TypeId, accepts: (TypeId, TypeId) -> bool) {
    forall k :: 0 <= k < |s| ==> 0 <= s[k] < |cells| && accepts(initial, cells[s[k]])
  }

  /** The trigger term for the cell set below. */
  function Cell(i: int): int {
    i
  }

  function Cells(n: nat): set<int> {
    set i | 0 <= i < n :: Cell(i)
  }

  function Elems(s: seq<int>): set<int> {
    set k | 0 <= k < |s| :: s[k]
  }

  lemma {:induction false} CellsCard(n: nat)
    ensures |Cells(n)| == n
  {
    if n > 0 {
      CellsCard(n - 1);
      forall c ensures c in Cells(n) <==> c in Cells(n - 1) + {n - 1} {
        assert Cell(c) == c;
      }
      assert Cells(n) == Cells(n - 1) + {n - 1};
    }
  }

  lemma {:induction false} ElemsCard(s: seq<int>)
    requires Distinct(s)
    ensures |Elems(s)| == |s|
  {
    if |s| > 0 {
      var t := s[..|s| - 1];
      ElemsCard(t);
      assert Elems(s) == Elems(t) + {s[|s| - 1]};
    }
  }

  lemma SubsetCard(a: set<int>, b: set<int>)
    requires a <= b
    ensures |a| <= |b|
  {
    assert b == a + (b - a);
  }

  /** Distinct indices below `n` that miss one of them are fewer than `n`. */
  lemma RoomLeft(s: seq<int>, v: int, n: nat)
    requires Distinct(s) && (forall k :: 0 <= k < |s| ==> 0 <= s[k] < n)
    requires 0 <= v < n && v !in s
    ensures |s| < n
  {
    ElemsCard(s);
    CellsCard(n);
    assert Cell(v) == v;
    forall c | c in Elems(s) + {v} ensures c in Cells(n) {
      assert Cell(c) == c;
    }
    SubsetCard(Elems(s) + {v}, Cells(n));
  }

  /** A neighbour's clamped cell is the cell itself (at the border) or adjacent to it. */
  lemma NeighbourClamped(x: int, y: int, x2: int, y2: int, w: int, h: int)
    requires 0 <= x < w && 0 <= y < h
    requires (x2 == x && (y2 == y + 1 || y2 == y - 1)) || (y2 == y && (x2 == x + 1 || x2 == x - 1))
    ensures var c := ClampedIndex(x2, y2, w, h);
      c == Idx(x, y, w) || Adjacent(Idx(x, y, w), c, w)
  {
    Coords(x, y, w);
    Coords(Clamp(x2, 0, w - 1), Clamp(y2, 0, h - 1), w);
  }

  /**
   * The visited cells `vs` are distinct cells; the selected cells `ss` are
   * distinct visited cells the predicate accepts against `initial`,
   * connected through neighbours.
   */
  ghost predicate SelectionOk(vs: seq<int>, ss: seq<int>, cells: seq<TypeId>, w: int, initial: TypeId, accepts: (TypeId, TypeId) -> bool) {
    Distinct(vs) && (forall k :: 0 <= k < |vs| ==> 0 <= vs[k] < |cells|) &&
    Distinct(ss) && (forall k :: 0 <= k < |ss| ==> ss[k] in vs) &&
    Accepted(ss, cells, initial, accepts) && Connected(ss, w)
  }

  /** Visiting a new cell keeps the selection state, and there was room for it. */
  lemma VisitKeeps(vs: seq<int>, ss: seq<int>, cells: seq<TypeId>, w: int, initial: TypeId, accepts: (TypeId, TypeId) -> bool, c: int)
    requires SelectionOk(vs, ss, cells, w, initial, accepts)
    requires 0 <= c < |cells| && c !in vs
    ensures SelectionOk(vs + [c], ss, cells, w, initial, accepts)
    ensures |vs| < |cells|
  {
    RoomLeft(vs, c, |cells|);
    var vs' := vs + [c];
    forall k | 0 <= k < |ss| ensures ss[k] in vs' {
      assert ss[k] in vs;
    }
  }

  /** Selecting a visited, accepted, unselected cell next to an earlier one keeps the selection state. */
  lemma PickKeeps(vs: seq<int>, ss: seq<int>, cells: seq<TypeId>, w: int, initial: TypeId, accepts: (TypeId, TypeId) -> bool,
                  c: int, from: int)
    requires SelectionOk(vs, ss, cells, w, initial, accepts)
    requires c in vs && c !in ss && 0 <= c < |cells| && accepts(initial, cells[c])
    requires |ss| == 0 || (0 <= from < |ss| && Adjacent(ss[from], c, w))
    ensures SelectionOk(vs, ss + [c], cells, w, initial, accepts)
  {
    var s := ss + [c];
    forall k | 0 < k < |s| ensures exists j :: 0 <= j < k && Adjacent(s[j], s[k], w) {
      if k < |ss| {
        var j :| 0 <= j < k && Adjacent(ss[j], ss[k], w);
        assert s[j] == ss[j] && s[k] == ss[k];
      } else {
        assert s[from] == ss[from];
      }
    }
  }

  /**
   * `select_data_t`: the state of one flood selection. The grid is not
   * changed while it runs, so its width, height and cells are held as
   * values.
   */
  class Selector {
    const width: int
    const height: int
    const cells: seq<TypeId>
    const initial: TypeId
    const accepts: (TypeId, TypeId) -> bool
    const visited: array<int>
    var visitedCount: nat
    const selection: array<int>
    var selectedCount: nat

    /**
     * The visited cells are distinct cells of the grid; the selected ones
     * are distinct visited cells the predicate accepts, connected through
     * neighbours.
     */
    ghost predicate Valid()
      reads this, visited, selection
    {
      width > 0 && height > 0 && |cells| == width * height && visited != selection &&
      visited.Length == |cells| && selection.Length >= visited.Length &&
      visitedCount <= visited.Length && selectedCount <= visitedCount &&
      SelectionOk(visited[..visitedCount], selection[..selectedCount], cells, width, initial, accepts)
    }

    /** The initialiser of `grid_select`: a fresh `visited` block of one entry per cell, nothing visited or selected. */
    constructor (width: int, height: int, cells: seq<TypeId>, initial: TypeId, accepts: (TypeId, TypeId) -> bool, selection: array<int>)
      requires width > 0 && height > 0 && |cells| == width * height && selection.Length >= width * height
      ensures Valid() && fresh(visited)
      ensures this.width == width && this.height == height && this.cells == cells
      ensures this.initial == initial && this.accepts == accepts && this.selection == selection
      ensures visitedCount == 0 && selectedCount == 0
    {
      this.width := width;
      this.height := height;
      this.cells := cells;
      this.initial := initial;
      this.accepts := accepts;
      this.selection := selection;
      visited := new int[|cells|];
      visitedCount := 0;
      selectedCount := 0;
    }

    /** `_is_visited`: the visited cells are searched from the latest back. */
    method IsVisited(value: int) returns (r: bool)
      requires Valid()
      ensures r <==> value in visited[..visitedCount]
    {
      var i: int := visitedCount - 1;
      while i >= 0
        invariant -1 <= i < visitedCount
        invariant forall k :: i < k < visitedCount ==> visited[k] != value
      {
        if visited[i] == value {
          return true;
        }
        i := i - 1;
      }
      return false;
    }

    /** `select->visited[select->visited_count++] = current_index`. */
    method Mark(current: int)
      requires Valid() && 0 <= current < visited.Length && current !in visited[..visitedCount]
      modifies this, visited
      ensures Valid()
      ensures visitedCount == old(visitedCount) + 1 && visited[..visitedCount] == old(visited[..visitedCount]) + [current]
      ensures selectedCount == old(selectedCount)
    {
      ghost var before := visited[..visitedCount];
      ghost var chosen := selection[..selectedCount];
      VisitKeeps(before, chosen, cells, width, initial, accepts, current);
      visited[visitedCount] := current;
      visitedCount := visitedCount + 1;
      assert visited[..visitedCount] == before + [current];
      assert selection[..selectedCount] == chosen;
    }

    /** `select->selection[select->selected_count++] = current_index`. */
    method Pick(current: int, ghost from: int)
      requires Valid() && 0 <= selectedCount < visitedCount
      requires current in visited[..visitedCount] && current !in selection[..selectedCount]
      requires 0 <= current < |cells| && accepts(initial, cells[current])
      requires selectedCount == 0 || (0 <= from < selectedCount && Adjacent(selection[from], current, width))
      modifies this, selection
      ensures Valid()
      ensures selectedCount == old(selectedCount) + 1 && selection[..selectedCount] == old(selection[..selectedCount]) + [current]
      ensures visitedCount == old(visitedCount)
    {
      ghost var before := selection[..selectedCount];
      ghost var seen := visited[..visitedCount];
      PickKeeps(seen, before, cells, width, initial, accepts, current, from);
      selection[selectedCount] := current;
      selectedCount := selectedCount + 1;
      assert selection[..selectedCount] == before + [current];
      assert visited[..visitedCount] == seen;
    }

    /**
     * The first half of `_try_select`: the clamped cell, when not yet
     * visited, is marked visited, and when the predicate also accepts it
     * against the start value it is selected.
     */
    method Enter(x: int, y: int, ghost from: int) returns (cx: int, cy: int, picked: bool)
      requires Valid()
      requires selectedCount == 0 ||
        (0 <= from < selectedCount && var c := ClampedIndex(x, y, width, height);
         c == selection[from] || Adjacent(selection[from], c, width))
      modifies this, visited, selection
      ensures Valid()
      ensures cx == Clamp(x, 0, width - 1) && cy == Clamp(y, 0, height - 1)
      ensures var c := ClampedIndex(x, y, width, height);
        picked <==> c !in old(visited[..visitedCount]) && accepts(initial, cells[c])
      ensures old(visited[..visitedCount]) <= visited[..visitedCount]
      ensures visitedCount <= old(visitedCount) + 1
      ensures picked ==> (visitedCount == old(visitedCount) + 1 &&
        selection[..selectedCount] == old(selection[..selectedCount]) + [ClampedIndex(x, y, width, height)])
      ensures !picked ==> selection[..selectedCount] == old(selection[..selectedCount])
    {
      cx, cy := Clamp(x, 0, width - 1), Clamp(y, 0, height - 1);
      var current := ClampedIndex(x, y, width, height);
      var seen := IsVisited(current);
      if seen {
        return cx, cy, false;
      }
      assert current !in selection[..selectedCount];
      Mark(current);
      if !accepts(initial, cells[current]) {
        return cx, cy, false;
      }
      Pick(current, from);
      picked := true;
    }

    /**
     * `_try_select`: after `Enter` selects the clamped cell, its left,
     * right, lower and upper neighbours are tried in turn (two by two, in
     * `Spread`). The number of cells selected by the call is returned. A
     * selected cell other than the first is next to the cell the recursion
     * came from (`from`).
     */
    method TrySelect(x: int, y: int, ghost from: int) returns (added: nat)
      requires Valid()
      requires selectedCount == 0 ||
        (0 <= from < selectedCount && var c := ClampedIndex(x, y, width, height);
         c == selection[from] || Adjacent(selection[from], c, width))
      modifies this, visited, selection
      decreases 2 * (visited.Length - visitedCount) + 1
      ensures Valid()
      ensures old(visitedCount) <= visitedCount
      ensures old(selection[..selectedCount]) <= selection[..selectedCount]
      ensures selectedCount == old(selectedCount) + added
      ensures var c := ClampedIndex(x, y, width, height);
        added > 0 <==> c !in old(visited[..visitedCount]) && accepts(initial, cells[c])
      ensures added > 0 ==> selection[old(selectedCount)] == ClampedIndex(x, y, width, height)
    {
      var cx, cy, picked := Enter(x, y, from);
      if !picked {
        return 0;
      }
      ghost var me := selectedCount - 1;
      ghost var entered := selection[..selectedCount];
      assert me == old(selectedCount) && entered[me] == ClampedIndex(x, y, width, height);
      NeighbourClamped(cx, cy, cx - 1, cy, width, height);
      NeighbourClamped(cx, cy, cx + 1, cy, width, height);
      var a := Spread(cx - 1, cy, cx + 1, cy, me);
      NeighbourClamped(cx, cy, cx, cy - 1, width, height);
      NeighbourClamped(cx, cy, cx, cy + 1, width, height);
      var b := Spread(cx, cy - 1, cx, cy + 1, me);
      added := 1 + a + b;
      assert entered <= selection[..selectedCount];
    }

    /** Two of `_try_select`'s neighbour calls, from the selected cell `me`. */
    method Spread(x1: int, y1: int, x2: int, y2: int, ghost me: int) returns (added: nat)
      requires Valid() && 0 <= me < selectedCount
      requires var c := ClampedIndex(x1, y1, width, height); c == selection[me] || Adjacent(selection[me], c, width)
      requires var c := ClampedIndex(x2, y2, width, height); c == selection[me] || Adjacent(selection[me], c, width)
      modifies this, visited, selection
      decreases 2 * (visited.Length - visitedCount) + 2
      ensures Valid()
      ensures old(visitedCount) <= visitedCount
      ensures old(selection[..selectedCount]) <= selection[..selectedCount]
      ensures selectedCount == old(selectedCount) + added
    {
      ghost var current := selection[me];
      var a := TrySelect(x1, y1, me);
      assert selection[me] == current;
      var b := TrySelect(x2, y2, me);
      added := a + b;
    }
  }
}
