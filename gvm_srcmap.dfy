/**
 * `gvm/gvm_srcmap.c`: an open-addressing hash map from source references
 * to values, probed linearly from the key's hash. A slot is empty when its
 * key has no source. Before every insertion the map is rebuilt at double
 * the required size once it is more than four fifths full.
 *
 * `srcmap_t` and `srcmap_value_t` are not declared in the headers of this
 * revision; a value here is an integer (the tokenizer stores token types).
 * `srcref_t` is that of `gvm/gvm_ast.h`.
 */
module GvmSrcmap {
  import opened Wrappers
  import opened ShUtils

  /** `size_t` arithmetic wraps modulo 2^64. */
  const SizeModulus: nat := 0x1_0000_0000_0000_0000

  /** `srcref_t` of `gvm/gvm_ast.h`: a text (NULL when absent) and a range of it. */
  datatype Srcref = Srcref(source: Option<seq<char>>, start: nat, end: nat)

  /** The zeroed reference that marks an empty slot. */
  const NoRef: Srcref := Srcref(None, 0, 0)

  /** A reference into its text: the range lies inside it. */
  predicate SrcrefWf(r: Srcref) {
    r.source.Some? && r.start <= r.end <= |r.source.value|
  }

  /** `srcref_len` of a well-formed reference. */
  function Len(r: Srcref): nat {
    if r.end >= r.start then r.end - r.start else 0
  }

  /** The characters from the reference's first one on: what `srcref_to_str` points at. */
  function Text(r: Srcref): seq<char> {
    if r.source.Some? && r.start <= |r.source.value| then r.source.value[r.start..] else []
  }

  /** `srcref_equals`: equal lengths, and `strncmp` over that length agrees. */
  predicate SrcrefEquals(a: Srcref, b: Srcref) {
    Len(a) == Len(b) && StrNEqual(Text(a), Text(b), Len(a))
  }

  /** Every reference equals itself. */
  lemma SrcrefEqualsRefl(a: Srcref)
    ensures SrcrefEquals(a, a)
  {
    StrNEqualMeaning(Text(a), Text(a), Len(a));
  }

  /** One step of `srcmap_hash`: `hash += (hash + c) * 7919` in `size_t`. */
  function HashStep(h: nat, c: char): nat {
    (h + (h + c as int) * 7919) % SizeModulus
  }

  /** The hash after the first `n` characters of `text`, from `h`. */
  function HashPrefix(h: nat, text: seq<char>, n: nat): nat
    decreases n
  {
    if n == 0 then h else HashStep(HashPrefix(h, text, n - 1), At(text, n - 1))
  }

  /** `srcmap_hash`: from length plus five, over the reference's characters. */
  function HashOf(r: Srcref): nat {
    HashPrefix(Len(r) + 5, Text(r), Len(r))
  }

  /** `srcmap_hash`, by its loop. */
  method Hash(r: Srcref) returns (h: nat)
    ensures h == HashOf(r)
  {
    var len := Len(r);
    var text := Text(r);
    h := len + 5;
    var i := 0;
    while i < len
      invariant 0 <= i <= len && h == HashPrefix(len + 5, text, i)
    {
      h := HashStep(h, At(text, i));
      i := i + 1;
    }
  }

  /** The slot visited at step `j` of the probe sequence from `start`. */
  function SlotIndex(n: nat, start: nat, j: nat): (t: nat)
    requires n > 0
    ensures t < n
  {
    (j + start) % n
  }

  /** The key at step `j` of the probe sequence from `start`. */
  function Slot(keys: seq<Srcref>, start: nat, j: nat): Srcref
    requires |keys| > 0
  {
    keys[SlotIndex(|keys|, start, j)]
  }

  /** The result of the probe loop of `srcmap_insert`. */
  datatype Probed = Free(index: nat) | Duplicate(index: nat) | Full

  /** The probe loop of `srcmap_insert` from step `i`: the first empty slot, unless an equal key comes first. */
  function InsertFrom(keys: seq<Srcref>, key: Srcref, start: nat, i: nat): (r: Probed)
    requires |keys| > 0
    ensures r.Free? ==> r.index < |keys| && keys[r.index].source.None?
    ensures r.Duplicate? ==> r.index < |keys| && keys[r.index].source.Some? && SrcrefEquals(keys[r.index], key)
    decreases |keys| - i
  {
    if i >= |keys| then Full
    else
      var t := SlotIndex(|keys|, start, i);
      if keys[t].source.None? then Free(t)
      else if SrcrefEquals(keys[t], key) then Duplicate(t)
      else InsertFrom(keys, key, start, i + 1)
  }

  /** The loop of `srcmap_lookup` from step `i`: the slot of an equal key, or none at the first empty slot. */
  function LookupFrom(keys: seq<Srcref>, key: Srcref, start: nat, i: nat): (r: Option<nat>)
    requires |keys| > 0
    ensures r.Some? ==> r.value < |keys| && keys[r.value].source.Some? && SrcrefEquals(keys[r.value], key)
    decreases |keys| - i
  {
    if i >= |keys| then None
    else
      var t := SlotIndex(|keys|, start, i);
      if keys[t].source.None? then None
      else if SrcrefEquals(keys[t], key) then Some(t)
      else LookupFrom(keys, key, start, i + 1)
  }

  /** A key placed where the insertion probe stopped is found by a lookup from the same start. */
  lemma {:induction false} InsertThenLookup(keys: seq<Srcref>, key: Srcref, start: nat, i: nat, idx: nat)
    requires |keys| > 0 && key.source.Some? && InsertFrom(keys, key, start, i) == Free(idx)
    ensures LookupFrom(keys[idx := key], key, start, i) == Some(idx)
    decreases |keys| - i
  {
    var t := SlotIndex(|keys|, start, i);
    if keys[t].source.None? {
      SrcrefEqualsRefl(key);
    } else {
      assert t != idx;
      InsertThenLookup(keys, key, start, i + 1, idx);
    }
  }

  /** A found slot is reached over occupied slots of unequal keys. */
  lemma {:induction false} LookupHitMeaning(keys: seq<Srcref>, key: Srcref, start: nat, i: nat)
    requires |keys| > 0 && LookupFrom(keys, key, start, i).Some?
    ensures exists j :: (i <= j < |keys| && LookupFrom(keys, key, start, i).value == SlotIndex(|keys|, start, j) &&
      forall k :: i <= k < j ==> Slot(keys, start, k).source.Some? && !SrcrefEquals(Slot(keys, start, k), key))
    decreases |keys| - i
  {
    var t := SlotIndex(|keys|, start, i);
    if keys[t].source.None? || SrcrefEquals(keys[t], key) {
      assert i <= i < |keys| && LookupFrom(keys, key, start, i).value == SlotIndex(|keys|, start, i);
    } else {
      LookupHitMeaning(keys, key, start, i + 1);
      var j :| i + 1 <= j < |keys| && LookupFrom(keys, key, start, i + 1).value == SlotIndex(|keys|, start, j) &&
        forall k :: i + 1 <= k < j ==> Slot(keys, start, k).source.Some? && !SrcrefEquals(Slot(keys, start, k), key);
      assert forall k :: i <= k < j ==> Slot(keys, start, k).source.Some? && !SrcrefEquals(Slot(keys, start, k), key);
    }
  }

  /** A lookup that finds nothing met no equal key before the first empty slot. */
  lemma {:induction false} LookupMissMeaning(keys: seq<Srcref>, key: Srcref, start: nat, i: nat)
    requires |keys| > 0 && LookupFrom(keys, key, start, i).None?
    ensures forall j :: i <= j < |keys| && (forall k :: i <= k <= j ==> Slot(keys, start, k).source.Some?) ==>
      !SrcrefEquals(Slot(keys, start, j), key)
    decreases |keys| - i
  {
    if i < |keys| && Slot(keys, start, i).source.Some? {
      LookupMissMeaning(keys, key, start, i + 1);
    }
  }

  /** The key-value pairs held in the occupied slots. */
  function EntriesOf(keys: seq<Srcref>, values: seq<int>): set<(Srcref, int)>
    requires |keys| == |values|
  {
    set k | 0 <= k < |keys| && keys[k].source.Some? :: (keys[k], values[k])
  }

  /** Filling an empty slot adds exactly its pair. */
  lemma EntriesOfPlace(keys: seq<Srcref>, values: seq<int>, idx: nat, key: Srcref, val: int)
    requires |keys| == |values| && idx < |keys| && keys[idx].source.None? && key.source.Some?
    ensures EntriesOf(keys[idx := key], values[idx := val]) == EntriesOf(keys, values) + {(key, val)}
  {
    var a := EntriesOf(keys[idx := key], values[idx := val]);
    var b := EntriesOf(keys, values) + {(key, val)};
    forall e | e in a ensures e in b {
      var k :| 0 <= k < |keys| && keys[idx := key][k].source.Some? && e == (keys[idx := key][k], values[idx := val][k]);
      if k != idx {
        assert e == (keys[k], values[k]);
      }
    }
    forall e | e in b ensures e in a {
      if e != (key, val) {
        var k :| 0 <= k < |keys| && keys[k].source.Some? && e == (keys[k], values[k]);
        assert k != idx;
        assert e == (keys[idx := key][k], values[idx := val][k]);
      } else {
        assert e == (keys[idx := key][idx], values[idx := val][idx]);
      }
    }
  }

  /** The pairs of a prefix grow by the next slot's pair when it is occupied. */
  lemma EntriesOfSnoc(keys: seq<Srcref>, values: seq<int>, i: nat)
    requires |keys| == |values| && i < |keys|
    ensures EntriesOf(keys[..i + 1], values[..i + 1]) ==
      EntriesOf(keys[..i], values[..i]) + (if keys[i].source.Some? then {(keys[i], values[i])} else {})
  {
    var a := EntriesOf(keys[..i + 1], values[..i + 1]);
    var b := EntriesOf(keys[..i], values[..i]) + (if keys[i].source.Some? then {(keys[i], values[i])} else {});
    forall e | e in a ensures e in b {
      var k :| 0 <= k < i + 1 && keys[..i + 1][k].source.Some? && e == (keys[..i + 1][k], values[..i + 1][k]);
      if k < i {
        assert e == (keys[..i][k], values[..i][k]);
      }
    }
    forall e | e in b ensures e in a {
      if keys[i].source.Some? && e == (keys[i], values[i]) {
        assert e == (keys[..i + 1][i], values[..i + 1][i]);
      } else {
        var k :| 0 <= k < i && keys[..i][k].source.Some? && e == (keys[..i][k], values[..i][k]);
        assert e == (keys[..i + 1][k], values[..i + 1][k]);
      }
    }
  }

  /** No slot occupied, no pairs. */
  lemma EntriesOfEmpty(keys: seq<Srcref>, values: seq<int>)
    requires |keys| == |values| && forall k :: 0 <= k < |keys| ==> keys[k].source.None?
    ensures EntriesOf(keys, values) == {}
  {
  }

  /** The growth test of `srcmap_ensure_capacity`: at most five fourths of the required count. */
  predicate MustGrow(capacity: nat, required: nat) {
    capacity <= required + required / 4
  }

  /** `srcmap_t`. */
  class SrcMap {
    var capacity: nat
    var count: nat
    var keys: array<Srcref>
    var values: array<int>

    ghost predicate Valid()
      reads this
    {
      keys.Length == capacity && values.Length == capacity
    }

    /** The pairs the map holds. */
    ghost function Entries(): set<(Srcref, int)>
      reads this, keys, values
      requires Valid()
    {
      EntriesOf(keys[..], values[..])
    }

    /** `srcmap_init` (allocation failure is not modelled): every key zeroed. */
    constructor (initialCapacity: nat)
      ensures Valid() && capacity == initialCapacity && count == 0 && fresh(keys) && fresh(values)
      ensures forall k :: 0 <= k < capacity ==> keys[k] == NoRef
      ensures Entries() == {}
    {
      capacity := initialCapacity;
      count := 0;
      keys := new Srcref[initialCapacity](_ => NoRef);
      values := new int[initialCapacity](_ => 0);
      new;
      EntriesOfEmpty(keys[..], values[..]);
    }

    /** `srcmap_destroy`: both blocks freed, capacity and count zero. */
    method Destroy()
      modifies this
      ensures Valid() && capacity == 0 && count == 0 && Entries() == {}
    {
      keys := new Srcref[0];
      values := new int[0];
      capacity, count := 0, 0;
    }

    /** `srcmap_clear`: every key zeroed, count zero. */
    method Clear()
      requires Valid()
      modifies keys, this
      ensures Valid() && count == 0 && capacity == old(capacity) && keys == old(keys) && values == old(values)
      ensures forall k :: 0 <= k < capacity ==> keys[k] == NoRef
      ensures Entries() == {}
    {
      var i := 0;
      while i < keys.Length
        invariant 0 <= i <= keys.Length && Valid() && capacity == old(capacity)
        invariant keys == old(keys) && values == old(values)
        invariant forall k :: 0 <= k < i ==> keys[k] == NoRef
      {
        keys[i] := NoRef;
        i := i + 1;
      }
      count := 0;
      EntriesOfEmpty(keys[..], values[..]);
    }

    /**
     * The probe loop of `srcmap_insert`, on a map with room: the first
     * empty slot from the key's hash receives the key and the value, unless
     * an equal key is met first or every slot is occupied.
     */
    method Place(key: Srcref, val: int) returns (ok: bool)
      requires Valid() && capacity > 0 && key.source.Some?
      modifies this, keys, values
      ensures Valid() && keys == old(keys) && values == old(values) && capacity == old(capacity)
      ensures var p := InsertFrom(old(keys[..]), key, HashOf(key) % capacity, 0);
        (ok <==> p.Free?) &&
        (p.Free? ==> (keys[..] == old(keys[..])[p.index := key] && values[..] == old(values[..])[p.index := val] &&
          count == old(count) + 1)) &&
        (!p.Free? ==> keys[..] == old(keys[..]) && values[..] == old(values[..]) && count == old(count))
    {
      var hk := Hash(key);
      var start := hk % capacity;
      var i := 0;
      while i < capacity
        invariant 0 <= i <= capacity
        invariant InsertFrom(keys[..], key, start, 0) == InsertFrom(keys[..], key, start, i)
      {
        var t := SlotIndex(capacity, start, i);
        if keys[t].source.None? {
          values[t] := val;
          keys[t] := key;
          count := count + 1;
          return true;
        } else if SrcrefEquals(keys[t], key) {
          return false;
        }
        i := i + 1;
      }
      return false;
    }

    /**
     * The rebuilding loop of `srcmap_ensure_capacity`: a new map of twice
     * the required count receives every occupied slot, again in slot order;
     * it fails when an insertion fails or the new count reaches the required
     * one. This map is left as it is.
     */
    method Rebuild(required: nat) returns (ok: bool, newMap: SrcMap)
      requires Valid() && MustGrow(capacity, required)
      ensures fresh(newMap) && fresh(newMap.keys) && fresh(newMap.values) && newMap.Valid()
      ensures ok ==> newMap.capacity == 2 * required && newMap.Entries() == Entries()
      ensures ok ==> newMap.count < required || newMap.count == 0
    {
      var newCapacity := required * 2;
      newMap := new SrcMap(newCapacity);
      var i := 0;
      while i < capacity
        invariant 0 <= i <= capacity
        invariant fresh(newMap) && fresh(newMap.keys) && fresh(newMap.values)
        invariant newMap.Valid() && newMap.capacity == newCapacity
        invariant newMap.count < required || newMap.count == 0
        invariant newMap.Entries() == EntriesOf(keys[..i], values[..i])
      {
        EntriesOfSnoc(keys[..], values[..], i);
        assert keys[..i + 1][..i] == keys[..i] && values[..i + 1][..i] == values[..i];
        if keys[i].source.None? {
          i := i + 1;
          continue;
        }
        // `srcmap_insert` on the new map: its own `srcmap_ensure_capacity` finds room, so only the probe runs
        assert !MustGrow(newMap.capacity, newMap.count + 1);
        ghost var k0, v0 := newMap.keys[..], newMap.values[..];
        var insertOk := newMap.Place(keys[i], values[i]);
        if insertOk {
          var p := InsertFrom(k0, keys[i], HashOf(keys[i]) % newMap.capacity, 0);
          EntriesOfPlace(k0, v0, p.index, keys[i], values[i]);
        }
        var countOk := newMap.count < required;
        if !insertOk || !countOk {
          return false, newMap;
        }
        i := i + 1;
      }
      assert keys[..capacity] == keys[..] && values[..capacity] == values[..];
      return true, newMap;
    }

    /**
     * `srcmap_ensure_capacity`: a map that must grow is replaced by the one
     * `Rebuild` makes, unless that fails, which answers false and leaves the
     * map as it was. Either way the pairs are the same, and afterwards one
     * more key does not make the map grow.
     */
    method EnsureCapacity(additional: nat) returns (ok: bool)
      requires Valid()
      modifies this
      ensures Valid() && Entries() == old(Entries())
      ensures !ok ==> keys == old(keys) && values == old(values) && capacity == old(capacity) && count == old(count)
      ensures !MustGrow(old(capacity), old(count) + additional) ==>
        ok && keys == old(keys) && values == old(values) && capacity == old(capacity) && count == old(count)
      ensures MustGrow(old(capacity), old(count) + additional) && ok ==>
        capacity == 2 * (old(count) + additional) && fresh(keys) && fresh(values) &&
        (count < old(count) + additional || count == 0)
      ensures ok ==> !MustGrow(capacity, count + 1) || additional == 0
    {
      var required := count + additional;
      if !MustGrow(capacity, required) {
        return true;
      }
      var rebuilt, newMap := Rebuild(required);
      if !rebuilt {
        return false;
      }
      keys, values, capacity, count := newMap.keys, newMap.values, newMap.capacity, newMap.count;
      return true;
    }

    /**
     * `srcmap_insert`: room is made first (a failure answers false), then the
     * key goes to the first empty slot of its probe sequence unless an equal
     * key is met first; a placed key is then found by `srcmap_lookup`.
     */
    method Insert(key: Srcref, val: int) returns (ok: bool)
      requires Valid() && key.source.Some?
      modifies this, keys, values
      ensures Valid()
      ensures ok ==> Entries() == old(Entries()) + {(key, val)}
      ensures !ok ==> Entries() == old(Entries())
      ensures ok ==> capacity > 0 && var r := LookupFrom(keys[..], key, HashOf(key) % capacity, 0);
        r.Some? && values[r.value] == val
    {
      var grown := EnsureCapacity(1);
      if !grown {
        return false;
      }
      assert capacity > 0;
      ghost var k0 := keys[..];
      ghost var v0 := values[..];
      ok := Place(key, val);
      var p := InsertFrom(k0, key, HashOf(key) % capacity, 0);
      if ok {
        EntriesOfPlace(k0, v0, p.index, key, val);
        InsertThenLookup(k0, key, HashOf(key) % capacity, 0, p.index);
      }
    }

    /** `srcmap_lookup`: the slot holding an equal key, or none; a map of capacity zero divides by zero. */
    method Lookup(key: Srcref) returns (r: Result<Option<nat>, Abort>)
      requires Valid()
      ensures capacity == 0 ==> r == Err(DivisionByZero)
      ensures capacity > 0 ==> r == Ok(LookupFrom(keys[..], key, HashOf(key) % capacity, 0))
    {
      var hk := Hash(key);
      if capacity == 0 {
        return Err(DivisionByZero);
      }
      var start := hk % capacity;
      ghost var ks := keys[..];
      var i := 0;
      while i < capacity
        invariant 0 <= i <= capacity
        invariant LookupFrom(ks, key, start, 0) == LookupFrom(ks, key, start, i)
      {
        var t := SlotIndex(capacity, start, i);
        assert keys[t] == ks[t];
        if keys[t].source.None? {
          return Ok(None);
        }
        if SrcrefEquals(keys[t], key) {
          return Ok(Some(t));
        }
        i := i + 1;
      }
      return Ok(None);
    }
  }
}
