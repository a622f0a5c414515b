/**
 * `co_utils.c`: the compiler's growable byte and value buffers (the value
 * buffer de-duplicates constants), the decoding of a quoted string literal
 * into character values, and the helpers over source references.
 *
 * `srcref_is_valid` is not part of this model; it is taken to mean that the
 * reference has a source.
 */
module CoUtils {
  import opened Wrappers
  import opened CoTypes
  import opened ShValue
  import ShUtils

  /** `realloc`: a new block of `n` cells whose first `keep` cells are those of `a`. */
  method Realloc<T(0)>(a: array<T>, keep: nat, n: nat) returns (b: array<T>)
    requires keep <= a.Length && keep <= n
    ensures fresh(b) && b.Length == n && b[..keep] == a[..keep]
  {
    b := new T[n];
    var i := 0;
    while i < keep
      invariant 0 <= i <= keep
      invariant b[..i] == a[..i]
    {
      b[i] := a[i];
      i := i + 1;
    }
  }

  /** The low byte of a C `int` argument (`& 0xFF`). */
  function LowByte(x: int): bv8 {
    (x % 256) as bv8
  }

  /** The low byte read back as a number is the remainder by 256. */
  lemma LowByteValue(x: int)
    ensures LowByte(x) as int == x % 256
  {
    ShUtils.ByteRoundTrip(x % 256);
  }

  /** The bit pattern of a character of the source text as a C `char`. */
  function CharByte(c: char): CChar {
    ((c as int) % 256) as bv8
  }

  /** `u8buffer_t`: a byte block, its capacity and the number of bytes written. */
  class U8Buffer {
    var data: array<bv8>
    var size: nat
    var capacity: nat

    ghost predicate Valid()
      reads this
    {
      capacity == data.Length && size <= capacity
    }

    /** The bytes written so far. */
    function Contents(): seq<bv8>
      reads this, data
      requires Valid()
    {
      data[..size]
    }

    /** `u8buffer_create`. */
    constructor (capacity: nat)
      ensures Valid() && Contents() == [] && this.capacity == capacity && fresh(data)
    {
      data := new bv8[capacity];
      size := 0;
      this.capacity := capacity;
    }

    /** `u8buffer_clear`: forgets the bytes, keeps the block. */
    method Clear()
      requires Valid()
      modifies this
      ensures Valid() && Contents() == [] && capacity == old(capacity) && data == old(data)
    {
      size := 0;
    }

    /**
     * `u8buffer_ensure_capacity`: when the bytes already written plus
     * `additional` reach the capacity, the block grows to twice that sum.
     */
    method EnsureCapacity(additional: nat)
      requires Valid()
      modifies this
      ensures Valid() && size == old(size) && Contents() == old(Contents())
      ensures old(size) + additional >= old(capacity) ==> capacity == (old(size) + additional) * 2
      ensures old(size) + additional < old(capacity) ==> capacity == old(capacity) && data == old(data)
      ensures data == old(data) || fresh(data)
      ensures size + additional <= capacity && (size + additional > 0 ==> size + additional < capacity)
    {
      var required := size + additional;
      if required >= capacity {
        data := Realloc(data, size, required * 2);
        capacity := required * 2;
      }
    }

    /** `u8buffer_write`: makes room for one byte and appends it. */
    method Write(b: bv8)
      requires Valid()
      modifies this, data
      ensures Valid() && Contents() == old(Contents()) + [b] && size < capacity
      ensures data == old(data) || fresh(data)
    {
      EnsureCapacity(1);
      data[size] := b;
      size := size + 1;
    }

    /** `u8buffer_write_multiple`: makes room for all, then appends the low byte of each argument. */
    method WriteMultiple(args: seq<int>)
      requires Valid()
      modifies this, data
      ensures Valid() && Contents() == old(Contents()) + seq(|args|, k requires 0 <= k < |args| => LowByte(args[k]))
    {
      EnsureCapacity(|args|);
      ghost var before := Contents();
      var i := 0;
      while i < |args|
        invariant 0 <= i <= |args| && Valid() && size == |before| + i && size + |args| - i <= capacity
        invariant Contents() == before + seq(i, k requires 0 <= k < i => LowByte(args[k]))
        invariant data == old(data) || fresh(data)
      {
        data[size] := LowByte(args[i]);
        size := size + 1;
        i := i + 1;
      }
    }

    /** `u8buffer_destroy`: releases the block; the buffer is then empty with no capacity. */
    method Destroy()
      modifies this
      ensures Valid() && Contents() == [] && capacity == 0
    {
      data := new bv8[0];
      capacity := 0;
      size := 0;
    }
  }

  predicate NoDuplicates(s: seq<Val>) {
    forall i, j :: 0 <= i < j < |s| ==> s[i] != s[j]
  }

  /** `valbuffer_t`: the constants of a program being compiled. */
  class ValBuffer {
    var values: array<Val>
    var size: nat
    var capacity: nat

    ghost predicate Valid()
      reads this
    {
      capacity == values.Length && size <= capacity
    }

    function Contents(): seq<Val>
      reads this, values
      requires Valid()
    {
      values[..size]
    }

    /** `valbuffer_create`. */
    constructor (capacity: nat)
      ensures Valid() && Contents() == [] && this.capacity == capacity
    {
      values := new Val[capacity];
      size := 0;
      this.capacity := capacity;
    }

    /** `valbuffer_clear`. */
    method Clear()
      requires Valid()
      modifies this
      ensures Valid() && Contents() == [] && capacity == old(capacity) && values == old(values)
    {
      size := 0;
    }

    /**
     * `valbuffer_append`: a full buffer grows to twice its size, then the
     * value is written after the last one. A buffer created with capacity
     * zero stays at zero, and its first write lands outside the block.
     */
    method Append(value: Val) returns (r: Result<(), Abort>)
      requires Valid()
      modifies this, values
      ensures Valid()
      ensures r.Err? <==> old(size) == 0 && old(capacity) == 0
      ensures r.Err? ==> r.error == OutOfBounds && Contents() == old(Contents())
      ensures r.Ok? ==> Contents() == old(Contents()) + [value]
      ensures r.Ok? && old(size) >= old(capacity) ==> capacity == old(size) * 2
      ensures r.Ok? && old(size) < old(capacity) ==> capacity == old(capacity) && values == old(values)
      ensures values == old(values) || fresh(values)
    {
      if size >= capacity {
        if size * 2 <= size {
          return Err(OutOfBounds);
        }
        values := Realloc(values, size, size * 2);
        capacity := size * 2;
      }
      values[size] := value;
      size := size + 1;
      r := Ok(());
    }

    /** `valbuffer_destroy`. */
    method Destroy()
      modifies this
      ensures Valid() && Contents() == [] && capacity == 0
    {
      values := new Val[0];
      capacity := 0;
      size := 0;
    }

    /** `valbuffer_linear_search`: the first index holding the value, if any. */
    method LinearSearch(value: Val) returns (found: bool, index: nat)
      requires Valid()
      ensures found <==> value in Contents()
      ensures found ==> index < |Contents()| && Contents()[index] == value && value !in Contents()[..index]
    {
      var i := 0;
      while i < size
        invariant 0 <= i <= size
        invariant value !in values[..i]
      {
        if values[i] == value {
          assert values[..i + 1] == values[..i] + [values[i]];
          return true, i;
        }
        assert values[..i + 1] == values[..i] + [values[i]];
        i := i + 1;
      }
      return false, 0;
    }

    /**
     * `valbuffer_insert`: the index of an equal value already held, or else
     * the value is appended and its new index returned. A buffer without
     * duplicates keeps none.
     */
    method Insert(value: Val) returns (r: Result<nat, Abort>)
      requires Valid()
      modifies this, values
      ensures Valid()
      ensures value in old(Contents()) ==> r.Ok? && Contents() == old(Contents())
      ensures value in old(Contents()) ==> r.Ok? && r.value < |Contents()| && Contents()[r.value] == value
      ensures value in old(Contents()) ==> r.Ok? && value !in Contents()[..r.value]
      ensures value !in old(Contents()) && r.Ok? ==> Contents() == old(Contents()) + [value] && r.value == old(size)
      ensures r.Err? <==> value !in old(Contents()) && old(size) == 0 && old(capacity) == 0
      ensures r.Ok? && NoDuplicates(old(Contents())) ==> NoDuplicates(Contents())
    {
      var found, index := LinearSearch(value);
      if found {
        return Ok(index);
      }
      var a := Append(value);
      if a.Err? {
        return Err(a.error);
      }
      r := Ok(size - 1);
    }

    /** `valbuffer_insert_char`. */
    method InsertChar(c: CChar) returns (r: Result<nat, Abort>)
      requires Valid()
      modifies this, values
      ensures Valid()
      ensures r.Ok? ==> r.value < |Contents()| && Contents()[r.value] == ValChar(c)
      ensures r.Ok? ==> Contents() == old(Contents()) || Contents() == old(Contents()) + [ValChar(c)]
    {
      r := Insert(ValChar(c));
    }

    /** `valbuffer_insert_bool`. */
    method InsertBool(b: bool) returns (r: Result<nat, Abort>)
      requires Valid()
      modifies this, values
      ensures Valid()
      ensures r.Ok? ==> r.value < |Contents()| && Contents()[r.value] == ValBool(b)
      ensures r.Ok? ==> Contents() == old(Contents()) || Contents() == old(Contents()) + [ValBool(b)]
    {
      r := Insert(ValBool(b));
    }

    /**
     * `valbuffer_append_array`: appends the values, then an array value
     * addressing them as constants from the old size on, and answers the
     * index of that array value.
     */
    method AppendArray(sequence: seq<Val>) returns (r: Result<nat, Abort>)
      requires Valid()
      modifies this, values
      ensures Valid()
      ensures r.Err? <==> old(size) == 0 && old(capacity) == 0
      ensures r.Ok? ==> Contents() == old(Contents()) + sequence + [ArrayValue(old(size), |sequence|)]
      ensures r.Ok? ==> r.value == old(size) + |sequence|
    {
      var start := size;
      ghost var before := Contents();
      var i := 0;
      while i < |sequence|
        invariant 0 <= i <= |sequence| && Valid() && size == |before| + i
        invariant Contents() == before + sequence[..i]
        invariant i == 0 ==> capacity == old(capacity)
        invariant old(size) == 0 && old(capacity) == 0 ==> i == 0
        invariant values == old(values) || fresh(values)
      {
        var a := Append(sequence[i]);
        if a.Err? {
          return Err(a.error);
        }
        i := i + 1;
      }
      assert sequence[..|sequence|] == sequence;
      var a := Append(ArrayValue(start, |sequence|));
      if a.Err? {
        return Err(a.error);
      }
      r := Ok(size - 1);
    }
  }

  /** The array value of `valbuffer_append_array`: a constant address of the start, and the length as a C `int`. */
  function ArrayValue(start: nat, length: nat): Val {
    ValArray(ArrayRef(MkConstAddr((start % 0x1_0000_0000) as bv32), (length % 0x1_0000_0000) as bv32))
  }

  // Strings

  /** The number of characters of `s` before the first `c`, or all of them. */
  function CountUntil(s: seq<char>, c: char): (n: nat)
    ensures n <= |s|
    ensures forall i :: 0 <= i < n ==> s[i] != c
    ensures n < |s| ==> s[n] == c
  {
    if s == [] || s[0] == c then 0 else 1 + CountUntil(s[1..], c)
  }

  /** `string_count_until`: the length of the C string up to the stop character. */
  method StringCountUntil(text: seq<char>, stop: char) returns (n: nat)
    ensures n == CountUntil(ShUtils.CStr(text), stop)
  {
    var len := ShUtils.CLen(text);
    var s := ShUtils.CStr(text);
    var i := 0;
    while i < len
      invariant 0 <= i <= len && |s| == len
      invariant CountUntil(s, stop) >= i
    {
      if text[i] == stop {
        assert s[i] == stop;
        return i;
      }
      i := i + 1;
    }
    return len;
  }

  predicate IsEscapeChar(c: char) {
    c == 'n' || c == 't' || c == '\\'
  }

  function Escaped(c: char): char
    requires IsEscapeChar(c)
  {
    if c == 'n' then '\n' else if c == 't' then '\t' else '\\'
  }

  /** Un-escaping: a backslash before `n`, `t` or a backslash stands for one character; any other character stands for itself. */
  function Unescape(s: seq<char>): seq<char>
    decreases |s|
  {
    if s == [] then []
    else if s[0] == '\\' && |s| >= 2 && IsEscapeChar(s[1]) then [Escaped(s[1])] + Unescape(s[2..])
    else [s[0]] + Unescape(s[1..])
  }

  predicate HasEscape(s: seq<char>) {
    exists i :: 0 <= i < |s| - 1 && s[i] == '\\' && IsEscapeChar(s[i + 1])
  }

  /** Un-escaping never lengthens a text, and shortens it exactly when the text holds an escape. */
  lemma {:induction false} UnescapeLength(s: seq<char>)
    ensures |Unescape(s)| <= |s|
    ensures |Unescape(s)| < |s| <==> HasEscape(s)
    decreases |s|
  {
    if s == [] {
    } else if s[0] == '\\' && |s| >= 2 && IsEscapeChar(s[1]) {
      UnescapeLength(s[2..]);
    } else {
      UnescapeLength(s[1..]);
      if HasEscape(s) {
        var i :| 0 <= i < |s| - 1 && s[i] == '\\' && IsEscapeChar(s[i + 1]);
        assert i >= 1;
        assert s[1..][i - 1] == '\\' && IsEscapeChar(s[1..][i]);
      }
      if HasEscape(s[1..]) {
        var i :| 0 <= i < |s[1..]| - 1 && s[1..][i] == '\\' && IsEscapeChar(s[1..][i + 1]);
        assert s[i + 1] == '\\' && IsEscapeChar(s[i + 2]);
      }
    }
  }

  /** The characters a quoted literal contributes: after the opening quote, up to the closing one, at most `capacity`. */
  function QuotedBody(text: seq<char>, capacity: nat): seq<char> {
    var body := ShUtils.CStr(ShUtils.Tail(text));
    var n := CountUntil(body, '"');
    var m := if n <= capacity then n else capacity;
    body[..m]
  }

  /** The un-escape loop over the first `len` characters of `text`. */
  method UnescapeLoop(text: seq<char>, len: nat) returns (out: seq<char>)
    requires len <= |text|
    ensures out == Unescape(text[..len])
  {
    var src := text[..len];
    out := [];
    var r := 0;
    assert src[r..] == src;
    while r < len
      invariant 0 <= r <= len
      invariant out + Unescape(src[r..]) == Unescape(src)
      decreases len - r
    {
      UnescapeAt(src, r);
      var step := if src[r] == '\\' && r + 1 < len && IsEscapeChar(src[r + 1]) then 2 else 1;
      var c := if step == 2 then Escaped(src[r + 1]) else src[r];
      assert Unescape(src[r..]) == [c] + Unescape(src[r + step..]);
      assert (out + [c]) + Unescape(src[r + step..]) == out + ([c] + Unescape(src[r + step..]));
      out := out + [c];
      r := r + step;
    }
    assert src[r..] == [];
  }

  /** One step of un-escaping from position `r`. */
  lemma UnescapeAt(src: seq<char>, r: nat)
    requires r < |src|
    ensures src[r] == '\\' && r + 1 < |src| && IsEscapeChar(src[r + 1]) ==>
      Unescape(src[r..]) == [Escaped(src[r + 1])] + Unescape(src[r + 2..])
    ensures !(src[r] == '\\' && r + 1 < |src| && IsEscapeChar(src[r + 1])) ==>
      Unescape(src[r..]) == [src[r]] + Unescape(src[r + 1..])
  {
    assert src[r..][1..] == src[r + 1..];
    if r + 1 < |src| {
      assert src[r..][2..] == src[r + 2..];
    }
  }

  /**
   * `valbuffer_sequence_from_qouted_string` as written: the un-escaped body
   * as character values, and the length of the body before un-escaping.
   */
  method SequenceFromQuotedStringAsWritten(text: seq<char>, capacity: nat) returns (result: seq<Val>, len: nat)
    ensures result == CharValues(Unescape(QuotedBody(text, capacity)))
    ensures len == |QuotedBody(text, capacity)|
  {
    var body := ShUtils.Tail(text);
    var inLen := StringCountUntil(body, '"');
    var strLen := if inLen <= capacity then inLen else capacity;
    assert ShUtils.CStr(body)[..strLen] == body[..strLen];
    var chars := UnescapeLoop(body, strLen);
    result := CharValues(chars);
    len := strLen;
  }

  /** The same decoding, answering the number of values it wrote. */
  method SequenceFromQuotedString(text: seq<char>, capacity: nat) returns (result: seq<Val>, len: nat)
    ensures result == CharValues(Unescape(QuotedBody(text, capacity)))
    ensures len == |result| <= |QuotedBody(text, capacity)| <= capacity
  {
    var body := ShUtils.Tail(text);
    var inLen := StringCountUntil(body, '"');
    var strLen := if inLen <= capacity then inLen else capacity;
    assert ShUtils.CStr(body)[..strLen] == body[..strLen];
    var chars := UnescapeLoop(body, strLen);
    UnescapeLength(body[..strLen]);
    result := CharValues(chars);
    len := |result|;
  }

  /** `val_char` of each character. */
  function CharValues(s: seq<char>): (r: seq<Val>)
    ensures |r| == |s| && forall i :: 0 <= i < |s| ==> r[i] == ValChar(CharByte(s[i]))
  {
    seq(|s|, i requires 0 <= i < |s| => ValChar(CharByte(s[i])))
  }

  /**
   * As written, a literal whose body holds an escape reports more values
   * than it wrote: the caller then copies slots that were never written.
   * `"a\nb"` writes three values and reports four.
   */
  lemma QuotedLengthExceedsWritten(text: seq<char>, capacity: nat)
    ensures HasEscape(QuotedBody(text, capacity)) ==>
      |CharValues(Unescape(QuotedBody(text, capacity)))| < |QuotedBody(text, capacity)|
    ensures var t := ['"', 'a', '\\', 'n', 'b', '"'];
      QuotedBody(t, 6) == ['a', '\\', 'n', 'b'] && |Unescape(QuotedBody(t, 6))| == 3
  {
    UnescapeLength(QuotedBody(text, capacity));
    var t := ['"', 'a', '\\', 'n', 'b', '"'];
    var body := ['a', '\\', 'n', 'b', '"'];
    assert ShUtils.Tail(t) == body;
    ShUtils.CLenPadded(body, 0);
    assert ShUtils.CStr(body) == body;
    assert CountUntil(body, '"') == 4 by {
      assert body[1..][1..][1..][1..] == ['"'];
    }
    var b := ['a', '\\', 'n', 'b'];
    assert QuotedBody(t, 6) == b;
    assert Unescape(b) == ['a'] + Unescape(b[1..]);
    assert b[1..][2..] == ['b'];
  }

  // Source references

  /** `srcref`: `len` characters of `text` from `start`. */
  function MkSrcRef(text: Source, start: nat, len: nat): (r: SrcRef)
    ensures r.source == Some(text) && Len(r) == len && r.start == start
  {
    SrcRef(Some(text), start, start + len)
  }

  /** `srcref_const`: the whole of a C string. */
  function SrcRefConst(text: Source): (r: SrcRef)
    ensures Chars(r) == ShUtils.CStr(text.text)
  {
    var r := SrcRef(Some(text), 0, ShUtils.CLen(text.text));
    assert forall i :: 0 <= i < Len(r) ==> ShUtils.At(text.text, i) == text.text[i];
    r
  }

  /** `srcref_is_valid`. */
  predicate IsValid(r: SrcRef) {
    r.source.Some?
  }

  /** `srcref_len`: end minus start, or zero for a reversed reference. */
  function Len(r: SrcRef): nat {
    if r.end >= r.start then r.end - r.start else 0
  }

  /** The characters a valid reference points at (the terminator past the end of its text). */
  function Chars(r: SrcRef): (s: seq<char>)
    ensures |s| == Len(r)
  {
    if r.source.None? then seq(Len(r), _ => '\0')
    else seq(Len(r), i requires 0 <= i < Len(r) => ShUtils.At(r.source.value.text, r.start + i))
  }

  /** A reference inside its text points at exactly the slice between its bounds. */
  lemma CharsSlice(r: SrcRef)
    requires r.source.Some? && r.start <= r.end <= |r.source.value.text|
    ensures Chars(r) == r.source.value.text[r.start..r.end]
  {
    var t := r.source.value.text;
    forall i | 0 <= i < Len(r)
      ensures Chars(r)[i] == t[r.start..r.end][i]
    {
      assert ShUtils.At(t, r.start + i) == t[r.start + i];
    }
  }

  /** `srcref_ptr`: the source and the offset of the first character, or NULL. */
  function Ptr(r: SrcRef): (p: Option<(Source, nat)>)
    ensures p.Some? <==> IsValid(r)
    ensures p.Some? ==> p.value == (r.source.value, r.start)
  {
    if !IsValid(r) then None else Some((r.source.value, r.start))
  }

  /**
   * `srcref_combine`: references into different sources combine to the
   * empty reference, an invalid one gives way to the other, and otherwise
   * the result spans from the lower start to the higher end.
   */
  function Combine(a: SrcRef, b: SrcRef): SrcRef {
    if a.source != b.source then NoRef
    else if !IsValid(a) then b
    else if !IsValid(b) then a
    else SrcRef(a.source, if a.start < b.start then a.start else b.start, if a.end > b.end then a.end else b.end)
  }

  /** Two references into one source combine into one covering both, and no larger. */
  lemma CombineCovers(a: SrcRef, b: SrcRef)
    ensures a.source != b.source ==> Combine(a, b) == NoRef
    ensures a.source == b.source ==> Combine(a, b).source == a.source
    ensures a.source == b.source && IsValid(a) ==>
      Combine(a, b).start <= a.start && Combine(a, b).start <= b.start &&
      Combine(a, b).end >= a.end && Combine(a, b).end >= b.end &&
      (Combine(a, b).start == a.start || Combine(a, b).start == b.start) &&
      (Combine(a, b).end == a.end || Combine(a, b).end == b.end)
    ensures a.source == b.source && IsValid(a) ==> Combine(a, b) == Combine(b, a)
  {
  }

  /** `srcref_equals`: both valid, of one length, and `strncmp` over that length agrees. */
  predicate Equals(a: SrcRef, b: SrcRef) {
    IsValid(a) && IsValid(b) && Len(a) == Len(b) && ShUtils.StrNEqual(Chars(a), Chars(b), Len(a))
  }

  /** `srcref_equals_string`: valid, as long as the C string, and `strncmp` over that length agrees. */
  predicate EqualsString(a: SrcRef, s: seq<char>) {
    IsValid(a) && Len(a) == ShUtils.CLen(s) && ShUtils.StrNEqual(Chars(a), s, Len(a))
  }

  predicate NulFree(s: seq<char>) {
    forall i :: 0 <= i < |s| ==> s[i] != '\0'
  }

  /** On text without terminators the comparisons are equality of the characters. */
  lemma EqualsMeaning(a: SrcRef, b: SrcRef, s: seq<char>)
    requires NulFree(Chars(a)) && NulFree(Chars(b))
    ensures Equals(a, b) <==> IsValid(a) && IsValid(b) && Chars(a) == Chars(b)
    ensures EqualsString(a, s) <==> IsValid(a) && Chars(a) == ShUtils.CStr(s)
  {
    ShUtils.CLenPadded(Chars(a), 0);
    ShUtils.CLenPadded(Chars(b), 0);
    ShUtils.StrNEqualMeaning(Chars(a), Chars(b), Len(a));
    ShUtils.StrNEqualMeaning(Chars(a), s, Len(a));
  }

  /** `srcref_contains_char`: a valid reference holding the character. */
  method ContainsChar(r: SrcRef, c: char) returns (found: bool)
    ensures found <==> IsValid(r) && c in Chars(r)
  {
    if !IsValid(r) {
      return false;
    }
    var len := Len(r);
    var chars := Chars(r);
    var i := 0;
    while i < len
      invariant 0 <= i <= len
      invariant c !in chars[..i]
    {
      if ShUtils.At(r.source.value.text, r.start + i) == c {
        assert chars[i] == c;
        return true;
      }
      assert chars[..i + 1] == chars[..i] + [chars[i]];
      i := i + 1;
    }
    assert chars[..len] == chars;
    return false;
  }

  /** `srcref_as_bool`: `true` and `false` are read as booleans, anything else is not one. */
  function AsBool(r: SrcRef): (v: Option<bool>)
    ensures v == Some(true) <==> EqualsString(r, "true")
    ensures v == Some(false) <==> EqualsString(r, "false")
  {
    if !IsValid(r) then None
    else if EqualsString(r, "true") then Some(true)
    else if EqualsString(r, "false") then Some(false)
    else None
  }

  /** A reference reads as a boolean exactly when its characters spell one. */
  lemma AsBoolMeaning(r: SrcRef)
    requires NulFree(Chars(r))
    ensures AsBool(r) == Some(true) <==> IsValid(r) && Chars(r) == "true"
    ensures AsBool(r) == Some(false) <==> IsValid(r) && Chars(r) == "false"
  {
    EqualsMeaning(r, r, "true");
    EqualsMeaning(r, r, "false");
    ShUtils.CLenPadded("true", 0);
    ShUtils.CLenPadded("false", 0);
  }

  /** The number of leading decimal digits of `s`. */
  function DigitRun(s: seq<char>): (n: nat)
    ensures n <= |s|
    ensures forall i :: 0 <= i < n ==> '0' <= s[i] <= '9'
    ensures n < |s| ==> !('0' <= s[n] <= '9')
  {
    if s != [] && '0' <= s[0] <= '9' then 1 + DigitRun(s[1..]) else 0
  }

  /** The value of a run of decimal digits, most significant first. */
  function DigitsValue(ds: seq<char>): nat
    requires forall i :: 0 <= i < |ds| ==> '0' <= ds[i] <= '9'
  {
    if ds == [] then 0 else DigitsValue(ds[..|ds| - 1]) * 10 + (ds[|ds| - 1] as int - '0' as int)
  }

  function Pow10(n: nat): (p: nat)
    ensures p >= 1
  {
    if n == 0 then 1 else 10 * Pow10(n - 1)
  }

  /**
   * `srcref_as_float` on a number literal: `sscanf` with `%f` reads the
   * leading digits, then a dot and the digits after it, and ignores the
   * rest of the text. The literal's value is that decimal number; the
   * rounding to a 32-bit `float` is not modelled.
   */
  function NumberValue(text: seq<char>): (v: real)
    ensures v >= 0.0
  {
    var i := DigitRun(text);
    var whole := DigitsValue(text[..i]) as real;
    if i < |text| && text[i] == '.' then
      var rest := text[i + 1..];
      var j := DigitRun(rest);
      whole + DigitsValue(rest[..j]) as real / Pow10(j) as real
    else whole
  }

  /** A run of digits reads as its decimal value. */
  lemma NumberValueOfDigits(ds: seq<char>)
    requires forall i :: 0 <= i < |ds| ==> '0' <= ds[i] <= '9'
    ensures NumberValue(ds) == DigitsValue(ds) as real
  {
    DigitRunAll(ds);
    assert ds[..|ds|] == ds;
  }

  lemma {:induction false} DigitRunAll(ds: seq<char>)
    requires forall i :: 0 <= i < |ds| ==> '0' <= ds[i] <= '9'
    ensures DigitRun(ds) == |ds|
  {
    if ds != [] {
      DigitRunAll(ds[1..]);
    }
  }

  /** Zeros after the dot change nothing: `2` and `2.00` are the same number. */
  lemma NumberValueZeroFraction(ds: seq<char>, zeros: nat)
    requires forall i :: 0 <= i < |ds| ==> '0' <= ds[i] <= '9'
    ensures NumberValue(ds + ['.'] + Zeros(zeros)) == DigitsValue(ds) as real
  {
    var z := Zeros(zeros);
    var t := ds + ['.'] + z;
    DigitRunAll(ds);
    DigitRunStops(ds, ['.'] + z);
    assert t == ds + (['.'] + z);
    assert t[..|ds|] == ds;
    assert t[|ds| + 1..] == z;
    DigitRunAll(z);
    assert z[..zeros] == z;
    ZeroFraction(zeros);
  }

  /** `n` zero digits. */
  function Zeros(n: nat): (z: seq<char>)
    ensures |z| == n && forall i :: 0 <= i < n ==> z[i] == '0'
  {
    if n == 0 then [] else Zeros(n - 1) + ['0']
  }

  lemma {:induction false} DigitRunStops(ds: seq<char>, tail: seq<char>)
    requires forall i :: 0 <= i < |ds| ==> '0' <= ds[i] <= '9'
    requires tail != [] && !('0' <= tail[0] <= '9')
    ensures DigitRun(ds + tail) == |ds|
  {
    if ds != [] {
      assert (ds + tail)[1..] == ds[1..] + tail;
      DigitRunStops(ds[1..], tail);
    } else {
      assert ds + tail == tail;
    }
  }

  lemma ZeroFraction(n: nat)
    ensures DigitsValue(Zeros(n)) as real / Pow10(n) as real == 0.0
  {
    ZerosValue(n);
    var d := Pow10(n) as real;
    assert 0.0 / d == 0.0;
  }

  lemma {:induction false} ZerosValue(n: nat)
    ensures DigitsValue(Zeros(n)) == 0
  {
    if n > 0 {
      assert Zeros(n)[..n - 1] == Zeros(n - 1);
      ZerosValue(n - 1);
    }
  }

  /** `strnlen`. */
  function StrNLen(s: seq<char>, n: nat): nat {
    var l := ShUtils.CLen(s);
    if l <= n then l else n
  }

  /**
   * `srcref_starts_with_string` as written: `strncmp` over the prefix's length
   * capped at the reference's length, so only as much of the prefix as fits
   * is compared.
   */
  predicate StartsWithAsWritten(a: SrcRef, prefix: seq<char>) {
    IsValid(a) && ShUtils.StrNEqual(Chars(a), prefix, StrNLen(prefix, Len(a)))
  }

  /** The starts-with test with the prefix required to fit in the reference. */
  predicate StartsWith(a: SrcRef, prefix: seq<char>) {
    StartsWithAsWritten(a, prefix) && ShUtils.CLen(prefix) <= Len(a)
  }

  /** As written, a reference starts with every extension of itself: `ab` starts with `abc`. */
  lemma StartsWithAsWrittenMeaning(a: SrcRef, prefix: seq<char>)
    requires NulFree(Chars(a))
    ensures StartsWithAsWritten(a, prefix) <==>
      IsValid(a) && ShUtils.Take(ShUtils.CStr(prefix), Len(a)) == Chars(a)[..StrNLen(prefix, Len(a))]
    ensures var r := MkSrcRef(Source(0, "ab"), 0, 2);
      StartsWithAsWritten(r, "abc") && !StartsWith(r, "abc")
  {
    PrefixCompare(Chars(a), prefix, StrNLen(prefix, Len(a)));
    var r := MkSrcRef(Source(0, "ab"), 0, 2);
    CharsSlice(r);
    assert "ab"[0..2] == "ab";
    ShUtils.CLenPadded("abc", 0);
    ShUtils.CLenPadded("ab", 0);
    PrefixCompare(Chars(r), "abc", 2);
    assert ShUtils.CStr("abc")[..2] == "ab";
  }

  /** The corrected test holds exactly when the whole C string begins the reference. */
  lemma StartsWithMeaning(a: SrcRef, prefix: seq<char>)
    requires NulFree(Chars(a))
    ensures StartsWith(a, prefix) <==> IsValid(a) && ShUtils.CStr(prefix) <= Chars(a)
  {
    PrefixCompare(Chars(a), prefix, StrNLen(prefix, Len(a)));
  }

  /** `strncmp(s, p, n) == 0` for `n` within a terminator-free `s` and the C string `p`. */
  lemma PrefixCompare(s: seq<char>, p: seq<char>, n: nat)
    requires NulFree(s) && n <= |s| && n <= ShUtils.CLen(p)
    ensures ShUtils.StrNEqual(s, p, n) <==> ShUtils.CStr(p)[..n] == s[..n]
    ensures ShUtils.CStr(p)[..n] == ShUtils.Take(ShUtils.CStr(p), n)
  {
    ShUtils.StrNEqualMeaning(s, p, n);
    ShUtils.CLenPadded(s, 0);
  }

  /** The C string that begins at offset `k` of a text (empty past its end). */
  function From(text: seq<char>, k: nat): seq<char> {
    if k <= |text| then text[k..] else []
  }

  /**
   * `srcref_ends_with_string` as written: the comparison starts at the
   * reference's length minus the suffix's, but runs over the reference's
   * whole length, so it reads on past the reference into the text.
   */
  predicate EndsWithAsWritten(a: SrcRef, suffix: seq<char>) {
    IsValid(a) &&
    var rlen := Len(a);
    var slen := StrNLen(suffix, rlen);
    ShUtils.StrNEqual(From(a.source.value.text, a.start + (rlen - slen)), suffix, rlen)
  }

  /** The ends-with test comparing the suffix's own length, with the suffix required to fit. */
  predicate EndsWith(a: SrcRef, suffix: seq<char>) {
    IsValid(a) &&
    var rlen := Len(a);
    var slen := ShUtils.CLen(suffix);
    slen <= rlen && ShUtils.StrNEqual(Chars(a)[rlen - slen..], suffix, slen)
  }

  /** The corrected test holds exactly when the reference ends with the whole C string. */
  lemma EndsWithMeaning(a: SrcRef, suffix: seq<char>)
    requires NulFree(Chars(a))
    ensures EndsWith(a, suffix) <==>
      IsValid(a) && ShUtils.CLen(suffix) <= Len(a) && Chars(a)[Len(a) - ShUtils.CLen(suffix)..] == ShUtils.CStr(suffix)
  {
    if IsValid(a) && ShUtils.CLen(suffix) <= Len(a) {
      var t := Chars(a)[Len(a) - ShUtils.CLen(suffix)..];
      assert NulFree(t);
      PrefixCompare(t, suffix, |t|);
      assert t[..|t|] == t;
    }
  }

  /**
   * As written, `a.adr` inside the text `a.adr;` does not end with `.adr`:
   * the comparison goes on to the `;` after the reference.
   */
  lemma EndsWithAsWrittenReadsPast()
    ensures var r := MkSrcRef(Source(0, "a.adr;"), 0, 5);
      !EndsWithAsWritten(r, ".adr") && EndsWith(r, ".adr")
  {
    var r := MkSrcRef(Source(0, "a.adr;"), 0, 5);
    ShUtils.CLenPadded(".adr", 0);
    assert StrNLen(".adr", 5) == 4;
    assert From("a.adr;", 1) == ".adr;";
    assert !ShUtils.StrNEqual(".adr;", ".adr", 5) by {
      assert ShUtils.Tail(".adr;") == "adr;";
      assert ShUtils.Tail(ShUtils.Tail(ShUtils.Tail(ShUtils.Tail(".adr;")))) == ";";
      assert ShUtils.Tail(ShUtils.Tail(ShUtils.Tail(ShUtils.Tail(".adr")))) == [];
    }
    CharsSlice(r);
    assert "a.adr;"[0..5] == "a.adr";
    assert Chars(r)[1..] == ".adr";
    EndsWithMeaning(r, ".adr");
  }

  /** `srcref_trim_left`: the start moves right by `len`, or onto the end when the reference is shorter. */
  function TrimLeft(a: SrcRef, len: nat): SrcRef {
    if Len(a) >= len then a.(start := a.start + len) else a.(start := a.end)
  }

  /** `srcref_trim_right`: the end moves left by `len`, or onto the start when the reference is shorter. */
  function TrimRight(a: SrcRef, len: nat): SrcRef {
    if Len(a) >= len then a.(end := a.end - len) else a.(end := a.start)
  }

  /** Trimming drops characters from one end and keeps the rest: the length shrinks by `len`, down to zero. */
  lemma TrimMeaning(a: SrcRef, len: nat)
    requires a.start <= a.end
    ensures Len(TrimLeft(a, len)) == (if Len(a) >= len then Len(a) - len else 0)
    ensures Len(TrimRight(a, len)) == (if Len(a) >= len then Len(a) - len else 0)
    ensures Chars(TrimLeft(a, len)) == Chars(a)[Len(a) - Len(TrimLeft(a, len))..]
    ensures Chars(TrimRight(a, len)) == Chars(a)[..Len(TrimRight(a, len))]
    ensures TrimLeft(a, len).source == a.source == TrimRight(a, len).source
  {
  }
}
