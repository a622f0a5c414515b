/**
 * `sh_utils.c`: fixed-size strings (`sstr_t`, a 128-character buffer) and
 * their comparison, over C strings modelled as character sequences that read
 * as NUL past their end.
 */
module ShUtils {
  import opened Wrappers

  /** `GVM_DEFAULT_STRLEN`. */
  const DefaultStrLen: nat := 128

  /** The character at `i` of a C string; past the sequence lies the terminator. */
  function At(s: seq<char>, i: nat): char {
    if i < |s| then s[i] else '\0'
  }

  /** `strlen`: the number of characters before the first NUL. */
  function CLen(s: seq<char>): (n: nat)
    ensures n <= |s| && (n < |s| ==> s[n] == '\0')
    ensures forall i :: 0 <= i < n ==> s[i] != '\0'
  {
    if s == [] || s[0] == '\0' then 0 else 1 + CLen(s[1..])
  }

  /** The characters of a C string, without the terminator. */
  function CStr(s: seq<char>): seq<char> {
    s[..CLen(s)]
  }

  /** At most the first `n` characters of `s`. */
  function Take(s: seq<char>, n: nat): seq<char> {
    if |s| <= n then s else s[..n]
  }

  function Tail(s: seq<char>): seq<char> {
    if s == [] then [] else s[1..]
  }

  /** `strncmp(a, b, n) == 0`: character by character up to `n`, stopping at a shared NUL. */
  function StrNEqual(a: seq<char>, b: seq<char>, n: nat): bool
    decreases n
  {
    if n == 0 then true
    else if At(a, 0) != At(b, 0) then false
    else if At(a, 0) == '\0' then true
    else StrNEqual(Tail(a), Tail(b), n - 1)
  }

  /** `strncmp(a, b, n)` is zero exactly when the two C strings agree on their first `n` characters. */
  lemma {:induction false} StrNEqualMeaning(a: seq<char>, b: seq<char>, n: nat)
    ensures StrNEqual(a, b, n) <==> Take(CStr(a), n) == Take(CStr(b), n)
    decreases n
  {
    if n > 0 && At(a, 0) == At(b, 0) && At(a, 0) != '\0' {
      StrNEqualMeaning(Tail(a), Tail(b), n - 1);
      assert CStr(a) == [a[0]] + CStr(Tail(a));
      assert CStr(b) == [b[0]] + CStr(Tail(b));
      assert Take(CStr(a), n) == [a[0]] + Take(CStr(Tail(a)), n - 1);
      assert Take(CStr(b), n) == [b[0]] + Take(CStr(Tail(b)), n - 1);
    } else if n > 0 && At(a, 0) != At(b, 0) {
      if CStr(a) != [] && CStr(b) != [] {
        assert Take(CStr(a), n)[0] == a[0] && Take(CStr(b), n)[0] == b[0];
      } else if CStr(a) != [] {
        assert |Take(CStr(a), n)| > 0;
      } else if CStr(b) != [] {
        assert |Take(CStr(b), n)| > 0;
      }
    }
  }

  /** `sstr_t`: the characters of the fixed buffer. */
  datatype Sstr = Sstr(str: seq<char>)

  /** The zero-filled buffer. */
  function EmptySstr(): (s: Sstr)
    ensures |s.str| == DefaultStrLen && CStr(s.str) == []
  {
    Sstr(seq(DefaultStrLen, _ => '\0'))
  }

  lemma CLenPadded(s: seq<char>, pad: nat)
    requires forall i :: 0 <= i < |s| ==> s[i] != '\0'
    ensures CLen(s + seq(pad, _ => '\0')) == |s| || pad == 0
    ensures pad == 0 ==> CLen(s) == |s|
  {
    var t := s + seq(pad, _ => '\0');
    if pad > 0 {
      assert t[|s|] == '\0';
    } else {
      assert t == s;
    }
  }

  /**
   * `sstr`: asserts that the C string is shorter than the buffer, then copies
   * its characters into a zero-filled buffer.
   */
  function MakeSstr(s: seq<char>): (r: Result<Sstr, Abort>)
    ensures r.Ok? <==> CLen(s) < DefaultStrLen
    ensures r.Err? ==> r.error == AssertFailed("len < GVM_DEFAULT_STRLEN")
    ensures r.Ok? ==> |r.value.str| == DefaultStrLen && CStr(r.value.str) == CStr(s)
  {
    if CLen(s) >= DefaultStrLen then Err(AssertFailed("len < GVM_DEFAULT_STRLEN"))
    else
      var buf := CStr(s) + seq(DefaultStrLen - CLen(s), _ => '\0');
      CLenPadded(CStr(s), DefaultStrLen - CLen(s));
      Ok(Sstr(buf))
  }

  /** `sstr_equal_str`: unequal first characters answer false at once; otherwise `strncmp` over the buffer length. */
  function SstrEqualStr(a: Sstr, s: seq<char>): bool {
    if At(a.str, 0) != At(s, 0) then false else StrNEqual(a.str, s, DefaultStrLen)
  }

  /** `sstr_equal`: the same comparison between two buffers. */
  function SstrEqual(a: Sstr, b: Sstr): bool {
    if At(a.str, 0) != At(b.str, 0) then false else StrNEqual(a.str, b.str, DefaultStrLen)
  }

  /** The first-character test never changes the answer: both compare the strings up to the buffer length. */
  lemma SstrEqualMeaning(a: Sstr, b: Sstr, s: seq<char>)
    ensures SstrEqual(a, b) <==> Take(CStr(a.str), DefaultStrLen) == Take(CStr(b.str), DefaultStrLen)
    ensures SstrEqualStr(a, s) <==> Take(CStr(a.str), DefaultStrLen) == Take(CStr(s), DefaultStrLen)
  {
    StrNEqualMeaning(a.str, b.str, DefaultStrLen);
    StrNEqualMeaning(a.str, s, DefaultStrLen);
  }

  /** `sstr_equal` is reflexive, and on buffers made by `sstr` it is equality of the source strings. */
  lemma SstrEqualOfMade(x: seq<char>, y: seq<char>, a: Sstr)
    requires MakeSstr(x).Ok? && MakeSstr(y).Ok?
    ensures SstrEqual(a, a)
    ensures SstrEqual(MakeSstr(x).value, MakeSstr(y).value) <==> CStr(x) == CStr(y)
    ensures SstrEqualStr(MakeSstr(x).value, y) <==> CStr(x) == CStr(y)
  {
    SstrEqualMeaning(a, a, []);
    SstrEqualMeaning(MakeSstr(x).value, MakeSstr(y).value, y);
    assert CStr(CStr(y)) == CStr(y) by {
      CLenPadded(CStr(y), 0);
    }
  }
  // Little-endian words in byte code

  /** `READ_U32` of `sh_utils.h`: the four bytes from `at`, least significant first. */
  function ReadU32(d: seq<bv8>, at: nat): bv32
    requires at + 4 <= |d|
  {
    PackU32(d[at], d[at + 1], d[at + 2], d[at + 3])
  }

  /** The four bytes the compiler writes for a 32-bit operand, least significant first. */
  function U32Bytes(x: bv32): (b: seq<bv8>)
    ensures |b| == 4
  {
    [(x & 0xFF) as bv8, ((x >> 8) & 0xFF) as bv8, ((x >> 16) & 0xFF) as bv8, ((x >> 24) & 0xFF) as bv8]
  }

  /** The word packed from four bytes. */
  function PackU32(b0: bv8, b1: bv8, b2: bv8, b3: bv8): bv32 {
    (b3 as bv32 << 24) | (b2 as bv32 << 16) | (b1 as bv32 << 8) | b0 as bv32
  }

  lemma PackUnpack(x: bv32)
    ensures PackU32((x & 0xFF) as bv8, ((x >> 8) & 0xFF) as bv8, ((x >> 16) & 0xFF) as bv8, ((x >> 24) & 0xFF) as bv8) == x
  {
  }

  /** Reading back the bytes written for an operand, wherever they sit in the code, gives the operand. */
  lemma ReadU32RoundTrip(pre: seq<bv8>, x: bv32, post: seq<bv8>)
    ensures ReadU32(pre + U32Bytes(x) + post, |pre|) == x
  {
    var d := pre + U32Bytes(x) + post;
    var b := U32Bytes(x);
    assert d[|pre|] == b[0] && d[|pre| + 1] == b[1] && d[|pre| + 2] == b[2] && d[|pre| + 3] == b[3];
    PackUnpack(x);
  }

  /** A number below 256 survives narrowing to a byte and reading back. */
  lemma ByteRoundTrip(x: int)
    requires 0 <= x < 256
    ensures (x % 256) as bv8 as int == x
  {
  }

  /** A 32-bit word stored into a C `int`: the two's-complement reading. */
  function Int32(x: bv32): (r: int)
    ensures -0x8000_0000 <= r < 0x8000_0000
    ensures r == x as int || r == x as int - 0x1_0000_0000
    ensures r < 0 <==> x as int >= 0x8000_0000
  {
    var n := x as int;
    if n >= 0x8000_0000 then n - 0x1_0000_0000 else n
  }
}
