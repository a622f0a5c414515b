/**
 * `sh_value.h`: the tagged 64-bit value word of the virtual machine and the
 * tagged 32-bit addresses it holds. The type tag is the top four bits; an
 * address's top two bits say which memory it points into.
 */
module ShValue {
  /** `val_t`. */
  type Val = bv64
  /** `val_addr_t`. */
  type Addr = bv32
  /** The bit pattern of a C `char`. */
  type CChar = bv8

  /** `val_type_t`, in declaration order. */
  datatype ValType = VNone | VNumber | VIvec2 | VBool | VChar | VArray | VFrame | VIter

  function TypeOrdinal(t: ValType): (n: bv64)
    ensures n < 8
  {
    match t
    case VNone => 0
    case VNumber => 1
    case VIvec2 => 2
    case VBool => 3
    case VChar => 4
    case VArray => 5
    case VFrame => 6
    case VIter => 7
  }

  /** `VAL_MK_TYPE_ID`: the tag in the top four bits. */
  function MkTypeId(t: ValType): Val {
    (TypeOrdinal(t) & 0xF) << 60
  }

  /** `VAL_GET_TYPE`: the top four bits. */
  function GetType(v: Val): (n: bv64)
    ensures n < 16
  {
    v >> 60
  }

  // Memory addresses

  const ConstFlag: bv32 := 1
  const ProgrFlag: bv32 := 2
  /** `MEM_MAX_ADDRESSABLE`: the largest index an address can carry. */
  const MaxAddressable: bv32 := 0x3FFF_FFFF
  /** `ADDR_NIL`. */
  const AddrNil: Addr := 0

  predicate AddrIsConst(a: Addr) { a >> 30 == ConstFlag }
  predicate AddrIsProgr(a: Addr) { a >> 30 == ProgrFlag }
  predicate AddrIsNull(a: Addr) { a >> 30 == 0 }

  /** `MEM_MK_CONST_ADDR`: the index's low 30 bits under the constant flag. */
  function MkConstAddr(index: bv32): Addr {
    0x4000_0000 | (index & MaxAddressable)
  }

  /** `MEM_MK_PROGR_ADDR`: the index's low 30 bits under the program flag. */
  function MkProgrAddr(index: bv32): Addr {
    0x8000_0000 | (index & MaxAddressable)
  }

  /** `MEM_ADDR_TO_INDEX`. */
  function AddrToIndex(a: Addr): (i: bv32)
    ensures i <= MaxAddressable
  {
    a & MaxAddressable
  }

  /**
   * An address made for the constant memory is recognised as such and as
   * nothing else, and gives back its index when that index is addressable; a
   * larger index loses its top bits.
   */
  lemma ConstAddressRoundTrip(index: bv32)
    ensures AddrIsConst(MkConstAddr(index)) && !AddrIsProgr(MkConstAddr(index)) && !AddrIsNull(MkConstAddr(index))
    ensures AddrToIndex(MkConstAddr(index)) == index & MaxAddressable
    ensures AddrToIndex(MkConstAddr(index)) == index <==> index <= MaxAddressable
  {
    ConstAddrKind(index);
    ConstAddrIndex(index);
  }

  /** The same for an address made for the program's memory. */
  lemma ProgrAddressRoundTrip(index: bv32)
    ensures AddrIsProgr(MkProgrAddr(index)) && !AddrIsConst(MkProgrAddr(index)) && !AddrIsNull(MkProgrAddr(index))
    ensures AddrToIndex(MkProgrAddr(index)) == index & MaxAddressable
    ensures AddrToIndex(MkProgrAddr(index)) == index <==> index <= MaxAddressable
  {
    ProgrAddrKind(index);
    ProgrAddrIndex(index);
  }

  lemma ConstAddrKind(index: bv32)
    ensures AddrIsConst(MkConstAddr(index)) && !AddrIsProgr(MkConstAddr(index)) && !AddrIsNull(MkConstAddr(index))
  {
  }

  lemma ConstAddrIndex(index: bv32)
    ensures AddrToIndex(MkConstAddr(index)) == index & MaxAddressable
    ensures AddrToIndex(MkConstAddr(index)) == index <==> index <= MaxAddressable
  {
    MaskKeeps(index);
  }

  lemma ProgrAddrKind(index: bv32)
    ensures AddrIsProgr(MkProgrAddr(index)) && !AddrIsConst(MkProgrAddr(index)) && !AddrIsNull(MkProgrAddr(index))
  {
  }

  lemma ProgrAddrIndex(index: bv32)
    ensures AddrToIndex(MkProgrAddr(index)) == index & MaxAddressable
    ensures AddrToIndex(MkProgrAddr(index)) == index <==> index <= MaxAddressable
  {
    MaskKeeps(index);
  }

  lemma MaskKeeps(index: bv32)
    ensures index & 0x3FFF_FFFF == index <==> index <= 0x3FFF_FFFF
  {
  }

  /** The three kinds of address are mutually exclusive, and the nil address is a null one. */
  lemma AddressKindsExclusive(a: Addr)
    ensures !(AddrIsConst(a) && AddrIsProgr(a)) && !(AddrIsNull(a) && (AddrIsConst(a) || AddrIsProgr(a)))
    ensures AddrIsNull(AddrNil)
  {
  }

  // Values

  /** A C `int` as its 32-bit two's complement pattern. */
  type CInt = bv32

  /** `(val_t)(x)` for a C `int`: widened with its sign. */
  function Widen(x: CInt): bv64 {
    if x >= 0x8000_0000 then 0xFFFF_FFFF_0000_0000 | x as bv64 else x as bv64
  }

  /** `array_t`, `frame_t` and `iter_t`, the records a value word packs. */
  datatype ArrayRef = ArrayRef(address: Addr, length: CInt)
  datatype Frame = Frame(returnPc: CInt, numArgs: bv8, numLocals: bv8)
  datatype Iter = Iter(current: Addr, remaining: CInt)

  function ValNone(): Val { MkTypeId(VNone) }

  /** `val_bool`: all ones in the low byte for true, zero for false. */
  function ValBool(b: bool): Val {
    MkTypeId(VBool) | (if b then 0xFF else 0x00)
  }

  /** `val_into_bool`: the low byte is above 0x80. */
  predicate ValIntoBool(v: Val) {
    v & 0xFF > 0x80
  }

  /** `val_char`: the character widened with its sign, masked to 16 bits. */
  function ValChar(c: CChar): Val {
    MkTypeId(VChar) | ((if c >= 0x80 then 0xFFFF_FFFF_FFFF_FF00 | c as bv64 else c as bv64) & 0xFFFF)
  }

  /** `val_into_char`: the low 16 bits narrowed to a `char`, that is, the low byte. */
  function ValIntoChar(v: Val): CChar {
    (v & 0xFF) as bv8
  }

  /** `val_array_from_args`: the length's low 24 bits above the 32-bit address. */
  function ValArray(a: ArrayRef): Val {
    MkTypeId(VArray) | ((Widen(a.length) & 0xFF_FFFF) << 32) | (a.address as bv64 & 0xFFFF_FFFF)
  }

  function ValIntoArray(v: Val): ArrayRef {
    ArrayRef((v & 0xFFFF_FFFF) as bv32, ((v >> 32) & 0xFF_FFFF) as bv32)
  }

  /** `val_frame`: argument count, local count and the return position's low 32 bits. */
  function ValFrame(f: Frame): Val {
    MkTypeId(VFrame) | ((f.numArgs as bv64 & 0xFF) << 40) | ((f.numLocals as bv64 & 0xFF) << 32) | (Widen(f.returnPc) & 0xFFFF_FFFF)
  }

  function ValIntoFrame(v: Val): Frame {
    Frame((v & 0xFFFF_FFFF) as bv32, ((v >> 40) & 0xFF) as bv8, ((v >> 32) & 0xFF) as bv8)
  }

  /** `val_iter`: the remaining count's low 24 bits above the current address. */
  function ValIter(it: Iter): Val {
    MkTypeId(VIter) | ((Widen(it.remaining) & 0xFF_FFFF) << 32) | (it.current as bv64 & 0xFFFF_FFFF)
  }

  function ValIntoIter(v: Val): Iter {
    Iter((v & 0xFFFF_FFFF) as bv32, ((v >> 32) & 0xFF_FFFF) as bv32)
  }

  /** Every encoder writes its own tag, read back by `VAL_GET_TYPE`. */
  lemma TagsRoundTrip(b: bool, c: CChar, a: ArrayRef, f: Frame, it: Iter)
    ensures GetType(ValNone()) == TypeOrdinal(VNone)
    ensures GetType(ValBool(b)) == TypeOrdinal(VBool)
    ensures GetType(ValChar(c)) == TypeOrdinal(VChar)
    ensures GetType(ValArray(a)) == TypeOrdinal(VArray)
    ensures GetType(ValFrame(f)) == TypeOrdinal(VFrame)
    ensures GetType(ValIter(it)) == TypeOrdinal(VIter)
  {
  }

  /** Booleans and characters decode to what was encoded, whatever the character's sign. */
  lemma ScalarRoundTrip(b: bool, c: CChar)
    ensures ValIntoBool(ValBool(b)) == b
    ensures ValIntoChar(ValChar(c)) == c
  {
  }

  /**
   * An array reference keeps its address and the low 24 bits of its length,
   * so it decodes to itself exactly when the length is a non-negative number
   * below 2^24.
   */
  lemma ArrayRoundTrip(a: ArrayRef)
    ensures ValIntoArray(ValArray(a)) == ArrayRef(a.address, a.length & 0xFF_FFFF)
    ensures ValIntoArray(ValArray(a)) == a <==> a.length < 0x100_0000
  {
  }

  /** The same for an iterator and its remaining count. */
  lemma IterRoundTrip(it: Iter)
    ensures ValIntoIter(ValIter(it)) == Iter(it.current, it.remaining & 0xFF_FFFF)
    ensures ValIntoIter(ValIter(it)) == it <==> it.remaining < 0x100_0000
  {
  }

  /** A frame decodes to itself: every field has room for all its bits. */
  lemma FrameRoundTrip(f: Frame)
    ensures ValIntoFrame(ValFrame(f)) == f
  {
    FramePc(f);
    FrameCounts(f);
  }

  lemma FramePc(f: Frame)
    ensures (ValFrame(f) & 0xFFFF_FFFF) as bv32 == f.returnPc
  {
    WidenLow(f.returnPc);
    var hi := MkTypeId(VFrame) | ((f.numArgs as bv64 & 0xFF) << 40) | ((f.numLocals as bv64 & 0xFF) << 32);
    HighLeavesLow(hi, f.returnPc as bv64);
  }

  /** Widening keeps the low 32 bits. */
  lemma WidenLow(x: CInt)
    ensures Widen(x) & 0xFFFF_FFFF == x as bv64
  {
    var y := x as bv64;
    ConversionFits(x);
    if x >= 0x8000_0000 {
      OrHighKeepsLow(y);
    } else {
      MaskKeepsLow(y);
    }
  }

  lemma ConversionFits(x: bv32)
    ensures x as bv64 <= 0xFFFF_FFFF
  {
  }

  lemma OrHighKeepsLow(y: bv64)
    requires y <= 0xFFFF_FFFF
    ensures (0xFFFF_FFFF_0000_0000 | y) & 0xFFFF_FFFF == y
  {
  }

  lemma MaskKeepsLow(y: bv64)
    requires y <= 0xFFFF_FFFF
    ensures y & 0xFFFF_FFFF == y
  {
  }

  lemma HighLeavesLow(hi: bv64, lo: bv64)
    requires hi & 0xFFFF_FFFF == 0 && lo <= 0xFFFF_FFFF
    ensures (hi | lo) & 0xFFFF_FFFF == lo
  {
  }

  lemma FrameCounts(f: Frame)
    ensures ((ValFrame(f) >> 40) & 0xFF) as bv8 == f.numArgs
    ensures ((ValFrame(f) >> 32) & 0xFF) as bv8 == f.numLocals
  {
  }
}
