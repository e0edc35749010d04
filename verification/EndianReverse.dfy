/** The portable shift-and-mask byte reversal against the byte loops. */
module EndianReverse {
  import opened Endian

  // --- 32 bits ----------------------------------------------------------------------------------

  /** endian_reverse() for 32-bit values, the portable form. */
  function EndianReverse32(x: bv32): bv32 {
    var step16 := (x << 16) | (x >> 16);
    ((step16 << 8) & 0xff00ff00) | ((step16 >> 8) & 0x00ff00ff)
  }

  /** The bytes of a native 32-bit value in the memory of a little-endian host. */
  function Memory32(x: bv32): seq<Byte> { StoreLittle(U32, 4, x as int) }

  /** The value made of 4 bytes, most significant first in the expression. */
  function Assemble32(b0: bv8, b1: bv8, b2: bv8, b3: bv8): bv32 {
    ((b3 as bv32) << 24) | ((b2 as bv32) << 16) | ((b1 as bv32) << 8) | (b0 as bv32)
  }

  lemma Disassemble32(x: bv32) returns (b0: bv8, b1: bv8, b2: bv8, b3: bv8)
    ensures x == Assemble32(b0, b1, b2, b3)
  {
    b0, b1, b2, b3 := (x & 0xff) as bv8, ((x >> 8) & 0xff) as bv8, ((x >> 16) & 0xff) as bv8, ((x >> 24) & 0xff) as bv8;
  }

  lemma Weights32(b0: bv8, b1: bv8, b2: bv8, b3: bv8)
    ensures (((b3 as bv32) << 24) | ((b2 as bv32) << 16) | ((b1 as bv32) << 8) | (b0 as bv32)) as int
         == (b0 as int) + 0x100 * (b1 as int) + 0x10000 * (b2 as int) + 0x1000000 * (b3 as int)
  {
  }

  lemma ReverseAssembled32(b0: bv8, b1: bv8, b2: bv8, b3: bv8)
    ensures EndianReverse32(Assemble32(b0, b1, b2, b3)) == Assemble32(b3, b2, b1, b0)
  {
  }

  /** Positional value of 4 bytes. */
  lemma Value32(b0: Byte, b1: Byte, b2: Byte, b3: Byte)
    ensures LoadLittle(U32, [b0, b1, b2, b3]) == b0 + 0x100 * b1 + 0x10000 * b2 + 0x1000000 * b3
  {
    var s := [b0, b1, b2, b3];
    Horner(U32, s);
    Horner(U32, s[1..]);
    assert s[1..][1..] == s[2..];
    Horner(U32, s[2..]);
    assert s[2..][1..] == s[3..];
  }

  lemma NativeValue32(x: bv32, b0: bv8, b1: bv8, b2: bv8, b3: bv8)
    requires x == Assemble32(b0, b1, b2, b3)
    ensures x as int == LoadLittle(U32, [b0 as int, b1 as int, b2 as int, b3 as int])
  {
    Weights32(b0, b1, b2, b3);
    Value32(b0 as int, b1 as int, b2 as int, b3 as int);
  }

  lemma MemoryOf32(x: bv32, b0: bv8, b1: bv8, b2: bv8, b3: bv8)
    requires x == Assemble32(b0, b1, b2, b3)
    ensures Memory32(x) == [b0 as int, b1 as int, b2 as int, b3 as int]
  {
    NativeValue32(x, b0, b1, b2, b3);
    StoreUndoesLoadLittle(U32, [b0 as int, b1 as int, b2 as int, b3 as int]);
  }

  lemma Mirrored32(b0: Byte, b1: Byte, b2: Byte, b3: Byte)
    ensures Reverse([b0, b1, b2, b3]) == [b3, b2, b1, b0]
  {
  }

  /** The shift-and-mask form reverses the bytes in memory, as std_endian_reverse() does. */
  lemma ReversalIsByteReversal32(x: bv32)
    ensures Memory32(EndianReverse32(x)) == Reverse(Memory32(x))
  {
    var b0, b1, b2, b3 := Disassemble32(x);
    ReverseAssembled32(b0, b1, b2, b3);
    MemoryOf32(x, b0, b1, b2, b3);
    MemoryOf32(EndianReverse32(x), b3, b2, b1, b0);
    Mirrored32(b0 as int, b1 as int, b2 as int, b3 as int);
  }

  lemma ReversalIsInvolution32(x: bv32)
    ensures EndianReverse32(EndianReverse32(x)) == x
  {
    var b0, b1, b2, b3 := Disassemble32(x);
    ReverseAssembled32(b0, b1, b2, b3);
    ReverseAssembled32(b3, b2, b1, b0);
  }

  /** On a little-endian host the aligned big-endian buffer holds, after native_to_big(), the same bytes
      as the unaligned one, and big_to_native() gives back the value the unaligned one reads. */
  lemma AlignedIsUnaligned32(x: bv32)
    ensures Memory32(EndianReverse32(x)) == StoreBig(U32, 4, x as int)
    ensures EndianReverse32(EndianReverse32(x)) as int == LoadBig(U32, Memory32(EndianReverse32(x)))
  {
    ReversalIsByteReversal32(x);
    ReversalIsInvolution32(x);
    LayoutsMirror(U32, 4, x as int);
    assert Pow256(4) == 0x100000000;
    BigRoundTripExact(U32, 4, x as int);
  }

  // --- 64 bits ----------------------------------------------------------------------------------

  /** endian_reverse() for 64-bit values, the portable form. */
  function EndianReverse64(x: bv64): bv64 {
    var step32 := (x << 32) | (x >> 32);
    var step16 := ((step32 & 0x0000FFFF0000FFFF) << 16) | ((step32 & 0xFFFF0000FFFF0000) >> 16);
    ((step16 & 0x00FF00FF00FF00FF) << 8) | ((step16 & 0xFF00FF00FF00FF00) >> 8)
  }

  /** The bytes of a native 64-bit value in the memory of a little-endian host. */
  function Memory64(x: bv64): seq<Byte> { StoreLittle(U64, 8, x as int) }

  /** The value made of 8 bytes, most significant first in the expression. */
  function Assemble64(b0: bv8, b1: bv8, b2: bv8, b3: bv8, b4: bv8, b5: bv8, b6: bv8, b7: bv8): bv64 {
    ((b7 as bv64) << 56) | ((b6 as bv64) << 48) | ((b5 as bv64) << 40) | ((b4 as bv64) << 32)
      | ((b3 as bv64) << 24) | ((b2 as bv64) << 16) | ((b1 as bv64) << 8) | (b0 as bv64)
  }

  lemma Disassemble64(x: bv64) returns (b0: bv8, b1: bv8, b2: bv8, b3: bv8, b4: bv8, b5: bv8, b6: bv8, b7: bv8)
    ensures x == Assemble64(b0, b1, b2, b3, b4, b5, b6, b7)
  {
    b0, b1, b2, b3 := (x & 0xff) as bv8, ((x >> 8) & 0xff) as bv8, ((x >> 16) & 0xff) as bv8, ((x >> 24) & 0xff) as bv8;
    b4, b5, b6, b7 :=
      ((x >> 32) & 0xff) as bv8, ((x >> 40) & 0xff) as bv8, ((x >> 48) & 0xff) as bv8, ((x >> 56) & 0xff) as bv8;
  }

  lemma Weights64(b0: bv8, b1: bv8, b2: bv8, b3: bv8, b4: bv8, b5: bv8, b6: bv8, b7: bv8)
    ensures (((b7 as bv64) << 56) | ((b6 as bv64) << 48) | ((b5 as bv64) << 40) | ((b4 as bv64) << 32)
      | ((b3 as bv64) << 24) | ((b2 as bv64) << 16) | ((b1 as bv64) << 8) | (b0 as bv64)) as int
         == (b0 as int) + 0x100 * (b1 as int) + 0x10000 * (b2 as int) + 0x1000000 * (b3 as int)
           + 0x100000000 * (b4 as int) + 0x10000000000 * (b5 as int) + 0x1000000000000 * (b6 as int)
           + 0x100000000000000 * (b7 as int)
  {
  }

  lemma ReverseAssembled64(b0: bv8, b1: bv8, b2: bv8, b3: bv8, b4: bv8, b5: bv8, b6: bv8, b7: bv8)
    ensures EndianReverse64(Assemble64(b0, b1, b2, b3, b4, b5, b6, b7)) == Assemble64(b7, b6, b5, b4, b3, b2, b1, b0)
  {
  }

  /** Positional value of 8 bytes. */
  lemma Value64(b0: Byte, b1: Byte, b2: Byte, b3: Byte, b4: Byte, b5: Byte, b6: Byte, b7: Byte)
    ensures LoadLittle(U64, [b0, b1, b2, b3, b4, b5, b6, b7]) == b0 + 0x100 * b1 + 0x10000 * b2 + 0x1000000 * b3
      + 0x100000000 * b4 + 0x10000000000 * b5 + 0x1000000000000 * b6 + 0x100000000000000 * b7
  {
    var s := [b0, b1, b2, b3, b4, b5, b6, b7];
    Horner(U64, s);
    Horner(U64, s[1..]);
    assert s[1..][1..] == s[2..];
    Horner(U64, s[2..]);
    assert s[2..][1..] == s[3..];
    Horner(U64, s[3..]);
    assert s[3..][1..] == s[4..];
    Horner(U64, s[4..]);
    assert s[4..][1..] == s[5..];
    Horner(U64, s[5..]);
    assert s[5..][1..] == s[6..];
    Horner(U64, s[6..]);
    assert s[6..][1..] == s[7..];
  }

  lemma NativeValue64(x: bv64, b0: bv8, b1: bv8, b2: bv8, b3: bv8, b4: bv8, b5: bv8, b6: bv8, b7: bv8)
    requires x == Assemble64(b0, b1, b2, b3, b4, b5, b6, b7)
    ensures x as int == LoadLittle(U64, [b0 as int, b1 as int, b2 as int, b3 as int,
                                         b4 as int, b5 as int, b6 as int, b7 as int])
  {
    Weights64(b0, b1, b2, b3, b4, b5, b6, b7);
    Value64(b0 as int, b1 as int, b2 as int, b3 as int, b4 as int, b5 as int, b6 as int, b7 as int);
  }

  lemma MemoryOf64(x: bv64, b0: bv8, b1: bv8, b2: bv8, b3: bv8, b4: bv8, b5: bv8, b6: bv8, b7: bv8)
    requires x == Assemble64(b0, b1, b2, b3, b4, b5, b6, b7)
    ensures Memory64(x) == [b0 as int, b1 as int, b2 as int, b3 as int, b4 as int, b5 as int, b6 as int, b7 as int]
  {
    NativeValue64(x, b0, b1, b2, b3, b4, b5, b6, b7);
    StoreUndoesLoadLittle(U64, [b0 as int, b1 as int, b2 as int, b3 as int,
                                b4 as int, b5 as int, b6 as int, b7 as int]);
  }

  lemma Mirrored64(b0: Byte, b1: Byte, b2: Byte, b3: Byte, b4: Byte, b5: Byte, b6: Byte, b7: Byte)
    ensures Reverse([b0, b1, b2, b3, b4, b5, b6, b7]) == [b7, b6, b5, b4, b3, b2, b1, b0]
  {
  }

  /** The shift-and-mask form reverses the bytes in memory, as std_endian_reverse() does. */
  lemma ReversalIsByteReversal64(x: bv64)
    ensures Memory64(EndianReverse64(x)) == Reverse(Memory64(x))
  {
    var b0, b1, b2, b3, b4, b5, b6, b7 := Disassemble64(x);
    ReverseAssembled64(b0, b1, b2, b3, b4, b5, b6, b7);
    MemoryOf64(x, b0, b1, b2, b3, b4, b5, b6, b7);
    MemoryOf64(EndianReverse64(x), b7, b6, b5, b4, b3, b2, b1, b0);
    Mirrored64(b0 as int, b1 as int, b2 as int, b3 as int, b4 as int, b5 as int, b6 as int, b7 as int);
  }

  lemma ReversalIsInvolution64(x: bv64)
    ensures EndianReverse64(EndianReverse64(x)) == x
  {
    var b0, b1, b2, b3, b4, b5, b6, b7 := Disassemble64(x);
    ReverseAssembled64(b0, b1, b2, b3, b4, b5, b6, b7);
    ReverseAssembled64(b7, b6, b5, b4, b3, b2, b1, b0);
  }

  lemma StoredMirrored64(x: bv64)
    ensures Memory64(EndianReverse64(x)) == StoreBig(U64, 8, x as int)
  {
    ReversalIsByteReversal64(x);
    LayoutsMirror(U64, 8, x as int);
  }

  lemma PowOf8()
    ensures Pow256(8) == 0x10000000000000000
  {
  }

  lemma FitsWord64(v: int)
    requires 0 <= v < 0x10000000000000000
    ensures Fits(U64.signed, 8, v)
  {
    PowOf8();
  }

  lemma ReadsBack64(v: int)
    requires 0 <= v < 0x10000000000000000
    ensures LoadBig(U64, StoreBig(U64, 8, v)) == v
  {
    FitsWord64(v);
    BigRoundTripExact(U64, 8, v);
  }

  /** On a little-endian host the aligned big-endian buffer holds, after native_to_big(), the same bytes
      as the unaligned one, and big_to_native() gives back the value the unaligned one reads. */
  lemma AlignedIsUnaligned64(x: bv64)
    ensures Memory64(EndianReverse64(x)) == StoreBig(U64, 8, x as int)
    ensures EndianReverse64(EndianReverse64(x)) as int == LoadBig(U64, Memory64(EndianReverse64(x)))
  {
    StoredMirrored64(x);
    ReversalIsInvolution64(x);
    ReadsBack64(x as int);
  }
}
