// The NaN test for packs of sixteen 8-bit floats: two 64-bit words, each tested with
// one masked addition instead of eight comparisons.
module Fp8 {
  import opened NanCheck

  // The encodings of the OCP 8-bit floating point specification: E4M3 has the one NaN
  // magnitude S.1111.111; E5M2 has the exponent 11111 with a non-zero mantissa.
  predicate IsNanE4M3(b: bv8)
  {
    b & 0x78 == 0x78 && b & 0x07 == 0x07
  }

  predicate IsNanE5M2(b: bv8)
  {
    b & 0x7C == 0x7C && b & 0x03 != 0
  }

  // Eight consecutive bytes of memory as one little-endian word.
  function Word(p: seq<bv8>): bv64
    requires |p| == 8
  {
    Join(p[0], p[1], p[2], p[3], p[4], p[5], p[6], p[7])
  }

  function Join(a: bv8, b: bv8, c: bv8, d: bv8, e: bv8, f: bv8, g: bv8, h: bv8): bv64
  {
    (a as bv64) | ((b as bv64) << 8) | ((c as bv64) << 16) | ((d as bv64) << 24)
    | ((e as bv64) << 32) | ((f as bv64) << 40) | ((g as bv64) << 48) | ((h as bv64) << 56)
  }

  function CheckWord(word: bv64, increment: bv64): bool
  {
    var t := word & 0x7F7F7F7F7F7F7F7F;
    var incremented := t + increment;
    incremented & 0x8080808080808080 != 0
  }

  const INCREMENT_E4M3: bv64 := 0x0101010101010101
  const INCREMENT_E5M2: bv64 := 0x0303030303030303

  // The masked addition carries into the top bit of exactly the NaN bytes.
  lemma AdditionFindsE4M3(a: bv8, b: bv8, c: bv8, d: bv8, e: bv8, f: bv8, g: bv8, h: bv8)
    ensures CheckWord(Join(a, b, c, d, e, f, g, h), INCREMENT_E4M3) <==>
            IsNanE4M3(a) || IsNanE4M3(b) || IsNanE4M3(c) || IsNanE4M3(d)
            || IsNanE4M3(e) || IsNanE4M3(f) || IsNanE4M3(g) || IsNanE4M3(h)
  {
  }

  lemma AdditionFindsE5M2(a: bv8, b: bv8, c: bv8, d: bv8, e: bv8, f: bv8, g: bv8, h: bv8)
    ensures CheckWord(Join(a, b, c, d, e, f, g, h), INCREMENT_E5M2) <==>
            IsNanE5M2(a) || IsNanE5M2(b) || IsNanE5M2(c) || IsNanE5M2(d)
            || IsNanE5M2(e) || IsNanE5M2(f) || IsNanE5M2(g) || IsNanE5M2(h)
  {
  }

  // CheckBytePack for one-byte elements: either word of the pack fails.
  function CheckPack(p: seq<bv8>, increment: bv64): bool
  {
    |p| == PACK_BYTES && (CheckWord(Word(p[..8]), increment) || CheckWord(Word(p[8..]), increment))
  }

  lemma OneOfEight(p: seq<bv8>, isNan: bv8 -> bool)
    requires |p| == 8
    ensures HasNan(p, isNan) <==> isNan(p[0]) || isNan(p[1]) || isNan(p[2]) || isNan(p[3])
                                  || isNan(p[4]) || isNan(p[5]) || isNan(p[6]) || isNan(p[7])
  {
  }

  lemma EitherHalf(p: seq<bv8>, isNan: bv8 -> bool)
    requires |p| == PACK_BYTES
    ensures HasNan(p, isNan) <==> HasNan(p[..8], isNan) || HasNan(p[8..], isNan)
  {
    if i :| 0 <= i < |p| && isNan(p[i]) {
      assert if i < 8 then p[..8][i] == p[i] else p[8..][i - 8] == p[i];
    }
  }

  function IsNan(e4m3: bool): bv8 -> bool
  {
    if e4m3 then b => IsNanE4M3(b) else b => IsNanE5M2(b)
  }

  function PackCheck(e4m3: bool): seq<bv8> -> bool
  {
    if e4m3 then p => CheckPack(p, INCREMENT_E4M3) else p => CheckPack(p, INCREMENT_E5M2)
  }

  lemma WordTest(p: seq<bv8>, e4m3: bool)
    requires |p| == 8
    ensures CheckWord(Word(p), if e4m3 then INCREMENT_E4M3 else INCREMENT_E5M2) <==> HasNan(p, IsNan(e4m3))
  {
    OneOfEight(p, IsNan(e4m3));
    AdditionFindsE4M3(p[0], p[1], p[2], p[3], p[4], p[5], p[6], p[7]);
    AdditionFindsE5M2(p[0], p[1], p[2], p[3], p[4], p[5], p[6], p[7]);
    hide CheckWord, Join, IsNanE4M3, IsNanE5M2;
  }

  // In both formats the two masked additions find exactly the packs with a NaN, which
  // is what the kernel needs of its pack test.
  lemma Fp8PackTest(e4m3: bool)
    ensures PackTest(PACK_BYTES, IsNan(e4m3), PackCheck(e4m3))
  {
    hide CheckWord, Word;
    forall p: seq<bv8> | |p| == PACK_BYTES
      ensures PackCheck(e4m3)(p) <==> HasNan(p, IsNan(e4m3))
    {
      WordTest(p[..8], e4m3);
      WordTest(p[8..], e4m3);
      EitherHalf(p, IsNan(e4m3));
    }
  }

  // A work-item of the kernel on an 8-bit float tensor.
  method RunFp8Item(z: Launch, data: seq<bv8>, gid: nat, local: nat, e4m3: bool) returns (found: bool)
    requires z.Valid() && z.width == 1 && |data| == z.size && gid < z.Range()
    ensures found <==> ItemFinds(z, data, gid, local, IsNan(e4m3))
  {
    Fp8PackTest(e4m3);
    ghost var packs;
    found, packs := RunItem(z, data, gid, local, IsNan(e4m3), PackCheck(e4m3));
  }

  // The NaN bytes are 7F and FF, and those with exponent bits 7C and some of the last two.
  lemma NanBytes(b: bv8)
    ensures IsNanE4M3(b) <==> b == 0x7F || b == 0xFF
    ensures IsNanE5M2(b) <==> b == 0x7D || b == 0x7E || b == 0x7F || b == 0xFD || b == 0xFE || b == 0xFF
  {
  }
}
