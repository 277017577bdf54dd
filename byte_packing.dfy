/**
 * The PACK macro of constshader.h: four values, each cast to an 8-bit
 * unsigned byte, placed big-endian in one 32-bit word (the first argument
 * in bits 31-24, the last in bits 7-0).
 */
module BytePacking {
  import opened MachineWords

  /** The C conversion (uint8_t)c: the value modulo 256 (Dafny's % is never negative). */
  function Low8(c: int): (b: uint8)
    ensures exists q :: c == q * TWO_8 + b
  {
    assert c == (c / TWO_8) * TWO_8 + c % TWO_8;
    c % TWO_8
  }

  /** (w >> 8k) & 0xFF: byte k of w, counting from the least significant byte. */
  function ByteOf(w: uint32, k: nat): uint8
    requires k < 4
  {
    var weight := if k == 0 then 1 else if k == 1 then TWO_8 else if k == 2 then TWO_16 else TWO_24;
    (w / weight) % TWO_8
  }

  /**
   * PACK(c0, c1, c2, c3). Each shifted byte occupies its own eight bits,
   * so the shifts are multiplications by a power of two that cannot overflow
   * 32 bits and the bitwise ORs add disjoint fields. Extracting the bytes of
   * the result by shift and mask gives back every argument truncated to 8 bits.
   */
  function Pack(c0: int, c1: int, c2: int, c3: int): (w: uint32)
    ensures ByteOf(w, 3) == c0 % 256
    ensures ByteOf(w, 2) == c1 % 256
    ensures ByteOf(w, 1) == c2 % 256
    ensures ByteOf(w, 0) == c3 % 256
  {
    var b0: int, b1: int, b2: int, b3: int := Low8(c0), Low8(c1), Low8(c2), Low8(c3);
    var w := b0 * TWO_24 + b1 * TWO_16 + b2 * TWO_8 + b3;
    DivModUnique(w, TWO_24, b0, b1 * TWO_16 + b2 * TWO_8 + b3);
    DivModUnique(b0, TWO_8, 0, b0);
    DivModUnique(w, TWO_16, b0 * TWO_8 + b1, b2 * TWO_8 + b3);
    DivModUnique(b0 * TWO_8 + b1, TWO_8, b0, b1);
    DivModUnique(w, TWO_8, b0 * TWO_16 + b1 * TWO_8 + b2, b3);
    DivModUnique(b0 * TWO_16 + b1 * TWO_8 + b2, TWO_8, b0 * TWO_8 + b1, b2);
    DivModUnique(w, 1, w, 0);
    w
  }

  /** Every 32-bit word is the PACK of its own four bytes, most significant first. */
  lemma PackOfBytes(w: uint32)
    ensures Pack(ByteOf(w, 3), ByteOf(w, 2), ByteOf(w, 1), ByteOf(w, 0)) == w
  {
    var q1, b3 := w / TWO_8, w % TWO_8;
    var q2, b2 := q1 / TWO_8, q1 % TWO_8;
    var b0, b1 := q2 / TWO_8, q2 % TWO_8;
    assert w / TWO_16 == q2 by { DivModUnique(w, TWO_16, q2, b2 * TWO_8 + b3); }
    assert w / TWO_24 == b0 by { DivModUnique(w, TWO_24, b0, b1 * TWO_16 + b2 * TWO_8 + b3); }
    DivModUnique(b0, TWO_8, 0, b0);
    DivModUnique(w, 1, w, 0);
    assert ByteOf(w, 3) == b0 && ByteOf(w, 2) == b1 && ByteOf(w, 1) == b2 && ByteOf(w, 0) == b3;
    assert Low8(b0) == b0 && Low8(b1) == b1 && Low8(b2) == b2 && Low8(b3) == b3 by {
      DivModUnique(b1, TWO_8, 0, b1);
      DivModUnique(b2, TWO_8, 0, b2);
      DivModUnique(b3, TWO_8, 0, b3);
    }
  }

  /** Arguments that agree modulo 256 pack to the same word: PACK sees only the low byte of each argument. */
  lemma PackIgnoresHighBits(c0: int, c1: int, c2: int, c3: int, d0: int, d1: int, d2: int, d3: int)
    requires c0 % 256 == d0 % 256 && c1 % 256 == d1 % 256 && c2 % 256 == d2 % 256 && c3 % 256 == d3 % 256
    ensures Pack(c0, c1, c2, c3) == Pack(d0, d1, d2, d3)
  {
  }

  /** PACK is injective on byte arguments. */
  lemma PackInjective(c0: uint8, c1: uint8, c2: uint8, c3: uint8, d0: uint8, d1: uint8, d2: uint8, d3: uint8)
    requires Pack(c0, c1, c2, c3) == Pack(d0, d1, d2, d3)
    ensures c0 == d0 && c1 == d1 && c2 == d2 && c3 == d3
  {
    var w := Pack(c0, c1, c2, c3);
    forall b: uint8 ensures b % 256 == b {
      DivModUnique(b, TWO_8, 0, b);
    }
  }
}
