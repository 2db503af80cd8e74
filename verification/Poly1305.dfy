/**
 The 26-bit-limb Poly1305 of AegsProtocol.java, proved equal to the message authentication code
 of section 2.5 of RFC 8439 on the AEAD message layout of section 2.8.
 */
module Poly1305 {
  import opened Bytes

  /** Java's signed 64-bit `long`: every operation below is checked to stay in this range. */
  newtype Long = x: int | -0x8000_0000_0000_0000 <= x < 0x8000_0000_0000_0000

  const P: int := 0x4_0000_0000_0000_0000_0000_0000_0000_0000 - 5
  const TWO64: int := 0x1_0000_0000_0000_0000
  const TWO130: int := 0x4_0000_0000_0000_0000_0000_0000_0000_0000
  const TWO128: int := 0x1_0000_0000_0000_0000_0000_0000_0000_0000

  // ---------------------------------------------------------------------------------------------
  // The reference definition
  // ---------------------------------------------------------------------------------------------

  /** `r` after clearing the bits section 2.5 names. */
  function ClampBytes(key: seq<Byte>): (r: seq<Byte>)
    requires |key| == 32
    ensures |r| == 16
  {
    key[..3] + [key[3] % 16] + [key[4] - key[4] % 4] + key[5..7] + [key[7] % 16] +
    [key[8] - key[8] % 4] + key[9..11] + [key[11] % 16] + [key[12] - key[12] % 4] + key[13..15] + [key[15] % 16]
  }

  /** The accumulator after the 16-byte blocks of `msg`, each with the byte 1 appended. */
  function Accumulate(acc: nat, msg: seq<Byte>, r: nat): nat
    decreases |msg|
  {
    if msg == [] then acc
    else
      var n := if |msg| < 16 then |msg| else 16;
      Accumulate(((acc + FromLE(msg[..n] + [1])) * r) % P, msg[n..], r)
  }

  /** poly1305_mac of section 2.5. */
  function Mac(msg: seq<Byte>, key: seq<Byte>): (tag: seq<Byte>)
    requires |key| == 32
    ensures |tag| == 16
  {
    ToLE(Accumulate(0, msg, FromLE(ClampBytes(key))) + FromLE(key[16..]), 16)
  }

  /** Zero padding to a multiple of 16, as pad16 in section 2.8. */
  function Pad16(s: seq<Byte>): (p: seq<Byte>)
    ensures |p| % 16 == 0
  {
    s + Zeros((16 - |s| % 16) % 16)
  }

  function Lengths(a: nat, c: nat): (b: seq<Byte>)
    ensures |b| == 16
  {
    ToLE(a, 8) + ToLE(c, 8)
  }

  lemma Sixteens(a: nat, b: nat)
    requires a % 16 == 0 && b % 16 == 0
    ensures (a + b + 16) % 16 == 0
  {}

  /** The message the AEAD construction of section 2.8 authenticates. */
  function MacData(aad: seq<Byte>, ct: seq<Byte>): (d: seq<Byte>)
    ensures |d| % 16 == 0
  {
    Sixteens(|Pad16(aad)|, |Pad16(ct)|);
    Pad16(aad) + Pad16(ct) + Lengths(|aad|, |ct|)
  }

  // ---------------------------------------------------------------------------------------------
  // Limbs
  // ---------------------------------------------------------------------------------------------

  datatype Limbs = Limbs(h0: Long, h1: Long, h2: Long, h3: Long, h4: Long)

  function Val5(a: int, b: int, c: int, d: int, e: int): int {
    a + b * 0x400_0000 + c * 0x10_0000_0000_0000 + d * 0x4000_0000_0000_0000_0000 +
    e * 0x100_0000_0000_0000_0000_0000_0000
  }

  function Val(h: Limbs): int {
    Val5(h.h0 as int, h.h1 as int, h.h2 as int, h.h3 as int, h.h4 as int)
  }

  predicate Reduced(h: Limbs) {
    0 <= h.h0 < 0x400_0000 && 0 <= h.h1 < 0x400_0000 && 0 <= h.h2 < 0x400_0000 &&
    0 <= h.h3 < 0x400_0000 && 0 <= h.h4 < 0x400_0000
  }

  /** What the block loop keeps: only h1 may pass 26 bits, and by less than 128. */
  predicate Tight(h: Limbs) {
    0 <= h.h0 < 0x400_0000 && 0 <= h.h1 < 0x400_0080 && 0 <= h.h2 < 0x400_0000 &&
    0 <= h.h3 < 0x400_0000 && 0 <= h.h4 < 0x400_0000
  }

  /** Java `x & 0x3ffffff`, for either sign. */
  function Low26(x: Long): (low: Long)
    ensures 0 <= low < 0x400_0000
  {
    x % 0x400_0000
  }

  /** Java `x >>> 26`; the callers never shift a negative number. */
  function Ushr26(x: Long): (c: Long)
    requires x >= 0
    ensures c >= 0 && x as int == c as int * 0x400_0000 + Low26(x) as int
  {
    x / 0x400_0000
  }

  function Word(a: int, b: int, c: int, d: int): int {
    a + 0x100 * b + 0x1_0000 * c + 0x100_0000 * d
  }

  function GetLE32(b: seq<Byte>, offset: nat): (w: Long)
    requires offset + 4 <= |b|
    ensures w as int == Word(b[offset], b[offset + 1], b[offset + 2], b[offset + 3])
    ensures 0 <= w < 0x1_0000_0000
  {
    Word(b[offset], b[offset + 1], b[offset + 2], b[offset + 3]) as Long
  }

  lemma FromLE4(s: seq<Byte>)
    requires |s| >= 4
    ensures FromLE(s) == Word(s[0], s[1], s[2], s[3]) + 0x1_0000_0000 * FromLE(s[4..])
  {
    assert s[1..][1..] == s[2..] && s[2..][1..] == s[3..] && s[3..][1..] == s[4..];
    assert FromLE(s[3..]) == s[3] + 256 * FromLE(s[4..]);
    assert FromLE(s[2..]) == s[2] + 256 * FromLE(s[3..]);
    assert FromLE(s[1..]) == s[1] + 256 * FromLE(s[2..]);
  }

  lemma FromLE16(s: seq<Byte>)
    requires |s| == 16
    ensures FromLE(s) ==
            Word(s[0], s[1], s[2], s[3]) +
            0x1_0000_0000 * Word(s[4], s[5], s[6], s[7]) +
            0x1_0000_0000_0000_0000 * Word(s[8], s[9], s[10], s[11]) +
            0x1_0000_0000_0000_0000_0000_0000 * Word(s[12], s[13], s[14], s[15])
  {
    FromLE4(s);
    FromLE4(s[4..]);
    FromLE4(s[8..]);
    FromLE4(s[12..]);
    assert s[4..][4..] == s[8..] && s[8..][4..] == s[12..] && s[12..][4..] == [];
    assert FromLE([]) == 0;
  }

  /** The five limbs of a 16-byte block, bit 128 included when `high` is 2^24. */
  function BlockLimbs(b: seq<Byte>, high: Long): (w: Limbs)
    requires |b| == 16 && 0 <= high <= 0x100_0000
  {
    Limbs(Low26(GetLE32(b, 0)), Low26(GetLE32(b, 3) / 0x4), Low26(GetLE32(b, 6) / 0x10),
          Low26(GetLE32(b, 9) / 0x40), GetLE32(b, 12) / 0x100 + high)
  }

  /** A word shifted right by the divisor `k` and cut at 26 bits, in terms of its bytes. */
  lemma SplitWord(a: int, b: int, c: int, d: int, a1: int, a0: int, d1: int, d0: int, k: int, m: int, e: int)
    requires 0 <= a < 256 && 0 <= b < 256 && 0 <= c < 256 && 0 <= d < 256
    requires (k, m, e) in {(4, 0x40, 16), (16, 0x10, 64), (64, 4, 256)}
    requires a == k * a1 + a0 && 0 <= a0 < k && 0 <= a1 < m
    requires d == e * d1 + d0 && 0 <= d0 < e && 0 <= d1
    ensures Word(a, b, c, d) / k % 0x400_0000 == a1 + m * (b + 0x100 * c + 0x1_0000 * d0)
  {
    var low := a1 + m * (b + 0x100 * c + 0x1_0000 * d0);
    assert Word(a, b, c, d) == (low + 0x400_0000 * d1) * k + a0;
    DivModUnique(Word(a, b, c, d), k, low + 0x400_0000 * d1, a0);
    DivModUnique(low + 0x400_0000 * d1, 0x400_0000, d1, low);
  }

  lemma BlockBytes(b: seq<Byte>)
    requires |b| == 16
    ensures var w := BlockLimbs(b, 0);
            && w.h0 as int == Word(b[0], b[1], b[2], b[3] % 4)
            && w.h1 as int == b[3] / 4 + 0x40 * (b[4] + 0x100 * b[5] as int + 0x1_0000 * (b[6] % 16) as int)
            && w.h2 as int == b[6] / 16 + 0x10 * (b[7] + 0x100 * b[8] as int + 0x1_0000 * (b[9] % 64) as int)
            && w.h3 as int == b[9] / 64 + 0x4 * (b[10] + 0x100 * b[11] as int + 0x1_0000 * b[12] as int)
            && w.h4 as int == b[13] + 0x100 * b[14] as int + 0x1_0000 * b[15] as int
  {
    var w := BlockLimbs(b, 0);
    var x3, y3 := b[3] / 4, b[3] % 4;
    var x6, y6 := b[6] / 16, b[6] % 16;
    var x9, y9 := b[9] / 64, b[9] % 64;
    assert w.h0 as int == Word(b[0], b[1], b[2], y3) by {
      DivModUnique(Word(b[0], b[1], b[2], b[3]), 0x400_0000, x3, Word(b[0], b[1], b[2], y3));
    }
    assert w.h1 as int == x3 + 0x40 * (b[4] + 0x100 * b[5] as int + 0x1_0000 * y6 as int) by {
      SplitWord(b[3], b[4], b[5], b[6], x3, y3, x6, y6, 4, 0x40, 16);
    }
    assert w.h2 as int == x6 + 0x10 * (b[7] + 0x100 * b[8] as int + 0x1_0000 * y9 as int) by {
      SplitWord(b[6], b[7], b[8], b[9], x6, y6, x9, y9, 16, 0x10, 64);
    }
    assert w.h3 as int == x9 + 0x4 * (b[10] + 0x100 * b[11] as int + 0x1_0000 * b[12] as int) by {
      SplitWord(b[9], b[10], b[11], b[12], x9, y9, 0, b[12], 64, 4, 256);
    }
    assert w.h4 as int == b[13] + 0x100 * b[14] as int + 0x1_0000 * b[15] as int by {
      Split4(b[12], b[13], b[14], b[15]);
    }
  }

  lemma BlockLimbsValue(b: seq<Byte>, high: Long)
    requires |b| == 16 && 0 <= high <= 0x100_0000
    ensures Val(BlockLimbs(b, high)) == FromLE(b) + high as int * 0x100_0000_0000_0000_0000_0000_0000
  {
    FromLE16(b);
    BlockBytes(b);
  }

  // ---------------------------------------------------------------------------------------------
  // One block: add, multiply by r, carry
  // ---------------------------------------------------------------------------------------------

  lemma ProductRange(a: int, b: int, m: int, n: int)
    requires 0 <= a <= m && 0 <= b <= n
    ensures 0 <= a * b <= m * n
  {}

  /** Row `h` of the schoolbook product. */
  lemma Row(h: int, r: Limbs)
    ensures h * Val(r) == Val5(h * r.h0 as int, h * r.h1 as int, h * r.h2 as int, h * r.h3 as int, h * r.h4 as int)
  {
    Distribute5(h, r.h0 as int, r.h1 as int, r.h2 as int, r.h3 as int, r.h4 as int);
  }

  lemma Distribute5(h: int, a: int, b: int, c: int, d: int, e: int)
    ensures h * Val5(a, b, c, d, e) == Val5(h * a, h * b, h * c, h * d, h * e)
  {
    var x, y, z, w := 0x400_0000, 0x10_0000_0000_0000, 0x4000_0000_0000_0000_0000, 0x100_0000_0000_0000_0000_0000_0000;
    assert h * (b * x) == (h * b) * x;
    assert h * (c * y) == (h * c) * y;
    assert h * (d * z) == (h * d) * z;
    assert h * (e * w) == (h * e) * w;
    assert h * (a + b * x + c * y + d * z + e * w) == h * a + h * (b * x) + h * (c * y) + h * (d * z) + h * (e * w);
  }

  lemma ByLimbs(h: Limbs, v: int)
    ensures Val(h) * v == Val5(h.h0 as int * v, h.h1 as int * v, h.h2 as int * v, h.h3 as int * v, h.h4 as int * v)
  {
    Row(v, h);
  }

  /** The five column sums before carrying, as plain numbers. */
  function Columns(h: Limbs, r: Limbs): (int, int, int, int, int) {
    var (a, b, c, d, e) := (h.h0 as int, h.h1 as int, h.h2 as int, h.h3 as int, h.h4 as int);
    var (r0, r1, r2, r3, r4) := (r.h0 as int, r.h1 as int, r.h2 as int, r.h3 as int, r.h4 as int);
    (a * r0 + 5 * (b * r4) + 5 * (c * r3) + 5 * (d * r2) + 5 * (e * r1),
     a * r1 + b * r0 + 5 * (c * r4) + 5 * (d * r3) + 5 * (e * r2),
     a * r2 + b * r1 + c * r0 + 5 * (d * r4) + 5 * (e * r3),
     a * r3 + b * r2 + c * r1 + d * r0 + 5 * (e * r4),
     a * r4 + b * r3 + c * r2 + d * r1 + e * r0)
  }

  /** The products of one limb of h with the limbs of r. */
  datatype Products = Products(p0: int, p1: int, p2: int, p3: int, p4: int)

  function ProductsOf(x: int, r: Limbs): Products {
    Products(x * r.h0 as int, x * r.h1 as int, x * r.h2 as int, x * r.h3 as int, x * r.h4 as int)
  }

  function ValP(p: Products): int {
    Val5(p.p0, p.p1, p.p2, p.p3, p.p4)
  }

  lemma RowProducts(x: int, r: Limbs)
    ensures x * Val(r) == ValP(ProductsOf(x, r))
  {
    Row(x, r);
  }

  /** What folding leaves out, in multiples of P. */
  function Folded(b: Products, c: Products, d: Products, e: Products): int {
    (b.p4 + c.p3 + d.p2 + e.p1) + 0x400_0000 * (c.p4 + d.p3 + e.p2) + 0x10_0000_0000_0000 * (d.p4 + e.p3) +
    0x4000_0000_0000_0000_0000 * e.p4
  }

  lemma FoldRows(a: Products, b: Products, c: Products, d: Products, e: Products)
    ensures Val5(ValP(a), ValP(b), ValP(c), ValP(d), ValP(e)) ==
            Val5(a.p0 + 5 * b.p4 + 5 * c.p3 + 5 * d.p2 + 5 * e.p1, a.p1 + b.p0 + 5 * c.p4 + 5 * d.p3 + 5 * e.p2,
                 a.p2 + b.p1 + c.p0 + 5 * d.p4 + 5 * e.p3, a.p3 + b.p2 + c.p1 + d.p0 + 5 * e.p4,
                 a.p4 + b.p3 + c.p2 + d.p1 + e.p0) + P * Folded(b, c, d, e)
  {}

  /** Folding 2^130 to 5 changes the product by a multiple of P. */
  lemma ColumnsCongruent(h: Limbs, r: Limbs) returns (k: int)
    ensures var (d0, d1, d2, d3, d4) := Columns(h, r);
            Val(h) * Val(r) == Val5(d0, d1, d2, d3, d4) + P * k
  {
    var (a, b, c, d, e) := (h.h0 as int, h.h1 as int, h.h2 as int, h.h3 as int, h.h4 as int);
    ByLimbs(h, Val(r));
    hide Val, Val5, ValP, Folded;
    RowProducts(a, r); RowProducts(b, r); RowProducts(c, r); RowProducts(d, r); RowProducts(e, r);
    FoldRows(ProductsOf(a, r), ProductsOf(b, r), ProductsOf(c, r), ProductsOf(d, r), ProductsOf(e, r));
    k := Folded(ProductsOf(b, r), ProductsOf(c, r), ProductsOf(d, r), ProductsOf(e, r));
  }

  lemma ProductsRange(x: Long, r: Limbs, m: Long)
    requires 0 <= x <= m && Reduced(r)
    ensures 0 <= x as int * r.h0 as int <= m as int * 0x400_0000
    ensures 0 <= x as int * r.h1 as int <= m as int * 0x400_0000
    ensures 0 <= x as int * r.h2 as int <= m as int * 0x400_0000
    ensures 0 <= x as int * r.h3 as int <= m as int * 0x400_0000
    ensures 0 <= x as int * r.h4 as int <= m as int * 0x400_0000
  {
    ProductRange(x as int, r.h0 as int, m as int, 0x400_0000);
    ProductRange(x as int, r.h1 as int, m as int, 0x400_0000);
    ProductRange(x as int, r.h2 as int, m as int, 0x400_0000);
    ProductRange(x as int, r.h3 as int, m as int, 0x400_0000);
    ProductRange(x as int, r.h4 as int, m as int, 0x400_0000);
  }

  lemma ColumnsRange(h: Limbs, r: Limbs)
    requires Reduced(r)
    requires 0 <= h.h0 < 0x800_0080 && 0 <= h.h1 < 0x800_0080 && 0 <= h.h2 < 0x800_0080 &&
             0 <= h.h3 < 0x800_0080 && 0 <= h.h4 < 0x800_0080
    ensures var (d0, d1, d2, d3, d4) := Columns(h, r);
            && 0 <= d0 < 0x400_0000_0000_0000 && 0 <= d1 < 0x400_0000_0000_0000 && 0 <= d2 < 0x400_0000_0000_0000
            && 0 <= d3 < 0x400_0000_0000_0000 && 0 <= d4 < 0x100_0000_0000_0000
  {
    ProductsRange(h.h0, r, 0x800_0080);
    ProductsRange(h.h1, r, 0x800_0080);
    ProductsRange(h.h2, r, 0x800_0080);
    ProductsRange(h.h3, r, 0x800_0080);
    ProductsRange(h.h4, r, 0x800_0080);
  }

  /** The carry chain of one block: `k`, the carry out of the top limb, is the quotient by 2^130. */
  method Carry(d0: Long, d1In: Long, d2In: Long, d3In: Long, d4In: Long) returns (h: Limbs, ghost k: int)
    requires 0 <= d0 < 0x400_0000_0000_0000 && 0 <= d1In < 0x400_0000_0000_0000 && 0 <= d2In < 0x400_0000_0000_0000
    requires 0 <= d3In < 0x400_0000_0000_0000 && 0 <= d4In < 0x100_0000_0000_0000
    ensures Tight(h)
    ensures Val5(d0 as int, d1In as int, d2In as int, d3In as int, d4In as int) == Val(h) + P * k
    ensures k * TWO130 <= Val5(d0 as int, d1In as int, d2In as int, d3In as int, d4In as int) < (k + 1) * TWO130
  {
    var d1, d2, d3, d4 := d1In, d2In, d3In, d4In;
    var c := Ushr26(d0); var h0 := Low26(d0); d1 := d1 + c;
    c := Ushr26(d1); var h1 := Low26(d1); d2 := d2 + c;
    c := Ushr26(d2); var h2 := Low26(d2); d3 := d3 + c;
    c := Ushr26(d3); var h3 := Low26(d3); d4 := d4 + c;
    c := Ushr26(d4); var h4 := Low26(d4); h0 := h0 + c * 5;
    k := c as int;
    c := Ushr26(h0); h0 := Low26(h0); h1 := h1 + c;
    h := Limbs(h0, h1, h2, h3, h4);
  }

  /** A product of two limbs; the operand bounds keep it far inside a long. */
  function Times(x: Long, y: Long): (z: Long)
    requires 0 <= x < 0x800_0080 && 0 <= y < 0x1400_0000
    ensures z as int == x as int * y as int && 0 <= z < 0xA1_0000_0000_0000
  {
    ProductRange(x as int, y as int, 0x800_007F, 0x13FF_FFFF);
    x * y
  }

  lemma FiveTimes(a: int, b: int)
    ensures a * (b * 5) == 5 * (a * b)
  {}

  /** The five columns; s1..s4 are five times r1..r4. */
  method Multiply(h: Limbs, r: Limbs) returns (d0: Long, d1: Long, d2: Long, d3: Long, d4: Long)
    requires Reduced(r)
    requires 0 <= h.h0 < 0x800_0080 && 0 <= h.h1 < 0x800_0080 && 0 <= h.h2 < 0x800_0080 &&
             0 <= h.h3 < 0x800_0080 && 0 <= h.h4 < 0x800_0080
    ensures (d0 as int, d1 as int, d2 as int, d3 as int, d4 as int) == Columns(h, r)
  {
    var s1, s2, s3, s4 := r.h1 * 5, r.h2 * 5, r.h3 * 5, r.h4 * 5;
    FiveTimes(h.h1 as int, r.h4 as int); FiveTimes(h.h2 as int, r.h3 as int); FiveTimes(h.h3 as int, r.h2 as int);
    FiveTimes(h.h4 as int, r.h1 as int); FiveTimes(h.h2 as int, r.h4 as int); FiveTimes(h.h3 as int, r.h3 as int);
    FiveTimes(h.h4 as int, r.h2 as int); FiveTimes(h.h3 as int, r.h4 as int); FiveTimes(h.h4 as int, r.h3 as int);
    FiveTimes(h.h4 as int, r.h4 as int);
    d0 := Times(h.h0, r.h0) + Times(h.h1, s4) + Times(h.h2, s3) + Times(h.h3, s2) + Times(h.h4, s1);
    d1 := Times(h.h0, r.h1) + Times(h.h1, r.h0) + Times(h.h2, s4) + Times(h.h3, s3) + Times(h.h4, s2);
    d2 := Times(h.h0, r.h2) + Times(h.h1, r.h1) + Times(h.h2, r.h0) + Times(h.h3, s4) + Times(h.h4, s3);
    d3 := Times(h.h0, r.h3) + Times(h.h1, r.h2) + Times(h.h2, r.h1) + Times(h.h3, r.h0) + Times(h.h4, s4);
    d4 := Times(h.h0, r.h4) + Times(h.h1, r.h3) + Times(h.h2, r.h2) + Times(h.h3, r.h1) + Times(h.h4, r.h0);
  }

  function One(): Limbs {
    Limbs(1, 0, 0, 0, 0)
  }

  lemma TimesOne(h: Limbs)
    ensures Val(One()) == 1
    ensures var (d0, d1, d2, d3, d4) := Columns(h, One());
            Val5(d0, d1, d2, d3, d4) == Val(h)
  {}

  /** Absorbing `part` is adding it: what r = 1 does to blocks whose sum stays below 2^130. */
  ghost predicate AddsUp(before: int, r: Limbs, part: nat, after: int) {
    r == One() && before + part < TWO130 ==> after == before + part
  }

  lemma AddsUpThen(a: int, r: Limbs, p: nat, b: int, q: nat, c: int)
    requires AddsUp(a, r, p, b) && AddsUp(b, r, q, c)
    ensures AddsUp(a, r, p + q, c)
  {}

  lemma ExactForOne(sum: Limbs, out: Limbs, k: int)
    requires 0 <= Val(sum) < TWO130
    requires var (d0, d1, d2, d3, d4) := Columns(sum, One());
             Val5(d0, d1, d2, d3, d4) == Val(out) + P * k && k * TWO130 <= Val5(d0, d1, d2, d3, d4) < (k + 1) * TWO130
    ensures Val(out) == Val(sum)
  {
    TimesOne(sum);
    hide Val, Val5, Columns;
    assert k == 0;
  }

  /** One block of any of the three loops: h := (h + block) * r, partially carried. */
  method AbsorbBlock(h: Limbs, r: Limbs, block16: seq<Byte>) returns (out: Limbs, ghost k: int)
    requires Tight(h) && Reduced(r) && |block16| == 16
    ensures Tight(out)
    ensures (Val(h) + FromLE(block16) + TWO128) * Val(r) == Val(out) + P * k
    ensures AddsUp(Val(h), r, FromLE(block16) + TWO128, Val(out))
    ensures Lifted(r, Val(out))
  {
    hide *;
    var sum := AddBlock(h, block16);
    ColumnsRange(sum, r);
    ghost var k1 := ColumnsCongruent(sum, r);
    var d0, d1, d2, d3, d4 := Multiply(sum, r);
    ghost var k2: int;
    out, k2 := Carry(d0, d1, d2, d3, d4);
    k := k1 + k2;
    if r == One() && Val(sum) < TWO130 { ExactForOne(sum, out, k2); }
    AddsBlockIf(Val(h), r, block16, Val(sum), Val(out));
    ColumnsLifted(sum, r);
    CarryLifted(r, Val5(d0 as int, d1 as int, d2 as int, d3 as int, d4 as int), k2, Val(out));
  }

  /** Nothing for r = 0; otherwise at least 5, because every block has the byte 1 appended. */
  predicate Lifted(r: Limbs, v: int) {
    if Val(r) == 0 then v == 0 else v >= 5
  }

  lemma AtLeast(x: int, y: int)
    requires x >= 0 && y >= 1
    ensures x * y >= x
  {}

  lemma ColumnsLifted(sum: Limbs, r: Limbs)
    requires Reduced(r) && sum.h4 >= 0x100_0000
    requires 0 <= sum.h0 < 0x800_0080 && 0 <= sum.h1 < 0x800_0080 && 0 <= sum.h2 < 0x800_0080 &&
             0 <= sum.h3 < 0x800_0080 && 0 <= sum.h4 < 0x800_0080
    ensures var (d0, d1, d2, d3, d4) := Columns(sum, r);
            Lifted(r, Val5(d0, d1, d2, d3, d4))
  {
    if r == Limbs(0, 0, 0, 0, 0) {
      assert Columns(sum, r) == (0, 0, 0, 0, 0);
    } else {
      ColumnsRange(sum, r);
      SomeColumn(sum, r);
      hide Columns;
      assert Val(r) > 0;
    }
  }

  /** The column that meets the top limb of `sum` with a non-zero limb of r. */
  lemma SomeColumn(sum: Limbs, r: Limbs)
    requires Reduced(r) && r != Limbs(0, 0, 0, 0, 0) && sum.h4 >= 0x100_0000
    requires 0 <= sum.h0 && 0 <= sum.h1 && 0 <= sum.h2 && 0 <= sum.h3
    ensures var (d0, d1, d2, d3, d4) := Columns(sum, r);
            d0 >= 5 || d1 >= 5 || d2 >= 5 || d3 >= 5 || d4 >= 5
  {
    ProductsRange(sum.h0, r, sum.h0);
    ProductsRange(sum.h1, r, sum.h1);
    ProductsRange(sum.h2, r, sum.h2);
    ProductsRange(sum.h3, r, sum.h3);
    ProductsRange(sum.h4, r, sum.h4);
    if r.h0 > 0 { AtLeast(sum.h4 as int, r.h0 as int); }
    if r.h1 > 0 { AtLeast(sum.h4 as int, r.h1 as int); }
    if r.h2 > 0 { AtLeast(sum.h4 as int, r.h2 as int); }
    if r.h3 > 0 { AtLeast(sum.h4 as int, r.h3 as int); }
    if r.h4 > 0 { AtLeast(sum.h4 as int, r.h4 as int); }
  }

  /** Taking the prime away once for every 2^130 leaves at least five for each. */
  lemma CarryLifted(r: Limbs, x: int, k: int, out: int)
    requires Lifted(r, x) && x == out + P * k && k * TWO130 <= x < (k + 1) * TWO130
    ensures Lifted(r, out)
  {
    hide Val;
    assert k >= 0;
    assert P * k == TWO130 * k - 5 * k;
  }

  lemma AddsBlockIf(before: int, r: Limbs, block16: seq<Byte>, sum: int, after: int)
    requires sum == before + FromLE(block16) + TWO128
    requires r == One() && sum < TWO130 ==> after == sum
    ensures AddsUp(before, r, FromLE(block16) + TWO128, after)
  {}

  function AddBlock(h: Limbs, block16: seq<Byte>): (sum: Limbs)
    requires Tight(h) && |block16| == 16
    ensures 0 <= sum.h0 < 0x800_0080 && 0 <= sum.h1 < 0x800_0080 && 0 <= sum.h2 < 0x800_0080 &&
            0 <= sum.h3 < 0x800_0080 && 0 <= sum.h4 < 0x800_0080
    ensures sum.h4 >= 0x100_0000
    ensures 0 <= Val(sum) == Val(h) + FromLE(block16) + TWO128
  {
    var w := BlockLimbs(block16, 0x100_0000);
    BlockLimbsValue(block16, 0x100_0000);
    Limbs(h.h0 + w.h0, h.h1 + w.h1, h.h2 + w.h2, h.h3 + w.h3, h.h4 + w.h4)
  }

  // ---------------------------------------------------------------------------------------------
  // The key, the block loops, the final reduction
  // ---------------------------------------------------------------------------------------------

  /** Java `x & m` for the mask m whose zero bits, below bit 26, are the six bits from `lo` up. */
  function MaskOut(x: Long, lo: Long): (y: Long)
    requires 0 <= x < 0x400_0000 && lo in {0x4, 0x100, 0x4000}
    ensures FieldClear(x, lo) ==> y == x
  {
    if lo == 0x4 then x - x / 0x4 % 0x40 * 0x4
    else if lo == 0x100 then x - x / 0x100 % 0x40 * 0x100
    else x - x / 0x4000 % 0x40 * 0x4000
  }

  function Low20(x: Long): (y: Long)
    ensures 0 <= x < 0x10_0000 ==> y == x
  {
    x % 0x10_0000
  }

  predicate FieldClear(x: Long, lo: Long) {
    if lo == 0x4 then x / 0x4 % 0x40 == 0
    else if lo == 0x100 then x / 0x100 % 0x40 == 0
    else x / 0x4000 % 0x40 == 0
  }

  /** Section 2.5's r in limbs; after the byte clamps every mask is already satisfied. */
  method KeyLimbs(key32: seq<Byte>) returns (r: Limbs)
    requires |key32| == 32
    ensures Reduced(r) && Val(r) == FromLE(ClampBytes(key32))
  {
    var rBytes := ClampInPlace(key32);
    r := MaskedLimbs(rBytes);
  }

  method ClampInPlace(key32: seq<Byte>) returns (rBytes: seq<Byte>)
    requires |key32| == 32
    ensures rBytes == ClampBytes(key32)
  {
    rBytes := key32[..16];
    rBytes := rBytes[3 := rBytes[3] % 16][7 := rBytes[7] % 16][11 := rBytes[11] % 16][15 := rBytes[15] % 16];
    rBytes := rBytes[4 := rBytes[4] - rBytes[4] % 4][8 := rBytes[8] - rBytes[8] % 4][12 := rBytes[12] - rBytes[12] % 4];
  }

  method MaskedLimbs(b: seq<Byte>) returns (r: Limbs)
    requires |b| == 16
    requires b[3] < 16 && b[7] < 16 && b[11] < 16 && b[15] < 16 && b[4] % 4 == b[8] % 4 == b[12] % 4 == 0
    ensures Reduced(r) && Val(r) == FromLE(b)
  {
    BlockLimbsValue(b, 0);
    MaskIsIdentity(b, BlockLimbs(b, 0));
    TopLimb(b);
    hide MaskOut, Low20, FieldClear, BlockLimbs, Val, FromLE;
    var w := BlockLimbs(b, 0);
    var r1 := MaskOut(w.h1, 0x4);
    var r2 := MaskOut(w.h2, 0x100);
    var r3 := MaskOut(w.h3, 0x4000);
    r := Limbs(w.h0, r1, r2, r3, Low20(w.h4));
  }

  lemma MaskIsIdentity(b: seq<Byte>, w: Limbs)
    requires |b| == 16 && w == BlockLimbs(b, 0)
    requires b[3] < 16 && b[7] < 16 && b[11] < 16 && b[15] < 16 && b[4] % 4 == b[8] % 4 == b[12] % 4 == 0
    ensures FieldClear(w.h1, 0x4) && FieldClear(w.h2, 0x100) && FieldClear(w.h3, 0x4000)
  {
    BlockBytes(b);
    hide BlockLimbs, GetLE32, Low26;
    MaskLimb1(w.h1 as int, b[3], b[4], b[5], b[6] % 16);
    MaskLimb2(w.h2 as int, b[6], b[7], b[8], b[9] % 64);
    MaskLimb3(w.h3 as int, b[9], b[10], b[11], b[12]);
  }

  lemma TopLimb(b: seq<Byte>)
    requires |b| == 16 && b[15] < 16
    ensures Reduced(BlockLimbs(b, 0)) && 0 <= BlockLimbs(b, 0).h4 < 0x10_0000
  {
    Split4(b[12], b[13], b[14], b[15]);
  }

  lemma Split4(a: Byte, b: Byte, c: Byte, d: Byte)
    ensures Word(a, b, c, d) / 0x100 == b + 0x100 * c as int + 0x1_0000 * d as int
  {
    DivModUnique(Word(a, b, c, d), 0x100, b + 0x100 * c as int + 0x1_0000 * d as int, a);
  }

  lemma MaskLimb1(x: int, a: Byte, b: Byte, c: Byte, d: Byte)
    requires a < 16 && b % 4 == 0 && x == a / 4 + 0x40 * (b + 0x100 * c as int + 0x1_0000 * d as int)
    ensures x / 0x4 % 0x40 == 0
  {
    MaskField(x, a as int, 4, b, c as int + 0x100 * d as int, 4);
  }

  lemma MaskLimb2(x: int, a: Byte, b: Byte, c: Byte, d: Byte)
    requires b < 16 && c % 4 == 0 && x == a / 16 + 0x10 * (b + 0x100 * c as int + 0x1_0000 * d as int)
    ensures x / 0x100 % 0x40 == 0
  {
    MaskField(x, a as int + 0x100 * b as int, 16, c, d as int, 0x100);
  }

  lemma MaskLimb3(x: int, a: Byte, b: Byte, c: Byte, d: Byte)
    requires c < 16 && d % 4 == 0 && x == a / 64 + 0x4 * (b + 0x100 * c as int + 0x1_0000 * d as int)
    ensures x / 0x4000 % 0x40 == 0
  {
    MaskField(x, a as int + 0x100 * b as int + 0x1_0000 * c as int, 64, d, 0, 0x4000);
  }

  /** A limb whose bits from `lo` on are a multiple of 64 has nothing for MaskOut to clear. */
  lemma MaskField(x: int, below: int, cut: int, clamped: Byte, above: int, lo: int)
    requires (cut, lo) in {(4, 0x4), (16, 0x100), (64, 0x4000)}
    requires 0 <= below < cut * lo && clamped % 4 == 0
    requires x == below / cut + lo * 0x10 * clamped as int + lo * 0x1000 * above
    ensures x / lo % 0x40 == 0
  {
    var low, q := below / cut, clamped as int / 4;
    assert 0 <= low < lo;
    assert x == (0x40 * (q + 0x40 * above)) * lo + low;
    DivModUnique(x, lo, 0x40 * (q + 0x40 * above), low);
  }

  /** One step of the reference accumulator, read off the congruence of AbsorbBlock. */
  lemma AccumulateBlock(h: Limbs, out: Limbs, r: Limbs, k: int, block16: seq<Byte>, rest: seq<Byte>)
    requires Tight(h) && Tight(out) && Reduced(r) && |block16| == 16
    requires (Val(h) + FromLE(block16) + TWO128) * Val(r) == Val(out) + P * k
    ensures Outcome(h, block16 + rest, r) == Outcome(out, rest, r)
  {
    hide Accumulate, FromLE;
    AccumulateStep(Val(h), Val(out), Val(r), k, block16, rest);
  }

  lemma AccumulateStep(h: nat, out: nat, r: nat, k: int, block16: seq<Byte>, rest: seq<Byte>)
    requires |block16| == 16
    requires (h + FromLE(block16) + TWO128) * r == out + P * k
    ensures Accumulate(h % P, block16 + rest, r) == Accumulate(out % P, rest, r)
  {
    AccumulateUnfold(h % P, block16, rest, r);
    var n := FromLE(block16 + [1]);
    AppendOne(block16);
    assert h + FromLE(block16) + TWO128 == h + n;
    ModuloP(h, n, r, out, k);
  }

  lemma AccumulateUnfold(acc: nat, block16: seq<Byte>, rest: seq<Byte>, r: nat)
    requires |block16| == 16
    ensures Accumulate(acc, block16 + rest, r) == Accumulate(((acc + FromLE(block16 + [1])) * r) % P, rest, r)
  {
    var msg := block16 + rest;
    assert msg[..16] == block16 && msg[16..] == rest;
  }

  lemma TwoTo128()
    ensures Pow256(8) == TWO64 && Pow256(16) == TWO128
  {}

  lemma AppendOne(block16: seq<Byte>)
    requires |block16| == 16
    ensures FromLE(block16 + [1]) == FromLE(block16) + TWO128
  {
    FromLEAppend(block16, [1]);
    var one: seq<Byte> := [1];
    assert FromLE(one) == 1 by { assert one[1..] == []; }
    TwoTo128();
    assert Pow256(16) * FromLE(one) == TWO128;
  }

  lemma ModuloP(h: int, n: int, r: int, out: int, k: int)
    requires (h + n) * r == out + P * k
    ensures ((h % P + n) * r) % P == out % P
  {
    var q, m := h / P, h % P;
    assert (h + n) * r == (m + n) * r + P * (q * r) by {
      assert h + n == (m + n) + P * q;
      assert ((m + n) + P * q) * r == (m + n) * r + (P * q) * r;
      assert (P * q) * r == P * (q * r);
    }
    assert (m + n) * r == out % P + P * (out / P + k - q * r);
    DivModUnique((m + n) * r, P, out / P + k - q * r, out % P);
  }

  lemma PadStep(s: seq<Byte>, tail: seq<Byte>, n: nat)
    requires s != [] && n == (if |s| < 16 then |s| else 16)
    ensures Pad16(s) + tail == (s[..n] + Zeros(16 - n)) + (Pad16(s[n..]) + tail)
  {
    if |s| < 16 {
      assert s[n..] == [] && s[..n] == s;
    } else {
      assert (|s| - 16) % 16 == |s| % 16;
      assert s[..n] + s[n..] == s;
    }
  }

  /** The sum of the 16-byte blocks, each with the byte 1 appended. */
  function BlockSum(msg: seq<Byte>): (n: nat)
    requires |msg| % 16 == 0
    decreases |msg|
  {
    if msg == [] then 0 else FromLE(msg[..16]) + TWO128 + BlockSum(msg[16..])
  }

  lemma {:induction false} BlockSumConcat(a: seq<Byte>, b: seq<Byte>)
    requires |a| % 16 == 0 && |b| % 16 == 0
    ensures BlockSum(a + b) == BlockSum(a) + BlockSum(b)
    decreases |a|
  {
    if a == [] {
      assert a + b == b;
    } else {
      assert (a + b)[..16] == a[..16] && (a + b)[16..] == a[16..] + b;
      BlockSumConcat(a[16..], b);
    }
  }

  lemma PadStepSum(s: seq<Byte>, n: nat)
    requires s != [] && n == (if |s| < 16 then |s| else 16)
    ensures BlockSum(Pad16(s)) == FromLE(s[..n] + Zeros(16 - n)) + TWO128 + BlockSum(Pad16(s[n..]))
  {
    PadStep(s, [], n);
    var first, others := s[..n] + Zeros(16 - n), Pad16(s[n..]);
    assert Pad16(s) == first + others;
    hide Pad16, FromLE, Zeros;
    assert (first + others)[..16] == first && (first + others)[16..] == others;
  }

  /** The body of that loop: copy up to 16 bytes into the zeroed block, then absorb it. */
  method AbsorbChunk(before: Limbs, r: Limbs, data: seq<Byte>, offset: nat, block16: array<Byte>, ghost tail: seq<Byte>)
    returns (h: Limbs, chunk: nat)
    requires Tight(before) && Reduced(r) && block16.Length == 16 && offset < |data|
    modifies block16
    ensures Tight(h) && 1 <= chunk && offset + chunk <= |data|
    ensures Outcome(before, Pad16(data[offset..]) + tail, r) == Outcome(h, Pad16(data[offset + chunk..]) + tail, r)
    ensures BlockSum(Pad16(data[offset..])) >= BlockSum(Pad16(data[offset + chunk..]))
    ensures AddsUp(Val(before), r,
                   BlockSum(Pad16(data[offset..])) - BlockSum(Pad16(data[offset + chunk..])), Val(h))
  {
    hide Pad16, Outcome, BlockSum, FromLE, AddsUp, Val, Tight, Reduced, One;
    chunk := if |data| - offset < 16 then |data| - offset else 16;
    forall i | 0 <= i < 16 { block16[i] := 0; }
    forall i | 0 <= i < chunk { block16[i] := data[offset + i]; }
    ghost var rest := data[offset..];
    assert block16[..] == rest[..chunk] + Zeros(16 - chunk);
    PadStep(rest, tail, chunk);
    assert rest[chunk..] == data[offset + chunk..];
    ghost var k: int;
    h, k := AbsorbBlock(before, r, block16[..]);
    AccumulateBlock(before, h, r, k, block16[..], Pad16(rest[chunk..]) + tail);
    PadStepSum(rest, chunk);
  }

  /** What the rest of the message makes of the limbs `h`. */
  ghost function Outcome(h: Limbs, rest: seq<Byte>, r: Limbs): nat {
    Accumulate(Val(h) % P, rest, if Val(r) < 0 then 0 else Val(r))
  }

  lemma AddsNothing(v: int, r: Limbs)
    ensures AddsUp(v, r, 0, v)
  {}

  lemma PadEmpty(tail: seq<Byte>)
    ensures Pad16([]) + tail == tail && BlockSum(Pad16([])) == 0
  {}

  /** The loop over the associated data, and again over the ciphertext. */
  method AbsorbPadded(start: Limbs, r: Limbs, data: seq<Byte>, ghost tail: seq<Byte>) returns (h: Limbs)
    requires Tight(start) && Reduced(r)
    ensures Tight(h)
    ensures Outcome(start, Pad16(data) + tail, r) == Outcome(h, tail, r)
    ensures AddsUp(Val(start), r, BlockSum(Pad16(data)), Val(h))
  {
    AddsNothing(Val(start), r);
    hide *;
    h := start;
    var block16 := new Byte[16];
    var offset := 0;
    ghost var goal, sum := Outcome(start, Pad16(data) + tail, r), BlockSum(Pad16(data));
    assert data[0..] == data;
    while offset < |data|
      invariant 0 <= offset <= |data| && Tight(h)
      invariant goal == Outcome(h, Pad16(data[offset..]) + tail, r)
      invariant BlockSum(Pad16(data[offset..])) <= sum
      invariant AddsUp(Val(start), r, sum - BlockSum(Pad16(data[offset..])), Val(h))
    {
      var chunk;
      ghost var before, left := Val(h), BlockSum(Pad16(data[offset..]));
      h, chunk := AbsorbChunk(h, r, data, offset, block16, tail);
      AddsUpThen(Val(start), r, sum - left, before, left - BlockSum(Pad16(data[offset + chunk..])), Val(h));
      offset := offset + chunk;
    }
    PadEmpty(tail);
    assert data[offset..] == [];
  }

  /** The second carry chain: after it every limb, h1 included, is below 2^26. */
  method FullCarry(h: Limbs) returns (out: Limbs, ghost k: int)
    requires Tight(h)
    ensures Reduced(out) && Val(h) == Val(out) + P * k
    ensures k * TWO130 <= Val(h) < (k + 1) * TWO130
  {
    hide Low26, Ushr26;
    var h0, h1, h2, h3, h4 := h.h0, h.h1, h.h2, h.h3, h.h4;
    var c := Ushr26(h0); h0 := Low26(h0); h1 := h1 + c;
    c := Ushr26(h1); h1 := Low26(h1); h2 := h2 + c;
    assert c <= 1 && (c == 1 ==> h1 < 0x80);
    c := Ushr26(h2); h2 := Low26(h2); h3 := h3 + c;
    c := Ushr26(h3); h3 := Low26(h3); h4 := h4 + c;
    c := Ushr26(h4); h4 := Low26(h4); h0 := h0 + c * 5;
    k := c as int;
    c := Ushr26(h0); h0 := Low26(h0); h1 := h1 + c;
    out := Limbs(h0, h1, h2, h3, h4);
  }

  /** Java `(a & mask) | (b & ~mask)` where mask is `x >> 63`: all ones for negative x, else zero. */
  function Select(x: Long, a: Long, b: Long): Long {
    if x < 0 then a else b
  }

  /**
   The conditional subtraction of 2^130 - 5. When it happens the source adds 2^26 back to a zero
   top limb, so the top limb is then 2^26 itself; packing cuts that bit off.
   */
  method SubtractP(h: Limbs) returns (out: Limbs)
    requires Reduced(h)
    ensures Val(h) < P ==> out == h
    ensures Val(h) >= P ==> out.h4 == 0x400_0000 && Reduced(out.(h4 := 0)) && Val(out.(h4 := 0)) == Val(h) - P
    ensures Reduced(out) <==> Val(h) < P
  {
    var g0 := h.h0 + 5; var c := Ushr26(g0); g0 := Low26(g0);
    var g1 := h.h1 + c; c := Ushr26(g1); g1 := Low26(g1);
    var g2 := h.h2 + c; c := Ushr26(g2); g2 := Low26(g2);
    var g3 := h.h3 + c; c := Ushr26(g3); g3 := Low26(g3);
    var g4 := h.h4 + c - 0x400_0000;
    out := Limbs(Select(g4, h.h0, g0), Select(g4, h.h1, g1), Select(g4, h.h2, g2), Select(g4, h.h3, g3),
                 Select(g4, h.h4, g4 + 0x400_0000));
  }

  /**
   The two 64-bit halves, as unsigned numbers. The shifted fields do not overlap, so `|` adds;
   `h4 << 40` keeps the low 24 bits of h4.
   */
  method Pack(h: Limbs) returns (f0: nat, f1: nat)
    requires Reduced(h.(h4 := 0)) && 0 <= h.h4 <= 0x400_0000
    ensures f0 < TWO64 && f1 < TWO64 && f0 + f1 * TWO64 == Val(h) % TWO128
  {
    var h0, h1, h2, h3, h4 := h.h0 as int, h.h1 as int, h.h2 as int, h.h3 as int, h.h4 as int;
    f0 := h0 + h1 * 0x400_0000 + h2 % 0x1000 * 0x10_0000_0000_0000;
    f1 := h2 / 0x1000 + h3 * 0x4000 + h4 % 0x100_0000 * 0x100_0000_0000;
    var lost := h4 / 0x100_0000;
    assert Val(h) == f0 + f1 * TWO64 + lost * TWO128;
    DivModUnique(Val(h), TWO128, lost, f0 + f1 * TWO64);
  }

  function GetLE64(b: seq<Byte>, offset: nat): (n: nat)
    requires offset + 8 <= |b|
    ensures n < TWO64
  {
    GetLE32(b, offset) as int + GetLE32(b, offset + 4) as int * 0x1_0000_0000
  }

  lemma KeyHalves(key32: seq<Byte>)
    requires |key32| == 32
    ensures FromLE(key32[16..]) == GetLE64(key32, 16) + GetLE64(key32, 24) * TWO64
  {
    FromLE16(key32[16..]);
  }

  /** `f0 += s_low`, the unsigned carry test, `f1 += s_high`: addition modulo 2^128. */
  method AddS(f0In: nat, f1In: nat, key32: seq<Byte>) returns (tag: seq<Byte>)
    requires |key32| == 32 && f0In < TWO64 && f1In < TWO64
    ensures tag == ToLE((f0In + f1In * TWO64) + FromLE(key32[16..]), 16)
  {
    hide ToLE, FromLE, GetLE64;
    var sLow, sHigh := GetLE64(key32, 16), GetLE64(key32, 24);
    var f0, f1 := f0In, f1In;
    f0 := (f0 + sLow) % TWO64;
    if f0 < sLow {
      f1 := (f1 + 1) % TWO64;
    }
    f1 := (f1 + sHigh) % TWO64;
    tag := ToLE(f0, 8) + ToLE(f1, 8);
    KeyHalves(key32);
    SplitSum(f0In, f1In, sLow, sHigh, f0, f1);
  }

  lemma SplitSum(a0: nat, a1: nat, b0: nat, b1: nat, f0: nat, f1: nat)
    requires a0 < TWO64 && a1 < TWO64 && b0 < TWO64 && b1 < TWO64
    requires f0 == (a0 + b0) % TWO64
    requires f1 == ((if f0 < b0 then (a1 + 1) % TWO64 else a1) + b1) % TWO64
    ensures ToLE(f0, 8) + ToLE(f1, 8) == ToLE((a0 + a1 * TWO64) + (b0 + b1 * TWO64), 16)
  {
    var total := (a0 + a1 * TWO64) + (b0 + b1 * TWO64);
    hide ToLE, Pow256;
    LowHalves(a0, a1, b0, b1, f0, f1);
    TwoTo128();
    ToLEConcat(f0, f1, 8, 8);
    ToLEMod(total, f0 + TWO64 * f1, 16);
  }

  lemma LowHalves(a0: nat, a1: nat, b0: nat, b1: nat, f0: nat, f1: nat)
    requires a0 < 0x1_0000_0000_0000_0000 && a1 < 0x1_0000_0000_0000_0000
    requires b0 < 0x1_0000_0000_0000_0000 && b1 < 0x1_0000_0000_0000_0000
    requires f0 == (a0 + b0) % 0x1_0000_0000_0000_0000
    requires f1 == ((if f0 < b0 then (a1 + 1) % 0x1_0000_0000_0000_0000 else a1) + b1) % 0x1_0000_0000_0000_0000
    ensures ((a0 + a1 * 0x1_0000_0000_0000_0000) + (b0 + b1 * 0x1_0000_0000_0000_0000))
              % 0x1_0000_0000_0000_0000_0000_0000_0000_0000
         == (f0 + 0x1_0000_0000_0000_0000 * f1) % 0x1_0000_0000_0000_0000_0000_0000_0000_0000
  {
    var total := (a0 + a1 * 0x1_0000_0000_0000_0000) + (b0 + b1 * 0x1_0000_0000_0000_0000);
    var carry := if f0 < b0 then 1 else 0;
    assert a0 + b0 == carry * 0x1_0000_0000_0000_0000 + f0;
    var t := if f0 < b0 then (a1 + 1) % 0x1_0000_0000_0000_0000 else a1;
    var c1 := if a1 + carry >= 0x1_0000_0000_0000_0000 then 1 else 0;
    assert t == a1 + carry - c1 * 0x1_0000_0000_0000_0000;
    var c2 := if t + b1 >= 0x1_0000_0000_0000_0000 then 1 else 0;
    assert f1 == t + b1 - c2 * 0x1_0000_0000_0000_0000;
    var low := f0 + 0x1_0000_0000_0000_0000 * f1;
    assert total == (c1 + c2) * 0x1_0000_0000_0000_0000_0000_0000_0000_0000 + low;
    DivModUnique(total, 0x1_0000_0000_0000_0000_0000_0000_0000_0000, c1 + c2, low);
    DivModUnique(low, 0x1_0000_0000_0000_0000_0000_0000_0000_0000, 0, low);
  }

  lemma CanonicalResidue(h: int, x: int, k: int)
    requires h == x + P * k && 0 <= x < P
    ensures h % P == x
  {
    DivModUnique(h, P, k, x);
  }

  /**
   The final reduction: the canonical residue modulo 2^128. A limb ends above 26 bits, and then it is the top
   one, if and only if the value that comes in lies between the prime and 2^130.
   */
  method Reduce(h: Limbs) returns (out: Limbs)
    requires Tight(h)
    ensures Reduced(out.(h4 := 0)) && 0 <= out.h4 <= 0x400_0000
    ensures Val(out) >= 0 && Val(out) % TWO128 == Val(h) % P % TWO128
    ensures Reduced(out) <==> !(P <= Val(h) < TWO130)
  {
    TightRange(h);
    hide Val, Tight, Reduced;
    ghost var k;
    var full;
    full, k := FullCarry(h);
    ReducedRange(full);
    out := SubtractP(full);
    SubtractedRange(full, out);
    ghost var x := if Val(full) >= P then Val(full) - P else Val(full);
    CanonicalResidue(Val(h), x, if Val(full) >= P then k + 1 else k);
    assert k == 0 || k == 1;
  }

  lemma TightRange(h: Limbs)
    requires Tight(h)
    ensures 0 <= Val(h) < TWO130 + 0x80 * 0x400_0000
  {}

  lemma ReducedRange(h: Limbs)
    requires Reduced(h)
    ensures 0 <= Val(h) < P + 5
  {}

  lemma SubtractedRange(h: Limbs, out: Limbs)
    requires Reduced(h)
    requires Val(h) < P ==> out == h
    requires Val(h) >= P ==> out.h4 == 0x400_0000 && Reduced(out.(h4 := 0)) && Val(out.(h4 := 0)) == Val(h) - P
    ensures Reduced(out.(h4 := 0)) && 0 <= out.h4 <= 0x400_0000
    ensures 0 <= Val(out) && Val(out) % TWO128 == (if Val(h) >= P then Val(h) - P else Val(h)) % TWO128
  {
    hide Val, Reduced;
    ReducedRange(h);
    if Val(h) >= P {
      var low := out.(h4 := 0);
      ReducedRange(low);
      TopLimbValue(out);
      AddMultiple(Val(low), Val(out));
    } else {
      TopLimbFree(h);
    }
  }

  lemma TopLimbFree(h: Limbs)
    requires Reduced(h)
    ensures Reduced(h.(h4 := 0)) && 0 <= h.h4 <= 0x400_0000
  {}

  lemma TopLimbValue(h: Limbs)
    requires h.h4 == 0x400_0000
    ensures Val(h) == Val(h.(h4 := 0)) + 4 * TWO128
  {}

  lemma AddMultiple(low: nat, v: int)
    requires v == low + 4 * TWO128
    ensures v % TWO128 == low % TWO128
  {
    DivModUnique(v, TWO128, low / TWO128 + 4, low % TWO128);
  }

  lemma SameLowBits(a: nat, b: nat, s: nat)
    requires a == b % TWO128
    ensures ToLE(a + s, 16) == ToLE(b + s, 16)
  {
    hide ToLE, Pow256;
    TwoTo128();
    assert (a + s) % TWO128 == (b + s) % TWO128;
    ToLEMod(a + s, b + s, 16);
  }

  /**
   The key and the three block loops. For r = 1 the accumulator is the plain sum of the blocks, as long as
   that stays below 2^130.
   */
  method Accumulated(key32: seq<Byte>, aad: seq<Byte>, ct: seq<Byte>) returns (h: Limbs)
    requires |key32| == 32 && |aad| < 0x8000_0000 && |ct| < 0x8000_0000
    ensures Tight(h)
    ensures Mac(MacData(aad, ct), key32) == ToLE(Val(h) % P + FromLE(key32[16..]), 16)
    ensures FromLE(ClampBytes(key32)) == 1 && BlockSum(MacData(aad, ct)) < TWO130 ==>
              Val(h) == BlockSum(MacData(aad, ct))
    ensures Val(h) % P == Accumulate(0, MacData(aad, ct), FromLE(ClampBytes(key32)))
    ensures if FromLE(ClampBytes(key32)) == 0 then Val(h) == 0 else Val(h) >= 5
  {
    hide *;
    var r := KeyLimbs(key32);
    h := Limbs(0, 0, 0, 0, 0);
    ZeroLimbs(h);
    ghost var lengths := Lengths(|aad|, |ct|);
    ghost var start := h;
    h := AbsorbPadded(h, r, aad, Pad16(ct) + lengths);
    ghost var middle := h;
    h := AbsorbPadded(h, r, ct, lengths);
    var block16 := Lengths(|aad|, |ct|);
    ghost var k, before := 0, h;
    h, k := AbsorbBlock(h, r, block16);

    assert block16 + [] == block16;
    AccumulateBlock(before, h, r, k, block16, []);
    OutcomeIsMac(start, r, before, h, key32, aad, ct);
    AddsUpThen(Val(start), r, BlockSum(Pad16(aad)), Val(middle), BlockSum(Pad16(ct)), Val(before));
    AddsBlock(Val(before), r, block16, Val(h));
    AddsUpThen(Val(start), r, BlockSum(Pad16(aad)) + BlockSum(Pad16(ct)), Val(before), BlockSum(block16), Val(h));
    MacDataSum(aad, ct);
    AddedUp(r, BlockSum(MacData(aad, ct)), Val(h));
    LiftedMeans(r, Val(h));
  }

  lemma LiftedMeans(r: Limbs, v: int)
    requires Lifted(r, v)
    ensures if Val(r) == 0 then v == 0 else v >= 5
  {}

  lemma AddsBlock(before: int, r: Limbs, block16: seq<Byte>, after: int)
    requires |block16| == 16 && AddsUp(before, r, FromLE(block16) + TWO128, after)
    ensures AddsUp(before, r, BlockSum(block16), after)
  {
    assert block16[..16] == block16 && block16[16..] == [];
    assert BlockSum([]) == 0;
    hide FromLE;
  }

  lemma MacDataSum(aad: seq<Byte>, ct: seq<Byte>)
    ensures BlockSum(MacData(aad, ct)) ==
            BlockSum(Pad16(aad)) + BlockSum(Pad16(ct)) + BlockSum(Lengths(|aad|, |ct|))
  {
    hide BlockSum, Lengths, Pad16;
    var lengths := Lengths(|aad|, |ct|);
    BlockSumConcat(Pad16(aad), Pad16(ct));
    BlockSumConcat(Pad16(aad) + Pad16(ct), lengths);
  }

  lemma AddedUp(r: Limbs, sum: nat, v: int)
    requires Reduced(r) && AddsUp(0, r, sum, v)
    ensures Val(r) == 1 && sum < TWO130 ==> v == sum
  {
    if Val(r) == 1 { OnlyOne(r); }
  }

  lemma OnlyOne(r: Limbs)
    requires Reduced(r) && Val(r) == 1
    ensures r == One()
  {}

  /**
   Whether every limb is below 2^26 before packing: exactly when r is 0 or the accumulator of section 2.5 ends
   at 5 or more.
   */
  predicate LimbsFit(key32: seq<Byte>, aad: seq<Byte>, ct: seq<Byte>)
    requires |key32| == 32
  {
    var r := FromLE(ClampBytes(key32));
    r == 0 || Accumulate(0, MacData(aad, ct), r) >= 5
  }

  /** All of the computation that comes before packing. */
  method LimbsToPack(key32: seq<Byte>, aad: seq<Byte>, ct: seq<Byte>) returns (h: Limbs)
    requires |key32| == 32 && |aad| < 0x8000_0000 && |ct| < 0x8000_0000
    ensures Reduced(h.(h4 := 0)) && 0 <= h.h4 <= 0x400_0000 && Val(h) >= 0
    ensures Mac(MacData(aad, ct), key32) == ToLE(Val(h) % TWO128 + FromLE(key32[16..]), 16)
    ensures Reduced(h) <==> LimbsFit(key32, aad, ct)
  {
    hide *;
    var sum := Accumulated(key32, aad, ct);
    h := Reduce(sum);
    FitsExactly(key32, aad, ct, sum);
    PackedMac(Mac(MacData(aad, ct), key32), Val(sum), Val(h), FromLE(key32[16..]));
  }

  lemma FitsExactly(key32: seq<Byte>, aad: seq<Byte>, ct: seq<Byte>, sum: Limbs)
    requires |key32| == 32 && Tight(sum)
    requires Val(sum) % P == Accumulate(0, MacData(aad, ct), FromLE(ClampBytes(key32)))
    requires if FromLE(ClampBytes(key32)) == 0 then Val(sum) == 0 else Val(sum) >= 5
    ensures LimbsFit(key32, aad, ct) <==> !(P <= Val(sum) < TWO130)
  {
    TightRange(sum);
    hide Val, Tight, Accumulate, MacData, FromLE, ClampBytes;
    var v := Val(sum);
    if v < P { DivModUnique(v, P, 0, v); } else { DivModUnique(v, P, 1, v - P); }
  }

  lemma PackedMac(mac: seq<Byte>, sum: int, packed: int, s: nat)
    requires packed % TWO128 == sum % P % TWO128 && mac == ToLE(sum % P + s, 16)
    ensures mac == ToLE(packed % TWO128 + s, 16)
  {
    SameLowBits(packed % TWO128, sum % P, s);
  }

  /** The whole tag computation of the source; `aad` or `ct` absent is the empty sequence. */
  method ComputePoly1305(key32: seq<Byte>, aad: seq<Byte>, ct: seq<Byte>) returns (tag: seq<Byte>)
    requires |key32| == 32 && |aad| < 0x8000_0000 && |ct| < 0x8000_0000
    ensures tag == Mac(MacData(aad, ct), key32)
  {
    hide *;
    var h := LimbsToPack(key32, aad, ct);
    var f0, f1 := Pack(h);
    tag := AddS(f0, f1, key32);
  }

  function KeyOfOne(): (key: seq<Byte>)
    ensures |key| == 32
  {
    [1] + Zeros(31)
  }

  /** Two blocks, 2^128 - 5 - 2^69 and zero. */
  function PrimeText(): (t: seq<Byte>)
    ensures |t| == 32
  {
    ToLE(TWO128 - 5 - 32 * TWO64, 16) + Zeros(16)
  }

  lemma {:induction false} ZerosAre0(n: nat)
    ensures FromLE(Zeros(n)) == 0
  {
    if n > 0 {
      assert Zeros(n)[1..] == Zeros(n - 1);
      ZerosAre0(n - 1);
    }
  }

  lemma KeyIsOne()
    ensures FromLE(ClampBytes(KeyOfOne())) == 1
  {
    assert ClampBytes(KeyOfOne()) == [1] + Zeros(15);
    assert ([1] + Zeros(15))[1..] == Zeros(15);
    ZerosAre0(15);
  }

  lemma OneBlock(block16: seq<Byte>, rest: seq<Byte>)
    requires |block16| == 16 && |rest| % 16 == 0
    ensures BlockSum(block16 + rest) == FromLE(block16) + TWO128 + BlockSum(rest)
  {
    assert (block16 + rest)[..16] == block16 && (block16 + rest)[16..] == rest;
    hide FromLE;
  }

  lemma LengthsSum()
    ensures BlockSum(Lengths(0, 32)) == 32 * TWO64 + TWO128
  {
    hide FromLE, ToLE, BlockSum, Pow256;
    var low, high := ToLE(0, 8), ToLE(32, 8);
    TwoTo128();
    NoBlocks();
    FromToLE(0, 8);
    FromToLE(32, 8);
    FromLEAppend(low, high);
    OneBlock(low + high, []);
    assert low + high + [] == low + high;
  }

  lemma PrimeBlocks()
    ensures BlockSum(Pad16(PrimeText())) == 3 * TWO128 - 5 - 32 * TWO64
  {
    hide FromLE, ToLE, BlockSum, Zeros, Pow256;
    var first, zero := ToLE(TWO128 - 5 - 32 * TWO64, 16), Zeros(16);
    TwoTo128();
    FromToLE(TWO128 - 5 - 32 * TWO64, 16);
    ZerosAre0(16);
    NoBlocks();
    OneBlock(zero, []);
    OneBlock(first, zero);
    assert zero + [] == zero && Pad16(PrimeText()) == first + zero;
  }

  lemma NoBlocks()
    ensures BlockSum([]) == 0
  {}

  /** For r = 1 the accumulator is the sum of the blocks modulo the prime. */
  lemma {:induction false} AccumulateOne(acc: nat, msg: seq<Byte>)
    requires |msg| % 16 == 0
    ensures Accumulate(acc % P, msg, 1) == (acc + BlockSum(msg)) % P
    decreases |msg|
  {
    hide FromLE, BlockSum, Accumulate;
    if msg == [] {
      AccumulateEmpty(acc % P, 1);
      NoBlocks();
    } else {
      var first, rest := msg[..16], msg[16..];
      var next := acc + FromLE(first) + TWO128;
      assert msg == first + rest;
      AccumulateStep(acc, next, 1, 0, first, rest);
      OneBlock(first, rest);
      AccumulateOne(next, rest);
    }
  }

  /** With r = 1 and this ciphertext the blocks add up to the prime. */
  lemma PrimeIsReached()
    ensures FromLE(ClampBytes(KeyOfOne())) == 1
    ensures BlockSum(MacData([], PrimeText())) == P
  {
    KeyIsOne();
    MacDataSum([], PrimeText());
    PrimeBlocks();
    LengthsSum();
    PadEmpty([]);
    hide MacData, BlockSum, Pad16, ClampBytes, FromLE, Lengths, PrimeText;
  }

  lemma LengthsWeigh(aad: seq<Byte>, ct: seq<Byte>)
    ensures BlockSum(MacData(aad, ct)) >= TWO128
  {
    hide MacData, FromLE, Pad16;
    MacDataSum(aad, ct);
    BlockWeighs(Lengths(|aad|, |ct|));
  }

  lemma BlockWeighs(block16: seq<Byte>)
    requires |block16| == 16
    ensures BlockSum(block16) >= TWO128
  {
    hide FromLE;
  }

  /** For r = 1 and blocks that sum to less than 2^130 the limbs fit exactly when the sum is below the prime. */
  lemma FitsForOne(key32: seq<Byte>, aad: seq<Byte>, ct: seq<Byte>)
    requires |key32| == 32 && FromLE(ClampBytes(key32)) == 1 && BlockSum(MacData(aad, ct)) < TWO130
    ensures LimbsFit(key32, aad, ct) <==> BlockSum(MacData(aad, ct)) < P
  {
    hide MacData, BlockSum, ClampBytes, FromLE, Accumulate;
    var sum := BlockSum(MacData(aad, ct));
    LengthsWeigh(aad, ct);
    AccumulateOne(0, MacData(aad, ct));
    DivModUnique(0, P, 0, 0);
    if sum < P { DivModUnique(sum, P, 0, sum); } else { DivModUnique(sum, P, 1, sum - P); }
  }

  lemma MultipleOfPrime(key32: seq<Byte>, aad: seq<Byte>, ct: seq<Byte>)
    requires |key32| == 32 && FromLE(ClampBytes(key32)) == 1 && BlockSum(MacData(aad, ct)) == P
    ensures Accumulate(0, MacData(aad, ct), 1) == 0 && !LimbsFit(key32, aad, ct)
  {
    hide MacData, BlockSum, ClampBytes, FromLE, Accumulate;
    AccumulateOne(0, MacData(aad, ct));
    DivModUnique(P, P, 1, 0);
    DivModUnique(0, P, 0, 0);
  }

  /** So that key and ciphertext make the source pack a top limb of 2^26: LimbsToPack, where the limbs do not fit. */
  lemma TopLimbPasses26Bits()
    ensures Accumulate(0, MacData([], PrimeText()), FromLE(ClampBytes(KeyOfOne()))) == 0
    ensures !LimbsFit(KeyOfOne(), [], PrimeText())
  {
    hide *;
    PrimeIsReached();
    MultipleOfPrime(KeyOfOne(), [], PrimeText());
  }

  lemma ZeroLimbs(h: Limbs)
    requires h == Limbs(0, 0, 0, 0, 0)
    ensures Tight(h) && Val(h) == 0
  {}

  lemma AccumulateEmpty(acc: nat, r: nat)
    ensures Accumulate(acc, [], r) == acc
  {}

  lemma OutcomeIsMac(start: Limbs, r: Limbs, before: Limbs, h: Limbs, key32: seq<Byte>, aad: seq<Byte>, ct: seq<Byte>)
    requires |key32| == 32 && Tight(start) && Val(start) == 0 && Tight(before) && Tight(h) && Reduced(r)
    requires Val(r) == FromLE(ClampBytes(key32))
    requires var lengths := Lengths(|aad|, |ct|);
             && Outcome(start, Pad16(aad) + (Pad16(ct) + lengths), r) == Outcome(before, lengths, r)
             && Outcome(before, lengths, r) == Outcome(h, [], r)
    ensures Mac(MacData(aad, ct), key32) == ToLE(Val(h) % P + FromLE(key32[16..]), 16)
    ensures Val(h) % P == Accumulate(0, MacData(aad, ct), FromLE(ClampBytes(key32)))
  {
    hide Accumulate, Val, Pad16, ToLE, FromLE, ClampBytes, Tight, Reduced;
    var lengths := Lengths(|aad|, |ct|);
    AccumulateEmpty(Val(h) % P, Val(r));
    assert Pad16(aad) + (Pad16(ct) + lengths) == MacData(aad, ct);
  }
}
