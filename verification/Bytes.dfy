/** Bytes as integers, little-endian numbers and exclusive or: what the codecs and the MAC share. */
module Bytes {
  type Byte = b: int | 0 <= b < 256

  function Pow256(n: nat): (p: nat)
    ensures p > 0
  {
    if n == 0 then 1 else 256 * Pow256(n - 1)
  }

  lemma Pow256Is()
    ensures Pow256(4) == 0x1_0000_0000 && Pow256(8) == 0x1_0000_0000_0000_0000
  {
    assert Pow256(4) == 0x1_0000_0000;
  }

  /** The number whose base-256 digits, least significant first, are `s`. */
  function FromLE(s: seq<Byte>): (n: nat)
    ensures n < Pow256(|s|)
  {
    if s == [] then 0 else s[0] + 256 * FromLE(s[1..])
  }

  /** The `len` low base-256 digits of `n`, least significant first. */
  function ToLE(n: nat, len: nat): (s: seq<Byte>)
    ensures |s| == len
  {
    if len == 0 then [] else [n % 256] + ToLE(n / 256, len - 1)
  }

  lemma {:induction false} FromToLE(n: nat, len: nat)
    ensures FromLE(ToLE(n, len)) == n % Pow256(len)
  {
    if len > 0 {
      FromToLE(n / 256, len - 1);
      ModStep(n, Pow256(len - 1));
    }
  }

  /** Byte i of a number written least significant byte first. */
  lemma {:induction false} ToLEAt(n: nat, len: nat, i: nat)
    requires i < len
    ensures ToLE(n, len)[i] == n / Pow256(i) % 256
  {
    if i > 0 {
      ToLEAt(n / 256, len - 1, i - 1);
      DivTwice(n, 256, Pow256(i - 1));
    }
  }

  lemma DivTwice(n: nat, a: nat, b: nat)
    requires a > 0 && b > 0
    ensures a * b > 0 && n / a / b == n / (a * b)
  {
    var q, r := n / a, n % a;
    var p, s := q / b, q % b;
    MulStrict(b, a);
    assert n == a * (b * p + s) + r;
    MulAssociative(a, b, p);
    assert a * (b * p + s) == a * (b * p) + a * s;
    MulMonotone(a, s + 1, b);
    assert a * (s + 1) == a * s + a;
    assert (a * b) * p == p * (a * b);
    DivModUnique(n, a * b, p, a * s + r);
  }

  lemma ModStep(n: nat, p: nat)
    requires p > 0
    ensures n % (256 * p) == n % 256 + 256 * (n / 256 % p)
  {
    var bit, m := n % 256, n / 256;
    var q, r := m / p, m % p;
    MulAssociative(256, q, p);
    MulAssociative(q, 256, p);
    assert n == q * (256 * p) + (bit + 256 * r);
    DivModUnique(n, 256 * p, q, bit + 256 * r);
  }

  lemma MulStrict(k: int, d: int)
    requires k >= 1 && d >= 0
    ensures k * d >= d
  {}

  lemma DistributeSub(a: int, b: int, d: int)
    ensures (a - b) * d == a * d - b * d
  {}

  lemma QuotientUnique(d: int, q: int, r: int, q': int, r': int)
    requires 0 <= r < d && 0 <= r' < d && q * d + r == q' * d + r'
    ensures q == q' && r == r'
  {
    DistributeSub(q, q', d);
    DistributeSub(q', q, d);
    if q > q' { MulStrict(q - q', d); }
    if q < q' { MulStrict(q' - q, d); }
  }

  lemma DivModUnique(n: int, d: int, q: int, r: int)
    requires 0 <= r < d && n == q * d + r
    ensures n / d == q && n % d == r
  {
    assert (n / d) * d + n % d == n;
    QuotientUnique(d, q, r, n / d, n % d);
  }

  lemma {:induction false} ToFromLE(s: seq<Byte>)
    ensures ToLE(FromLE(s), |s|) == s
  {
    if s != [] {
      ToFromLE(s[1..]);
      assert (s[0] + 256 * FromLE(s[1..])) / 256 == FromLE(s[1..]);
    }
  }

  function Zeros(n: nat): (s: seq<Byte>)
    ensures |s| == n
  {
    seq(n, _ => 0)
  }

  /** Bitwise exclusive or of the `n` low bits. */
  function Xor(a: nat, b: nat, n: nat): nat {
    if n == 0 then 0 else Pair((a + b) % 2, Xor(a / 2, b / 2, n - 1))
  }

  /** The number with lowest bit `bit` and the other bits `rest`. */
  function Pair(bit: nat, rest: nat): nat {
    bit + 2 * rest
  }

  lemma Unpair(bit: nat, rest: nat)
    requires bit < 2
    ensures Pair(bit, rest) % 2 == bit && Pair(bit, rest) / 2 == rest
  {}

  lemma SameHalves(a: nat, b: nat)
    requires a % 2 == b % 2 && a / 2 == b / 2
    ensures a == b
  {}

  lemma BitSum(a: nat, b: nat, x: nat)
    requires x % 2 == (a + b) % 2
    ensures (x + b) % 2 == a % 2
  {}

  lemma XorUnfold(a: nat, b: nat, n: nat)
    requires n > 0
    ensures Xor(a, b, n) == Pair((a + b) % 2, Xor(a / 2, b / 2, n - 1))
  {}

  lemma {:induction false} XorInvolution(a: nat, b: nat, n: nat)
    requires a < Pow2(n)
    ensures Xor(Xor(a, b, n), b, n) == a
  {
    if n > 0 {
      assert a / 2 < Pow2(n - 1);
      hide *;
      XorInvolution(a / 2, b / 2, n - 1);
      var x := Xor(a, b, n);
      var y := Xor(x, b, n);
      XorUnfold(a, b, n);
      XorUnfold(x, b, n);
      Unpair((a + b) % 2, Xor(a / 2, b / 2, n - 1));
      Unpair((x + b) % 2, Xor(x / 2, b / 2, n - 1));
      BitSum(a, b, x);
      SameHalves(y, a);
    }
  }

  /** Bit `i` of a number. */
  function Bit(a: nat, i: nat): (b: nat)
    ensures b < 2
  {
    if i == 0 then a % 2 else Bit(a / 2, i - 1)
  }

  /** Each bit of the result is the sum modulo 2 of the two bits in its place. */
  lemma {:induction false} XorIsBitwise(a: nat, b: nat, n: nat, i: nat)
    requires i < n
    ensures Bit(Xor(a, b, n), i) == (Bit(a, i) + Bit(b, i)) % 2
  {
    hide *;
    var x := Xor(a, b, n);
    XorUnfold(a, b, n);
    Unpair((a + b) % 2, Xor(a / 2, b / 2, n - 1));
    BitUnfold(a, i);
    BitUnfold(b, i);
    BitUnfold(x, i);
    if i > 0 {
      XorIsBitwise(a / 2, b / 2, n - 1, i - 1);
    } else {
      ParityOfSum(a, b);
    }
  }

  lemma BitUnfold(a: nat, i: nat)
    ensures Bit(a, i) == if i == 0 then a % 2 else Bit(a / 2, i - 1)
  {}

  lemma ParityOfSum(a: nat, b: nat)
    ensures (a + b) % 2 == (a % 2 + b % 2) % 2
  {}

  lemma {:induction false} XorBound(a: nat, b: nat, n: nat)
    ensures Xor(a, b, n) < Pow2(n)
  {
    if n > 0 { XorBound(a / 2, b / 2, n - 1); }
  }

  function Pow2(n: nat): (p: nat)
    ensures p > 0
  {
    if n == 0 then 1 else 2 * Pow2(n - 1)
  }

  lemma TwoTo8()
    ensures Pow2(8) == 256
  {}

  function XorByte(a: Byte, b: Byte): (c: Byte) {
    TwoTo8();
    XorBound(a, b, 8);
    Xor(a, b, 8)
  }

  /** The exclusive or of two bytes, bit by bit. */
  lemma XorByteBits(a: Byte, b: Byte, i: nat)
    requires i < 8
    ensures Bit(XorByte(a, b), i) == (Bit(a, i) + Bit(b, i)) % 2
  {
    hide Bit;
    XorIsBitwise(a, b, 8, i);
  }

  /** `s` with the keystream `k` applied byte by byte. */
  function XorSeq(s: seq<Byte>, k: seq<Byte>): (t: seq<Byte>)
    requires |s| <= |k|
    ensures |t| == |s|
  {
    seq(|s|, i requires 0 <= i < |s| => XorByte(s[i], k[i]))
  }

  lemma XorSeqInvolution(s: seq<Byte>, k: seq<Byte>)
    requires |s| <= |k|
    ensures XorSeq(XorSeq(s, k), k) == s
  {
    forall i | 0 <= i < |s| ensures XorSeq(XorSeq(s, k), k)[i] == s[i] {
      TwoTo8();
      XorInvolution(s[i], k[i], 8);
    }
  }

  lemma MulAssociative(a: int, b: int, c: int)
    ensures a * (b * c) == (a * b) * c
  {}

  lemma {:induction false} FromLEAppend(s: seq<Byte>, t: seq<Byte>)
    ensures FromLE(s + t) == FromLE(s) + Pow256(|s|) * FromLE(t)
  {
    if s == [] {
      assert s + t == t;
    } else {
      assert (s + t)[1..] == s[1..] + t && (s + t)[0] == s[0];
      FromLEAppend(s[1..], t);
      MulAssociative(256, Pow256(|s| - 1), FromLE(t));
    }
  }

  lemma {:induction false} FromLEInjective(s: seq<Byte>, t: seq<Byte>)
    requires |s| == |t| && FromLE(s) == FromLE(t)
    ensures s == t
  {
    ToFromLE(s);
    ToFromLE(t);
  }

  lemma {:induction false} ToLEMod(n: nat, m: nat, len: nat)
    requires n % Pow256(len) == m % Pow256(len)
    ensures ToLE(n, len) == ToLE(m, len)
  {
    FromToLE(n, len);
    FromToLE(m, len);
    FromLEInjective(ToLE(n, len), ToLE(m, len));
  }

  lemma {:induction false} Pow256Add(i: nat, j: nat)
    ensures Pow256(i + j) == Pow256(i) * Pow256(j)
  {
    if i > 0 {
      Pow256Add(i - 1, j);
      MulAssociative(256, Pow256(i - 1), Pow256(j));
    }
  }

  /** Two numbers written one after the other are one number. */
  lemma ToLEConcat(a: nat, b: nat, i: nat, j: nat)
    requires a < Pow256(i)
    ensures ToLE(a, i) + ToLE(b, j) == ToLE(a + Pow256(i) * b, i + j)
  {
    var s := ToLE(a, i) + ToLE(b, j);
    FromLEAppend(ToLE(a, i), ToLE(b, j));
    FromToLE(a, i);
    FromToLE(b, j);
    ModScaled(a, b, Pow256(i), Pow256(j));
    Pow256Add(i, j);
    FromToLE(a + Pow256(i) * b, i + j);
    DivModUnique(a, Pow256(i), 0, a);
    FromLEInjective(s, ToLE(a + Pow256(i) * b, i + j));
  }

  lemma ModScaled(a: nat, b: nat, p: nat, q: nat)
    requires a < p && q > 0
    ensures p * q > 0 && (a + p * b) % (p * q) == a + p * (b % q)
  {
    var d, m := b / q, b % q;
    MulStrict(q, p);
    assert p * b == p * (q * d + m) == p * (q * d) + p * m;
    MulAssociative(p, q, d);
    assert d * (p * q) == (p * q) * d;
    assert p * (m + 1) <= p * q by { MulMonotone(p, m + 1, q); }
    assert p * (m + 1) == p * m + p;
    DivModUnique(a + p * b, p * q, d, a + p * m);
  }

  lemma MulMonotone(p: nat, x: int, y: int)
    requires x <= y
    ensures p * x <= p * y
  {}
}
