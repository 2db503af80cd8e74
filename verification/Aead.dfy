/**
 The pure-Java ChaCha20-Poly1305 of AegsProtocol.java. The ChaCha20 block is any function of key,
 counter and nonce that yields 64 bytes; the authentication tag is the proved Poly1305.
 */
module Aead {
  import opened Bytes
  import Poly1305

  type BlockFunction = f: (seq<Byte>, nat, seq<Byte>) -> seq<Byte> | forall k, c, n :: |f(k, c, n)| == 64
    ghost witness (k, c, n) => Zeros(64)

  datatype Opened = Plain(text: seq<Byte>) | TooShort | TagMismatch

  const MAX_ARRAY: int := 0x8000_0000

  /** `data` under the keystream blocks counter, counter + 1, ... */
  function Stream(block: BlockFunction, key: seq<Byte>, counter: nat, nonce: seq<Byte>,
        data: seq<Byte>): (out: seq<Byte>)
    ensures |out| == |data|
    decreases |data|
  {
    if data == [] then []
    else
      var n := if |data| < 64 then |data| else 64;
      XorSeq(data[..n], block(key, counter, nonce)) + Stream(block, key, counter + 1, nonce, data[n..])
  }

  lemma {:induction false} StreamInvolution(block: BlockFunction, key: seq<Byte>, counter: nat, nonce: seq<Byte>,
        data: seq<Byte>)
    ensures Stream(block, key, counter, nonce, Stream(block, key, counter, nonce, data)) == data
    decreases |data|
  {
    if data != [] {
      var n := if |data| < 64 then |data| else 64;
      var head := XorSeq(data[..n], block(key, counter, nonce));
      var tail := Stream(block, key, counter + 1, nonce, data[n..]);
      var out := Stream(block, key, counter, nonce, data);
      assert out == head + tail && out[..n] == head && out[n..] == tail;
      XorSeqInvolution(data[..n], block(key, counter, nonce));
      StreamInvolution(block, key, counter + 1, nonce, data[n..]);
      assert data[..n] + data[n..] == data;
    }
  }

  /** Byte i is xored with byte i % 64 of the block numbered counter + i / 64. */
  lemma {:induction false} StreamAt(block: BlockFunction, key: seq<Byte>, counter: nat, nonce: seq<Byte>,
        data: seq<Byte>, i: nat)
    requires i < |data|
    ensures Stream(block, key, counter, nonce, data)[i] == XorByte(data[i], block(key, counter + i / 64, nonce)[i % 64])
    decreases |data|
  {
    hide Stream, XorByte;
    var n := if |data| < 64 then |data| else 64;
    StreamUnfold(block, key, counter, nonce, data, n);
    if i >= 64 {
      StreamAt(block, key, counter + 1, nonce, data[n..], i - 64);
      assert (i - 64) / 64 + 1 == i / 64 && (i - 64) % 64 == i % 64;
    }
  }

  lemma StreamUnfold(block: BlockFunction, key: seq<Byte>, counter: nat, nonce: seq<Byte>, data: seq<Byte>, n: nat)
    requires data != [] && n == if |data| < 64 then |data| else 64
    ensures Stream(block, key, counter, nonce, data) ==
            XorSeq(data[..n], block(key, counter, nonce)) + Stream(block, key, counter + 1, nonce, data[n..])
  {}

  /** The inner loop: xor up to 64 bytes of the input at `offset` into the output. */
  method XorInto(out: array<Byte>, offset: nat, input: seq<Byte>, keys: seq<Byte>) returns (toXor: nat)
    requires offset < |input| == out.Length && |keys| == 64
    modifies out
    ensures toXor == if |input| - offset < 64 then |input| - offset else 64
    ensures out[..offset + toXor] == old(out[..offset]) + XorSeq(input[offset..][..toXor], keys)
  {
    toXor := if |input| - offset < 64 then |input| - offset else 64;
    forall i | 0 <= i < toXor { out[offset + i] := XorByte(input[offset + i], keys[i]); }
    hide XorByte;
  }

  method ChaCha20Stream(block: BlockFunction, key: seq<Byte>, initialCounter: nat, nonce: seq<Byte>, input: seq<Byte>)
    returns (out: array<Byte>)
    ensures fresh(out) && out[..] == Stream(block, key, initialCounter, nonce, input)
  {
    hide *;
    out := new Byte[|input|];
    var counter, offset := initialCounter, 0;
    ghost var whole := Stream(block, key, initialCounter, nonce, input);
    assert input[0..] == input;
    while offset < |input|
      invariant 0 <= offset <= |input| && counter >= 0
      invariant out[..offset] + Stream(block, key, counter, nonce, input[offset..]) == whole
    {
      var toXor := XorInto(out, offset, input, block(key, counter, nonce));
      StreamUnfold(block, key, counter, nonce, input[offset..], toXor);
      assert input[offset..][toXor..] == input[offset + toXor..];
      offset := offset + toXor;
      counter := counter + 1;
    }
    assert out[..] == out[..offset];
  }

  function PolyKey(block: BlockFunction, key: seq<Byte>, nonce: seq<Byte>): (k: seq<Byte>)
    ensures |k| == 32
  {
    block(key, 0, nonce)[..32]
  }

  /** Section 2.8 of RFC 8439: ciphertext followed by its tag. */
  function Seal(block: BlockFunction, key: seq<Byte>, nonce: seq<Byte>, text: seq<Byte>, aad: seq<Byte>): (c: seq<Byte>)
    ensures |c| == |text| + 16
  {
    var ct := Stream(block, key, 1, nonce, text);
    ct + Poly1305.Mac(Poly1305.MacData(aad, ct), PolyKey(block, key, nonce))
  }

  function Open(block: BlockFunction, key: seq<Byte>, nonce: seq<Byte>, c: seq<Byte>, aad: seq<Byte>): Opened {
    if |c| < 16 then TooShort
    else
      var ct := c[..|c| - 16];
      if c[|c| - 16..] != Poly1305.Mac(Poly1305.MacData(aad, ct), PolyKey(block, key, nonce)) then TagMismatch
      else Plain(Stream(block, key, 1, nonce, ct))
  }

  method Encrypt(block: BlockFunction, key: seq<Byte>, nonce: seq<Byte>, text: seq<Byte>, aad: seq<Byte>)
    returns (out: seq<Byte>)
    requires |text| < MAX_ARRAY && |aad| < MAX_ARRAY
    ensures out == Seal(block, key, nonce, text, aad)
  {
    hide Poly1305.Mac, Poly1305.MacData, PolyKey, Stream;
    var ct := ChaCha20Stream(block, key, 1, nonce, text);
    var tag := Poly1305.ComputePoly1305(PolyKey(block, key, nonce), aad, ct[..]);
    out := ct[..] + tag;
  }

  method Decrypt(block: BlockFunction, key: seq<Byte>, nonce: seq<Byte>, ctWithTag: seq<Byte>, aad: seq<Byte>)
    returns (r: Opened)
    requires |ctWithTag| < MAX_ARRAY && |aad| < MAX_ARRAY
    ensures r == Open(block, key, nonce, ctWithTag, aad)
  {
    hide Poly1305.Mac, Poly1305.MacData, PolyKey, Stream;
    if |ctWithTag| < 16 { return TooShort; }
    var ct, tag := ctWithTag[..|ctWithTag| - 16], ctWithTag[|ctWithTag| - 16..];
    var expected := Poly1305.ComputePoly1305(PolyKey(block, key, nonce), aad, ct);
    if tag != expected { return TagMismatch; }
    var text := ChaCha20Stream(block, key, 1, nonce, ct);
    return Plain(text[..]);
  }

  /**
   What a sealing is made of: the text under the blocks from number 1 on, and the tag of associated data and
   ciphertext under the first half of block 0.
   */
  lemma SealLayout(block: BlockFunction, key: seq<Byte>, nonce: seq<Byte>, text: seq<Byte>, aad: seq<Byte>)
    ensures var c := Seal(block, key, nonce, text, aad);
            && (forall i :: 0 <= i < |text| ==> c[i] == XorByte(text[i], block(key, 1 + i / 64, nonce)[i % 64]))
            && c[|text|..] == Poly1305.Mac(Poly1305.MacData(aad, c[..|text|]), block(key, 0, nonce)[..32])
  {
    hide Poly1305.Mac, Poly1305.MacData, Stream, XorByte;
    var ct, c := Stream(block, key, 1, nonce, text), Seal(block, key, nonce, text, aad);
    assert c[..|text|] == ct;
    forall i | 0 <= i < |text| ensures c[i] == XorByte(text[i], block(key, 1 + i / 64, nonce)[i % 64]) {
      StreamAt(block, key, 1, nonce, text, i);
    }
  }

  /** Opening what was sealed gives it back. */
  lemma OpenSeal(block: BlockFunction, key: seq<Byte>, nonce: seq<Byte>, text: seq<Byte>, aad: seq<Byte>)
    ensures Open(block, key, nonce, Seal(block, key, nonce, text, aad), aad) == Plain(text)
  {
    hide Poly1305.Mac, Poly1305.MacData, PolyKey, Stream;
    var ct := Stream(block, key, 1, nonce, text);
    var c := Seal(block, key, nonce, text, aad);
    assert c[..|c| - 16] == ct;
    StreamInvolution(block, key, 1, nonce, text);
  }

  /** Nothing else opens: whatever opens is the sealing of the text it opens to. */
  lemma SealOpen(block: BlockFunction, key: seq<Byte>, nonce: seq<Byte>, c: seq<Byte>, aad: seq<Byte>)
    requires Open(block, key, nonce, c, aad).Plain?
    ensures Seal(block, key, nonce, Open(block, key, nonce, c, aad).text, aad) == c
  {
    hide Poly1305.Mac, Poly1305.MacData, PolyKey, Stream;
    var ct := c[..|c| - 16];
    StreamInvolution(block, key, 1, nonce, ct);
    assert c == ct + c[|c| - 16..];
  }
}
