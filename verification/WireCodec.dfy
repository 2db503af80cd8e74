/** The data frame of AegsProtocol.java: masked header, junk, nonce and sealed packet. Random choices are parameters. */
module WireCodec {
  import opened Bytes
  import opened Wrappers
  import Aead

  /** What parseDataPacket answers: a packet, null, the empty array of a chaff frame, or an exception. */
  datatype Parsed = IpPacket(bytes: seq<Byte>) | Rejected | Chaff | AuthFailure

  const VER_MAGIC: seq<Byte> := [65, 71, 50, 1]
  const CHAFF_FLAG: Byte := 0x80

  function BE16(n: nat): (b: seq<Byte>)
    ensures |b| == 2
  {
    [n / 256 % 256, n % 256]
  }

  function FromBE16(hi: Byte, lo: Byte): (n: nat)
    ensures n < 0x1_0000
  {
    hi as int * 256 + lo
  }

  lemma BE16RoundTrip(n: nat)
    requires n < 0x1_0000
    ensures FromBE16(BE16(n)[0], BE16(n)[1]) == n
  {}

  // ---------------------------------------------------------------------------------------------
  // The data frame
  // ---------------------------------------------------------------------------------------------

  /** The random choices of buildDataPacket. */
  datatype Coins = Coins(padding: seq<Byte>, junk: seq<Byte>, hdrIv: seq<Byte>, nonceTail: seq<Byte>) {
    predicate Valid() { |junk| < 16 && |hdrIv| == 12 && |nonceTail| == 4 }
  }

  datatype Keys = Keys(keyId: seq<Byte>, maskKey: seq<Byte>, altMaskKey: Option<seq<Byte>>, dataKey: seq<Byte>)

  function MaskHeader(block: Aead.BlockFunction, header: seq<Byte>, maskKey: seq<Byte>, iv: seq<Byte>): (out: seq<Byte>)
    requires |header| == 16
    ensures |out| == 16
  {
    XorSeq(header, block(maskKey, 0, iv))
  }

  function PlainHeader(keyId: seq<Byte>, junkLen: nat, isChaff: bool): (h: seq<Byte>)
    requires |keyId| == 8
    ensures |h| == 16
  {
    keyId + BE16(junkLen) + [if isChaff then CHAFF_FLAG else 0, 0] + VER_MAGIC
  }

  function Frame(ip: seq<Byte>, padding: seq<Byte>): (f: seq<Byte>)
    ensures |f| == 2 + |ip| + |padding|
  {
    BE16(|ip|) + ip + padding
  }

  function OuterHeader(block: Aead.BlockFunction, keyId: seq<Byte>, maskKey: seq<Byte>, isChaff: bool,
                       c: Coins): (o: seq<Byte>)
    requires |keyId| == 8 && c.Valid()
    ensures |o| == 28 + |c.junk|
  {
    c.hdrIv + MaskHeader(block, PlainHeader(keyId, |c.junk|, isChaff), maskKey, c.hdrIv) + c.junk
  }

  function DataPacket(block: Aead.BlockFunction, ip: seq<Byte>, keyId: seq<Byte>, maskKey: seq<Byte>,
                      sendKey: seq<Byte>, txSeq: nat, isChaff: bool, c: Coins): (w: seq<Byte>)
    requires |keyId| == 8 && c.Valid()
    ensures |w| >= 58
  {
    var outer := OuterHeader(block, keyId, maskKey, isChaff, c);
    var nonce := ToLE(txSeq, 8) + c.nonceTail;
    outer + nonce + Aead.Seal(block, sendKey, nonce, Frame(ip, c.padding), outer)
  }

  lemma MaskedAt(block: Aead.BlockFunction, header: seq<Byte>, maskKey: seq<Byte>, iv: seq<Byte>, i: nat)
    requires |header| == 16 && i < 16
    ensures MaskHeader(block, header, maskKey, iv)[i] == XorByte(header[i], block(maskKey, 0, iv)[i])
  {
    hide XorByte;
  }

  /** Where the AEAD part of a packet starts. */
  function AeadOffset(c: Coins): nat {
    28 + |c.junk|
  }

  /** Every field of a packet stands where the receivers read it. */
  lemma PacketLayout(block: Aead.BlockFunction, ip: seq<Byte>, keyId: seq<Byte>, maskKey: seq<Byte>,
                     sendKey: seq<Byte>, txSeq: nat, isChaff: bool, c: Coins)
    requires |keyId| == 8 && c.Valid()
    ensures var w := DataPacket(block, ip, keyId, maskKey, sendKey, txSeq, isChaff, c);
            var at := AeadOffset(c);
            && |w| == at + 12 + 2 + |ip| + |c.padding| + 16
            && w[..12] == c.hdrIv && w[28..at] == c.junk && w[at + 8..at + 12] == c.nonceTail
            && (forall i :: 0 <= i < 16 ==>
                  w[12 + i] == XorByte(PlainHeader(keyId, |c.junk|, isChaff)[i], block(maskKey, 0, c.hdrIv)[i]))
            && w[at..at + 8] == ToLE(txSeq, 8)
            && Aead.Open(block, sendKey, w[at..at + 12], w[at + 12..], w[..at]) == Aead.Plain(Frame(ip, c.padding))
  {
    hide Aead.Seal, Aead.Open, MaskHeader, PlainHeader, ToLE, XorByte, Frame;
    var outer, nonce := OuterHeader(block, keyId, maskKey, isChaff, c), ToLE(txSeq, 8) + c.nonceTail;
    var sealed := Aead.Seal(block, sendKey, nonce, Frame(ip, c.padding), outer);
    Slices(outer, nonce, sealed);
    Aead.OpenSeal(block, sendKey, nonce, Frame(ip, c.padding), outer);
    var w, masked := outer + nonce + sealed, MaskHeader(block, PlainHeader(keyId, |c.junk|, isChaff), maskKey, c.hdrIv);
    forall i | 0 <= i < 16
      ensures w[12 + i] == XorByte(PlainHeader(keyId, |c.junk|, isChaff)[i], block(maskKey, 0, c.hdrIv)[i])
    {
      assert w[12 + i] == masked[i];
      MaskedAt(block, PlainHeader(keyId, |c.junk|, isChaff), maskKey, c.hdrIv, i);
    }
    assert w[28..AeadOffset(c)] == c.junk;
    assert w[AeadOffset(c)..AeadOffset(c) + 12] == nonce;
  }

  /** The eight bytes the server reads as the sequence number are the packet's number. */
  lemma CarriesItsNumber(block: Aead.BlockFunction, ip: seq<Byte>, keyId: seq<Byte>, maskKey: seq<Byte>,
                         sendKey: seq<Byte>, txSeq: nat, isChaff: bool, c: Coins)
    requires |keyId| == 8 && c.Valid() && txSeq < 0x1_0000_0000_0000_0000
    ensures var w := DataPacket(block, ip, keyId, maskKey, sendKey, txSeq, isChaff, c);
            FromLE(w[AeadOffset(c)..AeadOffset(c) + 8]) == txSeq
  {
    hide *;
    NumberRoundTrip(txSeq);
    PacketLayout(block, ip, keyId, maskKey, sendKey, txSeq, isChaff, c);
  }

  lemma NumberRoundTrip(n: nat)
    requires n < 0x1_0000_0000_0000_0000
    ensures FromLE(ToLE(n, 8)) == n
  {
    hide ToLE, FromLE, Pow256;
    Pow256Is();
    FromToLE(n, 8);
  }

  /** Packets with different numbers never share a nonce, whatever the random choices. */
  lemma NoncesDiffer(block: Aead.BlockFunction, ip: seq<Byte>, ip': seq<Byte>, keyId: seq<Byte>, maskKey: seq<Byte>,
                     sendKey: seq<Byte>, txSeq: nat, txSeq': nat, isChaff: bool, isChaff': bool, c: Coins, c': Coins)
    requires |keyId| == 8 && c.Valid() && c'.Valid()
    requires txSeq < 0x1_0000_0000_0000_0000 && txSeq' < 0x1_0000_0000_0000_0000 && txSeq != txSeq'
    ensures var w := DataPacket(block, ip, keyId, maskKey, sendKey, txSeq, isChaff, c);
            var w' := DataPacket(block, ip', keyId, maskKey, sendKey, txSeq', isChaff', c');
            w[AeadOffset(c)..AeadOffset(c) + 12] != w'[AeadOffset(c')..AeadOffset(c') + 12]
  {
    hide *;
    CarriesItsNumber(block, ip, keyId, maskKey, sendKey, txSeq, isChaff, c);
    CarriesItsNumber(block, ip', keyId, maskKey, sendKey, txSeq', isChaff', c');
    PacketLayout(block, ip, keyId, maskKey, sendKey, txSeq, isChaff, c);
    PacketLayout(block, ip', keyId, maskKey, sendKey, txSeq', isChaff', c');
    var w := DataPacket(block, ip, keyId, maskKey, sendKey, txSeq, isChaff, c);
    var w' := DataPacket(block, ip', keyId, maskKey, sendKey, txSeq', isChaff', c');
    assert w[AeadOffset(c)..AeadOffset(c) + 12][..8] == w[AeadOffset(c)..AeadOffset(c) + 8];
    assert w'[AeadOffset(c')..AeadOffset(c') + 12][..8] == w'[AeadOffset(c')..AeadOffset(c') + 8];
  }

  /** System.arraycopy of the whole of `src`. */
  method ArrayCopy(src: seq<Byte>, dst: array<Byte>, at: nat)
    requires at + |src| <= dst.Length
    modifies dst
    ensures forall j :: 0 <= j < |src| ==> dst[at + j] == src[j]
    ensures forall j :: 0 <= j < at || at + |src| <= j < dst.Length ==> dst[j] == old(dst[j])
  {
    var i := 0;
    while i < |src|
      invariant 0 <= i <= |src|
      invariant forall j :: 0 <= j < at || at + i <= j < dst.Length ==> dst[j] == old(dst[j])
      invariant forall j :: 0 <= j < i ==> dst[at + j] == src[j]
    {
      dst[at + i] := src[i];
      i := i + 1;
    }
  }

  method BuildFrame(ip: seq<Byte>, padding: seq<Byte>) returns (frame: array<Byte>)
    ensures fresh(frame) && frame[..] == Frame(ip, padding)
  {
    frame := new Byte[2 + |ip| + |padding|];
    frame[0] := |ip| / 256 % 256;
    frame[1] := |ip| % 256;
    ArrayCopy(ip, frame, 2);
    ArrayCopy(padding, frame, 2 + |ip|);
  }

  method BuildHeader(keyId: seq<Byte>, junkLen: nat, isChaff: bool) returns (plainHdr: array<Byte>)
    requires |keyId| == 8
    ensures fresh(plainHdr) && plainHdr[..] == PlainHeader(keyId, junkLen, isChaff)
  {
    plainHdr := new Byte[16];
    ArrayCopy(keyId, plainHdr, 0);
    plainHdr[8] := junkLen / 256 % 256;
    plainHdr[9] := junkLen % 256;
    plainHdr[10] := if isChaff then CHAFF_FLAG else 0;
    plainHdr[11] := 0;
    ArrayCopy(VER_MAGIC, plainHdr, 12);
  }

  method BuildOuter(hdrIv: seq<Byte>, maskedHdr: seq<Byte>, junk: seq<Byte>) returns (outerHdr: array<Byte>)
    requires |hdrIv| == 12 && |maskedHdr| == 16
    ensures fresh(outerHdr) && outerHdr[..] == hdrIv + maskedHdr + junk
  {
    outerHdr := new Byte[12 + 16 + |junk|];
    ArrayCopy(hdrIv, outerHdr, 0);
    ArrayCopy(maskedHdr, outerHdr, 12);
    ArrayCopy(junk, outerHdr, 28);
  }

  /** buildDataPacket; `txSeq` stands for the 64 bits of the Java long. */
  method BuildDataPacket(block: Aead.BlockFunction, ipPacket: seq<Byte>, keyId: seq<Byte>, maskKey: seq<Byte>,
                         sendKey: seq<Byte>, txSeq: nat, isChaff: bool, c: Coins) returns (wire: seq<Byte>)
    requires |keyId| == 8 && c.Valid() && |ipPacket| + |c.padding| + 2 < Aead.MAX_ARRAY
    ensures wire == DataPacket(block, ipPacket, keyId, maskKey, sendKey, txSeq, isChaff, c)
  {
    hide Aead.Seal, MaskHeader, ToLE, PlainHeader, Frame;
    var frame := BuildFrame(ipPacket, c.padding);
    var plainHdr := BuildHeader(keyId, |c.junk|, isChaff);
    var maskedHdr := MaskHeader(block, plainHdr[..], maskKey, c.hdrIv);
    var outerHdr := BuildOuter(c.hdrIv, maskedHdr, c.junk);
    var aeadNonce := ToLE(txSeq, 8) + c.nonceTail;
    var cipherWithTag := Aead.Encrypt(block, sendKey, aeadNonce, frame[..], outerHdr[..]);
    wire := outerHdr[..] + aeadNonce + cipherWithTag;
  }

  predicate HeaderMatches(plainHdr: seq<Byte>, keyId: seq<Byte>)
    requires |plainHdr| == 16
  {
    plainHdr[..8] == keyId && plainHdr[12..] == VER_MAGIC
  }

  /** Under this mask key the packet's header names the key id and the version mark. */
  predicate OpensUnder(block: Aead.BlockFunction, packet: seq<Byte>, maskKey: seq<Byte>, keyId: seq<Byte>)
    requires |packet| >= 28
  {
    HeaderMatches(MaskHeader(block, packet[12..28], maskKey, packet[..12]), keyId)
  }

  /** The unmasked header under the primary key or, failing that, under the alternative one. */
  function UnmaskHeader(block: Aead.BlockFunction, packet: seq<Byte>, k: Keys): (h: Option<seq<Byte>>)
    requires |packet| >= 28
    ensures h.Some? ==> |h.value| == 16 && HeaderMatches(h.value, k.keyId)
    ensures h.Some? <==> OpensUnder(block, packet, k.maskKey, k.keyId) ||
                         (k.altMaskKey.Some? && |k.altMaskKey.value| == 32 &&
                          OpensUnder(block, packet, k.altMaskKey.value, k.keyId))
    ensures OpensUnder(block, packet, k.maskKey, k.keyId) ==>
              h == Some(MaskHeader(block, packet[12..28], k.maskKey, packet[..12]))
    ensures h.Some? && !OpensUnder(block, packet, k.maskKey, k.keyId) ==>
              h == Some(MaskHeader(block, packet[12..28], k.altMaskKey.value, packet[..12]))
  {
    var plain := MaskHeader(block, packet[12..28], k.maskKey, packet[..12]);
    if HeaderMatches(plain, k.keyId) then Some(plain)
    else if k.altMaskKey.Some? && |k.altMaskKey.value| == 32 then
      var alt := MaskHeader(block, packet[12..28], k.altMaskKey.value, packet[..12]);
      if HeaderMatches(alt, k.keyId) then Some(alt) else None
    else None
  }

  /** The part of parseDataPacket after the wrappers are off. */
  function ParseFrame(block: Aead.BlockFunction, packet: seq<Byte>, k: Keys): Parsed {
    if |packet| < 56 then Rejected
    else
      match UnmaskHeader(block, packet, k)
      case None => Rejected
      case Some(hdr) =>
        if hdr[10] >= 0x80 then Chaff
        else
          var outerLen := 28 + FromBE16(hdr[8], hdr[9]);
          if |packet| < outerLen + 28 then Rejected
          else
            match Aead.Open(block, k.dataKey, packet[outerLen..outerLen + 12], packet[outerLen + 12..],
                            packet[..outerLen])
            case Plain(frame) =>
              if |frame| < 2 then Rejected
              else
                var n := FromBE16(frame[0], frame[1]);
                if n == 0 || n > |frame| - 2 then Rejected else IpPacket(frame[2..2 + n])
            case _ => AuthFailure
  }

  lemma HeaderFields(keyId: seq<Byte>, junkLen: nat, isChaff: bool)
    requires |keyId| == 8 && junkLen < 0x1_0000
    ensures var h := PlainHeader(keyId, junkLen, isChaff);
            HeaderMatches(h, keyId) && FromBE16(h[8], h[9]) == junkLen && (h[10] >= 0x80 <==> isChaff)
  {
    var h := PlainHeader(keyId, junkLen, isChaff);
    assert h[8] == BE16(junkLen)[0] && h[9] == BE16(junkLen)[1];
  }

  lemma FrameFields(ip: seq<Byte>, padding: seq<Byte>)
    requires |ip| < 0x1_0000
    ensures var f := Frame(ip, padding);
            FromBE16(f[0], f[1]) == |ip| && f[2..2 + |ip|] == ip
  {
    var f := Frame(ip, padding);
    assert f[0] == BE16(|ip|)[0] && f[1] == BE16(|ip|)[1];
  }

  lemma Slices(outer: seq<Byte>, nonce: seq<Byte>, sealed: seq<Byte>)
    requires |outer| >= 28 && |nonce| == 12
    ensures var w := outer + nonce + sealed;
            && w[..12] == outer[..12] && w[12..28] == outer[12..28] && w[..|outer|] == outer
            && w[|outer|..|outer| + 12] == nonce && w[|outer| + 12..] == sealed
  {}

  /** What the parser makes of a packet: the packet itself, or a chaff frame. */
  function Expected(ip: seq<Byte>, isChaff: bool): Parsed {
    if isChaff then Chaff else IpPacket(ip)
  }

  /** A built frame parses to what was put in, under the same keys. */
  lemma ParseBuilt(block: Aead.BlockFunction, ip: seq<Byte>, k: Keys, txSeq: nat, isChaff: bool, c: Coins)
    requires |k.keyId| == 8 && c.Valid() && 0 < |ip| < 0x1_0000
    ensures ParseFrame(block, DataPacket(block, ip, k.keyId, k.maskKey, k.dataKey, txSeq, isChaff, c), k) ==
            Expected(ip, isChaff)
  {
    OuterOpens(block, k.keyId, k.maskKey, isChaff, c);
    BuiltParses(block, ip, k, k.maskKey, txSeq, isChaff, c);
  }

  /**
   A frame masked under the 32-byte alternative key parses as well, unless its header happens to name the
   key id and the version mark under the primary key too.
   */
  lemma ParseBuiltAlternative(block: Aead.BlockFunction, ip: seq<Byte>, k: Keys, txSeq: nat, isChaff: bool, c: Coins)
    requires |k.keyId| == 8 && c.Valid() && 0 < |ip| < 0x1_0000
    requires k.altMaskKey.Some? && |k.altMaskKey.value| == 32
    requires !OpensUnder(block, OuterHeader(block, k.keyId, k.altMaskKey.value, isChaff, c), k.maskKey, k.keyId)
    ensures ParseFrame(block, DataPacket(block, ip, k.keyId, k.altMaskKey.value, k.dataKey, txSeq, isChaff, c), k) ==
            Expected(ip, isChaff)
  {
    OuterOpens(block, k.keyId, k.altMaskKey.value, isChaff, c);
    BuiltParses(block, ip, k, k.altMaskKey.value, txSeq, isChaff, c);
  }

  lemma OuterOpens(block: Aead.BlockFunction, keyId: seq<Byte>, maskKey: seq<Byte>, isChaff: bool, c: Coins)
    requires |keyId| == 8 && c.Valid()
    ensures var outer := OuterHeader(block, keyId, maskKey, isChaff, c);
            && MaskHeader(block, outer[12..28], maskKey, outer[..12]) == PlainHeader(keyId, |c.junk|, isChaff)
            && OpensUnder(block, outer, maskKey, keyId)
  {
    var plain := PlainHeader(keyId, |c.junk|, isChaff);
    var outer := OuterHeader(block, keyId, maskKey, isChaff, c);
    assert outer[..12] == c.hdrIv && outer[12..28] == MaskHeader(block, plain, maskKey, c.hdrIv);
    UnmaskMasked(block, plain, maskKey, c.hdrIv);
    HeaderFields(keyId, |c.junk|, isChaff);
  }

  lemma BuiltParses(block: Aead.BlockFunction, ip: seq<Byte>, k: Keys, maskKey: seq<Byte>, txSeq: nat,
                    isChaff: bool, c: Coins)
    requires |k.keyId| == 8 && c.Valid() && 0 < |ip| < 0x1_0000
    requires UnmaskHeader(block, OuterHeader(block, k.keyId, maskKey, isChaff, c), k) ==
             Some(PlainHeader(k.keyId, |c.junk|, isChaff))
    ensures ParseFrame(block, DataPacket(block, ip, k.keyId, maskKey, k.dataKey, txSeq, isChaff, c), k) ==
            Expected(ip, isChaff)
  {
    hide UnmaskHeader, MaskHeader;
    HeaderFields(k.keyId, |c.junk|, isChaff);
    OuterParses(block, OuterHeader(block, k.keyId, maskKey, isChaff, c), PlainHeader(k.keyId, |c.junk|, isChaff), ip, k,
                ToLE(txSeq, 8) + c.nonceTail, c.padding);
  }

  lemma UnmaskMasked(block: Aead.BlockFunction, header: seq<Byte>, maskKey: seq<Byte>, iv: seq<Byte>)
    requires |header| == 16
    ensures MaskHeader(block, MaskHeader(block, header, maskKey, iv), maskKey, iv) == header
  {
    XorSeqInvolution(header, block(maskKey, 0, iv));
  }

  lemma UnmaskReadsPrefix(block: Aead.BlockFunction, outer: seq<Byte>, packet: seq<Byte>, k: Keys)
    requires |outer| >= 28 && |packet| >= 28 && packet[..12] == outer[..12] && packet[12..28] == outer[12..28]
    ensures UnmaskHeader(block, packet, k) == UnmaskHeader(block, outer, k)
  {
    hide MaskHeader, HeaderMatches;
  }

  lemma OuterParses(block: Aead.BlockFunction, outer: seq<Byte>, hdr: seq<Byte>, ip: seq<Byte>, k: Keys,
                    nonce: seq<Byte>, padding: seq<Byte>)
    requires |outer| >= 28 && |nonce| == 12 && |hdr| == 16 && 0 < |ip| < 0x1_0000
    requires UnmaskHeader(block, outer, k) == Some(hdr) && FromBE16(hdr[8], hdr[9]) == |outer| - 28
    ensures ParseFrame(block, outer + nonce + Aead.Seal(block, k.dataKey, nonce, Frame(ip, padding), outer), k) ==
            Expected(ip, hdr[10] >= 0x80)
  {
    hide Aead.Seal, Aead.Open, UnmaskHeader, MaskHeader, HeaderMatches, OpensUnder, FromBE16, Frame;
    var frame := Frame(ip, padding);
    var sealed := Aead.Seal(block, k.dataKey, nonce, frame, outer);
    Slices(outer, nonce, sealed);
    UnmaskReadsPrefix(block, outer, outer + nonce + sealed, k);
    FrameFields(ip, padding);
    Aead.OpenSeal(block, k.dataKey, nonce, frame, outer);
  }

  lemma BE16OfBytes(hi: Byte, lo: Byte)
    ensures BE16(FromBE16(hi, lo)) == [hi, lo]
  {}

  /**
   Whatever parses to a packet is a sealed frame with that packet in it, under the data key, behind a header
   that names the key id and the version mark, is not marked as chaff and tells where the frame begins.
   */
  lemma AcceptedIsSealed(block: Aead.BlockFunction, p: seq<Byte>, k: Keys, ip: seq<Byte>)
    returns (outer: seq<Byte>, nonce: seq<Byte>, padding: seq<Byte>, hdr: seq<Byte>)
    requires ParseFrame(block, p, k) == IpPacket(ip)
    ensures |outer| >= 28 && |nonce| == 12 && 0 < |ip| < 0x1_0000
    ensures p == outer + nonce + Aead.Seal(block, k.dataKey, nonce, Frame(ip, padding), outer)
    ensures UnmaskHeader(block, outer, k) == Some(hdr) && |hdr| == 16 && HeaderMatches(hdr, k.keyId)
    ensures hdr[10] < 0x80 && FromBE16(hdr[8], hdr[9]) == |outer| - 28
  {
    hide UnmaskHeader, MaskHeader, HeaderMatches, Aead.Open, Aead.Seal, FromBE16;
    hdr := UnmaskHeader(block, p, k).value;
    var at := 28 + FromBE16(hdr[8], hdr[9]);
    outer, nonce := p[..at], p[at..at + 12];
    var frame := Aead.Open(block, k.dataKey, nonce, p[at + 12..], outer).text;
    Aead.SealOpen(block, k.dataKey, nonce, p[at + 12..], outer);
    UnmaskReadsPrefix(block, outer, p, k);
    padding := frame[2 + |ip|..];
    BE16OfBytes(frame[0], frame[1]);
    assert frame == Frame(ip, padding);
    assert p == outer + nonce + p[at + 12..];
  }

  /** A packet whose header matches under neither mask key is refused, and so is any shorter than 56 bytes. */
  lemma ForeignIsRejected(block: Aead.BlockFunction, p: seq<Byte>, k: Keys)
    requires |p| >= 56 ==>
               !OpensUnder(block, p, k.maskKey, k.keyId) &&
               (k.altMaskKey.Some? && |k.altMaskKey.value| == 32 ==>
                  !OpensUnder(block, p, k.altMaskKey.value, k.keyId))
    ensures ParseFrame(block, p, k) == Rejected
  {
    hide Aead.Open, MaskHeader;
  }
}
