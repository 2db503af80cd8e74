/**
 The carriers around a data frame: TLS 1.3 application-data records, the 24-byte QUIC header of
 protocol_mimicry, and the ClientHello whose last extension is an Encrypted ClientHello.
 */
module Camouflage {
  import opened Bytes
  import opened Wrappers
  import opened WireCodec
  import Aead

  // ---------------------------------------------------------------------------------------------
  // TLS application data
  // ---------------------------------------------------------------------------------------------

  /** wrapTlsAppData: payloads that are empty or do not fit the length field come back unchanged. */
  function WrapTls(payload: seq<Byte>): seq<Byte> {
    if payload == [] || |payload| > 0xFFFF then payload
    else [0x17, 0x03, 0x03] + BE16(|payload|) + payload
  }

  predicate TlsPrefix(p: seq<Byte>) {
    |p| >= 5 && p[0] == 0x17 && p[1] == 0x03 && p[2] == 0x03
  }

  /** stripTlsAppData. */
  function StripTls(p: seq<Byte>): Option<seq<Byte>> {
    if !TlsPrefix(p) then None
    else
      var recLen := FromBE16(p[3], p[4]);
      if 0 < recLen <= |p| - 5 then Some(p[5..5 + recLen]) else None
  }

  lemma StripWrapTls(payload: seq<Byte>)
    requires 0 < |payload| <= 0xFFFF
    ensures TlsPrefix(WrapTls(payload)) && StripTls(WrapTls(payload)) == Some(payload)
  {
    var w := WrapTls(payload);
    assert w[3] == BE16(|payload|)[0] && w[4] == BE16(|payload|)[1];
    BE16RoundTrip(|payload|);
    assert w[5..5 + |payload|] == payload;
  }

  // ---------------------------------------------------------------------------------------------
  // The QUIC header
  // ---------------------------------------------------------------------------------------------

  const QUIC_HEADER: nat := 24
  const VERSION_1: nat := 0x0000_0001
  const VERSION_2: nat := 0x6B33_43CF
  const DRAFT_29: nat := 0xFF00_001D
  const DRAFT_32: nat := 0xFF00_0020
  const VERSION_NEGOTIATION: nat := 0

  predicate Supported(version: nat) {
    version == VERSION_1 || version == VERSION_2 || version == DRAFT_29 || version == DRAFT_32 ||
    version == VERSION_NEGOTIATION
  }

  /** The version written for the requested one; 0 asks for a random supported version. */
  function ChosenVersion(requested: nat, random: Byte): nat {
    if requested != 0 then requested
    else [VERSION_1, VERSION_2, DRAFT_29, DRAFT_32, VERSION_NEGOTIATION][random % 5]
  }

  function BE32(n: nat): (b: seq<Byte>)
    ensures |b| == 4
  {
    [n / 0x100_0000 % 256, n / 0x1_0000 % 256, n / 0x100 % 256, n % 256]
  }

  function FromBE32(a: Byte, b: Byte, c: Byte, d: Byte): nat {
    a as int * 0x100_0000 + b as int * 0x1_0000 + c as int * 0x100 + d
  }

  lemma BE32RoundTrip(n: nat)
    requires n < 0x1_0000_0000
    ensures FromBE32(BE32(n)[0], BE32(n)[1], BE32(n)[2], BE32(n)[3]) == n
  {
    var b := n / 0x1_0000;
    assert n == b * 0x1_0000 + n / 0x100 % 256 * 0x100 + n % 256;
    assert b == n / 0x100_0000 * 0x100 + b % 256;
  }

  /** The 24 header bytes wrap_quic_initial writes. */
  function QuicHeader(requested: nat, random: seq<Byte>, seed: Option<(Byte, Byte)>): (h: seq<Byte>)
    requires |random| == 18
    ensures |h| == QUIC_HEADER
  {
    var version := ChosenVersion(requested, random[0]);
    [if version == VERSION_NEGOTIATION then 0x80 + random[1] % 0x80 else 0xC0 + random[1] % 0x10]
    + BE32(version) + [8]
    + (if seed.Some? then [seed.value.0, seed.value.1] + random[2..8] else random[2..10])
    + [8] + random[10..18] + [0]
  }

  /**
   wrap_quic_initial, in place: `random` is None when the random generator fails. Without room or
   randomness the buffer is left alone.
   */
  method WrapQuicInitial(buf: array<Byte>, dataLen: nat, capacity: nat, seed: Option<(Byte, Byte)>, requested: nat,
                         random: Option<seq<Byte>>) returns (len: nat)
    requires capacity <= buf.Length
    requires random.Some? ==> |random.value| == 18
    modifies buf
    ensures random.None? || dataLen + QUIC_HEADER > capacity ==> len == dataLen && buf[..] == old(buf[..])
    ensures random.Some? && dataLen + QUIC_HEADER <= capacity ==>
              len == dataLen + QUIC_HEADER &&
              buf[..len] == QuicHeader(requested, random.value, seed) + old(buf[..dataLen])
    ensures buf[capacity..] == old(buf[capacity..])
  {
    if dataLen + QUIC_HEADER > capacity { return dataLen; }
    if random.None? { return dataLen; }
    var i := dataLen;
    while i > 0
      invariant 0 <= i <= dataLen
      invariant forall j :: 0 <= j < i ==> buf[j] == old(buf[j])
      invariant forall j :: i <= j < dataLen ==> buf[QUIC_HEADER + j] == old(buf[j])
      invariant forall j :: capacity <= j < buf.Length ==> buf[j] == old(buf[j])
    {
      i := i - 1;
      buf[QUIC_HEADER + i] := buf[i];
    }
    WriteHeader(buf, dataLen, seed, requested, random.value);
    len := dataLen + QUIC_HEADER;
  }

  method WriteHeader(buf: array<Byte>, ghost dataLen: nat, seed: Option<(Byte, Byte)>, requested: nat,
        random: seq<Byte>)
    requires QUIC_HEADER + dataLen <= buf.Length && |random| == 18
    modifies buf
    ensures buf[..QUIC_HEADER] == QuicHeader(requested, random, seed)
    ensures forall j :: QUIC_HEADER <= j < buf.Length ==> buf[j] == old(buf[j])
  {
    hide ChosenVersion, BE32;
    var version := ChosenVersion(requested, random[0]);
    if version == VERSION_NEGOTIATION {
      buf[0] := 0x80 + random[1] % 0x80;
    } else {
      buf[0] := 0xC0 + random[1] % 0x10;
    }
    ArrayCopy(BE32(version), buf, 1);
    buf[5] := 8;
    if seed.Some? {
      buf[6] := seed.value.0;
      buf[7] := seed.value.1;
      ArrayCopy(random[2..8], buf, 8);
    } else {
      ArrayCopy(random[2..10], buf, 6);
    }
    buf[14] := 8;
    ArrayCopy(random[10..18], buf, 15);
    buf[23] := 0;
  }

  /** is_quic_mimicry. */
  predicate IsQuic(p: seq<Byte>) {
    |p| >= QUIC_HEADER && p[0] >= 0x80 && p[5] == 8 && p[14] == 8 && p[23] == 0 &&
    Supported(FromBE32(p[1], p[2], p[3], p[4]))
  }

  /** strip_quic_mimicry. */
  function StripQuic(p: seq<Byte>): Option<seq<Byte>> {
    if IsQuic(p) then Some(p[QUIC_HEADER..]) else None
  }

  /** The Java parser's looser test: it does not look at the version. */
  predicate LooksQuic(p: seq<Byte>) {
    |p| >= QUIC_HEADER && p[0] >= 0x80 && p[5] == 8 && p[14] == 8 && p[23] == 0
  }

  lemma QuicHeaderFields(requested: nat, random: seq<Byte>, seed: Option<(Byte, Byte)>, data: seq<Byte>)
    requires |random| == 18 && requested < 0x1_0000_0000
    ensures var p := QuicHeader(requested, random, seed) + data;
            LooksQuic(p) && FromBE32(p[1], p[2], p[3], p[4]) == ChosenVersion(requested, random[0])
  {
    var version := ChosenVersion(requested, random[0]);
    BE32RoundTrip(version);
    var p := QuicHeader(requested, random, seed) + data;
    assert p[1..5] == BE32(version);
  }

  /** The rest of the header: two connection ids of eight random bytes, the first beginning with the seed, no token. */
  lemma QuicHeaderLayout(requested: nat, random: seq<Byte>, seed: Option<(Byte, Byte)>)
    requires |random| == 18
    ensures var h := QuicHeader(requested, random, seed);
            && h[5] == 8 && h[14] == 8 && h[23] == 0 && h[15..23] == random[10..18]
            && h[6..14] == (if seed.Some? then [seed.value.0, seed.value.1] + random[2..8] else random[2..10])
            && (if ChosenVersion(requested, random[0]) == 0 then h[0] >= 0x80 else 0xC0 <= h[0] < 0xD0)
            && h[0] % 16 == random[1] % 16
  {}

  /** A version asked for is used; otherwise it is one of the five the receiver supports. */
  lemma VersionIsChosen(requested: nat, random: Byte)
    ensures var v := ChosenVersion(requested, random);
            if requested != 0 then v == requested else v in {0, 1, 0x6B33_43CF, 0xFF00_001D, 0xFF00_0020}
  {}

  /** The C++ receiver takes the header off exactly when the requested version is one it supports. */
  lemma StripWrapQuic(requested: nat, random: seq<Byte>, seed: Option<(Byte, Byte)>, data: seq<Byte>)
    requires |random| == 18 && requested < 0x1_0000_0000
    ensures StripQuic(QuicHeader(requested, random, seed) + data) == if Supported(requested) then Some(data) else None
  {
    QuicHeaderFields(requested, random, seed, data);
    var p := QuicHeader(requested, random, seed) + data;
    assert p[QUIC_HEADER..] == data;
  }

  // ---------------------------------------------------------------------------------------------
  // The Encrypted ClientHello carrier
  // ---------------------------------------------------------------------------------------------

  /** A TLS extension: type, 16-bit length, body. */
  function Extension(kind: nat, body: seq<Byte>): seq<Byte> {
    BE16(kind) + BE16(|body|) + body
  }

  function SniBody(sni: seq<Byte>): seq<Byte> {
    BE16(|sni| + 3) + [0] + BE16(|sni|) + sni
  }

  /** Client hello type, cipher suite, config id, then the carried payload. */
  function EchBody(payload: seq<Byte>): (b: seq<Byte>)
    ensures |b| == 6 + |payload|
  {
    [0, 0, 0x20, 0, 1, 1] + payload
  }

  function HeadExtensions(sni: seq<Byte>): seq<Byte> {
    Extension(0, SniBody(sni))
    + Extension(0x0a, [0, 4, 0, 0x1d, 0, 0x17])
    + Extension(0x10, [0, 3, 2, 104, 50])
    + Extension(0x2b, [2, 3, 4])
  }

  const CIPHERS: seq<Byte> := [0x1a, 0x1a, 0x13, 0x01, 0x13, 0x02, 0x13, 0x03, 0xc0, 0x2b, 0xc0, 0x2f]

  /** The ClientHello up to its extensions. */
  function HelloHead(random: seq<Byte>, sessionId: seq<Byte>): (h: seq<Byte>)
    requires |random| == 32 && |sessionId| == 32
    ensures |h| == 83
  {
    [3, 3] + random + [32] + sessionId + [0, 12] + CIPHERS + [1, 0]
  }

  function BE24(n: nat): (b: seq<Byte>)
    ensures |b| == 3
  {
    [n / 0x1_0000 % 256, n / 0x100 % 256, n % 256]
  }

  /** Everything in front of the Encrypted ClientHello extension, whose total length is `echLen`. */
  function Prefix(sni: seq<Byte>, random: seq<Byte>, sessionId: seq<Byte>, echLen: nat): (p: seq<Byte>)
    requires |random| == 32 && |sessionId| == 32
    ensures |p| >= 94 && p[0] == 0x16
  {
    var head := HeadExtensions(sni);
    var extLen := |head| + echLen;
    var bodyLen := 85 + extLen;
    [0x16, 3, 1] + BE16(4 + bodyLen) + [1] + BE24(bodyLen) + HelloHead(random, sessionId) + BE16(extLen) + head
  }

  function ClientHello(payload: seq<Byte>, sni: seq<Byte>, random: seq<Byte>, sessionId: seq<Byte>): seq<Byte>
    requires |random| == 32 && |sessionId| == 32
  {
    var ech := Extension(0xfe0d, EchBody(payload));
    Prefix(sni, random, sessionId, |ech|) + ech
  }

  /** buildTlsRealityClientHello, stream by stream; the server name is already chosen. */
  method BuildClientHello(payload: seq<Byte>, sni: seq<Byte>, random: seq<Byte>, sessionId: seq<Byte>)
    returns (record: seq<Byte>)
    requires |random| == 32 && |sessionId| == 32
    ensures record == ClientHello(payload, sni, random, sessionId)
  {
    hide BE16, BE24, HelloHead;
    var ext := BuildExtensions(payload, sni);
    var ch: seq<Byte> := [3, 3];
    ch := ch + random;
    ch := ch + [32];
    ch := ch + sessionId;
    ch := ch + [0, 12];
    ch := ch + CIPHERS;
    ch := ch + [1, 0];
    assert ch == HelloHead(random, sessionId) by { HelloHeadIs(random, sessionId); }
    ch := ch + BE16(|ext|);
    ch := ch + ext;
    var hs: seq<Byte> := [1];
    hs := hs + BE24(|ch|);
    hs := hs + ch;
    record := [0x16];
    record := record + [3, 1];
    record := record + BE16(|hs|);
    record := record + hs;
    Assemble(BE16(|hs|), BE24(|ch|), HelloHead(random, sessionId), BE16(|ext|), HeadExtensions(sni),
             Extension(0xfe0d, EchBody(payload)));
  }

  lemma HelloHeadIs(random: seq<Byte>, sessionId: seq<Byte>)
    requires |random| == 32 && |sessionId| == 32
    ensures HelloHead(random, sessionId) == [3, 3] + random + [32] + sessionId + [0, 12] + CIPHERS + [1, 0]
  {}

  lemma Assemble(a: seq<Byte>, b: seq<Byte>, c: seq<Byte>, d: seq<Byte>, e: seq<Byte>, f: seq<Byte>)
    ensures [0x16] + [3, 1] + a + ([1] + b + (c + d + (e + f))) == [0x16, 3, 1] + a + [1] + b + c + d + e + f
  {}

  method BuildExtensions(payload: seq<Byte>, sni: seq<Byte>) returns (ext: seq<Byte>)
    ensures ext == HeadExtensions(sni) + Extension(0xfe0d, EchBody(payload))
  {
    ext := BuildSni(sni);
    ext := ext + [0, 0x0a, 0, 6, 0, 4, 0, 0x1d, 0, 0x17];
    assert [0 as Byte, 0x0a, 0, 6, 0, 4, 0, 0x1d, 0, 0x17] == Extension(0x0a, [0, 4, 0, 0x1d, 0, 0x17]);
    ext := ext + [0, 0x10, 0, 5, 0, 3, 2, 104, 50];
    assert [0 as Byte, 0x10, 0, 5, 0, 3, 2, 104, 50] == Extension(0x10, [0, 3, 2, 104, 50]);
    ext := ext + [0, 0x2b, 0, 3, 2, 3, 4];
    assert [0 as Byte, 0x2b, 0, 3, 2, 3, 4] == Extension(0x2b, [2, 3, 4]);
    assert ext == HeadExtensions(sni);
    var ech := BuildEch(payload);
    ext := ext + ech;
  }

  method BuildEch(payload: seq<Byte>) returns (ech: seq<Byte>)
    ensures ech == Extension(0xfe0d, EchBody(payload))
  {
    ech := [0xfe, 0x0d];
    ech := ech + BE16(6 + |payload|);
    ech := ech + [0];
    ech := ech + [0, 0x20];
    ech := ech + [0, 1];
    ech := ech + [1];
    ech := ech + payload;
  }

  method BuildSni(sni: seq<Byte>) returns (ext: seq<Byte>)
    ensures ext == Extension(0, SniBody(sni))
  {
    ext := [0, 0];
    ext := ext + BE16(|sni| + 5);
    ext := ext + BE16(|sni| + 3);
    ext := ext + [0];
    ext := ext + BE16(|sni|);
    ext := ext + sni;
  }

  // ---------------------------------------------------------------------------------------------
  // The ClientHello as a TLS server reads it
  // ---------------------------------------------------------------------------------------------

  /** An extension as section 4.2 of RFC 8446 has it. */
  datatype Ext = Ext(kind: nat, body: seq<Byte>)

  function ReadExtensions(p: seq<Byte>): Option<seq<Ext>>
    decreases |p|
  {
    if p == [] then Some([])
    else if |p| < 4 || |p| < 4 + FromBE16(p[2], p[3]) then None
    else
      var end := 4 + FromBE16(p[2], p[3]);
      match ReadExtensions(p[end..])
      case None => None
      case Some(rest) => Some([Ext(FromBE16(p[0], p[1]), p[4..end])] + rest)
  }

  datatype Hello = Hello(random: seq<Byte>, sessionId: seq<Byte>, ciphers: seq<Byte>, extensions: seq<Ext>)

  /** The part of a ClientHello behind the session id: cipher suites, the null compression, extensions. */
  function ReadTail(random: seq<Byte>, sessionId: seq<Byte>, p: seq<Byte>): Option<Hello> {
    if |p| < 2 || |p| < 6 + FromBE16(p[0], p[1]) then None
    else
      var end := 2 + FromBE16(p[0], p[1]);
      if p[end] != 1 || p[end + 1] != 0 || FromBE16(p[end + 2], p[end + 3]) != |p| - end - 4 then None
      else
        match ReadExtensions(p[end + 4..])
        case None => None
        case Some(es) => Some(Hello(random, sessionId, p[2..end], es))
  }

  /** A record of type handshake holding one ClientHello, sections 4.1.2 and 5.1 of RFC 8446. */
  function ReadHello(p: seq<Byte>): Option<Hello> {
    if |p| < 44 || |p| < 44 + p[43] as int then None
    else if p[..3] != [0x16, 3, 1] || FromBE16(p[3], p[4]) != |p| - 5 then None
    else if p[5] != 1 || p[6] as int * 0x1_0000 + FromBE16(p[7], p[8]) != |p| - 9 || p[9..11] != [3, 3] then None
    else ReadTail(p[11..43], p[44..44 + p[43] as int], p[44 + p[43] as int..])
  }

  /** The host name of a server name list with one entry, section 3 of RFC 6066. */
  function ReadServerName(b: seq<Byte>): Option<seq<Byte>> {
    if |b| < 5 || FromBE16(b[0], b[1]) != |b| - 2 || b[2] != 0 || FromBE16(b[3], b[4]) != |b| - 5 then None
    else Some(b[5..])
  }

  lemma {:induction false} ReadOneExtension(kind: nat, body: seq<Byte>, rest: seq<Byte>)
    requires kind < 0x1_0000 && |body| < 0x1_0000
    ensures ReadExtensions(Extension(kind, body) + rest) ==
            match ReadExtensions(rest) case None => None case Some(es) => Some([Ext(kind, body)] + es)
  {
    var p := Extension(kind, body) + rest;
    BE16RoundTrip(kind);
    BE16RoundTrip(|body|);
    assert p[0] == BE16(kind)[0] && p[1] == BE16(kind)[1] && p[2] == BE16(|body|)[0] && p[3] == BE16(|body|)[1];
    hide BE16, FromBE16;
    assert p[4..4 + |body|] == body && p[4 + |body|..] == rest;
  }

  /** The five extensions the builder writes. */
  function Offered(payload: seq<Byte>, sni: seq<Byte>): (es: seq<Ext>)
    ensures |es| == 5 && |es[4].body| >= 6
  {
    [Ext(0, SniBody(sni)), Ext(10, [0, 4, 0, 0x1d, 0, 0x17]), Ext(16, [0, 3, 2, 104, 50]), Ext(43, [2, 3, 4]),
     Ext(0xfe0d, EchBody(payload))]
  }

  lemma ExtensionsRead(payload: seq<Byte>, sni: seq<Byte>)
    requires |sni| + 5 < 0x1_0000 && |payload| + 6 < 0x1_0000
    ensures ReadExtensions(HeadExtensions(sni) + Extension(0xfe0d, EchBody(payload))) == Some(Offered(payload, sni))
  {
    hide ReadExtensions, Extension;
    var e := Extension(0xfe0d, EchBody(payload));
    var d := Extension(0x2b, [2, 3, 4]) + e;
    var c := Extension(0x10, [0, 3, 2, 104, 50]) + d;
    var b := Extension(0x0a, [0, 4, 0, 0x1d, 0, 0x17]) + c;
    NothingToRead();
    assert e + [] == e;
    ReadOneExtension(0xfe0d, EchBody(payload), []);
    ReadOneExtension(0x2b, [2, 3, 4], e);
    ReadOneExtension(0x10, [0, 3, 2, 104, 50], d);
    ReadOneExtension(0x0a, [0, 4, 0, 0x1d, 0, 0x17], c);
    ReadOneExtension(0, SniBody(sni), b);
    assert HeadExtensions(sni) + e == Extension(0, SniBody(sni)) + b;
    var es := Offered(payload, sni);
    assert [es[4]] + [] == es[4..] && [es[3]] + es[4..] == es[3..] && [es[2]] + es[3..] == es[2..]
        && [es[1]] + es[2..] == es[1..];
    assert [es[0]] + es[1..] == es;
  }

  lemma NothingToRead()
    ensures ReadExtensions([]) == Some([])
  {}

  /** Cipher suites, compression, extensions. */
  function HelloTail(exts: seq<Byte>): (t: seq<Byte>)
    ensures |t| == 18 + |exts|
  {
    [0, 12] + CIPHERS + [1, 0] + BE16(|exts|) + exts
  }

  lemma TailRead(random: seq<Byte>, sessionId: seq<Byte>, exts: seq<Byte>, es: seq<Ext>)
    requires |exts| < 0x1_0000 && ReadExtensions(exts) == Some(es)
    ensures ReadTail(random, sessionId, HelloTail(exts)) == Some(Hello(random, sessionId, CIPHERS, es))
  {
    hide ReadExtensions;
    var p := HelloTail(exts);
    BE16RoundTrip(|exts|);
    TailFields(exts);
    hide HelloTail, FromBE16, BE16;
  }

  lemma TailFields(exts: seq<Byte>)
    ensures var p := HelloTail(exts);
            && p[0] == 0 && p[1] == 12 && p[2..14] == CIPHERS && p[14] == 1 && p[15] == 0
            && p[16] == BE16(|exts|)[0] && p[17] == BE16(|exts|)[1] && p[18..] == exts
            && FromBE16(0, 12) == 12
  {
    hide BE16;
  }

  lemma BE24RoundTrip(n: nat)
    requires n < 0x1_0000
    ensures BE24(n)[0] as int * 0x1_0000 + FromBE16(BE24(n)[1], BE24(n)[2]) == n
  {}

  /** Record and handshake header. */
  function Headers(n: nat): (h: seq<Byte>)
    requires n >= 4
    ensures |h| == 9
  {
    [0x16, 3, 1] + BE16(n) + [1] + BE24(n - 4)
  }

  lemma HeadersRead(n: nat)
    requires 4 <= n < 0x1_0000
    ensures var h := Headers(n);
            && h[..3] == [0x16, 3, 1] && FromBE16(h[3], h[4]) == n && h[5] == 1
            && h[6] as int * 0x1_0000 + FromBE16(h[7], h[8]) == n - 4
  {
    BE16RoundTrip(n);
    BE24RoundTrip(n - 4);
    var h := Headers(n);
    assert h[3] == BE16(n)[0] && h[4] == BE16(n)[1];
    assert h[6] == BE24(n - 4)[0] && h[7] == BE24(n - 4)[1] && h[8] == BE24(n - 4)[2];
  }

  function Identity(random: seq<Byte>, sessionId: seq<Byte>): (g: seq<Byte>)
    requires |random| == 32 && |sessionId| == 32
    ensures |g| == 67 && g[..2] == [3, 3] && g[2..34] == random && g[34] == 32 && g[35..] == sessionId
  {
    [3, 3] + random + [32] + sessionId
  }

  lemma FrontRead(n: nat, random: seq<Byte>, sessionId: seq<Byte>, tail: seq<Byte>)
    requires |random| == 32 && |sessionId| == 32 && n == |tail| + 71 && n < 0x1_0000
    ensures ReadHello(Headers(n) + Identity(random, sessionId) + tail) == ReadTail(random, sessionId, tail)
  {
    HeadersRead(n);
    hide Headers, Identity, ReadTail, FromBE16;
    var h, g := Headers(n), Identity(random, sessionId);
    var p := h + g + tail;
    assert p[..9] == h && p[9..76] == g && p[76..] == tail;
    assert p[..3] == p[..9][..3] && p[9..11] == g[..2] && p[11..43] == g[2..34] && p[43] == g[34];
    assert p[44..76] == g[35..];
  }

  lemma Regroup(a: seq<Byte>, b: seq<Byte>, g: seq<Byte>, t: seq<Byte>, x: seq<Byte>, h: seq<Byte>, e: seq<Byte>)
    ensures [0x16, 3, 1] + a + [1] + b + (g + t) + x + h + e == ([0x16, 3, 1] + a + [1] + b) + g + (t + x + (h + e))
  {}

  lemma HelloParts(payload: seq<Byte>, sni: seq<Byte>, random: seq<Byte>, sessionId: seq<Byte>)
    requires |random| == 32 && |sessionId| == 32
    ensures var exts := HeadExtensions(sni) + Extension(0xfe0d, EchBody(payload));
            ClientHello(payload, sni, random, sessionId) ==
            Headers(89 + |exts|) + Identity(random, sessionId) + HelloTail(exts)
  {
    var head, ech := HeadExtensions(sni), Extension(0xfe0d, EchBody(payload));
    var t := [0, 12] + CIPHERS + [1, 0];
    assert HelloHead(random, sessionId) == Identity(random, sessionId) + t;
    hide HeadExtensions, Extension, HelloHead, Identity, BE16, BE24;
    var n := |head| + |ech|;
    Regroup(BE16(89 + n), BE24(85 + n), Identity(random, sessionId), t, BE16(n), head, ech);
  }

  /**
   A TLS server that reads the record finds one ClientHello with all lengths right: the random bytes and
   session id given, the six cipher suites, and the five extensions, the server name and the payload in them.
   */
  lemma HelloIsRead(payload: seq<Byte>, sni: seq<Byte>, random: seq<Byte>, sessionId: seq<Byte>)
    requires |random| == 32 && |sessionId| == 32 && |sni| + |payload| <= 0xFFFF - 134
    ensures ReadHello(ClientHello(payload, sni, random, sessionId)) ==
            Some(Hello(random, sessionId, CIPHERS, Offered(payload, sni)))
    ensures ReadServerName(Offered(payload, sni)[0].body) == Some(sni)
    ensures Offered(payload, sni)[4].body[6..] == payload
  {
    hide *;
    var exts := HeadExtensions(sni) + Extension(0xfe0d, EchBody(payload));
    ExtensionsLength(payload, sni);
    OfferedFields(payload, sni);
    ServerNameRead(sni);
    ExtensionsRead(payload, sni);
    TailRead(random, sessionId, exts, Offered(payload, sni));
    HelloParts(payload, sni, random, sessionId);
    FrontRead(89 + |exts|, random, sessionId, HelloTail(exts));
  }

  lemma ExtensionsLength(payload: seq<Byte>, sni: seq<Byte>)
    ensures |HeadExtensions(sni) + Extension(0xfe0d, EchBody(payload))| == |sni| + |payload| + 45
  {}

  lemma OfferedFields(payload: seq<Byte>, sni: seq<Byte>)
    ensures |Offered(payload, sni)| == 5 && Offered(payload, sni)[0].body == SniBody(sni)
    ensures |Offered(payload, sni)[4].body| >= 6 && Offered(payload, sni)[4].body[6..] == payload
  {}

  lemma ServerNameRead(sni: seq<Byte>)
    requires |sni| + 3 < 0x1_0000
    ensures ReadServerName(SniBody(sni)) == Some(sni)
  {
    var b := SniBody(sni);
    BE16RoundTrip(|sni| + 3);
    BE16RoundTrip(|sni|);
    assert b[0] == BE16(|sni| + 3)[0] && b[1] == BE16(|sni| + 3)[1] && b[3] == BE16(|sni|)[0] && b[4] == BE16(|sni|)[1];
    hide BE16, FromBE16;
    assert b[5..] == sni;
  }

  const AEG1: seq<Byte> := [65, 69, 71, 49]

  function ExtEnd(p: seq<Byte>, i: nat): nat
    requires i + 10 <= |p|
  {
    var end := i + 4 + FromBE16(p[i + 2], p[i + 3]);
    if end < |p| then end else |p|
  }

  /** Where the payload of an extension at `i` starts: an `AEG1` mark in front of it is skipped. */
  function PayloadStart(p: seq<Byte>, i: nat): nat
    requires i + 10 <= |p|
  {
    if i + 14 <= ExtEnd(p, i) && p[i + 10..i + 14] == AEG1 then i + 14 else i + 10
  }

  /** The scan's test at offset `i`. */
  predicate EchAt(p: seq<Byte>, i: nat) {
    && i + 10 <= |p|
    && p[i] == 0xFE && p[i + 1] == 0x0D
    && FromBE16(p[i + 2], p[i + 3]) >= 6 && i + 10 <= ExtEnd(p, i)
    && p[i + 4] == 0 && p[i + 5] == 0 && p[i + 6] == 0x20
    && PayloadStart(p, i) < ExtEnd(p, i)
  }

  /** The payload at the first offset from `i` on that passes the test. */
  function FirstEch(p: seq<Byte>, i: nat): Option<seq<Byte>>
    decreases |p| - i
  {
    if i + 10 > |p| then None
    else if EchAt(p, i) then Some(p[PayloadStart(p, i)..ExtEnd(p, i)])
    else FirstEch(p, i + 1)
  }

  function EchPayload(p: seq<Byte>): Option<seq<Byte>> {
    if |p| < 45 || p[0] != 0x16 then None else FirstEch(p, 5)
  }

  lemma SliceOfPrefix(a: array<Byte>, len: nat, lo: nat, hi: nat)
    requires lo <= hi <= len <= a.Length
    ensures a[lo..hi] == a[..len][lo..hi]
  {}

  /** The body of the scan at one offset. */
  method ScanAt(packet: array<Byte>, len: nat, i: nat) returns (r: Option<seq<Byte>>)
    requires i + 10 <= len <= packet.Length
    ensures var p := packet[..len];
            r == if EchAt(p, i) then Some(p[PayloadStart(p, i)..ExtEnd(p, i)]) else None
  {
    ghost var p := packet[..len];
    if packet[i] == 0xFE && packet[i + 1] == 0x0D {
      var extLen := FromBE16(packet[i + 2], packet[i + 3]);
      var extEnd := if i + 4 + extLen < len then i + 4 + extLen else len;
      if extLen >= 6 && i + 4 + 6 <= extEnd {
        if packet[i + 4] == 0 && packet[i + 5] == 0 && packet[i + 6] == 0x20 {
          var payloadStart := i + 10;
          if payloadStart + 4 <= extEnd && packet[payloadStart] == 65 && packet[payloadStart + 1] == 69 &&
             packet[payloadStart + 2] == 71 && packet[payloadStart + 3] == 49 {
            payloadStart := payloadStart + 4;
          }
          assert extEnd == ExtEnd(p, i);
          if i + 14 <= extEnd {
            assert p[i + 10..i + 14] == [packet[i + 10], packet[i + 11], packet[i + 12], packet[i + 13]];
          }
          assert payloadStart == PayloadStart(p, i);
          if extEnd - payloadStart > 0 {
            SliceOfPrefix(packet, len, payloadStart, extEnd);
            return Some(packet[payloadStart..extEnd]);
          }
        }
      }
    }
    return None;
  }

  /** parseTlsRealityPayload: it reads nothing at or past `len`. */
  method ParseTlsRealityPayload(packet: array<Byte>, len: nat) returns (r: Option<seq<Byte>>)
    requires len <= packet.Length
    ensures r == EchPayload(packet[..len])
    ensures r.Some? ==> |r.value| <= len
  {
    ghost var p := packet[..len];
    FirstEchShort(p, 5);
    if len < 45 || packet[0] != 0x16 { return None; }
    hide EchAt, PayloadStart, ExtEnd;
    var i := 5;
    while i + 10 <= len
      invariant 5 <= i
      invariant FirstEch(p, i) == FirstEch(p, 5)
    {
      r := ScanAt(packet, len, i);
      if r.Some? { return; }
      i := i + 1;
    }
    return None;
  }

  lemma {:induction false} FirstEchSkips(p: seq<Byte>, i: nat, e: nat)
    requires i <= e && forall j :: i <= j < e ==> !EchAt(p, j)
    requires e + 10 <= |p|
    ensures FirstEch(p, i) == FirstEch(p, e)
    decreases e - i
  {
    if i < e { FirstEchSkips(p, i + 1, e); }
  }

  /** A payload found from offset `i` on lies entirely past offset i + 10. */
  lemma {:induction false} FirstEchShort(p: seq<Byte>, i: nat)
    ensures FirstEch(p, i).Some? ==> 0 < |FirstEch(p, i).value| && |FirstEch(p, i).value| + i + 10 <= |p|
    decreases |p| - i
  {
    if i + 10 <= |p| && !EchAt(p, i) { FirstEchShort(p, i + 1); }
  }

  /**
   When no offset before the extension passes the scan's test, the parser gives back exactly the
   payload if and only if it is not empty, fits the extension's length field with its six-byte
   head, and does not begin with the mark `AEG1`.
   */
  lemma EchRoundTrip(payload: seq<Byte>, sni: seq<Byte>, random: seq<Byte>, sessionId: seq<Byte>)
    requires |random| == 32 && |sessionId| == 32
    requires var p := ClientHello(payload, sni, random, sessionId);
             forall j :: 5 <= j < |p| - 10 - |payload| ==> !EchAt(p, j)
    ensures EchPayload(ClientHello(payload, sni, random, sessionId)) == Some(payload) <==>
            0 < |payload| <= 0xFFFF - 6 && !(AEG1 <= payload)
  {
    var ech := Extension(0xfe0d, EchBody(payload));
    var prefix := Prefix(sni, random, sessionId, |ech|);
    var p := ClientHello(payload, sni, random, sessionId);
    var e := |prefix|;
    FirstEchSkips(p, 5, e);
    ExtensionScanned(prefix, payload);
  }

  lemma ExtensionLayout(prefix: seq<Byte>, payload: seq<Byte>)
    ensures var p := prefix + Extension(0xfe0d, EchBody(payload));
            var e := |prefix|;
            && |p| == e + 10 + |payload| && p[e + 10..] == payload
            && p[e] == 0xFE && p[e + 1] == 0x0D && p[e + 4] == 0 && p[e + 5] == 0 && p[e + 6] == 0x20
            && FromBE16(p[e + 2], p[e + 3]) == (6 + |payload|) % 0x1_0000
  {
    var body := EchBody(payload);
    var x := Extension(0xfe0d, body);
    assert BE16(0xfe0d) == [0xfe, 0x0d];
    var lenBytes := BE16(6 + |payload|);
    assert x == [0xfe, 0x0d] + lenBytes + body;
    assert body[6..] == payload;
    var n := 6 + |payload|;
    DivModUnique(n, 0x1_0000, n / 0x1_0000, n / 256 % 256 * 256 + n % 256);
  }

  lemma ExtensionScanned(prefix: seq<Byte>, payload: seq<Byte>)
    ensures FirstEch(prefix + Extension(0xfe0d, EchBody(payload)), |prefix|) == Some(payload) <==>
            0 < |payload| <= 0xFFFF - 6 && !(AEG1 <= payload)
  {
    ExtensionLayout(prefix, payload);
    ScannedAt(prefix + Extension(0xfe0d, EchBody(payload)), |prefix|, payload);
  }

  lemma ScannedAt(p: seq<Byte>, e: nat, payload: seq<Byte>)
    requires |p| == e + 10 + |payload| && p[e + 10..] == payload
    requires p[e] == 0xFE && p[e + 1] == 0x0D && p[e + 4] == 0 && p[e + 5] == 0 && p[e + 6] == 0x20
    requires FromBE16(p[e + 2], p[e + 3]) == (6 + |payload|) % 0x1_0000
    ensures FirstEch(p, e) == Some(payload) <==> 0 < |payload| <= 0xFFFF - 6 && !(AEG1 <= payload)
  {
    hide FromBE16;
    FirstEchShort(p, e + 1);
    if 6 + |payload| < 0x1_0000 {
      assert ExtEnd(p, e) == |p|;
      assert p[e + 10..|p|] == payload;
      if |payload| >= 4 {
        assert p[e + 10..e + 14] == payload[..4];
        assert AEG1 <= payload <==> payload[..4] == AEG1;
      }
    } else {
      assert FromBE16(p[e + 2], p[e + 3]) < 6 + |payload|;
    }
  }

  // ---------------------------------------------------------------------------------------------
  // The receiver
  // ---------------------------------------------------------------------------------------------

  /** The wrapper parseDataPacket finds, if any, taken off. */
  function Unwrap(p: seq<Byte>): seq<Byte> {
    if TlsPrefix(p) then (if StripTls(p).Some? then StripTls(p).value else p)
    else if LooksQuic(p) then p[QUIC_HEADER..]
    else if |p| >= 45 && p[0] == 0x16 && EchPayload(p).Some? then EchPayload(p).value
    else p
  }

  /** parseDataPacket on `packet[..len]`. */
  method ParseDataPacket(block: Aead.BlockFunction, packet: array<Byte>, len: nat, k: Keys) returns (r: Parsed)
    requires len <= packet.Length < Aead.MAX_ARRAY
    ensures r == ParseFrame(block, Unwrap(packet[..len]), k)
  {
    hide Aead.Open, MaskHeader;
    var p := packet[..len];
    if len >= 5 && packet[0] == 0x17 && packet[1] == 0x03 && packet[2] == 0x03 {
      var recLen := FromBE16(packet[3], packet[4]);
      if recLen > 0 && recLen <= len - 5 {
        SliceOfPrefix(packet, len, 5, 5 + recLen);
        p := packet[5..5 + recLen];
      }
    } else if len >= 24 && packet[0] >= 0x80 && packet[5] == 8 && packet[14] == 8 && packet[23] == 0 {
      SliceOfPrefix(packet, len, 24, len);
      p := packet[24..len];
    } else if len >= 45 && packet[0] == 0x16 {
      var unwrapped := ParseTlsRealityPayload(packet, len);
      if unwrapped.Some? {
        p := unwrapped.value;
      }
    }
    assert p == Unwrap(packet[..len]);
    r := ParseUnwrapped(block, p, k);
  }

  method ParseUnwrapped(block: Aead.BlockFunction, p: seq<Byte>, k: Keys) returns (r: Parsed)
    requires |p| < Aead.MAX_ARRAY
    ensures r == ParseFrame(block, p, k)
  {
    hide Aead.Open, MaskHeader, FromBE16;
    if |p| < 56 { return Rejected; }
    var plainHdr := MaskHeader(block, p[12..28], k.maskKey, p[..12]);
    var hdrOk := plainHdr[..8] == k.keyId && plainHdr[12..] == VER_MAGIC;
    if !hdrOk && k.altMaskKey.Some? && |k.altMaskKey.value| == 32 {
      plainHdr := MaskHeader(block, p[12..28], k.altMaskKey.value, p[..12]);
      hdrOk := plainHdr[..8] == k.keyId && plainHdr[12..] == VER_MAGIC;
    }
    if !hdrOk { return Rejected; }
    if plainHdr[10] >= 0x80 { return Chaff; }
    var outerLen := 12 + 16 + FromBE16(plainHdr[8], plainHdr[9]);
    if |p| < outerLen + 12 + 16 { return Rejected; }
    var answer := Aead.Decrypt(block, k.dataKey, p[outerLen..outerLen + 12], p[outerLen + 12..], p[..outerLen]);
    if !answer.Plain? { return AuthFailure; }
    if |answer.text| < 2 { return Rejected; }
    var payloadLen := FromBE16(answer.text[0], answer.text[1]);
    if payloadLen <= 0 || payloadLen > |answer.text| - 2 { return Rejected; }
    return IpPacket(answer.text[2..2 + payloadLen]);
  }

  /** A TLS record around a built frame is invisible to the receiver, for every frame that fits one. */
  lemma ParseTlsWrapped(block: Aead.BlockFunction, ip: seq<Byte>, k: Keys, txSeq: nat, isChaff: bool, c: Coins)
    requires |k.keyId| == 8 && c.Valid() && 0 < |ip| < 0x1_0000
    requires |DataPacket(block, ip, k.keyId, k.maskKey, k.dataKey, txSeq, isChaff, c)| <= 0xFFFF
    ensures var w := DataPacket(block, ip, k.keyId, k.maskKey, k.dataKey, txSeq, isChaff, c);
            ParseFrame(block, Unwrap(WrapTls(w)), k) == Expected(ip, isChaff)
  {
    hide ParseFrame, DataPacket;
    StripWrapTls(DataPacket(block, ip, k.keyId, k.maskKey, k.dataKey, txSeq, isChaff, c));
    ParseBuilt(block, ip, k, txSeq, isChaff, c);
  }

  /** The QUIC header of the C++ sender is invisible too, whatever version was asked for. */
  lemma ParseQuicWrapped(block: Aead.BlockFunction, ip: seq<Byte>, k: Keys, txSeq: nat, isChaff: bool, c: Coins,
                         requested: nat, random: seq<Byte>, seed: Option<(Byte, Byte)>)
    requires |k.keyId| == 8 && c.Valid() && 0 < |ip| < 0x1_0000
    requires |random| == 18 && requested < 0x1_0000_0000
    ensures var w := DataPacket(block, ip, k.keyId, k.maskKey, k.dataKey, txSeq, isChaff, c);
            ParseFrame(block, Unwrap(QuicHeader(requested, random, seed) + w), k) == Expected(ip, isChaff)
  {
    hide ParseFrame, DataPacket;
    var w := DataPacket(block, ip, k.keyId, k.maskKey, k.dataKey, txSeq, isChaff, c);
    QuicHeaderFields(requested, random, seed, w);
    ParseBuilt(block, ip, k, txSeq, isChaff, c);
    assert (QuicHeader(requested, random, seed) + w)[QUIC_HEADER..] == w;
  }

  /** A bare frame parses when its first bytes, the random IV and masked header, mimic no wrapper. */
  lemma ParseBare(block: Aead.BlockFunction, ip: seq<Byte>, k: Keys, txSeq: nat, isChaff: bool, c: Coins)
    requires |k.keyId| == 8 && c.Valid() && 0 < |ip| < 0x1_0000
    requires var w := DataPacket(block, ip, k.keyId, k.maskKey, k.dataKey, txSeq, isChaff, c);
             StripTls(w).None? && (TlsPrefix(w) || !LooksQuic(w)) && EchPayload(w).None?
    ensures var w := DataPacket(block, ip, k.keyId, k.maskKey, k.dataKey, txSeq, isChaff, c);
            ParseFrame(block, Unwrap(w), k) == Expected(ip, isChaff)
  {
    hide ParseFrame, DataPacket, EchPayload;
    ParseBuilt(block, ip, k, txSeq, isChaff, c);
  }

  /** A data frame carried in a ClientHello comes out whole, if no earlier offset passes the scan. */
  lemma ParseEchCarried(block: Aead.BlockFunction, ip: seq<Byte>, k: Keys, txSeq: nat, isChaff: bool, c: Coins,
                        sni: seq<Byte>, random: seq<Byte>, sessionId: seq<Byte>)
    requires |k.keyId| == 8 && c.Valid() && 0 < |ip| < 0x1_0000
    requires |random| == 32 && |sessionId| == 32
    requires var w := DataPacket(block, ip, k.keyId, k.maskKey, k.dataKey, txSeq, isChaff, c);
             var p := ClientHello(w, sni, random, sessionId);
             |w| <= 0xFFFF - 6 && !(AEG1 <= w) && forall j :: 5 <= j < |p| - 10 - |w| ==> !EchAt(p, j)
    ensures var w := DataPacket(block, ip, k.keyId, k.maskKey, k.dataKey, txSeq, isChaff, c);
            ParseFrame(block, Unwrap(ClientHello(w, sni, random, sessionId)), k) == Expected(ip, isChaff)
  {
    hide ParseFrame, DataPacket, EchPayload, EchAt, Extension, Prefix;
    var w := DataPacket(block, ip, k.keyId, k.maskKey, k.dataKey, txSeq, isChaff, c);
    ParseBuilt(block, ip, k, txSeq, isChaff, c);
    EchRoundTrip(w, sni, random, sessionId);
  }
}
