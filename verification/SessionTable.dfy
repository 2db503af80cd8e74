/**
 The 64-shard session table (session_table.h). Sessions are references; 0 is the null pointer.
 Calls are atomic: one runs at a time.
 */
module SessionTable {
  import opened Bytes
  import opened Wrappers

  const NUM_SHARDS := 64

  type Ref = nat
  type KeyId = nat
  type Endpoint = nat
  type Ip = nat

  const TWO_64: nat := 0x1_0000_0000_0000_0000

  function ShiftRight(k: nat, n: nat): nat {
    if n == 0 then k else ShiftRight(k / 2, n - 1)
  }

  function ShiftXor(k: nat, n: nat): nat {
    Xor(k, ShiftRight(k, n), 64)
  }

  /** The bit mixer of shard_idx, in 64-bit unsigned arithmetic. */
  function ShardIdx(key: nat): (i: nat)
    ensures i < NUM_SHARDS
  {
    var a := ShiftXor(key % TWO_64, 30) * 0xbf58476d1ce4e5b9 % TWO_64;
    var b := ShiftXor(a, 27) * 0x94d049bb133111eb % TWO_64;
    ShiftXor(b, 31) % NUM_SHARDS
  }

  // ---------------------------------------------------------------------------------------------
  // Shards as one map
  // ---------------------------------------------------------------------------------------------

  type Shard = map<nat, Ref>

  function With(m: Shard, k: nat, r: Ref): Shard {
    m[k := r]
  }

  /** Every key sits in its own shard. */
  predicate Sharded(ss: seq<Shard>) {
    forall i, k :: 0 <= i < |ss| && k in ss[i] ==> ShardIdx(k) == i
  }

  function Flat(ss: seq<Shard>): Shard {
    if ss == [] then map[] else Flat(ss[..|ss| - 1]) + ss[|ss| - 1]
  }

  function Sizes(ss: seq<Shard>): nat {
    if ss == [] then 0 else Sizes(ss[..|ss| - 1]) + |ss[|ss| - 1]|
  }

  /** Looking up one shard is looking up the flat map. */
  lemma {:induction false} FlatAt(ss: seq<Shard>, k: nat)
    requires Sharded(ss)
    ensures k in Flat(ss) <==> ShardIdx(k) < |ss| && k in ss[ShardIdx(k)]
    ensures k in Flat(ss) ==> Flat(ss)[k] == ss[ShardIdx(k)][k]
  {
    hide ShardIdx;
    if ss != [] { FlatAt(ss[..|ss| - 1], k); }
  }

  lemma {:induction false} FlatFrom(ss: seq<Shard>, i: nat, k: nat)
    requires Sharded(ss) && i < |ss| && k in ss[i]
    ensures k in Flat(ss) && Flat(ss)[k] == ss[i][k]
  {
    FlatAt(ss, k);
  }

  lemma DisjointSum(m: Shard, n: Shard)
    requires m.Keys !! n.Keys
    ensures |m + n| == |m| + |n|
  {
    assert (m + n).Keys == m.Keys + n.Keys;
    assert |m.Keys + n.Keys| == |m.Keys| + |n.Keys|;
  }

  /** The shard sizes add up to the size of the flat map. */
  lemma {:induction false} FlatSize(ss: seq<Shard>)
    requires Sharded(ss)
    ensures |Flat(ss)| == Sizes(ss)
  {
    hide ShardIdx;
    if ss != [] {
      var front, last := ss[..|ss| - 1], ss[|ss| - 1];
      FlatSize(front);
      forall k | k in last ensures k !in Flat(front) { FlatAt(front, k); }
      DisjointSum(Flat(front), last);
    }
  }

  lemma FlatInsert(ss: seq<Shard>, k: nat, v: Ref)
    requires Sharded(ss) && |ss| == NUM_SHARDS
    ensures var i := ShardIdx(k);
            var tt := ss[i := With(ss[i], k, v)];
            Sharded(tt) && Flat(tt) == Flat(ss)[k := v]
  {
    hide ShardIdx;
    var i := ShardIdx(k);
    var tt := ss[i := With(ss[i], k, v)];
    forall j
      ensures j in Flat(tt) <==> j in Flat(ss)[k := v]
      ensures j in Flat(tt) ==> Flat(tt)[j] == Flat(ss)[k := v][j]
    {
      FlatAt(ss, j);
      FlatAt(tt, j);
    }
  }

  lemma FlatRemove(ss: seq<Shard>, k: nat)
    requires Sharded(ss) && |ss| == NUM_SHARDS
    ensures var i := ShardIdx(k);
            var tt := ss[i := ss[i] - {k}];
            Sharded(tt) && Flat(tt) == Flat(ss) - {k}
  {
    hide ShardIdx;
    var i := ShardIdx(k);
    var tt := ss[i := ss[i] - {k}];
    forall j
      ensures j in Flat(tt) <==> j in Flat(ss) - {k}
      ensures j in Flat(tt) ==> Flat(tt)[j] == (Flat(ss) - {k})[j]
    {
      FlatAt(ss, j);
      FlatAt(tt, j);
    }
  }

  /** The entries of a map that do not lead to a reference. */
  function Without(m: Shard, r: Ref): Shard {
    map k | k in m && m[k] != r :: m[k]
  }

  /** The routes after unmap_ip. */
  function Unrouted(m: Shard, ip: Ip): Shard {
    if ip == 0 then m else m - {ip}
  }

  lemma FlatWithout(ss: seq<Shard>, tt: seq<Shard>, r: Ref)
    requires Sharded(ss) && |ss| == |tt| && forall i :: 0 <= i < |ss| ==> tt[i] == Without(ss[i], r)
    ensures Sharded(tt) && Flat(tt) == Without(Flat(ss), r)
  {
    hide ShardIdx;
    forall j
      ensures j in Flat(tt) <==> j in Without(Flat(ss), r)
      ensures j in Flat(tt) ==> Flat(tt)[j] == Without(Flat(ss), r)[j]
    {
      FlatAt(ss, j);
      FlatAt(tt, j);
    }
  }

  // ---------------------------------------------------------------------------------------------
  // Hexadecimal keys
  // ---------------------------------------------------------------------------------------------

  function Digit(n: nat): char
    requires n < 16
  {
    "0123456789abcdef"[n]
  }

  /** The value of a hexadecimal digit, in either case. */
  function DigitValue(c: char): (r: Option<nat>)
    ensures r.Some? ==> r.value < 16
  {
    if '0' <= c <= '9' then Some(c as nat - '0' as nat)
    else if 'a' <= c <= 'f' then Some(c as nat - 'a' as nat + 10)
    else if 'A' <= c <= 'F' then Some(c as nat - 'A' as nat + 10)
    else None
  }

  lemma DigitReadsBack(n: nat)
    requires n < 16
    ensures DigitValue(Digit(n)) == Some(n)
  {}

  /** Two digits as sscanf reads them: up to the first character that is no digit. */
  function ScanByte(c: char, d: char): Byte {
    match (DigitValue(c), DigitValue(d))
    case (Some(x), Some(y)) => 16 * x + y
    case (Some(x), None) => x
    case (None, _) => 0
  }

  function HexOf(bytes: seq<Byte>): (s: string)
    ensures |s| == 2 * |bytes|
    ensures forall i :: 0 <= i < |bytes| ==> s[2 * i] == Digit(bytes[i] / 16) && s[2 * i + 1] == Digit(bytes[i] % 16)
  {
    if bytes == [] then ""
    else HexOf(bytes[..|bytes| - 1]) + [Digit(bytes[|bytes| - 1] / 16), Digit(bytes[|bytes| - 1] % 16)]
  }

  /** u64_to_hex: the bytes in memory order. */
  function ToHex(v: nat): string {
    HexOf(ToLE(v, 8))
  }

  /** The printed key: byte after byte from the least significant one, each as two lower-case digits. */
  lemma HexDigits(v: nat, i: nat)
    requires i < 8
    ensures |ToHex(v)| == 16
    ensures var byte := v / Pow256(i) % 256;
            ToHex(v)[2 * i] == "0123456789abcdef"[byte / 16] && ToHex(v)[2 * i + 1] == "0123456789abcdef"[byte % 16]
  {
    hide HexOf, ToLE, Pow256;
    ToLEAt(v, 8, i);
  }

  /** The bytes hex_to_u64 stores: as many as the string covers, zero elsewhere. */
  function ScannedBytes(hex: string): (b: seq<Byte>)
    ensures |b| == 8
  {
    seq(8, i requires 0 <= i < 8 => if 2 * i + 1 < |hex| then ScanByte(hex[2 * i], hex[2 * i + 1]) else 0)
  }

  function FromHex(hex: string): nat {
    FromLE(ScannedBytes(hex))
  }

  lemma ByteReadsBack(b: Byte)
    ensures ScanByte(Digit(b / 16), Digit(b % 16)) == b
  {
    DigitReadsBack(b / 16);
    DigitReadsBack(b % 16);
    hide Digit, DigitValue;
  }

  lemma ScanHexOf(b: seq<Byte>)
    requires |b| == 8
    ensures ScannedBytes(HexOf(b)) == b
  {
    hide HexOf, ScanByte, Digit;
    forall i | 0 <= i < 8 ensures ScannedBytes(HexOf(b))[i] == b[i] { ByteReadsBack(b[i]); }
  }

  /** Every 64-bit key survives printing and scanning. */
  lemma HexRoundTrip(v: nat)
    requires v < TWO_64
    ensures FromHex(ToHex(v)) == v
  {
    hide ScannedBytes, HexOf, ToLE, FromLE, Pow256;
    Pow256Is();
    ScanHexOf(ToLE(v, 8));
    FromToLE(v, 8);
  }

  // ---------------------------------------------------------------------------------------------
  // The table
  // ---------------------------------------------------------------------------------------------

  /** What the table reads of a session object. */
  datatype Info = Info(keyId: KeyId, assignedIp: Ip, hasClient: bool, lastActivity: int)

  /** Sessions are entered under their own key id. */
  ghost predicate KeyedByOwnId(byKey: map<KeyId, Ref>, info: map<Ref, Info>) {
    forall k :: k in byKey ==> byKey[k] in info && info[byKey[k]].keyId == k
  }

  ghost predicate RefersTo<K>(m: map<K, Ref>, r: Ref) {
    exists k :: k in m && m[k] == r
  }

  /** Only a session's own address leads to it. */
  ghost predicate RoutedFromOwnAddressOnly(routes: map<Ip, Ref>, r: Ref, ip: Ip) {
    forall a :: a in routes && routes[a] == r ==> a == ip != 0
  }

  /** The table and, in `sessions`, the session objects that exist. */
  class SessionTable {
    const shards: array<Shard>
    const epShards: array<Shard>
    var routes: map<Ip, Ref>
    var sessions: map<Ref, Info>

    ghost predicate Valid()
      reads this, shards, epShards
    {
      && shards != epShards && shards.Length == NUM_SHARDS && epShards.Length == NUM_SHARDS
      && Sharded(shards[..]) && Sharded(epShards[..])
      && KeyedByOwnId(ByKey(), sessions) && 0 !in sessions
    }

    /** Somebody can still reach the session. */
    ghost predicate Referred(r: Ref)
      reads this, shards, epShards
    {
      RefersTo(ByKey(), r) || RefersTo(ByEndpoint(), r) || RefersTo(routes, r)
    }

    /** The table as one map from key ids. */
    ghost function ByKey(): map<KeyId, Ref>
      reads this, shards
    {
      Flat(shards[..])
    }

    ghost function ByEndpoint(): map<Endpoint, Ref>
      reads this, epShards
    {
      Flat(epShards[..])
    }

    constructor ()
      ensures Valid() && fresh(shards) && fresh(epShards)
      ensures ByKey() == map[] && ByEndpoint() == map[] && routes == map[] && sessions == map[]
    {
      shards := new Shard[NUM_SHARDS](_ => map[]);
      epShards := new Shard[NUM_SHARDS](_ => map[]);
      routes, sessions := map[], map[];
      new;
      EmptyFlat(shards[..]);
      EmptyFlat(epShards[..]);
    }

    static lemma {:induction false} EmptyFlat(ss: seq<Shard>)
      requires forall i :: 0 <= i < |ss| ==> ss[i] == map[]
      ensures Flat(ss) == map[] && Sharded(ss)
    {
      if ss != [] { EmptyFlat(ss[..|ss| - 1]); }
    }

    method FindByKeyId(key: KeyId) returns (r: Option<Ref>)
      requires Valid()
      ensures r == if key in ByKey() && ByKey()[key] != 0 then Some(ByKey()[key]) else None
    {
      FlatAt(shards[..], key);
      var s := ShardIdx(key);
      if key in shards[s] && shards[s][key] != 0 {
        return Some(shards[s][key]);
      }
      r := None;
    }

    /** Lookup by the printed key is lookup by the key. */
    method FindByKeyIdHex(hex: string) returns (r: Option<Ref>)
      requires Valid()
      ensures forall key :: 0 <= key < TWO_64 && hex == ToHex(key) ==>
                r == if key in ByKey() && ByKey()[key] != 0 then Some(ByKey()[key]) else None
    {
      r := FindByKeyId(FromHex(hex));
      forall key | 0 <= key < TWO_64 && hex == ToHex(key) ensures FromHex(hex) == key { HexRoundTrip(key); }
    }

    method FindByEndpoint(ep: Endpoint) returns (r: Option<Ref>)
      requires Valid()
      ensures r == if ep in ByEndpoint() && ByEndpoint()[ep] != 0 then Some(ByEndpoint()[ep]) else None
    {
      FlatAt(epShards[..], ep);
      var s := ShardIdx(ep);
      if ep in epShards[s] && epShards[s][ep] != 0 {
        return Some(epShards[s][ep]);
      }
      r := None;
    }

    method FindByAssignedIp(ip: Ip) returns (r: Option<Ref>)
      ensures r == if ip != 0 && ip in routes && routes[ip] != 0 then Some(routes[ip]) else None
    {
      if ip == 0 { return None; }
      var snap := routes;
      if ip in snap && snap[ip] != 0 {
        return Some(snap[ip]);
      }
      r := None;
    }

    /** A new session object: its key id, and neither address nor client. Entering it is up to the caller. */
    method NewSession(ref: Ref, key: KeyId)
      requires Valid() && ref != 0 && ref !in sessions
      modifies this`sessions
      ensures Valid() && sessions == old(sessions)[ref := Info(key, 0, false, 0)]
    {
      sessions := sessions[ref := Info(key, 0, false, 0)];
    }

    /** set_routing: the session's address and client. */
    method SetRouting(ref: Ref, ip: Ip, hasClient: bool)
      requires Valid() && ref in sessions
      modifies this`sessions
      ensures Valid()
      ensures sessions == old(sessions)[ref := old(sessions)[ref].(assignedIp := ip, hasClient := hasClient)]
    {
      sessions := sessions[ref := sessions[ref].(assignedIp := ip, hasClient := hasClient)];
    }

    /** insert_session: entered under the session's own key id. */
    method InsertSession(ref: Ref)
      requires Valid() && (ref == 0 || ref in sessions)
      modifies shards
      ensures Valid()
      ensures ByKey() == if ref == 0 then old(ByKey()) else old(ByKey())[sessions[ref].keyId := ref]
    {
      if ref == 0 { return; }
      var key := sessions[ref].keyId;
      FlatInsert(shards[..], key, ref);
      var s := ShardIdx(key);
      ghost var was := shards[..];
      shards[s] := shards[s][key := ref];
      assert shards[..] == was[s := With(was[s], key, ref)];
    }

    method UpdateEndpoint(ep: Endpoint, ref: Ref)
      requires Valid()
      modifies epShards
      ensures Valid() && ByEndpoint() == if ref == 0 then old(ByEndpoint()) else old(ByEndpoint())[ep := ref]
    {
      if ref == 0 { return; }
      FlatInsert(epShards[..], ep, ref);
      var s := ShardIdx(ep);
      ghost var was := epShards[..];
      epShards[s] := epShards[s][ep := ref];
      assert epShards[..] == was[s := With(was[s], ep, ref)];
    }

    /** Copy on write: a snapshot taken before stays what it was. */
    method MapIp(ip: Ip, ref: Ref)
      modifies this`routes
      ensures routes == if ip == 0 || ref == 0 then old(routes) else old(routes)[ip := ref]
    {
      if ip == 0 || ref == 0 { return; }
      var snap := routes;
      snap := snap[ip := ref];
      routes := snap;
    }

    method UnmapIp(ip: Ip)
      modifies this`routes
      ensures routes == Unrouted(old(routes), ip)
    {
      if ip == 0 { return; }
      var snap := routes;
      snap := snap - {ip};
      routes := snap;
    }

    method EraseFrom(s: nat, ref: Ref)
      requires epShards.Length == NUM_SHARDS && s < NUM_SHARDS
      modifies epShards
      ensures epShards[s] == old(Without(epShards[s], ref))
      ensures forall i :: 0 <= i < NUM_SHARDS && i != s ==> epShards[i] == old(epShards[i])
    {
      var shard := epShards[s];
      var todo := shard.Keys;
      while todo != {}
        invariant todo <= old(epShards[s]).Keys
        invariant shard == map k | k in old(epShards[s]) && (k in todo || old(epShards[s])[k] != ref)
                             :: old(epShards[s])[k]
        decreases |todo|
      {
        var k :| k in todo;
        todo := todo - {k};
        if shard[k] == ref {
          shard := shard - {k};
        }
      }
      epShards[s] := shard;
    }

    /** The endpoint sweep of remove_session: all 64 shards. */
    method EraseEverywhere(ref: Ref)
      requires Valid()
      modifies epShards
      ensures Valid() && ByEndpoint() == Without(old(ByEndpoint()), ref)
    {
      ghost var was := epShards[..];
      var s := 0;
      while s < NUM_SHARDS
        invariant s <= NUM_SHARDS
        invariant forall i :: 0 <= i < s ==> epShards[i] == Without(was[i], ref)
        invariant forall i :: s <= i < NUM_SHARDS ==> epShards[i] == was[i]
        invariant shards[..] == old(shards[..])
      {
        EraseFrom(s, ref);
        s := s + 1;
      }
      FlatWithout(was, epShards[..], ref);
    }

    /**
     remove_session. Returns what was deleted; afterwards somebody still refers to it if and only if an
     address other than its own was routed to it.
     */
    method RemoveSession(key: KeyId) returns (removed: Option<Ref>)
      requires Valid()
      modifies this`routes, this`sessions, shards, epShards
      ensures Valid()
      ensures removed == if key in old(ByKey()) then Some(old(ByKey())[key]) else None
      ensures ByKey() == old(ByKey()) - {key}
      ensures removed.None? ==>
                ByEndpoint() == old(ByEndpoint()) && routes == old(routes) && sessions == old(sessions)
      ensures removed.Some? ==>
                && removed.value in old(sessions) && sessions == old(sessions) - {removed.value}
                && ByEndpoint() == Without(old(ByEndpoint()), removed.value)
                && routes == Unrouted(old(routes), old(sessions)[removed.value].assignedIp)
                && (!Referred(removed.value) <==>
                    RoutedFromOwnAddressOnly(old(routes), removed.value, old(sessions)[removed.value].assignedIp))
    {
      FlatAt(shards[..], key);
      FlatRemove(shards[..], key);
      var s := ShardIdx(key);
      ghost var was, byKey := shards[..], ByKey();
      removed := if key in shards[s] && shards[s][key] != 0 then Some(shards[s][key]) else None;
      shards[s] := shards[s] - {key};
      assert shards[..] == was[s := was[s] - {key}];
      if removed.Some? {
        UnmapIp(sessions[removed.value].assignedIp);
        EraseEverywhere(removed.value);
        NothingDangles(byKey, old(ByEndpoint()), old(routes), old(sessions), key);
        sessions := sessions - {removed.value};
      }
    }

    /** find_if: a session satisfying the predicate, whenever some session in the table does. */
    method FindIf(p: Ref -> bool) returns (r: Option<Ref>)
      requires Valid()
      ensures r.Some? ==> r.value != 0 && p(r.value) && exists k :: k in ByKey() && ByKey()[k] == r.value
      ensures r.None? ==> forall k :: k in ByKey() && ByKey()[k] != 0 ==> !p(ByKey()[k])
    {
      var s := 0;
      while s < NUM_SHARDS
        invariant s <= NUM_SHARDS
        invariant forall i, k :: 0 <= i < s && k in shards[i] && shards[i][k] != 0 ==> !p(shards[i][k])
      {
        var todo := shards[s].Keys;
        while todo != {}
          invariant todo <= shards[s].Keys
          invariant forall k :: k in shards[s] && k !in todo && shards[s][k] != 0 ==> !p(shards[s][k])
          decreases |todo|
        {
          var k :| k in todo;
          todo := todo - {k};
          if shards[s][k] != 0 && p(shards[s][k]) {
            FlatFrom(shards[..], s, k);
            return Some(shards[s][k]);
          }
        }
        s := s + 1;
      }
      forall k | k in ByKey() && ByKey()[k] != 0 ensures !p(ByKey()[k]) { FlatAt(shards[..], k); }
      r := None;
    }

    /** total_sessions: the number of entries of the flat map. */
    method TotalSessions() returns (count: nat)
      requires Valid()
      ensures count == |ByKey()|
    {
      count := 0;
      var s := 0;
      while s < NUM_SHARDS
        invariant s <= NUM_SHARDS && count == Sizes(shards[..s])
      {
        assert shards[..s + 1][..s] == shards[..s];
        count := count + |shards[s]|;
        s := s + 1;
      }
      assert shards[..NUM_SHARDS] == shards[..];
      FlatSize(shards[..]);
    }
  }

  // ---------------------------------------------------------------------------------------------
  // Dangling references
  // ---------------------------------------------------------------------------------------------

  /**
   After remove_session nothing refers to the deleted session if and only if, before it, the route map
   led to the session from nowhere but its own assigned address.
   */
  lemma NothingDangles(byKey: map<KeyId, Ref>, byEndpoint: map<Endpoint, Ref>, routes: map<Ip, Ref>,
                       info: map<Ref, Info>, key: KeyId)
    requires KeyedByOwnId(byKey, info) && key in byKey
    ensures var r := byKey[key];
            var ip := info[r].assignedIp;
            (!RefersTo(byKey - {key}, r) && !RefersTo(Without(byEndpoint, r), r) && !RefersTo(Unrouted(routes, ip), r))
            <==> RoutedFromOwnAddressOnly(routes, r, ip)
  {
    var r := byKey[key];
    var ip := info[r].assignedIp;
    var after := Unrouted(routes, ip);
    if RoutedFromOwnAddressOnly(routes, r, ip) {
      assert forall a :: a in after ==> a in routes && after[a] == routes[a];
    } else {
      var a :| a in routes && routes[a] == r && !(a == ip != 0);
      assert a in after && after[a] == r;
    }
  }
}
