/**
 The pre-authentication state of HandshakeServer (handshake.cpp): pending handshakes and seen
 timestamps, each a map with a time-ordered queue beside it. HMAC and key import are parameters.
 */
module HandshakeState {
  import opened Bytes
  import opened Wrappers

  const MAX_PENDING := 1024
  const MAX_SEEN := 100000
  const PENDING_TTL := 30000
  const SEEN_TTL := 305000
  const PRUNE_EVERY := 5000
  const SKEW := 300000

  type KeyId = nat

  /** A pending state remembers when its init arrived. */
  datatype PendingRecord = PendingRecord(kid: KeyId, time: nat)
  datatype SeenKey = SeenKey(kid: KeyId, stamp: nat)
  datatype SeenRecord = SeenRecord(key: SeenKey, time: nat)

  type Pending = map<KeyId, nat>
  type Seen = map<SeenKey, nat>

  datatype State = State(keys: map<KeyId, seq<Byte>>, pending: Pending, pendingOrder: seq<PendingRecord>,
                         seen: Seen, seenOrder: seq<SeenRecord>, lastPrune: nat)

  /** The truncated HMAC of a message under a key. */
  type Hmac = (seq<Byte>, seq<Byte>) -> seq<Byte>

  /** Unsigned 64-bit subtraction, as the source's `now - then`. */
  function Elapsed(now: nat, before: nat): (d: nat) {
    (now - before) % 0x1_0000_0000_0000_0000
  }

  lemma ElapsedIs(now: nat, before: nat)
    requires before <= now < 0x1_0000_0000_0000_0000
    ensures Elapsed(now, before) == now - before
  {}

  // ---------------------------------------------------------------------------------------------
  // Pending handshakes
  // ---------------------------------------------------------------------------------------------

  datatype Pend = Pend(pending: Pending, order: seq<PendingRecord>)

  /** prune_pending: pops expired records, removing the pending state a record still describes. */
  function PrunePending(p: Pend, now: nat): Pend
    decreases |p.order|
  {
    if p.order == [] || Elapsed(now, p.order[0].time) <= PENDING_TTL then p
    else PrunePending(Popped(p), now)
  }

  /** The capacity loop: pops records, removing whatever state their key id has. */
  function EvictPending(p: Pend): Pend
    decreases |p.order|
  {
    if |p.pending| < MAX_PENDING || p.order == [] then p
    else EvictPending(Pend(p.pending - {p.order[0].kid}, p.order[1..]))
  }

  predicate PendingSorted(order: seq<PendingRecord>) {
    forall i, j :: 0 <= i < j < |order| ==> order[i].time <= order[j].time
  }

  /** Every pending state has its record in the time-ordered queue, which may also hold stale records. */
  predicate PendingOk(p: Pend, clock: nat) {
    && PendingSorted(p.order)
    && (forall r :: r in p.order ==> r.time <= clock)
    && (forall k :: k in p.pending ==> PendingRecord(k, p.pending[k]) in p.order)
  }

  function Young(p: Pending, now: nat): Pending {
    map k | k in p && now - p[k] <= PENDING_TTL :: p[k]
  }

  lemma PopKeepsOk(p: Pend, clock: nat, pending: Pending)
    requires PendingOk(p, clock) && p.order != []
    requires pending.Keys <= p.pending.Keys && forall k :: k in pending ==> pending[k] == p.pending[k]
    requires p.order[0].kid in pending ==> pending[p.order[0].kid] != p.order[0].time
    ensures PendingOk(Pend(pending, p.order[1..]), clock)
  {
    forall k | k in pending ensures PendingRecord(k, pending[k]) in p.order[1..] {
      assert PendingRecord(k, pending[k]) in p.order;
    }
  }

  lemma YoungHead(p: Pend, now: nat)
    requires PendingOk(p, now) && (p.order != [] ==> now - p.order[0].time <= PENDING_TTL)
    ensures Young(p.pending, now) == p.pending
  {
    forall k | k in p.pending ensures now - p.pending[k] <= PENDING_TTL {
      assert PendingRecord(k, p.pending[k]) in p.order;
    }
  }

  function Popped(p: Pend): Pend
    requires p.order != []
  {
    var r := p.order[0];
    Pend(if r.kid in p.pending && p.pending[r.kid] == r.time then p.pending - {r.kid} else p.pending, p.order[1..])
  }

  lemma OldHead(p: Pend, now: nat)
    requires PendingOk(p, now) && p.order != [] && now - p.order[0].time > PENDING_TTL
    ensures PendingOk(Popped(p), now) && Young(Popped(p).pending, now) == Young(p.pending, now)
  {
    PopKeepsOk(p, now, Popped(p).pending);
  }

  /** Pruning removes exactly the states older than the time to live, although it only looks at the queue. */
  lemma {:induction false} PruneIsAgeFilter(p: Pend, now: nat)
    requires PendingOk(p, now) && now < 0x1_0000_0000_0000_0000
    ensures var r := PrunePending(p, now);
            PendingOk(r, now) && r.pending == Young(p.pending, now)
    decreases |p.order|
  {
    if p.order != [] {
      assert p.order[0] in p.order;
      ElapsedIs(now, p.order[0].time);
    }
    hide PendingOk, Young, Popped, Elapsed;
    if p.order == [] || now - p.order[0].time <= PENDING_TTL {
      YoungHead(p, now);
    } else {
      OldHead(p, now);
      PruneIsAgeFilter(Popped(p), now);
    }
  }

  /** The capacity loop ends below capacity, never by running out of records, and keeps the invariant. */
  lemma {:induction false} EvictEndsBelowCapacity(p: Pend, clock: nat)
    requires PendingOk(p, clock)
    ensures var r := EvictPending(p);
            && PendingOk(r, clock) && |r.pending| < MAX_PENDING
            && r.pending.Keys <= p.pending.Keys && forall k :: k in r.pending ==> r.pending[k] == p.pending[k]
    decreases |p.order|
  {
    if p.order == [] {
      assert forall k :: k !in p.pending;
      assert p.pending == map[];
    } else if |p.pending| >= MAX_PENDING {
      var pending := p.pending - {p.order[0].kid};
      PopKeepsOk(p, clock, pending);
      EvictEndsBelowCapacity(Pend(pending, p.order[1..]), clock);
    }
  }

  // ---------------------------------------------------------------------------------------------
  // Which state the capacity loop drops
  // ---------------------------------------------------------------------------------------------

  /** The first record whose key id is pending, current or stale. */
  function FirstPending(p: Pend): (i: nat)
    ensures i <= |p.order| && (i < |p.order| ==> p.order[i].kid in p.pending)
    ensures forall j :: 0 <= j < i ==> p.order[j].kid !in p.pending
    decreases |p.order|
  {
    if p.order == [] || p.order[0].kid in p.pending then 0 else 1 + FirstPending(Pend(p.pending, p.order[1..]))
  }

  predicate Current(p: Pend, r: PendingRecord) {
    r.kid in p.pending && p.pending[r.kid] == r.time
  }

  /** The first record that describes the state its key id now has. */
  function FirstCurrent(p: Pend): (i: nat)
    ensures i <= |p.order| && (i < |p.order| ==> Current(p, p.order[i]))
    ensures forall j :: 0 <= j < i ==> !Current(p, p.order[j])
    decreases |p.order|
  {
    if p.order == [] || Current(p, p.order[0]) then 0 else 1 + FirstCurrent(Pend(p.pending, p.order[1..]))
  }

  /** At capacity one state goes: that of the first queue record whose key id is pending. */
  lemma {:induction false} EvictsOne(p: Pend)
    requires |p.pending| == MAX_PENDING && FirstPending(p) < |p.order|
    ensures EvictPending(p).pending == p.pending - {p.order[FirstPending(p)].kid}
    ensures EvictPending(p).order == p.order[FirstPending(p) + 1..]
    decreases |p.order|
  {
    var kid, rest := p.order[0].kid, p.order[1..];
    if kid in p.pending {
      MapWithout(p.pending, kid);
      assert FirstPending(p) == 0;
    } else {
      assert p.pending - {kid} == p.pending;
      var q := Pend(p.pending, rest);
      assert FirstPending(p) == 1 + FirstPending(q) && EvictPending(p) == EvictPending(q);
      EvictsOne(q);
      hide EvictPending, FirstPending;
      assert p.order[FirstPending(p)] == rest[FirstPending(q)];
      assert rest[FirstPending(q) + 1..] == p.order[FirstPending(p) + 1..];
    }
  }

  /** The queue position of the record that describes a pending state. */
  lemma RecordOf(p: Pend, clock: nat, kid: KeyId) returns (i: nat)
    requires PendingOk(p, clock) && kid in p.pending
    ensures i < |p.order| && p.order[i] == PendingRecord(kid, p.pending[kid])
  {
    var r := PendingRecord(kid, p.pending[kid]);
    assert r in p.order;
    i :| 0 <= i < |p.order| && p.order[i] == r;
  }

  lemma NoneOlder(p: Pend, clock: nat, kid: KeyId)
    requires PendingOk(p, clock) && kid in p.pending
    ensures FirstPending(p) <= FirstCurrent(p) < |p.order|
    ensures p.order[FirstCurrent(p)].time <= p.pending[kid]
  {
    hide FirstCurrent, FirstPending;
    assert PendingSorted(p.order);
    var i := RecordOf(p, clock, kid);
    hide PendingOk;
    assert Current(p, p.order[i]);
    assert !(i < FirstCurrent(p));
    assert !(FirstCurrent(p) < FirstPending(p));
  }

  /** The first current record tells the age of the oldest states. */
  lemma FirstCurrentIsOldest(p: Pend, clock: nat)
    requires PendingOk(p, clock) && |p.pending| > 0
    ensures FirstPending(p) <= FirstCurrent(p) < |p.order|
    ensures forall k :: k in p.pending ==> p.order[FirstCurrent(p)].time <= p.pending[k]
  {
    var some :| some in p.pending;
    hide *;
    NoneOlder(p, clock, some);
    forall k | k in p.pending ensures p.order[FirstCurrent(p)].time <= p.pending[k] {
      NoneOlder(p, clock, k);
    }
  }

  predicate Oldest(p: Pending, kid: KeyId)
    requires kid in p
  {
    forall k :: k in p ==> p[kid] <= p[k]
  }

  /**
   The exact condition under which the eviction drops a least recently used state: the state named by
   the first record with a pending key id is as old as the first current record. That is always so when
   the former record is itself current.
   */
  lemma EvictsOldestExactly(p: Pend, clock: nat)
    requires PendingOk(p, clock) && |p.pending| == MAX_PENDING
    ensures FirstPending(p) <= FirstCurrent(p) < |p.order|
    ensures var r := p.order[FirstPending(p)];
            && r.kid in p.pending && EvictPending(p).pending == p.pending - {r.kid}
            && (Oldest(p.pending, r.kid) <==> p.pending[r.kid] == p.order[FirstCurrent(p)].time)
            && (Current(p, r) ==> Oldest(p.pending, r.kid))
  {
    hide PendingOk, EvictPending, FirstPending, FirstCurrent;
    FirstCurrentIsOldest(p, clock);
    EvictsOne(p);
    var r, c := p.order[FirstPending(p)], p.order[FirstCurrent(p)];
    assert c.kid in p.pending && p.pending[c.kid] == c.time;
    assert Current(p, r) ==> FirstCurrent(p) == FirstPending(p);
  }

  // ---------------------------------------------------------------------------------------------
  // Seen timestamps
  // ---------------------------------------------------------------------------------------------

  datatype Stamps = Stamps(seen: Seen, order: seq<SeenRecord>)

  function PopSeen(p: Stamps): Stamps
    requires p.order != []
  {
    Stamps(p.seen - {p.order[0].key}, p.order[1..])
  }

  function PruneSeen(p: Stamps, now: nat): Stamps
    decreases |p.order|
  {
    if p.order == [] || Elapsed(now, p.order[0].time) <= SEEN_TTL then p else PruneSeen(PopSeen(p), now)
  }

  function EvictSeen(p: Stamps): Stamps
    decreases |p.order|
  {
    if |p.seen| < MAX_SEEN || p.order == [] then p else EvictSeen(PopSeen(p))
  }

  predicate SeenOrdered(order: seq<SeenRecord>, clock: nat) {
    && (forall i, j :: 0 <= i < j < |order| ==> order[i].time <= order[j].time && order[i].key != order[j].key)
    && (forall i :: 0 <= i < |order| ==> order[i].time <= clock)
  }

  predicate QueueInMap(p: Stamps) {
    forall i :: 0 <= i < |p.order| ==> p.order[i].key in p.seen && p.seen[p.order[i].key] == p.order[i].time
  }

  predicate MapInQueue(p: Stamps) {
    forall k :: k in p.seen ==> SeenRecord(k, p.seen[k]) in p.order
  }

  /** Map and queue hold the same stamps, each once, in time order. */
  predicate SeenOk(p: Stamps, clock: nat) {
    |p.seen| == |p.order| && SeenOrdered(p.order, clock) && QueueInMap(p) && MapInQueue(p)
  }

  lemma PopSeenListed(p: Stamps)
    requires MapInQueue(p) && p.order != []
    ensures MapInQueue(PopSeen(p))
  {
    forall k | k in PopSeen(p).seen ensures SeenRecord(k, p.seen[k]) in p.order[1..] {
      assert SeenRecord(k, p.seen[k]) in p.order && p.order == [p.order[0]] + p.order[1..];
    }
  }

  lemma PopSeenOrdered(p: Stamps, clock: nat)
    requires SeenOrdered(p.order, clock) && p.order != []
    ensures SeenOrdered(PopSeen(p).order, clock)
  {}

  lemma PopSeenMapped(p: Stamps, clock: nat)
    requires SeenOrdered(p.order, clock) && QueueInMap(p) && p.order != []
    ensures QueueInMap(PopSeen(p)) && p.order[0].key in p.seen
  {
    var q := PopSeen(p);
    forall i | 0 <= i < |q.order| ensures q.order[i].key in q.seen && q.seen[q.order[i].key] == q.order[i].time {
      assert q.order[i] == p.order[i + 1];
      assert p.order[0].key != p.order[i + 1].key;
    }
  }

  lemma PopSeenKeepsOk(p: Stamps, clock: nat)
    requires SeenOk(p, clock) && p.order != []
    ensures SeenOk(PopSeen(p), clock)
  {
    hide MapInQueue, QueueInMap, SeenOrdered;
    PopSeenListed(p);
    PopSeenOrdered(p, clock);
    PopSeenMapped(p, clock);
    MapWithout(p.seen, p.order[0].key);
  }

  function Recent(seen: Seen, now: nat): Seen {
    map k | k in seen && now - seen[k] <= SEEN_TTL :: seen[k]
  }

  lemma RecentHead(p: Stamps, now: nat)
    requires SeenOk(p, now) && (p.order != [] ==> now - p.order[0].time <= SEEN_TTL)
    ensures Recent(p.seen, now) == p.seen
  {
    hide QueueInMap;
    forall k | k in p.seen ensures now - p.seen[k] <= SEEN_TTL {
      assert SeenRecord(k, p.seen[k]) in p.order;
    }
  }

  lemma ExpiredHead(p: Stamps, now: nat)
    requires QueueInMap(p) && p.order != [] && now - p.order[0].time > SEEN_TTL
    ensures Recent(PopSeen(p).seen, now) == Recent(p.seen, now)
  {
    assert p.seen[p.order[0].key] == p.order[0].time;
  }

  /** Pruning removes exactly the stamps older than the time to live. */
  lemma {:induction false} PruneSeenIsAgeFilter(p: Stamps, now: nat)
    requires SeenOk(p, now) && now < 0x1_0000_0000_0000_0000
    ensures var r := PruneSeen(p, now);
            SeenOk(r, now) && r.seen == Recent(p.seen, now) && |r.seen| <= |p.seen|
    decreases |p.order|
  {
    if p.order != [] { ElapsedIs(now, p.order[0].time); }
    hide SeenOrdered, QueueInMap, MapInQueue, Recent, Elapsed;
    if p.order == [] || now - p.order[0].time <= SEEN_TTL {
      RecentHead(p, now);
    } else {
      PopSeenKeepsOk(p, now);
      ExpiredHead(p, now);
      PruneSeenIsAgeFilter(PopSeen(p), now);
    }
  }

  lemma {:induction false} EvictSeenKeepsOk(p: Stamps, clock: nat)
    requires SeenOk(p, clock)
    ensures SeenOk(EvictSeen(p), clock) && |EvictSeen(p).seen| < MAX_SEEN
    decreases |p.order|
  {
    hide SeenOrdered, QueueInMap, MapInQueue;
    if |p.seen| >= MAX_SEEN {
      PopSeenKeepsOk(p, clock);
      hide SeenOk, PopSeen;
      EvictSeenKeepsOk(PopSeen(p), clock);
    }
  }

  lemma TailTail<T>(s: seq<T>, n: nat)
    requires 0 < n < |s|
    ensures s[1..][n - 1..] == s[n..]
  {}

  /** The eviction drops the oldest stamps, exactly as many as needed. */
  lemma {:induction false} EvictSeenDropsOldest(p: Stamps, clock: nat)
    requires SeenOk(p, clock)
    ensures EvictSeen(p).order == if |p.order| < MAX_SEEN then p.order else p.order[|p.order| - MAX_SEEN + 1..]
    decreases |p.order|
  {
    hide SeenOrdered, QueueInMap, MapInQueue;
    if |p.seen| >= MAX_SEEN {
      PopSeenKeepsOk(p, clock);
      EvictSeenDropsOldest(PopSeen(p), clock);
      var rest := PopSeen(p).order;
      assert rest == p.order[1..];
      hide PopSeen, SeenOk;
      if |rest| >= MAX_SEEN { TailTail(p.order, |p.order| - MAX_SEEN + 1); }
    }
  }

  // ---------------------------------------------------------------------------------------------
  // The init message
  // ---------------------------------------------------------------------------------------------

  function Reversed(s: seq<Byte>): (r: seq<Byte>)
    ensures |r| == |s|
  {
    if s == [] then [] else Reversed(s[1..]) + [s[0]]
  }

  lemma {:induction false} ReversedAppend(s: seq<Byte>, b: Byte)
    ensures Reversed(s + [b]) == [b] + Reversed(s)
  {
    if s == [] {
      assert s + [b] == [b];
    } else {
      assert (s + [b])[1..] == s[1..] + [b];
      ReversedAppend(s[1..], b);
    }
  }

  lemma {:induction false} ReversedTwice(s: seq<Byte>)
    ensures Reversed(Reversed(s)) == s
  {
    if s != [] {
      ReversedAppend(Reversed(s[1..]), s[0]);
      ReversedTwice(s[1..]);
    }
  }

  /** The 56 bytes under the MAC: type, key id, ephemeral key, big-endian time. */
  function InitBody(kid: seq<Byte>, ephemeral: seq<Byte>, stamp: nat): (b: seq<Byte>)
    requires |kid| == 8 && |ephemeral| == 32
    ensures |b| == 56
  {
    [1, 0, 0, 0, 0, 0, 0, 0] + kid + ephemeral + Reversed(ToLE(stamp, 8))
  }

  /** build_init. */
  function BuildInit(hmac: Hmac, key: seq<Byte>, kid: seq<Byte>, ephemeral: seq<Byte>, stamp: nat): seq<Byte>
    requires |kid| == 8 && |ephemeral| == 32
  {
    var body := InitBody(kid, ephemeral, stamp);
    body + hmac(key, body)
  }

  /** The signed difference of the two clocks is within 300 s. */
  predicate SkewOk(now: nat, stamp: nat) {
    Elapsed(now, stamp) <= SKEW || Elapsed(now, stamp) >= 0x1_0000_0000_0000_0000 - SKEW
  }

  lemma SkewIsDistance(now: nat, stamp: nat)
    requires now < 0x8000_0000_0000_0000 && stamp < 0x8000_0000_0000_0000
    ensures SkewOk(now, stamp) <==> -SKEW <= now - stamp <= SKEW
  {}

  /** The checks of process_init before it touches its state: who sent this init, and when. */
  function Judge(keys: map<KeyId, seq<Byte>>, hmac: Hmac, init: seq<Byte>, now: nat): Option<SeenKey> {
    if |init| < 72 || init[0] != 1 then None
    else
      var kid, stamp := FromLE(init[8..16]), FromLE(Reversed(init[48..56]));
      if !SkewOk(now, stamp) || kid !in keys then None
      else if hmac(keys[kid], init[..56]) != init[56..72] then None
      else Some(SeenKey(kid, stamp))
  }

  lemma InitFields(kid: seq<Byte>, ephemeral: seq<Byte>, stamp: nat, mac: seq<Byte>)
    requires |kid| == 8 && |ephemeral| == 32 && |mac| == 16
    ensures var body := InitBody(kid, ephemeral, stamp);
            var init := body + mac;
            && init[0] == 1 && init[..56] == body && init[56..72] == mac
            && init[8..16] == kid && init[48..56] == Reversed(ToLE(stamp, 8))
  {
    hide Reversed, ToLE;
    var body := InitBody(kid, ephemeral, stamp);
    assert body[8..16] == kid && body[48..56] == Reversed(ToLE(stamp, 8));
  }

  lemma StampRoundTrip(stamp: nat)
    requires stamp < 0x1_0000_0000_0000_0000
    ensures FromLE(Reversed(Reversed(ToLE(stamp, 8)))) == stamp
  {
    hide ToLE, FromLE, Reversed, Pow256;
    Pow256Is();
    ReversedTwice(ToLE(stamp, 8));
    FromToLE(stamp, 8);
  }

  /** An init built with a registered key is judged by the clocks alone: accepted exactly within 300 s. */
  lemma BuiltInitIsJudgedByTime(keys: map<KeyId, seq<Byte>>, hmac: Hmac, kid: seq<Byte>, ephemeral: seq<Byte>,
                                stamp: nat, now: nat)
    requires |kid| == 8 && |ephemeral| == 32 && FromLE(kid) in keys
    requires now < 0x8000_0000_0000_0000 && stamp < 0x8000_0000_0000_0000
    requires |hmac(keys[FromLE(kid)], InitBody(kid, ephemeral, stamp))| == 16
    ensures var init := BuildInit(hmac, keys[FromLE(kid)], kid, ephemeral, stamp);
            Judge(keys, hmac, init, now) ==
            if -SKEW <= now - stamp <= SKEW then Some(SeenKey(FromLE(kid), stamp)) else None
  {
    InitFields(kid, ephemeral, stamp, hmac(keys[FromLE(kid)], InitBody(kid, ephemeral, stamp)));
    hide InitBody, Reversed, ToLE, FromLE, SkewOk;
    StampRoundTrip(stamp);
    SkewIsDistance(now, stamp);
  }

  /** The number whose base-256 digits, most significant first, are `s`. */
  function FromBE(s: seq<Byte>): nat {
    if s == [] then 0 else FromBE(s[..|s| - 1]) * 256 + s[|s| - 1]
  }

  lemma {:induction false} ReversedIsBE(s: seq<Byte>)
    ensures FromLE(Reversed(s)) == FromBE(s)
  {
    if s != [] {
      var front, last := s[..|s| - 1], s[|s| - 1];
      ReversedIsBE(front);
      ReversedAppend(front, last);
      assert front + [last] == s && ([last] + Reversed(front))[1..] == Reversed(front);
    }
  }

  /** Where the fields of a built init stand, the time most significant byte first. */
  lemma InitLayout(hmac: Hmac, key: seq<Byte>, kid: seq<Byte>, ephemeral: seq<Byte>, stamp: nat)
    requires |kid| == 8 && |ephemeral| == 32 && stamp < 0x1_0000_0000_0000_0000
    requires |hmac(key, InitBody(kid, ephemeral, stamp))| == 16
    ensures var init := BuildInit(hmac, key, kid, ephemeral, stamp);
            && |init| == 72 && init[0] == 1 && init[1..8] == [0, 0, 0, 0, 0, 0, 0] && init[8..16] == kid
            && init[16..48] == ephemeral && FromBE(init[48..56]) == stamp && init[56..] == hmac(key, init[..56])
  {
    InitFields(kid, ephemeral, stamp, hmac(key, InitBody(kid, ephemeral, stamp)));
    var init := BuildInit(hmac, key, kid, ephemeral, stamp);
    assert init[16..48] == ephemeral && init[1..8] == [0, 0, 0, 0, 0, 0, 0];
    hide InitBody, ToLE, FromLE, Reversed, FromBE;
    StampRoundTrip(stamp);
    ReversedIsBE(Reversed(ToLE(stamp, 8)));
  }

  /** An init of the right length and type, from a registered key, on time, and with the MAC of its first 56 bytes. */
  predicate Genuine(keys: map<KeyId, seq<Byte>>, hmac: Hmac, init: seq<Byte>, now: nat) {
    && |init| >= 72 && init[0] == 1 && FromLE(init[8..16]) in keys
    && -300000 <= now - FromBE(init[48..56]) <= 300000
    && init[56..72] == hmac(keys[FromLE(init[8..16])], init[..56])
  }

  /** Exactly the genuine inits pass the checks, for clocks within 63 bits. */
  lemma AcceptedExactly(keys: map<KeyId, seq<Byte>>, hmac: Hmac, init: seq<Byte>, now: nat)
    requires now < 0x8000_0000_0000_0000
    requires |init| >= 72 ==> FromBE(init[48..56]) < 0x8000_0000_0000_0000
    ensures Judge(keys, hmac, init, now) ==
            if Genuine(keys, hmac, init, now) then Some(SeenKey(FromLE(init[8..16]), FromBE(init[48..56]))) else None
  {
    hide FromLE, FromBE, Reversed, SkewOk;
    if |init| >= 72 {
      ReversedIsBE(init[48..56]);
      SkewIsDistance(now, FromBE(init[48..56]));
    }
  }

  /** A forged init, or one from an unknown key, passes at no time. */
  lemma ForgedIsRefused(keys: map<KeyId, seq<Byte>>, hmac: Hmac, init: seq<Byte>, now: nat)
    requires |init| >= 72 ==>
               FromLE(init[8..16]) !in keys || hmac(keys[FromLE(init[8..16])], init[..56]) != init[56..72]
    ensures Judge(keys, hmac, init, now) == None
  {}

  // ---------------------------------------------------------------------------------------------
  // What an accepted init does
  // ---------------------------------------------------------------------------------------------

  function PendOf(s: State): Pend {
    Pend(s.pending, s.pendingOrder)
  }

  function StampsOf(s: State): Stamps {
    Stamps(s.seen, s.seenOrder)
  }

  function Remember(p: Stamps, key: SeenKey, now: nat): Stamps {
    if key in p.seen then p else Stamps(p.seen[key := now], p.order + [SeenRecord(key, now)])
  }

  function Admit(p: Pend, kid: KeyId, now: nat): Pend {
    Pend(p.pending[kid := now], p.order + [PendingRecord(kid, now)])
  }

  predicate PruneDue(s: State, now: nat) {
    Elapsed(now, s.lastPrune) >= PRUNE_EVERY
  }

  function PrunedStamps(s: State, now: nat): Stamps {
    if PruneDue(s, now) then PruneSeen(StampsOf(s), now) else StampsOf(s)
  }

  /** The rest of process_init; `keyOk` is whether the client's public key could be imported. */
  function Accept(s: State, key: SeenKey, now: nat, keyOk: bool): State {
    var stamps := Remember(EvictSeen(PrunedStamps(s, now)), key, now);
    var room := EvictPending(PrunePending(PendOf(s), now));
    var pend := if keyOk then Admit(room, key.kid, now) else room;
    s.(pending := pend.pending, pendingOrder := pend.order, seen := stamps.seen, seenOrder := stamps.order,
       lastPrune := if PruneDue(s, now) then now else s.lastPrune)
  }

  predicate StampsBounded(s: State) {
    |s.seen| <= MAX_SEEN && forall i :: 0 <= i < |s.seenOrder| ==> s.lastPrune <= s.seenOrder[i].time + SEEN_TTL
  }

  predicate Ok(s: State, clock: nat) {
    && PendingOk(PendOf(s), clock) && |s.pending| <= MAX_PENDING
    && SeenOk(StampsOf(s), clock) && StampsBounded(s) && s.lastPrune <= clock
  }

  lemma ClockMoves(s: State, clock: nat, now: nat)
    requires Ok(s, clock) && clock <= now
    ensures Ok(s, now)
  {}

  lemma AdmitKeepsOk(p: Pend, kid: KeyId, now: nat)
    requires PendingOk(p, now) && |p.pending| < MAX_PENDING
    ensures PendingOk(Admit(p, kid, now), now) && |Admit(p, kid, now).pending| <= MAX_PENDING
  {
    var q := Admit(p, kid, now);
    forall k | k in q.pending ensures PendingRecord(k, q.pending[k]) in q.order {
      if k == kid { assert q.order[|p.order|] == PendingRecord(kid, now); }
    }
    MapWith(p.pending, kid, now);
  }

  lemma RememberKeepsOk(p: Stamps, key: SeenKey, now: nat)
    requires SeenOk(p, now) && |p.seen| < MAX_SEEN
    ensures SeenOk(Remember(p, key, now), now) && |Remember(p, key, now).seen| <= MAX_SEEN
  {
    if key !in p.seen {
      NewStampListed(p, key, now);
      NewStampOrdered(p, key, now);
      MapWith(p.seen, key, now);
      hide MapInQueue, QueueInMap, SeenOrdered;
    }
  }

  lemma NewStampOrdered(p: Stamps, key: SeenKey, now: nat)
    requires SeenOrdered(p.order, now) && QueueInMap(p) && key !in p.seen
    ensures SeenOrdered(Remember(p, key, now).order, now) && QueueInMap(Remember(p, key, now))
  {
    var q := Remember(p, key, now);
    forall i | 0 <= i < |q.order|
      ensures q.order[i].key in q.seen && q.seen[q.order[i].key] == q.order[i].time
    {
      if i < |p.order| { assert p.order[i].key in p.seen; }
    }
    assert forall i :: 0 <= i < |p.order| ==> q.order[i] == p.order[i] && p.order[i].key in p.seen;
  }

  lemma NewStampListed(p: Stamps, key: SeenKey, now: nat)
    requires MapInQueue(p) && key !in p.seen
    ensures MapInQueue(Remember(p, key, now))
  {
    var q := Remember(p, key, now);
    forall k | k in q.seen ensures SeenRecord(k, q.seen[k]) in q.order {
      if k == key { assert q.order[|p.order|] == SeenRecord(key, now); }
    }
  }

  lemma {:induction false} PrunedAreYoung(p: Stamps, now: nat)
    requires SeenOk(p, now) && now < 0x1_0000_0000_0000_0000
    ensures var r := PruneSeen(p, now);
            forall i :: 0 <= i < |r.order| ==> now - r.order[i].time <= SEEN_TTL
  {
    PruneSeenIsAgeFilter(p, now);
    hide PruneSeen;
    var r := PruneSeen(p, now);
    forall i | 0 <= i < |r.order| ensures now - r.order[i].time <= SEEN_TTL {
      assert r.order[i].key in r.seen;
    }
  }

  predicate NoneBefore(order: seq<SeenRecord>, t: int) {
    forall i :: 0 <= i < |order| ==> t <= order[i].time + SEEN_TTL
  }

  /** After the pruning step, and hence until the next one, no stamp is older than its life at the last pruning. */
  lemma PrunedStampsOk(s: State, now: nat)
    requires Ok(s, now) && now < 0x1_0000_0000_0000_0000
    ensures var last := if PruneDue(s, now) then now else s.lastPrune;
            && SeenOk(PrunedStamps(s, now), now) && NoneBefore(PrunedStamps(s, now).order, last)
            && now - last < PRUNE_EVERY
  {
    ElapsedIs(now, s.lastPrune);
    if PruneDue(s, now) {
      PruneSeenIsAgeFilter(StampsOf(s), now);
      PrunedAreYoung(StampsOf(s), now);
    }
    hide PruneSeen, SeenOk;
  }

  lemma EvictedNoneBefore(p: Stamps, clock: nat, t: int)
    requires SeenOk(p, clock) && NoneBefore(p.order, t)
    ensures NoneBefore(EvictSeen(p).order, t)
  {
    EvictSeenDropsOldest(p, clock);
    hide EvictSeen, SeenOk;
  }

  /** The stamps after an accepted init: sound, bounded, and none older than one pruning interval past its life. */
  lemma AcceptStamps(s: State, key: SeenKey, now: nat, keyOk: bool)
    requires Ok(s, now) && now < 0x1_0000_0000_0000_0000
    ensures var s' := Accept(s, key, now, keyOk);
            && SeenOk(StampsOf(s'), now) && StampsBounded(s') && s'.lastPrune <= now
            && (forall i :: 0 <= i < |s'.seenOrder| ==> now - s'.seenOrder[i].time < SEEN_TTL + PRUNE_EVERY)
            && key in s'.seen
  {
    var s' := Accept(s, key, now, keyOk);
    var p := PrunedStamps(s, now);
    var last := if PruneDue(s, now) then now else s.lastPrune;
    var q := Remember(EvictSeen(p), key, now);
    assert StampsOf(s') == q && s'.lastPrune == last <= now && key in q.seen;
    assert q.seen == s'.seen && q.order == s'.seenOrder;
    hide *;
    PrunedStampsOk(s, now);
    EvictedNoneBefore(p, now, last);
    EvictSeenKeepsOk(p, now);
    RememberKeepsOk(EvictSeen(p), key, now);
    RememberedNoneBefore(EvictSeen(p), key, now, last);
    BoundsFollow(s', now);
  }

  lemma RememberedNoneBefore(p: Stamps, key: SeenKey, now: nat, t: int)
    requires NoneBefore(p.order, t) && t <= now
    ensures NoneBefore(Remember(p, key, now).order, t)
  {}

  lemma BoundsFollow(s: State, now: nat)
    requires |s.seen| <= MAX_SEEN && NoneBefore(s.seenOrder, s.lastPrune) && now - s.lastPrune < PRUNE_EVERY
    ensures StampsBounded(s)
    ensures forall i :: 0 <= i < |s.seenOrder| ==> now - s.seenOrder[i].time < SEEN_TTL + PRUNE_EVERY
  {}

  /** While there is room the stamps are exact: pruned only when 5 s have passed since the last time, and the new. */
  lemma AcceptStampsBelowCapacity(s: State, key: SeenKey, now: nat, keyOk: bool)
    requires Ok(s, now) && now < 0x1_0000_0000_0000_0000
    requires |s.seen| < MAX_SEEN
    ensures var kept := if now - s.lastPrune >= 5000 then Recent(s.seen, now) else s.seen;
            var s' := Accept(s, key, now, keyOk);
            && s'.seen == (if key in kept then kept else kept[key := now])
            && s'.lastPrune == if now - s.lastPrune >= 5000 then now else s.lastPrune
  {
    hide Ok, Accept, Recent, PruneSeen, EvictSeen, PruneDue, PrunedStamps, Remember;
    DueExactly(s, now);
    PrunedStampsAre(s, now);
    RoomForStamps(PrunedStamps(s, now));
    AcceptStampsAre(s, key, now, keyOk);
  }

  lemma AcceptStampsAre(s: State, key: SeenKey, now: nat, keyOk: bool)
    ensures var s', p := Accept(s, key, now, keyOk), EvictSeen(PrunedStamps(s, now));
            && s'.seen == (if key in p.seen then p.seen else p.seen[key := now])
            && s'.lastPrune == if PruneDue(s, now) then now else s.lastPrune
  {
    hide EvictSeen, PrunedStamps, EvictPending, PrunePending, PruneDue;
  }

  lemma RoomForStamps(p: Stamps)
    requires |p.seen| < MAX_SEEN
    ensures EvictSeen(p) == p
  {}

  lemma PrunedStampsAre(s: State, now: nat)
    requires Ok(s, now) && now < 0x1_0000_0000_0000_0000
    ensures PrunedStamps(s, now).seen == if PruneDue(s, now) then Recent(s.seen, now) else s.seen
    ensures |PrunedStamps(s, now).seen| <= |s.seen|
  {
    hide PruneSeen, Recent, PendingOk, SeenOk, StampsBounded, PruneDue;
    if PruneDue(s, now) { PruneSeenIsAgeFilter(StampsOf(s), now); }
  }

  lemma DueExactly(s: State, now: nat)
    requires Ok(s, now) && now < 0x1_0000_0000_0000_0000
    ensures PruneDue(s, now) <==> now - s.lastPrune >= 5000
  {
    ElapsedIs(now, s.lastPrune);
  }

  /** Without the client's key nothing becomes pending: only pruning and making room happen. */
  lemma NoKeyNothingPending(s: State, key: SeenKey, now: nat)
    requires Ok(s, now) && now < 0x1_0000_0000_0000_0000
    ensures var p := Accept(s, key, now, false).pending;
            p.Keys <= Young(s.pending, now).Keys && forall k :: k in p ==> p[k] == s.pending[k]
  {
    PruneIsAgeFilter(PendOf(s), now);
    var p := PrunePending(PendOf(s), now);
    hide PrunePending, PendingOk;
    EvictEndsBelowCapacity(p, now);
    hide EvictPending;
  }

  /** The pending states after an accepted init: sound, at most 1024, and none older than 30 s. */
  lemma AcceptPending(s: State, key: SeenKey, now: nat, keyOk: bool)
    requires Ok(s, now) && now < 0x1_0000_0000_0000_0000
    ensures var s' := Accept(s, key, now, keyOk);
            && PendingOk(PendOf(s'), now) && |s'.pending| <= MAX_PENDING
            && (forall k :: k in s'.pending ==> now - s'.pending[k] <= PENDING_TTL)
            && (keyOk ==> key.kid in s'.pending && s'.pending[key.kid] == now)
  {
    PruneIsAgeFilter(PendOf(s), now);
    var p := PrunePending(PendOf(s), now);
    hide PrunePending, PendingOk;
    EvictEndsBelowCapacity(p, now);
    hide EvictPending;
    AdmitKeepsOk(EvictPending(p), key.kid, now);
  }

  /** Below capacity the outcome is exact: the young states and the new one, nothing else. */
  lemma AcceptBelowCapacity(s: State, key: SeenKey, now: nat)
    requires Ok(s, now) && now < 0x1_0000_0000_0000_0000 && |Young(s.pending, now)| < MAX_PENDING
    ensures Accept(s, key, now, true).pending == Young(s.pending, now)[key.kid := now]
  {
    PruneIsAgeFilter(PendOf(s), now);
  }

  lemma AcceptKeepsOk(s: State, key: SeenKey, now: nat, keyOk: bool)
    requires Ok(s, now) && now < 0x1_0000_0000_0000_0000
    ensures Ok(Accept(s, key, now, keyOk), now)
  {
    AcceptStamps(s, key, now, keyOk);
    AcceptPending(s, key, now, keyOk);
    hide PendingOk, SeenOk, StampsBounded;
  }

  // ---------------------------------------------------------------------------------------------
  // Whole runs
  // ---------------------------------------------------------------------------------------------

  datatype Event =
    | Init(init: seq<Byte>, now: nat, keyOk: bool)
    | Respond(kid: KeyId)
    | AddUser(kid: KeyId, key: seq<Byte>)
    | RemoveUser(kid: KeyId)

  function Step(s: State, hmac: Hmac, e: Event): State {
    match e
    case Init(init, now, keyOk) =>
      (match Judge(s.keys, hmac, init, now)
       case None => s
       case Some(key) => Accept(s, key, now, keyOk))
    case Respond(kid) => s.(pending := s.pending - {kid})
    case AddUser(kid, key) => s.(keys := s.keys[kid := key])
    case RemoveUser(kid) => s.(keys := s.keys - {kid}, pending := s.pending - {kid})
  }

  /** A forged init, or one from an unknown key, leaves the server as it was, at any time. */
  lemma ForgedChangesNothing(s: State, hmac: Hmac, init: seq<Byte>, now: nat, keyOk: bool)
    requires |init| >= 72 ==>
               FromLE(init[8..16]) !in s.keys || hmac(s.keys[FromLE(init[8..16])], init[..56]) != init[56..72]
    ensures Step(s, hmac, Init(init, now, keyOk)) == s
  {
    ForgedIsRefused(s.keys, hmac, init, now);
    hide Judge, Accept, FromLE;
  }

  /** An init that is not genuine leaves the server as it was. */
  lemma RefusedChangesNothing(s: State, hmac: Hmac, init: seq<Byte>, now: nat, keyOk: bool)
    requires now < 0x8000_0000_0000_0000
    requires |init| >= 72 ==> FromBE(init[48..56]) < 0x8000_0000_0000_0000
    requires !Genuine(s.keys, hmac, init, now)
    ensures Step(s, hmac, Init(init, now, keyOk)) == s
  {
    AcceptedExactly(s.keys, hmac, init, now);
    hide Judge, Genuine, Accept;
  }

  /** A response uses the pending state up: the next one for that key id finds none. Other states stay. */
  lemma RespondConsumes(s: State, hmac: Hmac, kid: KeyId)
    ensures var s' := Step(s, hmac, Respond(kid));
            && kid !in s'.pending && s'.keys == s.keys
            && forall k :: k != kid ==> (k in s'.pending <==> k in s.pending) &&
                                        (k in s.pending ==> s'.pending[k] == s.pending[k])
  {}

  /** A removed user has no pending state, and no init of theirs passes until they are added again. */
  lemma RemovedIsRefused(s: State, hmac: Hmac, kid: KeyId, init: seq<Byte>, now: nat, keyOk: bool)
    requires |init| >= 72 ==> FromLE(init[8..16]) == kid
    ensures var s' := Step(s, hmac, RemoveUser(kid));
            && kid !in s'.pending && Step(s', hmac, Init(init, now, keyOk)) == s'
            && forall k :: k != kid ==> (k in s'.keys <==> k in s.keys) && (k in s.keys ==> s'.keys[k] == s.keys[k]) &&
                                        (k in s'.pending <==> k in s.pending) &&
                                        (k in s.pending ==> s'.pending[k] == s.pending[k])
  {
    ForgedIsRefused(s.keys - {kid}, hmac, init, now);
    hide Judge, Accept, FromLE;
  }

  /** An added user's inits are judged by the new key. */
  lemma AddedIsKnown(s: State, hmac: Hmac, kid: KeyId, key: seq<Byte>)
    ensures var s' := Step(s, hmac, AddUser(kid, key));
            s' == s.(keys := s'.keys) && s'.keys == s.keys[kid := key]
  {}

  /** The clock never runs back, and stays within 64 bits. */
  predicate Clocked(es: seq<Event>, clock: nat)
    decreases |es|
  {
    es == [] || (if es[0].Init? then clock <= es[0].now < 0x1_0000_0000_0000_0000 && Clocked(es[1..], es[0].now)
                 else Clocked(es[1..], clock))
  }

  function LastClock(es: seq<Event>, clock: nat): nat
    decreases |es|
  {
    if es == [] then clock else LastClock(es[1..], if es[0].Init? then es[0].now else clock)
  }

  function Run(s: State, hmac: Hmac, es: seq<Event>): State
    decreases |es|
  {
    if es == [] then s else Run(Step(s, hmac, es[0]), hmac, es[1..])
  }

  lemma RemoveKeepsOk(s: State, kid: KeyId, clock: nat)
    requires Ok(s, clock)
    ensures Ok(s.(pending := s.pending - {kid}), clock)
  {
    hide SeenOk;
    MapWithout(s.pending, kid);
  }

  lemma StepKeepsOk(s: State, hmac: Hmac, e: Event, clock: nat)
    requires Ok(s, clock) && (e.Init? ==> clock <= e.now < 0x1_0000_0000_0000_0000)
    ensures Ok(Step(s, hmac, e), if e.Init? then e.now else clock)
  {
    match e {
      case Init(init, now, keyOk) =>
        ClockMoves(s, clock, now);
        hide Accept, Ok, Judge;
        match Judge(s.keys, hmac, init, now) {
          case None =>
          case Some(key) => AcceptKeepsOk(s, key, now, keyOk);
        }
      case Respond(kid) => RemoveKeepsOk(s, kid, clock);
      case AddUser(_, _) => hide PendingOk, SeenOk, StampsBounded;
      case RemoveUser(kid) =>
        RemoveKeepsOk(s, kid, clock);
        hide PendingOk, SeenOk, StampsBounded;
    }
  }

  /** After any run from the empty server, however long: both capacities and both queue invariants hold. */
  lemma {:induction false} RunKeepsOk(s: State, hmac: Hmac, es: seq<Event>, clock: nat)
    requires Ok(s, clock) && Clocked(es, clock)
    ensures Ok(Run(s, hmac, es), LastClock(es, clock))
    decreases |es|
  {
    if es != [] {
      StepKeepsOk(s, hmac, es[0], clock);
      hide Ok, Step;
      RunKeepsOk(Step(s, hmac, es[0]), hmac, es[1..], if es[0].Init? then es[0].now else clock);
    }
  }

  lemma StartsOk(keys: map<KeyId, seq<Byte>>)
    ensures Ok(State(keys, map[], [], map[], [], 0), 0)
  {}

  /** Whatever happened before, once an init has passed the checks nothing pending is older than 30 s. */
  lemma AfterEveryAcceptedInit(keys: map<KeyId, seq<Byte>>, hmac: Hmac, es: seq<Event>, init: seq<Byte>, now: nat,
                               keyOk: bool)
    requires Clocked(es, 0) && LastClock(es, 0) <= now < 0x1_0000_0000_0000_0000
    requires Judge(Run(State(keys, map[], [], map[], [], 0), hmac, es).keys, hmac, init, now).Some?
    ensures var s := Run(State(keys, map[], [], map[], [], 0), hmac, es);
            var s' := Step(s, hmac, Init(init, now, keyOk));
            && |s'.pending| <= MAX_PENDING && |s'.seen| <= MAX_SEEN && |s'.seenOrder| == |s'.seen|
            && forall k :: k in s'.pending ==> now - s'.pending[k] <= PENDING_TTL
  {
    StartsOk(keys);
    var s0 := State(keys, map[], [], map[], [], 0);
    RunKeepsOk(s0, hmac, es, 0);
    var s := Run(s0, hmac, es);
    ClockMoves(s, LastClock(es, 0), now);
    var key := Judge(s.keys, hmac, init, now).value;
    hide Ok, Judge, Accept, PendingOk;
    AcceptStamps(s, key, now, keyOk);
    AcceptPending(s, key, now, keyOk);
  }

  // ---------------------------------------------------------------------------------------------
  // A run in which a fresher state is dropped than 1022 that stay
  // ---------------------------------------------------------------------------------------------

  function ZeroMac(key: seq<Byte>, message: seq<Byte>): (mac: seq<Byte>) {
    Zeros(16)
  }

  /** A server with users 0 to 1024 and nothing pending. */
  function Crowd(): State {
    State(map kid: KeyId | 0 <= kid <= MAX_PENDING :: ToLE(kid, 8), map[], [], map[], [], 0)
  }

  function InitAt(kid: nat, now: nat): (e: Event)
    ensures e.Init? && e.now == now
  {
    Init(BuildInit(ZeroMac, ToLE(kid, 8), ToLE(kid, 8), Zeros(32), now), now, true)
  }

  function PendStep(p: Pend, kid: KeyId, now: nat): Pend {
    Admit(EvictPending(PrunePending(p, now)), kid, now)
  }

  lemma KidRoundTrip(kid: nat)
    requires kid <= MAX_PENDING
    ensures FromLE(ToLE(kid, 8)) == kid
  {
    hide ToLE, FromLE;
    FromToLE(kid, 8);
    assert Pow256(8) == 0x1_0000_0000_0000_0000;
  }

  lemma InitStep(s: State, kid: nat, now: nat)
    requires s.keys == Crowd().keys && kid <= MAX_PENDING && now < 10
    ensures var s' := Step(s, ZeroMac, InitAt(kid, now));
            s'.keys == s.keys && PendOf(s') == PendStep(PendOf(s), kid, now)
  {
    KidRoundTrip(kid);
    var bytes := ToLE(kid, 8);
    hide ToLE, FromLE, InitBody, Judge, BuildInit, PrunePending, EvictPending, EvictSeen, PrunedStamps, Remember;
    BuiltInitIsJudgedByTime(s.keys, ZeroMac, bytes, Zeros(32), now, now);
  }

  lemma {:induction false} Appended(s: State, hmac: Hmac, es: seq<Event>, e: Event, clock: nat)
    requires Clocked(es, clock) && e.Init? && LastClock(es, clock) <= e.now < 0x1_0000_0000_0000_0000
    ensures Clocked(es + [e], clock) && LastClock(es + [e], clock) == e.now
    ensures Run(s, hmac, es + [e]) == Step(Run(s, hmac, es), hmac, e)
    decreases |es|
  {
    hide Step;
    if es == [] {
      assert es + [e] == [e] && [e][1..] == [];
    } else {
      assert (es + [e])[0] == es[0] && (es + [e])[1..] == es[1..] + [e];
      Appended(Step(s, hmac, es[0]), hmac, es[1..], e, if es[0].Init? then es[0].now else clock);
    }
  }

  /** User 0 at time 0, then users 1 to n at time 1. */
  function Arrivals(n: nat): seq<Event> {
    if n == 0 then [InitAt(0, 0)] else Arrivals(n - 1) + [InitAt(n, 1)]
  }

  function ArrivedAt(kid: KeyId): nat {
    if kid == 0 then 0 else 1
  }

  function Arrived(n: nat): Pend {
    Pend(map kid: KeyId | 0 <= kid <= n :: ArrivedAt(kid),
         seq(n + 1, i requires i >= 0 => PendingRecord(i, ArrivedAt(i))))
  }

  lemma StepBelow(p: Pend, kid: KeyId, now: nat)
    requires p.order != [] ==> p.order[0].time <= now <= PENDING_TTL
    requires |p.pending| < MAX_PENDING
    ensures PendStep(p, kid, now) == Admit(p, kid, now)
  {}

  lemma NextArrives(n: nat)
    ensures ArrivedAt(n) <= ArrivedAt(n + 1) == 1
    ensures Admit(Arrived(n), n + 1, 1) == Arrived(n + 1)
    ensures |Arrived(n + 1).pending| == |Arrived(n).pending| + 1
  {
    var p, q := Arrived(n), Arrived(n + 1);
    assert p.pending[n + 1 := 1] == q.pending;
    assert p.order + [PendingRecord(n + 1, 1)] == q.order;
    MapWith(p.pending, n + 1, 1);
  }

  /** What a run from the empty server leaves pending. */
  ghost predicate After(es: seq<Event>, p: Pend, clock: nat) {
    var s := Run(Crowd(), ZeroMac, es);
    Clocked(es, 0) && LastClock(es, 0) == clock && s.keys == Crowd().keys && PendOf(s) == p
  }

  lemma PendAfter(es: seq<Event>, p: Pend, clock: nat)
    requires After(es, p, clock)
    ensures var s := Run(Crowd(), ZeroMac, es);
            s.keys == Crowd().keys && s.pending == p.pending && PendOf(s) == p
    ensures Clocked(es, 0) && LastClock(es, 0) == clock
  {}

  /** One more init that finds room. */
  lemma Served(es: seq<Event>, p: Pend, clock: nat, kid: KeyId, now: nat)
    requires After(es, p, clock) && clock <= now < 10 && kid <= MAX_PENDING
    requires |p.pending| < MAX_PENDING && (p.order != [] ==> p.order[0].time <= now)
    ensures After(es + [InitAt(kid, now)], Admit(p, kid, now), now)
  {
    assert now <= PENDING_TTL;
    var s, e := Run(Crowd(), ZeroMac, es), InitAt(kid, now);
    hide Run, Clocked, LastClock, Crowd, InitAt, Admit, PendOf, Step, PendStep;
    Appended(Crowd(), ZeroMac, es, e, 0);
    InitStep(s, kid, now);
    StepBelow(p, kid, now);
  }

  lemma AdmitMeans(p: Pend, kid: KeyId, now: nat)
    ensures var q := Admit(p, kid, now);
            && |q.pending| == |p.pending| + (if kid in p.pending then 0 else 1)
            && q.pending.Keys == p.pending.Keys + {kid} && (p.order != [] ==> q.order != [] && q.order[0] == p.order[0])
  {
    MapWith(p.pending, kid, now);
  }

  lemma {:induction false} AfterArrivals(n: nat)
    requires n < MAX_PENDING - 1
    ensures After(Arrivals(n), Arrived(n), ArrivedAt(n)) && |Arrived(n).pending| == n + 1
  {
    hide After, Arrived, ArrivedAt, InitAt, Admit;
    if n == 0 {
      assert [] + [InitAt(0, 0)] == Arrivals(0);
      NothingYet();
      Served([], Pend(map[], []), 0, 0, 0);
      ArrivedFirst();
    } else {
      AfterArrivals(n - 1);
      ArrivedHead(n - 1);
      NextArrives(n - 1);
      Served(Arrivals(n - 1), Arrived(n - 1), ArrivedAt(n - 1), n, 1);
    }
  }

  lemma NothingYet()
    ensures After([], Pend(map[], []), 0)
  {}

  lemma ArrivedFirst()
    ensures ArrivedAt(0) == 0
    ensures Admit(Pend(map[], []), 0, 0) == Arrived(0) && |Arrived(0).pending| == 1
  {
    assert map[0 := 0] == Arrived(0).pending;
    assert [PendingRecord(0, 0)] == Arrived(0).order;
  }

  lemma ArrivedHead(n: nat)
    ensures Arrived(n).order != [] && Arrived(n).order[0] == PendingRecord(0, 0)
    ensures 0 in Arrived(n).pending
  {}

  /** User 0 renews its init at time 2, and user n + 1 comes at time 3. */
  lemma Renewed(n: nat) returns (es: seq<Event>)
    requires n < MAX_PENDING - 1
    ensures After(es, Admit(Admit(Arrived(n), 0, 2), n + 1, 3), 3)
    ensures |Admit(Admit(Arrived(n), 0, 2), n + 1, 3).pending| == n + 2
  {
    hide After, Arrived, Arrivals, InitAt, Admit, ArrivedAt;
    AfterArrivals(n);
    ArrivedHead(n);
    ArrivedLacks(n);
    var p := Arrived(n);
    AdmitMeans(p, 0, 2);
    Served(Arrivals(n), p, ArrivedAt(n), 0, 2);
    var q, middle := Admit(p, 0, 2), Arrivals(n) + [InitAt(0, 2)];
    AdmitMeans(q, n + 1, 3);
    Served(middle, q, 2, n + 1, 3);
    es := middle + [InitAt(n + 1, 3)];
  }

  lemma ArrivedLacks(n: nat)
    ensures n + 1 !in Arrived(n).pending && ArrivedAt(n) <= 1
  {}

  lemma RenewedStates(n: nat, p: Pend)
    requires p == Admit(Admit(Arrived(n), 0, 2), n + 1, 3)
    ensures p.order != [] && p.order[0] == PendingRecord(0, 0) && 0 in p.pending && p.pending[0] == 2
    ensures forall kid :: 1 <= kid <= n ==> kid in p.pending && p.pending[kid] == 1
  {}

  lemma NoneExpired(p: Pend, now: nat)
    requires p.order != [] && p.order[0].time <= now <= PENDING_TTL
    ensures PrunePending(p, now) == p
  {
    ElapsedIs(now, p.order[0].time);
    hide Elapsed;
  }

  lemma FullStep(p: Pend, kid: KeyId, now: nat)
    requires |p.pending| == MAX_PENDING && p.order != [] && p.order[0].kid in p.pending
    requires p.order[0].time <= now <= PENDING_TTL
    ensures PendStep(p, kid, now).pending == (p.pending - {p.order[0].kid})[kid := now]
  {
    NoneExpired(p, now);
    assert FirstPending(p) == 0;
    hide PrunePending, EvictPending, FirstPending;
    EvictsOne(p);
  }

  /**
   A run from the empty server fills all 1024 places; the next init then drops user 0, whose state is from
   time 2, while the older states of users 1 to 1022, all from time 1, stay.
   */
  lemma FresherStateIsDropped() returns (es: seq<Event>, e: Event)
    ensures Clocked(es + [e], 0) && e.Init?
    ensures var s := Run(Crowd(), ZeroMac, es);
            var s' := Step(s, ZeroMac, e);
            && Run(Crowd(), ZeroMac, es + [e]) == s'
            && |s.pending| == MAX_PENDING && 0 in s.pending && s.pending[0] == 2 && 0 !in s'.pending
            && forall kid :: 1 <= kid < MAX_PENDING - 1 ==>
                 kid in s.pending && s.pending[kid] == 1 && kid in s'.pending && s'.pending[kid] == 1
  {
    hide Run, Clocked, LastClock, Crowd, InitAt, Admit, Step, PendStep, After, Arrived;
    var n := MAX_PENDING - 2;
    es := Renewed(n);
    e := InitAt(MAX_PENDING, 4);
    var s, p := Run(Crowd(), ZeroMac, es), Admit(Admit(Arrived(n), 0, 2), n + 1, 3);
    RenewedStates(n, p);
    PendAfter(es, p, 3);
    Appended(Crowd(), ZeroMac, es, e, 0);
    InitStep(s, MAX_PENDING, 4);
    FullStep(p, MAX_PENDING, 4);
  }

  // ---------------------------------------------------------------------------------------------
  // The server object
  // ---------------------------------------------------------------------------------------------

  class HandshakeServer {
    var keys: map<KeyId, seq<Byte>>
    var pending: Pending
    var pendingOrder: seq<PendingRecord>
    var seen: Seen
    var seenOrder: seq<SeenRecord>
    var lastPrune: nat

    ghost function View(): State
      reads this
    {
      State(keys, pending, pendingOrder, seen, seenOrder, lastPrune)
    }

    constructor (keys: map<KeyId, seq<Byte>>)
      ensures View() == State(keys, map[], [], map[], [], 0) && Ok(View(), 0)
    {
      this.keys, pending, pendingOrder, seen, seenOrder, lastPrune := keys, map[], [], map[], [], 0;
    }

    method PruneTimestamps(now: nat)
      modifies this
      ensures View() == old(View()).(seen := PrunedStamps(old(View()), now).seen,
                                     seenOrder := PrunedStamps(old(View()), now).order,
                                     lastPrune := if PruneDue(old(View()), now) then now else old(lastPrune))
    {
      if Elapsed(now, lastPrune) < PRUNE_EVERY { return; }
      lastPrune := now;
      while seenOrder != [] && Elapsed(now, seenOrder[0].time) > SEEN_TTL
        invariant PruneSeen(Stamps(seen, seenOrder), now) == old(PruneSeen(Stamps(seen, seenOrder), now))
        invariant lastPrune == now && unchanged(`keys, `pending, `pendingOrder)
        decreases |seenOrder|
      {
        seen, seenOrder := seen - {seenOrder[0].key}, seenOrder[1..];
      }
    }

    method PruneExpired(now: nat)
      modifies this`pending, this`pendingOrder
      ensures Pend(pending, pendingOrder) == old(PrunePending(Pend(pending, pendingOrder), now))
    {
      while pendingOrder != [] && Elapsed(now, pendingOrder[0].time) > PENDING_TTL
        invariant PrunePending(Pend(pending, pendingOrder), now) == old(PrunePending(Pend(pending, pendingOrder), now))
        decreases |pendingOrder|
      {
        var kid, time := pendingOrder[0].kid, pendingOrder[0].time;
        pendingOrder := pendingOrder[1..];
        if kid in pending && pending[kid] == time {
          pending := pending - {kid};
        }
      }
    }

    method MakeRoom()
      modifies this`pending, this`pendingOrder, this`seen, this`seenOrder
      ensures Pend(pending, pendingOrder) == old(EvictPending(Pend(pending, pendingOrder)))
      ensures Stamps(seen, seenOrder) == old(EvictSeen(Stamps(seen, seenOrder)))
    {
      while |pending| >= MAX_PENDING && pendingOrder != []
        invariant EvictPending(Pend(pending, pendingOrder)) == old(EvictPending(Pend(pending, pendingOrder)))
        invariant unchanged(`seen, `seenOrder)
        decreases |pendingOrder|
      {
        var kid := pendingOrder[0].kid;
        pendingOrder := pendingOrder[1..];
        pending := pending - {kid};
      }
      while |seen| >= MAX_SEEN && seenOrder != []
        invariant EvictSeen(Stamps(seen, seenOrder)) == old(EvictSeen(Stamps(seen, seenOrder)))
        invariant Pend(pending, pendingOrder) == old(EvictPending(Pend(pending, pendingOrder)))
        decreases |seenOrder|
      {
        seen, seenOrder := seen - {seenOrder[0].key}, seenOrder[1..];
      }
    }

    /** process_init. */
    method ProcessInit(hmac: Hmac, init: seq<Byte>, now: nat, keyOk: bool) returns (ok: bool, kid: KeyId)
      modifies this
      ensures View() == Step(old(View()), hmac, Init(init, now, keyOk))
      ensures ok == (Judge(old(keys), hmac, init, now).Some? && keyOk)
      ensures ok ==> kid == Judge(old(keys), hmac, init, now).value.kid
    {
      if |init| < 72 || init[0] != 1 { return false, 0; }
      kid := FromLE(init[8..16]);
      var stamp := FromLE(Reversed(init[48..56]));
      if !SkewOk(now, stamp) { return false, kid; }
      if kid !in keys { return false, kid; }
      if hmac(keys[kid], init[..56]) != init[56..72] { return false, kid; }
      PruneTimestamps(now);
      PruneExpired(now);
      MakeRoom();
      var key := SeenKey(kid, stamp);
      if key !in seen {
        seen, seenOrder := seen[key := now], seenOrder + [SeenRecord(key, now)];
      }
      if !keyOk { return false, kid; }
      pending, pendingOrder := pending[kid := now], pendingOrder + [PendingRecord(kid, now)];
      ok := true;
    }

    /** The pending state build_resp consumes: present once per init. */
    method TakePending(kid: KeyId) returns (found: bool)
      modifies this`pending
      ensures View() == Step(old(View()), (k, m) => [], Respond(kid)) && found == (kid in old(pending))
    {
      found := kid in pending;
      pending := pending - {kid};
    }

    method RemoveUser(kid: KeyId)
      modifies this`keys, this`pending
      ensures View() == Step(old(View()), (k, m) => [], Event.RemoveUser(kid))
    {
      keys := keys - {kid};
      pending := pending - {kid};
    }
  }
}
