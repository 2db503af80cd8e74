/**
 The transmit batch of packet_scratch.h: queue_tx, queue_tx_mimicry and flush_tx, with the socket as
 an oracle. The first half says what a flush does to a queue of packets; the class does it in place.
 */
module TxBatch {
  import opened Bytes
  import opened Wrappers
  import Camouflage

  const MAX_BATCH := 64
  const TX_SLOT_SIZE := 9216
  const RETRY_CEILING := 5

  type Addr = nat

  datatype Packet = Packet(payload: seq<Byte>, addr: Addr, fd: int, retries: nat)

  /** What goes out: the bytes and the address the kernel reads through one message header. */
  datatype Datagram = Datagram(payload: seq<Byte>, addr: Addr)

  /** One sendmmsg call: at least one message sent (`more` beyond the first), EAGAIN-like, or another error. */
  datatype Outcome = Sent(more: nat) | Congested | HardError

  /** The socket: the answer to call number `call` on descriptor `fd` with `n` messages. */
  type Socket = (nat, int, nat) -> Outcome

  /** Why a packet left the queue. */
  datatype Fate = Delivered | Stale | Failed

  datatype Flushed = Flushed(fates: seq<Fate>, left: seq<Packet>)

  /** The kernel never reports more messages than it was given. */
  function SentCount(more: nat, n: nat): (k: nat)
    requires n > 0
    ensures 1 <= k <= n
  {
    if more < n then more + 1 else n
  }

  /** Length of the leading run of packets on one descriptor. */
  function FirstRun(q: seq<Packet>): (n: nat)
    requires q != []
    ensures 1 <= n <= |q|
  {
    if |q| == 1 || q[1].fd != q[0].fd then 1 else 1 + FirstRun(q[1..])
  }

  function Deliveries(k: nat): (f: seq<Fate>)
    ensures |f| == k && forall i :: 0 <= i < k ==> f[i] == Delivered
  {
    seq(k, i => Delivered)
  }

  function Tried(p: Packet): Packet {
    p.(retries := p.retries + 1)
  }

  /** What flush_tx means for the queue `q`, starting at call number `call`. */
  function Flush(q: seq<Packet>, socket: Socket, call: nat): Flushed
    decreases |q|
  {
    if q == [] then Flushed([], [])
    else
      var n := FirstRun(q);
      match socket(call, q[0].fd, n)
      case Sent(more) =>
        var k := SentCount(more, n);
        if k < n then Flushed(Deliveries(k), q[k..])
        else Before(Deliveries(k), Flush(q[k..], socket, call + 1))
      case Congested =>
        if q[0].retries + 1 >= RETRY_CEILING then Flushed([Stale], q[1..])
        else Flushed([], [Tried(q[0])] + q[1..])
      case HardError =>
        Before([Failed], Flush(q[1..], socket, call + 1))
  }

  function Before(fates: seq<Fate>, r: Flushed): Flushed {
    Flushed(fates + r.fates, r.left)
  }

  function Outgoing(p: Packet): Datagram {
    Datagram(p.payload, p.addr)
  }

  /** The datagrams of the packets whose fate is delivery, in order. */
  function OnTheWire(q: seq<Packet>, fates: seq<Fate>): seq<Datagram>
    requires |fates| <= |q|
  {
    if fates == [] then []
    else (if fates[0].Delivered? then [Outgoing(q[0])] else []) + OnTheWire(q[1..], fates[1..])
  }

  // ---------------------------------------------------------------------------------------------
  // What a flush keeps
  // ---------------------------------------------------------------------------------------------

  /** `left` is `rest`, except that the head may have been charged one retry. */
  predicate SuffixWithRetry(left: seq<Packet>, rest: seq<Packet>) {
    left == rest || (rest != [] && left == [Tried(rest[0])] + rest[1..])
  }

  /**
   Every packet leaves with a fate or stays, in order: the fates belong to a prefix, the queue that
   remains is the suffix after it. Only a packet on its fifth congested attempt is dropped as stale,
   and then it is the last to leave.
   */
  predicate Splits(q: seq<Packet>, r: Flushed) {
    && |r.fates| <= |q|
    && SuffixWithRetry(r.left, q[|r.fates|..])
    && (forall i :: 0 <= i < |r.fates| && r.fates[i].Stale? ==>
          i == |r.fates| - 1 && q[i].retries + 1 >= RETRY_CEILING)
  }

  lemma SplitsBefore(q: seq<Packet>, fates: seq<Fate>, r: Flushed)
    requires |fates| <= |q| && (forall i :: 0 <= i < |fates| ==> !fates[i].Stale?)
    requires Splits(q[|fates|..], r)
    ensures Splits(q, Before(fates, r))
  {
    var k := |fates|;
    assert q[k..][|r.fates|..] == q[k + |r.fates|..];
    var all := fates + r.fates;
    forall i | 0 <= i < |all| && all[i].Stale? ensures i == |all| - 1 && q[i].retries + 1 >= RETRY_CEILING {
      assert r.fates[i - k].Stale? && q[k..][i - k] == q[i];
    }
  }

  lemma {:induction false} FlushSplits(q: seq<Packet>, socket: Socket, call: nat)
    ensures Splits(q, Flush(q, socket, call))
    decreases |q|
  {
    if q != [] {
      var n := FirstRun(q);
      match socket(call, q[0].fd, n) {
        case Sent(more) =>
          var k := SentCount(more, n);
          if k == n {
            FlushSplits(q[k..], socket, call + 1);
            SplitsBefore(q, Deliveries(k), Flush(q[k..], socket, call + 1));
          }
        case Congested =>
          assert q[0..] == q;
        case HardError =>
          FlushSplits(q[1..], socket, call + 1);
          SplitsBefore(q, [Failed], Flush(q[1..], socket, call + 1));
      }
    }
  }

  predicate Live(q: seq<Packet>) {
    forall i :: 0 <= i < |q| ==> q[i].retries < RETRY_CEILING
  }

  /** Attempts the queue can still absorb. */
  function Patience(q: seq<Packet>): nat
    requires Live(q)
  {
    if q == [] then 0 else RETRY_CEILING - q[0].retries + Patience(q[1..])
  }

  lemma {:induction false} PatienceSuffix(q: seq<Packet>, k: nat)
    requires Live(q) && k <= |q|
    ensures Patience(q[k..]) + k <= Patience(q)
  {
    if k == 0 {
      assert q[0..] == q;
    } else {
      PatienceSuffix(q[1..], k - 1);
      assert q[1..][k - 1..] == q[k..];
    }
  }

  lemma {:induction false} PatienceBound(q: seq<Packet>)
    requires Live(q)
    ensures |q| <= Patience(q) <= RETRY_CEILING * |q|
  {
    if q != [] { PatienceBound(q[1..]); }
  }

  /** What one flush can leave: a proper suffix, or the whole queue with its head charged one retry. */
  lemma {:induction false} FlushProgress(q: seq<Packet>, socket: Socket, call: nat)
    requires q != [] && Live(q)
    ensures var r := Flush(q, socket, call);
            && |r.fates| <= |q| && Live(r.left)
            && (r.fates == [] ==> q[0].retries + 1 < RETRY_CEILING && r.left == [Tried(q[0])] + q[1..])
  {
    FlushSplits(q, socket, call);
    var r := Flush(q, socket, call);
    if r.fates == [] { assert q[0..] == q; }
    LiveAfterFlush(q, socket, call);
  }

  lemma {:induction false} LiveAfterFlush(q: seq<Packet>, socket: Socket, call: nat)
    requires Live(q)
    ensures Live(Flush(q, socket, call).left)
    decreases |q|
  {
    if q != [] {
      var n := FirstRun(q);
      match socket(call, q[0].fd, n) {
        case Sent(more) => LiveAfterFlush(q[SentCount(more, n)..], socket, call + 1);
        case Congested =>
        case HardError => LiveAfterFlush(q[1..], socket, call + 1);
      }
    }
  }

  /** Every flush of a non-empty queue spends patience, whatever the socket answers. */
  lemma FlushSpendsPatience(q: seq<Packet>, socket: Socket, call: nat)
    requires q != [] && Live(q)
    ensures var left := Flush(q, socket, call).left;
            Live(left) && Patience(left) < Patience(q)
  {
    FlushProgress(q, socket, call);
    FlushSplits(q, socket, call);
    var r := Flush(q, socket, call);
    if r.fates == [] {
      assert ([Tried(q[0])] + q[1..])[1..] == q[1..];
    } else {
      var rest := q[|r.fates|..];
      PatienceSuffix(q, |r.fates|);
      if r.left != rest { assert ([Tried(rest[0])] + rest[1..])[1..] == rest[1..]; }
    }
  }

  // ---------------------------------------------------------------------------------------------
  // Whole runs of enqueues and flushes
  // ---------------------------------------------------------------------------------------------

  datatype Op = Enqueue(payload: seq<Byte>, addr: Addr, fd: int) | FlushAll(socket: Socket)

  /** The queue, and how many packets at its front were there when the run began. */
  datatype Marked = Marked(q: seq<Packet>, ours: nat)

  function Queued(q: seq<Packet>, payload: seq<Byte>, addr: Addr, fd: int): seq<Packet> {
    if |q| >= MAX_BATCH || |payload| > TX_SLOT_SIZE then q else q + [Packet(payload, addr, fd, 0)]
  }

  function Apply(m: Marked, op: Op): Marked {
    match op
    case Enqueue(payload, addr, fd) => m.(q := Queued(m.q, payload, addr, fd))
    case FlushAll(socket) =>
      var r := Flush(m.q, socket, 0);
      Marked(r.left, if m.ours >= |r.fates| then m.ours - |r.fates| else 0)
  }

  function RunOps(m: Marked, ops: seq<Op>): Marked
    decreases |ops|
  {
    if ops == [] then m else RunOps(Apply(m, ops[0]), ops[1..])
  }

  function Flushes(ops: seq<Op>): nat {
    if ops == [] then 0 else (if ops[0].FlushAll? then 1 else 0) + Flushes(ops[1..])
  }

  predicate Sound(m: Marked) {
    Live(m.q) && m.ours <= |m.q|
  }

  /** The patience of the marked packets falls at every flush until they are gone; enqueues leave it alone. */
  lemma ApplyDrains(m: Marked, op: Op)
    requires Sound(m)
    ensures var m' := Apply(m, op);
            && Sound(m')
            && Patience(m'.q[..m'.ours]) <= Patience(m.q[..m.ours])
            && (op.FlushAll? && m.ours > 0 ==> Patience(m'.q[..m'.ours]) < Patience(m.q[..m.ours]))
  {
    var m' := Apply(m, op);
    match op {
      case Enqueue(_, _, _) =>
        assert m'.q[..m'.ours] == m.q[..m.ours];
      case FlushAll(socket) =>
        if m.q != [] { FlushDrains(m, socket); }
    }
  }

  lemma FlushDrains(m: Marked, socket: Socket)
    requires Sound(m) && m.q != []
    ensures var m' := Apply(m, FlushAll(socket));
            && Sound(m')
            && Patience(m'.q[..m'.ours]) <= Patience(m.q[..m.ours])
            && (m.ours > 0 ==> Patience(m'.q[..m'.ours]) < Patience(m.q[..m.ours]))
  {
    var r := Flush(m.q, socket, 0);
    var m' := Apply(m, FlushAll(socket));
    FlushProgress(m.q, socket, 0);
    FlushSplits(m.q, socket, 0);
    hide Flush;
    var f := |r.fates|;
    if f <= m.ours {
      var rest := m.q[f..];
      assert rest[..m'.ours] == m.q[..m.ours][f..];
      PatienceSuffix(m.q[..m.ours], f);
      if r.left != rest { RetryCosts(rest, m'.ours); }
    }
  }

  lemma RetryCosts(rest: seq<Packet>, n: nat)
    requires rest != [] && n <= |rest|
    requires Live(rest) && Live([Tried(rest[0])] + rest[1..])
    ensures var left := [Tried(rest[0])] + rest[1..];
            if n == 0 then Patience(left[..n]) == Patience(rest[..n]) else Patience(left[..n]) < Patience(rest[..n])
  {
    var left := [Tried(rest[0])] + rest[1..];
    if n > 0 { assert left[..n][1..] == rest[..n][1..]; }
  }

  lemma {:induction false} PatienceRunsOut(m: Marked, ops: seq<Op>)
    requires Sound(m) && Flushes(ops) >= Patience(m.q[..m.ours])
    ensures RunOps(m, ops).ours == 0
    decreases |ops|
  {
    if m.ours > 0 { PatienceBound(m.q[..m.ours]); }
    if ops != [] {
      ApplyDrains(m, ops[0]);
      PatienceRunsOut(Apply(m, ops[0]), ops[1..]);
    }
  }

  /**
   No packet waits for ever: whatever the sockets do and whatever is queued meanwhile, the n packets
   queued at the start have left the queue once it has been flushed 5n times.
   */
  lemma GoneWithinFiveFlushesEach(q: seq<Packet>, ops: seq<Op>)
    requires Live(q) && Flushes(ops) >= RETRY_CEILING * |q|
    ensures RunOps(Marked(q, |q|), ops).ours == 0
  {
    assert q[..|q|] == q;
    PatienceBound(q);
    PatienceRunsOut(Marked(q, |q|), ops);
  }

  function Untried(q: seq<Packet>): (r: seq<Packet>)
    ensures |r| == |q| && forall i :: 0 <= i < |q| ==> r[i] == q[i].(retries := 0)
  {
    seq(|q|, i requires 0 <= i < |q| => q[i].(retries := 0))
  }

  predicate AreLastOf(start: seq<Packet>, m: Marked) {
    && m.ours <= |m.q| && m.ours <= |start|
    && Untried(m.q)[..m.ours] == Untried(start)[|start| - m.ours..]
  }

  lemma SuffixUntried(left: seq<Packet>, q: seq<Packet>, f: nat)
    requires f <= |q| && SuffixWithRetry(left, q[f..])
    ensures |left| == |q| - f && Untried(left) == Untried(q)[f..]
  {
    assert |left| == |q| - f;
  }

  lemma TailOfTail<T>(u: seq<T>, s: seq<T>, n: nat, f: nat)
    requires f <= n <= |u| && n <= |s| && u[..n] == s[|s| - n..]
    ensures u[f..][..n - f] == s[|s| - (n - f)..]
  {
    assert u[f..][..n - f] == u[..n][f..];
  }

  lemma FlushKeepsMarked(start: seq<Packet>, m: Marked, socket: Socket)
    requires Sound(m) && AreLastOf(start, m)
    ensures AreLastOf(start, Apply(m, FlushAll(socket)))
  {
    FlushSplits(m.q, socket, 0);
    var r := Flush(m.q, socket, 0);
    var m' := Apply(m, FlushAll(socket));
    var f := |r.fates|;
    SuffixUntried(r.left, m.q, f);
    hide Flush, Untried;
    if f <= m.ours { TailOfTail(Untried(m.q), Untried(start), m.ours, f); }
  }

  /** What the mark means: the marked packets are the last ones of the starting queue, in their order. */
  lemma {:induction false} MarkedAreOurs(start: seq<Packet>, m: Marked, ops: seq<Op>)
    requires Sound(m) && AreLastOf(start, m)
    ensures AreLastOf(start, RunOps(m, ops))
    decreases |ops|
  {
    if ops != [] {
      ApplyDrains(m, ops[0]);
      match ops[0] {
        case Enqueue(_, _, _) =>
          assert Untried(Apply(m, ops[0]).q)[..m.ours] == Untried(m.q)[..m.ours];
        case FlushAll(socket) =>
          FlushKeepsMarked(start, m, socket);
      }
      MarkedAreOurs(start, Apply(m, ops[0]), ops[1..]);
    }
  }

  // ---------------------------------------------------------------------------------------------
  // What leaves is what the kernel took
  // ---------------------------------------------------------------------------------------------

  predicate AllDelivered(fates: seq<Fate>) {
    forall i :: 0 <= i < |fates| ==> fates[i].Delivered?
  }

  /** The kernel took fewer messages than it was given: just those are gone, and nothing more is tried. */
  lemma PartialSend(q: seq<Packet>, socket: Socket, call: nat, more: nat)
    requires q != [] && socket(call, q[0].fd, FirstRun(q)) == Sent(more) && more + 1 < FirstRun(q)
    ensures var r := Flush(q, socket, call);
            |r.fates| == more + 1 && AllDelivered(r.fates) && r.left == q[more + 1..]
  {}

  /** It took all of them: they are gone, and the next descriptor's turn comes. */
  lemma FullSend(q: seq<Packet>, socket: Socket, call: nat, more: nat)
    requires q != [] && socket(call, q[0].fd, FirstRun(q)) == Sent(more) && more + 1 >= FirstRun(q)
    ensures var n := FirstRun(q);
            var r, rest := Flush(q, socket, call), Flush(q[n..], socket, call + 1);
            && |r.fates| == n + |rest.fates| && AllDelivered(r.fates[..n]) && r.fates[n..] == rest.fates
            && r.left == rest.left
  {}

  /** Congestion charges the head one attempt, or drops it at the fifth; nothing more is tried. */
  lemma CongestedSend(q: seq<Packet>, socket: Socket, call: nat)
    requires q != [] && socket(call, q[0].fd, FirstRun(q)).Congested?
    ensures var r, p := Flush(q, socket, call), q[0];
            if p.retries < 4
            then r.fates == [] && r.left == [Packet(p.payload, p.addr, p.fd, p.retries + 1)] + q[1..]
            else r.fates == [Stale] && r.left == q[1..]
  {}

  /** Any other error costs one packet, and the next one's turn comes. */
  lemma FailedSend(q: seq<Packet>, socket: Socket, call: nat)
    requires q != [] && socket(call, q[0].fd, FirstRun(q)).HardError?
    ensures var r, rest := Flush(q, socket, call), Flush(q[1..], socket, call + 1);
            r.fates == [Failed] + rest.fates && r.left == rest.left
  {}

  /** The number of messages the kernel reports over the calls of one flush. */
  function KernelTook(q: seq<Packet>, socket: Socket, call: nat): nat
    decreases |q|
  {
    if q == [] then 0
    else
      var n := FirstRun(q);
      match socket(call, q[0].fd, n)
      case Sent(more) => if more + 1 < n then more + 1 else n + KernelTook(q[n..], socket, call + 1)
      case Congested => 0
      case HardError => KernelTook(q[1..], socket, call + 1)
  }

  function DeliveredCount(fates: seq<Fate>): (n: nat)
    ensures n <= |fates|
  {
    if fates == [] then 0 else (if fates[0].Delivered? then 1 else 0) + DeliveredCount(fates[1..])
  }

  lemma {:induction false} CountAppend(f: seq<Fate>, g: seq<Fate>)
    ensures DeliveredCount(f + g) == DeliveredCount(f) + DeliveredCount(g)
  {
    if f == [] {
      assert f + g == g;
    } else {
      CountAppend(f[1..], g);
      assert (f + g)[1..] == f[1..] + g;
    }
  }

  lemma {:induction false} CountDelivered(f: seq<Fate>)
    requires AllDelivered(f)
    ensures DeliveredCount(f) == |f|
  {
    if f != [] { CountDelivered(f[1..]); }
  }

  /** As many packets are delivered as the kernel reports, over the whole flush. */
  lemma {:induction false} DeliveredIsTaken(q: seq<Packet>, socket: Socket, call: nat)
    ensures DeliveredCount(Flush(q, socket, call).fates) == KernelTook(q, socket, call)
    decreases |q|
  {
    if q != [] {
      var n, r := FirstRun(q), Flush(q, socket, call);
      match socket(call, q[0].fd, n) {
        case Sent(more) =>
          if more + 1 < n {
            PartialSend(q, socket, call, more);
            CountDelivered(r.fates);
          } else {
            FullSend(q, socket, call, more);
            DeliveredIsTaken(q[n..], socket, call + 1);
            CountDelivered(r.fates[..n]);
            assert r.fates == r.fates[..n] + r.fates[n..];
            CountAppend(r.fates[..n], r.fates[n..]);
          }
        case Congested => CongestedSend(q, socket, call);
        case HardError =>
          FailedSend(q, socket, call);
          DeliveredIsTaken(q[1..], socket, call + 1);
          CountAppend([Failed], Flush(q[1..], socket, call + 1).fates);
      }
    }
  }

  /** The wire shows the payload and address of each delivered packet, in order, and nothing else. */
  lemma {:induction false} OnTheWireAt(q: seq<Packet>, fates: seq<Fate>, i: nat)
    requires i < |fates| <= |q|
    ensures |OnTheWire(q, fates)| == DeliveredCount(fates)
    ensures fates[i].Delivered? ==>
              var k := DeliveredCount(fates[..i]);
              k < |OnTheWire(q, fates)| && OnTheWire(q, fates)[k] == Datagram(q[i].payload, q[i].addr)
  {
    WireLength(q, fates);
    if i > 0 {
      OnTheWireAt(q[1..], fates[1..], i - 1);
      assert fates[..i][1..] == fates[1..][..i - 1];
    }
  }

  lemma {:induction false} WireLength(q: seq<Packet>, fates: seq<Fate>)
    requires |fates| <= |q|
    ensures |OnTheWire(q, fates)| == DeliveredCount(fates)
  {
    if fates != [] { WireLength(q[1..], fates[1..]); }
  }

  /** Queueing, case by case: a full batch, an oversized packet, and a new packet with no failed attempt. */
  lemma QueuedExactly(q: seq<Packet>, payload: seq<Byte>, addr: Addr, fd: int)
    ensures Queued(q, payload, addr, fd) ==
            if |q| < 64 && |payload| <= 9216 then q + [Packet(payload, addr, fd, 0)] else q
  {}

  function Jam(): Socket {
    (call, fd, n) => Congested
  }

  /** A new packet at the head of a jammed queue outlives four flushes, and the fifth drops it. */
  lemma {:induction false} FourChances(payload: seq<Byte>, addr: Addr, fd: int, rest: seq<Packet>, k: nat)
    requires k < 5
    ensures var q := [Packet(payload, addr, fd, 0)] + rest;
            var m := RunOps(Marked(q, 1), seq(k, i => FlushAll(Jam())));
            m == Marked([Packet(payload, addr, fd, k)] + rest, 1) &&
            (k == 4 ==> Apply(m, FlushAll(Jam())) == Marked(rest, 0))
  {
    var start := Marked([Packet(payload, addr, fd, 0)] + rest, 1);
    var ops := seq(k, i => FlushAll(Jam()));
    if k > 0 {
      FourChances(payload, addr, fd, rest, k - 1);
      var fewer := seq(k - 1, i => FlushAll(Jam()));
      assert ops == fewer + [FlushAll(Jam())];
      RunOpsAppend(start, fewer, FlushAll(Jam()));
      CongestedSend([Packet(payload, addr, fd, k - 1)] + rest, Jam(), 0);
    }
    CongestedSend([Packet(payload, addr, fd, k)] + rest, Jam(), 0);
  }

  lemma {:induction false} RunOpsAppend(m: Marked, ops: seq<Op>, op: Op)
    ensures RunOps(m, ops + [op]) == Apply(RunOps(m, ops), op)
    decreases |ops|
  {
    hide Apply;
    if ops == [] {
      assert ops + [op] == [op] && [op][1..] == [];
      assert RunOps(Apply(m, op), []) == Apply(m, op);
    } else {
      assert (ops + [op])[1..] == ops[1..] + [op];
      RunOpsAppend(Apply(m, ops[0]), ops[1..], op);
    }
  }

  // ---------------------------------------------------------------------------------------------
  // The batch itself
  // ---------------------------------------------------------------------------------------------

  /** An iovec: which slot's data it points at, and how many bytes of it. */
  datatype Iov = Iov(base: nat, len: nat)

  datatype TxSlot = TxSlot(data: seq<Byte>, len: nat, addr: Addr, fd: int, retries: nat, iov: Iov)

  /** A message header: the slots whose address and iovec it points at. */
  datatype MsgHdr = MsgHdr(name: nat, iov: nat)

  predicate Filled(s: TxSlot) {
    |s.data| == TX_SLOT_SIZE && s.len <= TX_SLOT_SIZE
  }

  function PacketOf(s: TxSlot): Packet
    requires Filled(s)
  {
    Packet(s.data[..s.len], s.addr, s.fd, s.retries)
  }

  predicate AllFilled(ss: seq<TxSlot>) {
    forall i :: 0 <= i < |ss| ==> Filled(ss[i])
  }

  function Packets(ss: seq<TxSlot>): (q: seq<Packet>)
    requires AllFilled(ss)
    ensures |q| == |ss| && forall i :: 0 <= i < |ss| ==> q[i] == PacketOf(ss[i])
  {
    seq(|ss|, i requires 0 <= i < |ss| => PacketOf(ss[i]))
  }

  /** The header of slot i leads to slot i's own address and bytes. */
  predicate PointsHome(s: TxSlot, m: MsgHdr, i: nat) {
    s.iov == Iov(i, s.len) && m == MsgHdr(i, i)
  }

  /** memcpy of `bytes` to the start of a slot buffer. */
  function Overwrite(data: seq<Byte>, bytes: seq<Byte>): (r: seq<Byte>)
    requires |bytes| <= |data|
    ensures |r| == |data| && r[..|bytes|] == bytes
  {
    bytes + data[|bytes|..]
  }

  lemma {:induction false} FirstRunIs(q: seq<Packet>, n: nat)
    requires 1 <= n <= |q|
    requires forall i :: 0 <= i < n ==> q[i].fd == q[0].fd
    requires n < |q| ==> q[n].fd != q[0].fd
    ensures FirstRun(q) == n
  {
    if n > 1 {
      assert q[1].fd == q[0].fd;
      FirstRunIs(q[1..], n - 1);
    }
  }

  function WireOf(p: Packet, fate: Fate): seq<Datagram> {
    if fate.Delivered? then [Outgoing(p)] else []
  }

  lemma WireHead(q: seq<Packet>, f: seq<Fate>)
    requires 0 < |f| <= |q|
    ensures OnTheWire(q, f) == WireOf(q[0], f[0]) + OnTheWire(q[1..], f[1..])
  {}

  lemma {:induction false} OnTheWireAppend(q: seq<Packet>, f: seq<Fate>, g: seq<Fate>)
    requires |f| + |g| <= |q|
    ensures OnTheWire(q, f + g) == OnTheWire(q, f) + OnTheWire(q[|f|..], g)
  {
    if f == [] {
      assert f + g == g && q[0..] == q;
    } else {
      hide OnTheWire;
      OnTheWireAppend(q[1..], f[1..], g);
      WireHead(q, f);
      WireHead(q, f + g);
      assert (f + g)[1..] == f[1..] + g;
      assert q[1..][|f| - 1..] == q[|f|..];
    }
  }

  lemma {:induction false} AllOnTheWire(q: seq<Packet>, k: nat)
    requires k <= |q|
    ensures |OnTheWire(q, Deliveries(k))| == k
    ensures forall i :: 0 <= i < k ==> OnTheWire(q, Deliveries(k))[i] == Outgoing(q[i])
  {
    if k > 0 {
      AllOnTheWire(q[1..], k - 1);
      assert Deliveries(k)[1..] == Deliveries(k - 1);
    }
  }

  /** `cur` packets have been dealt with as `fates` and `wire` say; the rest is still to be flushed from `call` on. */
  predicate Reached(q: seq<Packet>, socket: Socket, cur: nat, call: nat, fates: seq<Fate>, wire: seq<Datagram>) {
    && |fates| == cur <= |q|
    && Flush(q, socket, 0) == Before(fates, Flush(q[cur..], socket, call))
    && wire == OnTheWire(q, fates)
  }

  /** The whole flush has been carried out. */
  predicate Finished(q: seq<Packet>, socket: Socket, fates: seq<Fate>, wire: seq<Datagram>, left: seq<Packet>) {
    && |fates| <= |q|
    && Flush(q, socket, 0) == Flushed(fates, left)
    && wire == OnTheWire(q, fates)
  }

  lemma FlushSent(q: seq<Packet>, socket: Socket, call: nat)
    requires q != [] && socket(call, q[0].fd, FirstRun(q)).Sent?
    ensures var n := FirstRun(q);
            var k := SentCount(socket(call, q[0].fd, n).more, n);
            Flush(q, socket, call) == if k < n then Flushed(Deliveries(k), q[k..])
                                      else Before(Deliveries(k), Flush(q[k..], socket, call + 1))
  {}

  lemma SentStep(q: seq<Packet>, socket: Socket, cur: nat, call: nat, fates: seq<Fate>, wire: seq<Datagram>)
    requires Reached(q, socket, cur, call, fates, wire) && cur < |q|
    requires socket(call, q[cur].fd, FirstRun(q[cur..])).Sent?
    ensures var n := FirstRun(q[cur..]);
            var k := SentCount(socket(call, q[cur].fd, n).more, n);
            var wire' := wire + OnTheWire(q[cur..], Deliveries(k));
            if k == n then Reached(q, socket, cur + k, call + 1, fates + Deliveries(k), wire')
            else Finished(q, socket, fates + Deliveries(k), wire', q[cur + k..])
  {
    hide OnTheWire, FirstRun, Flush, Deliveries, SentCount;
    var rest := q[cur..];
    assert rest[0] == q[cur];
    var n := FirstRun(rest);
    var k := SentCount(socket(call, q[cur].fd, n).more, n);
    assert rest[k..] == q[cur + k..];
    OnTheWireAppend(q, fates, Deliveries(k));
    FlushSent(rest, socket, call);
    BeforeTwice(fates, Deliveries(k), Flush(q[cur + k..], socket, call + 1));
  }

  lemma BeforeTwice(f: seq<Fate>, g: seq<Fate>, r: Flushed)
    ensures Before(f, Before(g, r)) == Before(f + g, r)
  {
    assert f + (g + r.fates) == (f + g) + r.fates;
  }

  lemma CongestedStep(q: seq<Packet>, socket: Socket, cur: nat, call: nat, fates: seq<Fate>, wire: seq<Datagram>)
    requires Reached(q, socket, cur, call, fates, wire) && cur < |q|
    requires socket(call, q[cur].fd, FirstRun(q[cur..])).Congested?
    ensures if q[cur].retries + 1 >= RETRY_CEILING then Finished(q, socket, fates + [Stale], wire, q[cur + 1..])
            else Finished(q, socket, fates, wire, [Tried(q[cur])] + q[cur + 1..])
  {
    assert q[cur..][1..] == q[cur + 1..];
    OnTheWireAppend(q, fates, [Stale]);
    assert OnTheWire(q[cur..], [Stale]) == [];
    hide OnTheWire;
  }

  lemma HardStep(q: seq<Packet>, socket: Socket, cur: nat, call: nat, fates: seq<Fate>, wire: seq<Datagram>)
    requires Reached(q, socket, cur, call, fates, wire) && cur < |q|
    requires socket(call, q[cur].fd, FirstRun(q[cur..])).HardError?
    ensures Reached(q, socket, cur + 1, call + 1, fates + [Failed], wire)
  {
    assert q[cur..][1..] == q[cur + 1..];
    OnTheWireAppend(q, fates, [Failed]);
    assert OnTheWire(q[cur..], [Failed]) == [];
    hide OnTheWire;
    var f := Flush(q[cur + 1..], socket, call + 1);
    assert fates + ([Failed] + f.fates) == (fates + [Failed]) + f.fates;
  }

  lemma StartFlush(q: seq<Packet>, socket: Socket)
    ensures Reached(q, socket, 0, 0, [], [])
  {
    assert q[0..] == q;
  }

  lemma Ends(q: seq<Packet>, socket: Socket, fates: seq<Fate>, wire: seq<Datagram>, left: seq<Packet>)
    requires Finished(q, socket, fates, wire, left)
    ensures var r := Flush(q, socket, 0); r.fates == fates && r.left == left && wire == OnTheWire(q, fates)
  {}

  lemma NothingLeft(q: seq<Packet>, socket: Socket, call: nat, fates: seq<Fate>, wire: seq<Datagram>)
    ensures Reached(q, socket, |q|, call, fates, wire) ==> Finished(q, socket, fates, wire, [])
  {
    if Reached(q, socket, |q|, call, fates, wire) { assert fates + [] == fates; }
  }

  class PacketScratch {
    const slots: array<TxSlot>
    const msgs: array<MsgHdr>
    var txCount: nat
    var droppedOversized: nat

    /** The first tx_count slots are filled and their headers lead to them. */
    ghost predicate Laid()
      reads this, slots, msgs
    {
      && slots.Length == MAX_BATCH && msgs.Length == MAX_BATCH && txCount <= MAX_BATCH
      && (forall i :: 0 <= i < MAX_BATCH ==> |slots[i].data| == TX_SLOT_SIZE)
      && (forall i :: 0 <= i < txCount ==> Filled(slots[i]))
      && (forall i :: 0 <= i < txCount ==> PointsHome(slots[i], msgs[i], i))
    }

    ghost function Queue(): (q: seq<Packet>)
      requires Laid()
      reads this, slots, msgs
      ensures |q| == txCount && forall i :: 0 <= i < txCount ==> q[i] == PacketOf(slots[i])
    {
      Packets(slots[..txCount])
    }

    ghost predicate Valid()
      reads this, slots, msgs
    {
      Laid() && Live(Queue())
    }

    constructor ()
      ensures Valid() && fresh(slots) && fresh(msgs) && Queue() == [] && droppedOversized == 0
    {
      slots := new TxSlot[MAX_BATCH](_ => TxSlot(seq(TX_SLOT_SIZE, _ => 0), 0, 0, -1, 0, Iov(0, 0)));
      msgs := new MsgHdr[MAX_BATCH](_ => MsgHdr(0, 0));
      txCount, droppedOversized := 0, 0;
    }

    /** queue_tx: a full batch ignores the packet, an oversized one is counted; otherwise it joins the end. */
    method QueueTx(fd: int, addr: Addr, payload: seq<Byte>)
      requires Valid()
      modifies this, slots, msgs
      ensures Valid() && Queue() == Queued(old(Queue()), payload, addr, fd)
      ensures droppedOversized == old(droppedOversized) +
                if old(txCount) < MAX_BATCH && |payload| > TX_SLOT_SIZE then 1 else 0
    {
      if txCount >= MAX_BATCH { return; }
      if |payload| > TX_SLOT_SIZE {
        droppedOversized := droppedOversized + 1;
        return;
      }
      Fill(fd, addr, Overwrite(slots[txCount].data, payload), |payload|);
    }

    /** The end of both queueing functions: slot tx_count takes the packet, its header points home. */
    method Fill(fd: int, addr: Addr, data: seq<Byte>, len: nat)
      requires Valid() && txCount < MAX_BATCH && |data| == TX_SLOT_SIZE && len <= TX_SLOT_SIZE
      modifies this`txCount, slots, msgs
      ensures Valid() && Queue() == old(Queue()) + [Packet(data[..len], addr, fd, 0)]
    {
      slots[txCount] := TxSlot(data, len, addr, fd, 0, Iov(txCount, len));
      msgs[txCount] := MsgHdr(txCount, txCount);
      txCount := txCount + 1;
    }

    /** queue_tx_mimicry: as queue_tx, with the QUIC header put in front; the plain bytes when randomness fails. */
    method QueueTxMimicry(fd: int, addr: Addr, payload: seq<Byte>, seed: Option<(Byte, Byte)>,
                          random: Option<seq<Byte>>)
      requires Valid() && (random.Some? ==> |random.value| == 18)
      modifies this, slots, msgs
      ensures Valid()
      ensures old(txCount) >= MAX_BATCH || |payload| + Camouflage.QUIC_HEADER > TX_SLOT_SIZE ==> Queue() == old(Queue())
      ensures old(txCount) < MAX_BATCH && |payload| + Camouflage.QUIC_HEADER <= TX_SLOT_SIZE ==>
                Queue() == old(Queue()) +
                           [Packet(if random.None? then payload
                                   else Camouflage.QuicHeader(0, random.value, seed) + payload, addr, fd, 0)]
      ensures droppedOversized == old(droppedOversized) +
                if old(txCount) < MAX_BATCH && |payload| + Camouflage.QUIC_HEADER > TX_SLOT_SIZE then 1 else 0
    {
      if txCount >= MAX_BATCH { return; }
      if |payload| + Camouflage.QUIC_HEADER > TX_SLOT_SIZE {
        droppedOversized := droppedOversized + 1;
        return;
      }
      var before := Overwrite(slots[txCount].data, payload);
      var buf := new Byte[TX_SLOT_SIZE](i requires 0 <= i < |before| => before[i]);
      assert buf[..] == before;
      assert buf[..|payload|] == payload;
      var wrapped := Camouflage.WrapQuicInitial(buf, |payload|, TX_SLOT_SIZE, seed, 0, random);
      Fill(fd, addr, buf[..], wrapped);
    }

    /** What the kernel reads through the header of message k. */
    function Transmitted(k: nat): Datagram
      requires k < msgs.Length && msgs[k].iov < slots.Length && msgs[k].name < slots.Length
      requires slots[msgs[k].iov].iov.base < slots.Length
      requires slots[msgs[k].iov].iov.len <= |slots[slots[msgs[k].iov].iov.base].data|
      reads slots, msgs
    {
      var iov := slots[msgs[k].iov].iov;
      Datagram(slots[iov.base].data[..iov.len], slots[msgs[k].name].addr)
    }

    /** flush_tx: the queue, the datagrams sent and their number are those of Flush. */
    method FlushTx(socket: Socket) returns (sentTotal: nat, wire: seq<Datagram>)
      requires Valid()
      modifies this`txCount, slots, msgs
      ensures Valid()
      ensures var r := Flush(old(Queue()), socket, 0);
              |r.fates| <= old(txCount) && Queue() == r.left &&
              wire == OnTheWire(old(Queue()), r.fates) && sentTotal == |wire|
      ensures sentTotal == KernelTook(old(Queue()), socket, 0)
    {
      hide KernelTook, DeliveredCount;
      var cur;
      ghost var q := Queue();
      cur, sentTotal, wire := SendAll(socket);
      Compact(cur);
      DeliveredIsTaken(q, socket, 0);
      WireLength(q, Flush(q, socket, 0).fates);
    }

    /** The first `n` messages from `cur` on, as sendmmsg reads them. */
    method Transmit(cur: nat, n: nat) returns (wire: seq<Datagram>)
      requires Valid() && cur + n <= txCount
      ensures wire == OnTheWire(Queue()[cur..], Deliveries(n))
    {
      hide OnTheWire;
      AllOnTheWire(Queue()[cur..], n);
      wire := [];
      var i := 0;
      while i < n
        invariant 0 <= i <= n && |wire| == i
        invariant forall j :: 0 <= j < i ==> wire[j] == Outgoing(Queue()[cur + j])
      {
        assert PointsHome(slots[cur + i], msgs[cur + i], cur + i);
        wire := wire + [Transmitted(cur + i)];
        i := i + 1;
      }
    }

    /** The end of the run of slots that share slot cur's descriptor. */
    method BatchEnd(cur: nat) returns (end: nat)
      requires Valid() && cur < txCount
      ensures end == cur + FirstRun(Queue()[cur..])
    {
      end := cur + 1;
      while end < txCount && slots[end].fd == slots[cur].fd
        invariant cur < end <= txCount
        invariant forall i :: cur <= i < end ==> slots[i].fd == slots[cur].fd
      {
        end := end + 1;
      }
      FirstRunIs(Queue()[cur..], end - cur);
    }

    /** Congestion: one more retry for slot cur, which passes it by when it reaches the ceiling. */
    method Charge(cur: nat) returns (next: nat)
      requires Valid() && cur < txCount
      modifies slots
      ensures Laid() && next <= txCount
      ensures var p := old(Queue())[cur];
              if p.retries + 1 >= RETRY_CEILING then next == cur + 1 && Queue()[next..] == old(Queue())[next..]
              else next == cur && Queue()[next..] == [Tried(p)] + old(Queue())[cur + 1..]
    {
      slots[cur] := slots[cur].(retries := slots[cur].retries + 1);
      next := if slots[cur].retries >= RETRY_CEILING then cur + 1 else cur;
    }

    /** Some of the run went out: a partial send finishes the flush, a full one goes on behind the run. */
    method TransmitRun(ghost socket: Socket, cur: nat, ghost call: nat, batch: nat, more: nat, ghost q: seq<Packet>,
                       ghost fates: seq<Fate>, wire: seq<Datagram>)
      returns (next: nat, wire': seq<Datagram>, ghost fates': seq<Fate>)
      requires Valid() && Queue() == q && cur < txCount && |fates| == cur
      requires Reached(q, socket, cur, call, fates, wire)
      requires batch == FirstRun(q[cur..]) && socket(call, q[cur].fd, batch) == Sent(more)
      ensures cur < next <= cur + batch && |fates'| == next
      ensures next < cur + batch ==> Finished(q, socket, fates', wire', q[next..])
      ensures next == cur + batch ==> Reached(q, socket, next, call + 1, fates', wire')
    {
      hide *;
      SentStep(q, socket, cur, call, fates, wire);
      var sent := SentCount(more, batch);
      var out := Transmit(cur, sent);
      next, wire', fates' := cur + sent, wire + out, fates + Deliveries(sent);
    }

    /** The congested answer: after it the loop breaks, so the flush is finished. */
    method Congest(ghost socket: Socket, cur: nat, ghost call: nat, ghost q: seq<Packet>, ghost fates: seq<Fate>,
                   ghost wire: seq<Datagram>) returns (next: nat, ghost fates': seq<Fate>)
      requires Valid() && Queue() == q && cur < txCount && |fates| == cur
      requires Reached(q, socket, cur, call, fates, wire)
      requires socket(call, q[cur].fd, FirstRun(q[cur..])).Congested?
      modifies slots
      ensures Laid() && next <= txCount && |fates'| == next
      ensures Finished(q, socket, fates', wire, Queue()[next..])
    {
      hide *;
      CongestedStep(q, socket, cur, call, fates, wire);
      next := Charge(cur);
      fates' := if next == cur then fates else fates + [Stale];
    }

    /** One round of the sending loop: one sendmmsg for the run of slots at cur, and what its answer does. */
    method SendBatch(socket: Socket, cur: nat, call: nat, ghost q: seq<Packet>, ghost fates: seq<Fate>,
                     wire: seq<Datagram>)
      returns (next: nat, stop: bool, wire': seq<Datagram>, ghost fates': seq<Fate>)
      requires Valid() && Queue() == q && cur < txCount && |fates| == cur
      requires Reached(q, socket, cur, call, fates, wire)
      modifies slots
      ensures Laid() && next <= txCount && |fates'| == next
      ensures !stop ==> Queue() == q && cur < next && Reached(q, socket, next, call + 1, fates', wire')
      ensures stop ==> Finished(q, socket, fates', wire', Queue()[next..])
    {
      var fd := slots[cur].fd;
      wire' := wire;
      assert Laid() && fd == q[cur].fd;
      hide *;
      var end := BatchEnd(cur);
      match socket(call, fd, end - cur) {
        case Sent(more) =>
          next, wire', fates' := TransmitRun(socket, cur, call, end - cur, more, q, fates, wire);
          stop := next < end;
        case Congested =>
          next, fates' := Congest(socket, cur, call, q, fates, wire);
          stop := true;
        case HardError =>
          HardStep(q, socket, cur, call, fates, wire);
          next, stop, fates' := cur + 1, false, fates + [Failed];
      }
    }

    /** The sending loop: leaves the unsent packets in slots cur and up. */
    method SendAll(socket: Socket) returns (cur: nat, sentTotal: nat, wire: seq<Datagram>)
      requires Valid()
      modifies slots
      ensures Laid() && cur <= txCount && Live(Queue()[cur..])
      ensures var r := Flush(old(Queue()), socket, 0);
              |r.fates| == cur && Queue()[cur..] == r.left &&
              wire == OnTheWire(old(Queue()), r.fates) && sentTotal == |wire|
    {
      ghost var q := Queue();
      cur, sentTotal, wire := 0, 0, [];
      var call, stop := 0, false;
      ghost var fates := [];
      LiveAfterFlush(q, socket, 0);
      StartFlush(q, socket);
      hide *;
      while cur < txCount && !stop
        invariant Laid() && cur <= txCount && |fates| == cur && sentTotal == |wire|
        invariant !stop ==> Queue() == q && Reached(q, socket, cur, call, fates, wire)
        invariant stop ==> Finished(q, socket, fates, wire, Queue()[cur..])
        decreases txCount - cur, !stop
      {
        StillValid();
        cur, stop, wire, fates := SendBatch(socket, cur, call, q, fates, wire);
        sentTotal, call := |wire|, call + 1;
      }
      if !stop { NothingLeft(q, socket, call, fates, wire); }
      Ends(q, socket, fates, wire, Queue()[cur..]);
    }

    lemma StillValid()
      requires Laid() && Live(Queue())
      ensures Valid()
    {}

    /** Moves the packet of slot src into slot dst, as memcpy and a fresh header. */
    method CopySlot(dst: nat, src: nat)
      requires slots.Length == MAX_BATCH == msgs.Length && dst < src < MAX_BATCH
      requires Filled(slots[src]) && |slots[dst].data| == TX_SLOT_SIZE
      modifies slots, msgs
      ensures forall j :: 0 <= j < MAX_BATCH && j != dst ==> slots[j] == old(slots[j]) && msgs[j] == old(msgs[j])
      ensures Filled(slots[dst]) && PacketOf(slots[dst]) == old(PacketOf(slots[src]))
      ensures PointsHome(slots[dst], msgs[dst], dst)
    {
      var from := slots[src];
      slots[dst] := TxSlot(Overwrite(slots[dst].data, from.data[..from.len]), from.len, from.addr, from.fd,
                           from.retries, Iov(dst, from.len));
      msgs[dst] := MsgHdr(dst, dst);
    }

    /** Moves the unsent suffix to the front and rebuilds the headers it will be sent through. */
    method Compact(cur: nat)
      requires Laid() && cur <= txCount && Live(Queue()[cur..])
      modifies this`txCount, slots, msgs
      ensures Valid() && Queue() == old(Queue())[cur..]
    {
      if cur < txCount {
        var unsent := txCount - cur;
        if cur > 0 {
          var i := 0;
          while i < unsent
            invariant 0 <= i <= unsent
            invariant forall j :: 0 <= j < MAX_BATCH ==> |slots[j].data| == TX_SLOT_SIZE
            invariant forall j :: i <= j < MAX_BATCH ==> slots[j] == old(slots[j])
            invariant forall j :: 0 <= j < i ==> Filled(slots[j]) && PacketOf(slots[j]) == old(Queue())[cur + j]
            invariant forall j :: 0 <= j < i ==> PointsHome(slots[j], msgs[j], j)
          {
            CopySlot(i, cur + i);
            i := i + 1;
          }
        }
        txCount := unsent;
      } else {
        txCount := 0;
      }
    }
  }
}
