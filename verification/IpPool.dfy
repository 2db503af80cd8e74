/** The VPN address pool (ip_pool.cpp): a queue of free addresses and a map of leased (allocated) ones. */
module IpPool {
  import opened Bytes
  import opened Wrappers

  type Ip = nat

  datatype Pool = Pool(free: seq<Ip>, leased: set<Ip>)

  /** The network address of `ip` under a prefix: the host bits cleared. */
  function NetBase(ip: Ip, prefix: nat): nat
    requires prefix <= 32
  {
    RoundDown(ip, Pow2(32 - prefix))
  }

  /** The largest multiple of d up to n. */
  function RoundDown(n: nat, d: nat): (m: nat)
    requires d > 0
    ensures m <= n
  {
    assert n == n / d * d + n % d;
    n - n % d
  }

  /** The network address has no host bits, and the address lies among the network's. */
  lemma NetBaseExactly(ip: Ip, prefix: nat)
    requires prefix <= 32
    ensures var size := Pow2(32 - prefix);
            NetBase(ip, prefix) % size == 0 && NetBase(ip, prefix) <= ip < NetBase(ip, prefix) + size
  {
    hide Pow2;
    var d := Pow2(32 - prefix);
    assert ip == ip / d * d + ip % d;
    DivModUnique(ip - ip % d, d, ip / d, 0);
  }

  /** Every address but the network's, the server's (.1) and the broadcast address. */
  function HostRange(base: nat, count: nat): seq<Ip> {
    if count <= 3 then [] else seq(count - 3, i => base + 2 + i)
  }

  function Allocate(p: Pool): (Pool, Option<Ip>) {
    if p.free == [] then (p, None) else (Pool(p.free[1..], p.leased + {p.free[0]}), Some(p.free[0]))
  }

  function Release(p: Pool, ip: Ip): Pool {
    if ip in p.leased then Pool(p.free + [ip], p.leased - {ip}) else p
  }

  function FreeSet(p: Pool): set<Ip> {
    set ip | ip in p.free
  }

  /** No address is free twice or both free and leased, and none is 0. */
  predicate Sound(p: Pool) {
    && (forall i, j :: 0 <= i < j < |p.free| ==> p.free[i] != p.free[j])
    && (forall ip :: ip in p.free ==> ip !in p.leased && ip != 0)
    && 0 !in p.leased
  }

  /** All addresses the pool manages. */
  function Addresses(p: Pool): set<Ip> {
    FreeSet(p) + p.leased
  }

  lemma AllocateConserves(p: Pool)
    requires Sound(p)
    ensures var (q, r) := Allocate(p);
            && Sound(q) && Addresses(q) == Addresses(p)
            && (r.None? <==> FreeSet(p) == {})
            && (r.Some? ==> r.value !in p.leased && r.value != 0 && q.leased == p.leased + {r.value})
  {
    var (q, r) := Allocate(p);
    if p.free != [] {
      assert p.free[0] in FreeSet(p);
      assert p.free == [p.free[0]] + q.free;
      assert FreeSet(p) == FreeSet(q) + {p.free[0]};
    }
  }

  lemma ReleaseConserves(p: Pool, ip: Ip)
    requires Sound(p)
    ensures Sound(Release(p, ip)) && Addresses(Release(p, ip)) == Addresses(p)
    ensures Release(p, ip).leased == p.leased - {ip}
  {
    if ip in p.leased { assert FreeSet(Release(p, ip)) == FreeSet(p) + {ip}; }
  }

  /** Free and leased addresses add up to the size of the pool. */
  lemma {:induction false} SizesAddUp(p: Pool)
    requires Sound(p)
    ensures |p.free| + |p.leased| == |Addresses(p)|
    decreases |p.free|
  {
    if p.free == [] {
      assert Addresses(p) == p.leased;
    } else {
      AllocateConserves(p);
      SizesAddUp(Allocate(p).0);
    }
  }

  datatype Op = Take | Give(ip: Ip)

  function RunOps(p: Pool, ops: seq<Op>): Pool
    decreases |ops|
  {
    if ops == [] then p
    else RunOps(if ops[0].Take? then Allocate(p).0 else Release(p, ops[0].ip), ops[1..])
  }

  /** Whatever is taken and given back, and also what was never taken: addresses are neither lost nor duplicated. */
  lemma {:induction false} RunConserves(p: Pool, ops: seq<Op>)
    requires Sound(p)
    ensures Sound(RunOps(p, ops)) && Addresses(RunOps(p, ops)) == Addresses(p)
    ensures |RunOps(p, ops).free| + |RunOps(p, ops).leased| == |p.free| + |p.leased|
    decreases |ops|
  {
    if ops != [] {
      AllocateConserves(p);
      if ops[0].Give? { ReleaseConserves(p, ops[0].ip); }
      var q := if ops[0].Take? then Allocate(p).0 else Release(p, ops[0].ip);
      RunConserves(q, ops[1..]);
      SizesAddUp(q);
      SizesAddUp(p);
    }
  }

  function TakeMany(p: Pool, n: nat): Pool
    decreases n
  {
    if n == 0 then p else TakeMany(Allocate(p).0, n - 1)
  }

  /** Addresses are handed out in the order of the queue. */
  lemma {:induction false} FirstFreeFirst(p: Pool, n: nat)
    requires n < |p.free|
    ensures Allocate(TakeMany(p, n)).1 == Some(p.free[n]) && TakeMany(p, n).free == p.free[n..]
    decreases n
  {
    if n > 0 {
      FirstFreeFirst(Allocate(p).0, n - 1);
      assert p.free[1..][n - 1..] == p.free[n..];
    }
  }

  /** A released address comes after all that were free before it. */
  lemma ReleasedComesLast(p: Pool, ip: Ip, n: nat)
    requires ip in p.leased && n <= |p.free|
    ensures Allocate(TakeMany(Release(p, ip), n)).1 == Some(if n < |p.free| then p.free[n] else ip)
  {
    FirstFreeFirst(Release(p, ip), n);
  }

  /** All host addresses from .2 to the one before the broadcast address, in order. */
  lemma HostRangeInOrder(base: nat, count: nat)
    requires count > 3
    ensures |HostRange(base, count)| == count - 3
    ensures forall i :: 0 <= i < count - 3 ==> HostRange(base, count)[i] == base + 2 + i
  {}

  lemma HostRangeSound(base: nat, count: nat)
    ensures Sound(Pool(HostRange(base, count), {}))
    ensures forall ip :: ip in HostRange(base, count) <==> base + 2 <= ip < base + count - 1
  {
    var r := HostRange(base, count);
    forall ip | base + 2 <= ip < base + count - 1 ensures ip in r { assert r[ip - base - 2] == ip; }
  }

  class IpPool {
    var freeIps: seq<Ip>
    var leased: map<Ip, bool>
    var netBase: nat
    var total: nat

    /** Entries of `leased` are only ever true. */
    ghost predicate Valid()
      reads this
    {
      (forall ip :: ip in leased ==> leased[ip]) && Sound(View())
    }

    ghost function View(): Pool
      reads this
    {
      Pool(freeIps, leased.Keys)
    }

    constructor Over(base: nat, count: nat)
      ensures Valid() && View() == Pool(HostRange(base, count), {}) && netBase == base && total == |freeIps|
    {
      netBase, freeIps, leased, total := base, [], map[], 0;
      new;
      if count > 3 {
        var i := 2;
        while i < count - 1
          invariant 2 <= i <= count - 1 && total == |freeIps| == i - 2
          invariant freeIps == HostRange(base, count)[..i - 2]
          invariant leased == map[] && netBase == base
        {
          freeIps := freeIps + [netBase + i];
          total := total + 1;
          i := i + 1;
        }
      }
      HostRangeSound(base, count);
    }

    /** The constructor's checks: prefixes outside /16 to /30 are refused. */
    static method Create(ip: Ip, prefix: nat) returns (r: Option<IpPool>)
      requires ip < 0x1_0000_0000
      ensures r.Some? <==> 16 <= prefix <= 30
      ensures r.Some? ==> fresh(r.value) && r.value.Valid()
      ensures r.Some? ==> r.value.View() == Pool(HostRange(NetBase(ip, prefix), Pow2(32 - prefix)), {})
    {
      if prefix < 16 || prefix > 30 { return None; }
      var pool := new IpPool.Over(NetBase(ip, prefix), Pow2(32 - prefix));
      r := Some(pool);
    }

    method AllocateIp() returns (r: Option<Ip>)
      requires Valid()
      modifies this`freeIps, this`leased
      ensures Valid() && (View(), r) == Allocate(old(View()))
    {
      AllocateConserves(View());
      if freeIps == [] { return None; }
      var ip := freeIps[0];
      freeIps := freeIps[1..];
      leased := leased[ip := true];
      assert leased.Keys == old(leased).Keys + {ip};
      r := Some(ip);
    }

    method ReleaseIp(ip: Ip)
      requires Valid()
      modifies this`freeIps, this`leased
      ensures Valid() && View() == Release(old(View()), ip)
    {
      ReleaseConserves(View(), ip);
      if ip in leased && leased[ip] {
        leased := leased - {ip};
        freeIps := freeIps + [ip];
      }
    }
  }
}
