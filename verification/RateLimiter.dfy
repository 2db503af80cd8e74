/**
 FastRateLimiter (server.cpp): a map of per-address windows with a ring that remembers the last
 CAPACITY insertions. Purging leaves stale ring slots, and ring slots can be overwritten while their
 entry lives on.
 */
module RateLimiter {
  import opened Wrappers

  type Ip = nat

  datatype Entry = Entry(windowStart: real, count: int, generation: nat)
  datatype Slot = Slot(ip: Ip, generation: nat)
  datatype Limiter = Limiter(entries: map<Ip, Entry>, ring: seq<Slot>, head: nat, gen: nat)

  predicate Shaped(l: Limiter) {
    l.head < |l.ring|
  }

  function Empty(capacity: nat): (l: Limiter)
    requires capacity > 0
    ensures Shaped(l)
  {
    Limiter(map[], seq(capacity, _ => Slot(0, 0)), 0, 0)
  }

  /** The entries after a full limiter has looked at the slot it is about to overwrite. */
  function Evicted(l: Limiter): map<Ip, Entry>
    requires Shaped(l)
  {
    var e := l.ring[l.head];
    if e.ip != 0 && e.ip in l.entries && l.entries[e.ip].generation == e.generation then l.entries - {e.ip}
    else l.entries
  }

  function Insert(l: Limiter, ip: Ip, now: real): (r: Limiter)
    requires Shaped(l)
    ensures Shaped(r)
  {
    var entries := if |l.entries| >= |l.ring| then Evicted(l) else l.entries;
    Limiter(entries[ip := Entry(now, 1, l.gen + 1)], l.ring[l.head := Slot(ip, l.gen + 1)],
            if l.head + 1 == |l.ring| then 0 else l.head + 1, l.gen + 1)
  }

  function Check(l: Limiter, ip: Ip, now: real, max: int): (r: (Limiter, bool))
    requires Shaped(l)
    ensures Shaped(r.0)
  {
    if ip !in l.entries then (Insert(l, ip, now), true)
    else
      var e := l.entries[ip];
      if now - e.windowStart >= 1.0 then (l.(entries := l.entries[ip := e.(windowStart := now, count := 1)]), true)
      else (l.(entries := l.entries[ip := e.(count := e.count + 1)]), e.count + 1 <= max)
  }

  function Purge(l: Limiter, now: real, maxAge: real): Limiter {
    l.(entries := map ip | ip in l.entries && now - l.entries[ip].windowStart <= maxAge :: l.entries[ip])
  }

  // ---------------------------------------------------------------------------------------------
  // The ring as a log
  // ---------------------------------------------------------------------------------------------

  /** The slots from the oldest insertion to the newest. */
  function Log(l: Limiter): (s: seq<Slot>)
    requires Shaped(l)
    ensures |s| == |l.ring| && s[0] == l.ring[l.head]
  {
    l.ring[l.head..] + l.ring[..l.head]
  }

  lemma InsertShiftsLog(l: Limiter, ip: Ip, now: real)
    requires Shaped(l)
    ensures Log(Insert(l, ip, now)) == Log(l)[1..] + [Slot(ip, l.gen + 1)]
  {
    var r := Insert(l, ip, now).ring;
    assert r[l.head + 1..] == l.ring[l.head + 1..] && r[..l.head] == l.ring[..l.head];
    assert r[..l.head + 1] == l.ring[..l.head] + [Slot(ip, l.gen + 1)];
  }

  /** The j-th oldest slot holds the insertion numbered gen + 1 + j - capacity, if there was one. */
  predicate LogNumbered(log: seq<Slot>, gen: nat) {
    forall j :: 0 <= j < |log| ==>
      log[j].generation == (if gen + 1 + j > |log| then gen + 1 + j - |log| else 0) &&
      (log[j].generation > 0 ==> log[j].ip != 0)
  }

  predicate InLog(e: Entry, gen: nat, capacity: nat) {
    e.generation + capacity > gen
  }

  /** Entries carry the number of their insertion; as long as the ring remembers it, it remembers their address. */
  predicate EntriesLogged(entries: map<Ip, Entry>, log: seq<Slot>, gen: nat) {
    forall ip :: ip in entries ==>
      1 <= entries[ip].generation <= gen &&
      (InLog(entries[ip], gen, |log|) ==>
         log[entries[ip].generation + |log| - gen - 1] == Slot(ip, entries[ip].generation))
  }

  /** Entries whose insertion the ring has forgotten. */
  function Orphans(entries: map<Ip, Entry>, gen: nat, capacity: nat): set<Ip> {
    set ip | ip in entries && !InLog(entries[ip], gen, capacity)
  }

  predicate Inv(l: Limiter) {
    && Shaped(l) && LogNumbered(Log(l), l.gen) && EntriesLogged(l.entries, Log(l), l.gen)
    && |Orphans(l.entries, l.gen, |l.ring|)| < |l.ring|
  }

  lemma SubsetSize<T>(a: set<T>, b: set<T>)
    requires a <= b
    ensures |a| <= |b|
  {
    assert b == a + (b - a);
    assert |a + (b - a)| == |a| + |b - a|;
  }

  lemma AddressesStep(front: seq<Slot>, last: Slot)
    ensures var log := front + [last];
            (set j | 0 <= j < |log| :: log[j].ip) == (set j | 0 <= j < |front| :: front[j].ip) + {last.ip}
  {
    var log := front + [last];
    var all := set j | 0 <= j < |log| :: log[j].ip;
    forall j | 0 <= j < |front| ensures front[j].ip in all { assert front[j] == log[j]; }
    assert log[|front|] == last;
  }

  lemma {:induction false} LogAddressesFew(log: seq<Slot>)
    ensures |set j | 0 <= j < |log| :: log[j].ip| <= |log|
  {
    if log != [] {
      var front, last := log[..|log| - 1], log[|log| - 1];
      LogAddressesFew(front);
      assert log == front + [last];
      AddressesStep(front, last);
      var few := set j | 0 <= j < |front| :: front[j].ip;
      assert |few + {last.ip}| <= |few| + 1;
    }
  }

  /** At most capacity entries are in the log and fewer than capacity are not. */
  lemma InvBounds(l: Limiter)
    requires Inv(l)
    ensures |l.entries| <= 2 * |l.ring| - 1
  {
    var log := Log(l);
    var orphans := Orphans(l.entries, l.gen, |log|);
    var few := set j | 0 <= j < |log| :: log[j].ip;
    LogAddressesFew(log);
    forall ip | ip in l.entries ensures ip in orphans + few {
      if ip !in orphans { assert log[l.entries[ip].generation + |log| - l.gen - 1].ip == ip; }
    }
    SubsetSize(l.entries.Keys, orphans + few);
    assert |orphans + few| <= |orphans| + |few|;
    assert |l.entries| == |l.entries.Keys|;
  }

  /** Dropping entries, or changing windows and counts only, keeps the invariant. */
  lemma FewerEntries(l: Limiter, entries: map<Ip, Entry>)
    requires Inv(l) && entries.Keys <= l.entries.Keys
    requires forall ip :: ip in entries ==> entries[ip].generation == l.entries[ip].generation
    ensures Inv(l.(entries := entries))
  {
    assert Log(l.(entries := entries)) == Log(l);
    var n := |l.ring|;
    SubsetSize(Orphans(entries, l.gen, n), Orphans(l.entries, l.gen, n));
  }

  lemma EvictedKeeps(l: Limiter)
    requires Inv(l)
    ensures Inv(l.(entries := Evicted(l)))
    ensures forall ip :: ip in Evicted(l) ==> Evicted(l)[ip].generation + |l.ring| != l.gen + 1
  {
    FewerEntries(l, Evicted(l));
    assert Log(l)[0] == l.ring[l.head];
  }

  lemma ShiftNumbers(log: seq<Slot>, gen: nat, ip: Ip)
    requires LogNumbered(log, gen) && log != [] && ip != 0
    ensures LogNumbered(log[1..] + [Slot(ip, gen + 1)], gen + 1)
  {}

  /** An orphan comes into being only when the map is below capacity, so there are always fewer than capacity. */
  lemma OrphansStayFew(entries: map<Ip, Entry>, gen: nat, capacity: nat, ip: Ip, now: real)
    requires |Orphans(entries, gen, capacity)| < capacity && ip !in entries
    requires |entries| < capacity || forall a :: a in entries ==> entries[a].generation + capacity != gen + 1
    ensures |Orphans(entries[ip := Entry(now, 1, gen + 1)], gen + 1, capacity)| < capacity
  {
    var after := Orphans(entries[ip := Entry(now, 1, gen + 1)], gen + 1, capacity);
    if |entries| < capacity {
      assert after <= entries.Keys;
      SubsetSize(after, entries.Keys);
    } else {
      assert after <= Orphans(entries, gen, capacity);
      SubsetSize(after, Orphans(entries, gen, capacity));
    }
  }

  lemma InvFollows(l: Limiter)
    requires Shaped(l) && LogNumbered(Log(l), l.gen) && EntriesLogged(l.entries, Log(l), l.gen)
    requires |Orphans(l.entries, l.gen, |l.ring|)| < |l.ring|
    ensures Inv(l)
  {}

  lemma InvMeans(l: Limiter)
    requires Inv(l)
    ensures Shaped(l) && LogNumbered(Log(l), l.gen) && EntriesLogged(l.entries, Log(l), l.gen) && l.ring != []
  {}

  lemma InsertKeepsInv(l: Limiter, ip: Ip, now: real)
    requires Inv(l) && ip !in l.entries && ip != 0
    ensures Inv(Insert(l, ip, now))
  {
    hide *;
    InvMeans(l);
    InsertShiftsLog(l, ip, now);
    KeptKeeps(l, ip);
    InsertIs(l, ip, now);
    ShiftNumbers(Log(l), l.gen, ip);
    InsertLogs(Kept(l), Log(l), l.gen, ip, now);
    OrphansStayFew(Kept(l), l.gen, |l.ring|, ip, now);
    InvFollows(Insert(l, ip, now));
  }

  lemma KeptKeeps(l: Limiter, ip: Ip)
    requires Inv(l) && ip !in l.entries
    ensures var n := |l.ring|;
            && EntriesLogged(Kept(l), Log(l), l.gen) && |Orphans(Kept(l), l.gen, n)| < n && ip !in Kept(l)
            && (|Kept(l)| < n || forall a :: a in Kept(l) ==> Kept(l)[a].generation + n != l.gen + 1)
  {
    EvictedKeeps(l);
    assert Log(l.(entries := Evicted(l))) == Log(l);
    hide LogNumbered, EntriesLogged, Orphans;
  }

  lemma InsertLogs(entries: map<Ip, Entry>, log: seq<Slot>, gen: nat, ip: Ip, now: real)
    requires EntriesLogged(entries, log, gen) && log != []
    ensures EntriesLogged(entries[ip := Entry(now, 1, gen + 1)], log[1..] + [Slot(ip, gen + 1)], gen + 1)
  {}

  // ---------------------------------------------------------------------------------------------
  // Whole runs
  // ---------------------------------------------------------------------------------------------

  datatype Event = Checked(ip: Ip, now: real, max: int) | Purged(now: real, maxAge: real)

  function Step(l: Limiter, e: Event): (r: Limiter)
    requires Shaped(l)
    ensures Shaped(r)
  {
    match e
    case Checked(ip, now, max) => Check(l, ip, now, max).0
    case Purged(now, maxAge) => Purge(l, now, maxAge)
  }

  function Run(l: Limiter, es: seq<Event>): (r: Limiter)
    requires Shaped(l)
    ensures Shaped(r)
    decreases |es|
  {
    if es == [] then l else Run(Step(l, es[0]), es[1..])
  }

  predicate NonZero(es: seq<Event>) {
    forall i :: 0 <= i < |es| && es[i].Checked? ==> es[i].ip != 0
  }

  lemma StepKeepsInv(l: Limiter, e: Event)
    requires Inv(l) && (e.Checked? ==> e.ip != 0)
    ensures Inv(Step(l, e)) && |Step(l, e).ring| == |l.ring|
  {
    match e {
      case Checked(ip, now, max) =>
        if ip in l.entries { FewerEntries(l, Check(l, ip, now, max).0.entries); } else { InsertKeepsInv(l, ip, now); }
      case Purged(now, maxAge) => FewerEntries(l, Purge(l, now, maxAge).entries);
    }
  }

  lemma {:induction false} RunKeepsInv(l: Limiter, es: seq<Event>)
    requires Inv(l) && NonZero(es)
    ensures Inv(Run(l, es)) && |Run(l, es).ring| == |l.ring|
    decreases |es|
  {
    if es != [] {
      StepKeepsInv(l, es[0]);
      hide Inv, Step;
      RunKeepsInv(Step(l, es[0]), es[1..]);
    }
  }

  lemma EmptyInv(capacity: nat)
    requires capacity > 0
    ensures Inv(Empty(capacity))
  {
    assert Orphans(map[], 0, capacity) == {};
  }

  /** Under any interleaving of checks and purges the limiter tracks at most 2 * capacity - 1 addresses. */
  lemma BoundedUnderPurges(capacity: nat, es: seq<Event>)
    requires capacity > 0 && NonZero(es)
    ensures |Run(Empty(capacity), es).entries| <= 2 * capacity - 1
  {
    EmptyInv(capacity);
    RunKeepsInv(Empty(capacity), es);
    InvBounds(Run(Empty(capacity), es));
  }

  // ---------------------------------------------------------------------------------------------
  // How much is granted
  // ---------------------------------------------------------------------------------------------

  /** The checks of one address. */
  predicate Asks(e: Event, ip: Ip) {
    e.Checked? && e.ip == ip
  }

  function AskCount(es: seq<Event>, ip: Ip): nat {
    if es == [] then 0 else (if Asks(es[0], ip) then 1 else 0) + AskCount(es[1..], ip)
  }

  /** How many of them a run answers with true. */
  function Grants(l: Limiter, es: seq<Event>, ip: Ip): nat
    requires Shaped(l)
    decreases |es|
  {
    if es == [] then 0
    else (if Asks(es[0], ip) && Check(l, ip, es[0].now, es[0].max).1 then 1 else 0)
         + Grants(Step(l, es[0]), es[1..], ip)
  }

  /** The limiter knows the address all along: it is neither evicted nor purged. */
  predicate Tracked(l: Limiter, es: seq<Event>, ip: Ip)
    requires Shaped(l)
    decreases |es|
  {
    ip in l.entries && (es == [] || Tracked(Step(l, es[0]), es[1..], ip))
  }

  /** Every check of the address is within a second of `t` and has the same limit. */
  predicate InWindow(es: seq<Event>, ip: Ip, t: real, max: int) {
    forall i :: 0 <= i < |es| && Asks(es[i], ip) ==> es[i].now - t < 1.0 && es[i].max == max
  }

  /** The first check of an unknown address, or of one whose window is over, is granted and starts a window. */
  lemma FirstIsGranted(l: Limiter, ip: Ip, now: real, max: int)
    requires Shaped(l) && (ip in l.entries ==> now - l.entries[ip].windowStart >= 1.0)
    ensures var (r, ok) := Check(l, ip, now, max);
            ok && ip in r.entries && r.entries[ip].windowStart == now && r.entries[ip].count == 1
  {
    hide Evicted;
  }

  /** Within a window a check is granted exactly when it is not past the limit, and is counted either way. */
  lemma NextIsCounted(l: Limiter, ip: Ip, now: real, max: int)
    requires Shaped(l) && ip in l.entries && now - l.entries[ip].windowStart < 1.0
    ensures var (r, ok) := Check(l, ip, now, max);
            && (ok <==> l.entries[ip].count + 1 <= max)
            && r.entries == l.entries[ip := l.entries[ip].(count := l.entries[ip].count + 1)]
  {}

  /** Other addresses and purges leave a surviving entry alone. */
  lemma OthersLeaveEntry(l: Limiter, e: Event, ip: Ip)
    requires Shaped(l) && ip in l.entries && !Asks(e, ip) && ip in Step(l, e).entries
    ensures Step(l, e).entries[ip] == l.entries[ip]
  {}

  /** In a window already `count` checks old the rest of the limit is granted, and nothing beyond. */
  lemma {:induction false} WindowGrants(l: Limiter, es: seq<Event>, ip: Ip, max: int)
    requires Shaped(l) && Tracked(l, es, ip) && InWindow(es, ip, l.entries[ip].windowStart, max)
    ensures var left := if max <= l.entries[ip].count then 0 else max - l.entries[ip].count;
            Grants(l, es, ip) == if AskCount(es, ip) < left then AskCount(es, ip) else left
    decreases |es|
  {
    if es != [] {
      var e, l' := es[0], Step(l, es[0]);
      if Asks(e, ip) {
        NextIsCounted(l, ip, e.now, max);
        assert l' == Check(l, ip, e.now, max).0;
      } else {
        OthersLeaveEntry(l, e, ip);
      }
      assert InWindow(es[1..], ip, l.entries[ip].windowStart, max) by { hide Step, Check; }
      hide Step, Check, InWindow;
      WindowGrants(l', es[1..], ip, max);
    }
  }

  /**
   The second that begins with a granted first check: of the checks that follow in it exactly max - 1 are
   granted, or all if they are fewer, whatever other addresses do, as long as the address stays known.
   */
  lemma SecondGrantsMax(l: Limiter, ip: Ip, now: real, max: int, es: seq<Event>)
    requires Shaped(l) && (ip in l.entries ==> now - l.entries[ip].windowStart >= 1.0)
    requires Tracked(Check(l, ip, now, max).0, es, ip) && InWindow(es, ip, now, max)
    ensures Check(l, ip, now, max).1
    ensures var left := if max <= 1 then 0 else max - 1;
            Grants(Check(l, ip, now, max).0, es, ip) == if AskCount(es, ip) < left then AskCount(es, ip) else left
  {
    FirstIsGranted(l, ip, now, max);
    hide Check, Step;
    WindowGrants(Check(l, ip, now, max).0, es, ip, max);
  }

  /** A purge forgets exactly the addresses whose window began more than the given age ago. */
  lemma PurgeExactly(l: Limiter, now: real, maxAge: real, ip: Ip)
    ensures var r := Purge(l, now, maxAge);
            && (ip in r.entries <==> ip in l.entries && now <= l.entries[ip].windowStart + maxAge)
            && (ip in r.entries ==> r.entries[ip] == l.entries[ip])
  {}

  // ---------------------------------------------------------------------------------------------
  // The bound is reached at every capacity
  // ---------------------------------------------------------------------------------------------

  /** Checks of the n consecutive addresses from `from` on, all at one time. */
  function Visits(from: nat, n: nat, t: real): (es: seq<Event>)
    ensures |es| == n && forall i :: 0 <= i < n ==> es[i] == Checked(from + i, t, 9)
  {
    seq(n, (i: nat) => Checked(from + i, t, 9))
  }

  /** The time of round k: purges are at least 30 s apart. */
  function At(k: nat): real {
    40.0 * (k as real)
  }

  /** Addresses 1..capacity-1 stay active, the newest one expires and is purged, and a fresh one arrives. */
  function Round(capacity: nat, k: nat): seq<Event>
    requires capacity > 0
  {
    Visits(1, capacity - 1, At(k)) + [Purged(At(k), 10.0), Checked(capacity + k, At(k), 9)]
  }

  function Rounds(capacity: nat, k: nat): seq<Event>
    requires capacity > 0
  {
    if k == 0 then [] else Rounds(capacity, k - 1) + Round(capacity, k)
  }

  /** Fill the limiter, make every ring slot but the newest forget its entry or die, then let new addresses in. */
  function Crowding(capacity: nat): seq<Event>
    requires capacity > 0
  {
    Visits(1, capacity, 0.0) + Rounds(capacity, capacity - 1) + Visits(2 * capacity, capacity - 1, At(capacity - 1))
  }

  lemma {:induction false} RunAppend(l: Limiter, es: seq<Event>, fs: seq<Event>)
    requires Shaped(l)
    ensures Run(l, es + fs) == Run(Run(l, es), fs)
    decreases |es|
  {
    if es == [] {
      assert es + fs == fs;
    } else {
      assert (es + fs)[1..] == es[1..] + fs;
      RunAppend(Step(l, es[0]), es[1..], fs);
    }
  }

  lemma RunOne(l: Limiter, e: Event)
    requires Shaped(l)
    ensures Run(l, [e]) == Step(l, e)
  {
    assert [e][1..] == [];
    assert Run(Step(l, e), []) == Step(l, e);
  }

  function SlotNamed(g: int): Slot {
    if g > 0 then Slot(g, g) else Slot(0, 0)
  }

  /** Every insertion so far was of the address that is its own number. */
  predicate SelfNamed(l: Limiter) {
    && Shaped(l)
    && (forall j :: 0 <= j < |l.ring| ==> Log(l)[j] == SlotNamed(l.gen + 1 + j - |l.ring|))
    && (forall ip :: ip in l.entries ==> l.entries[ip].generation == ip <= l.gen)
  }

  lemma NothingEvicted(l: Limiter)
    requires SelfNamed(l) && (|l.entries| < |l.ring| || l.gen + 1 < |l.ring| || l.gen + 1 - |l.ring| !in l.entries)
    ensures Kept(l) == l.entries && l.gen + 1 !in l.entries
  {
    assert Log(l)[0] == SlotNamed(l.gen + 1 - |l.ring|);
    hide Log;
  }

  lemma NamesShift(l: Limiter, log: seq<Slot>)
    requires SelfNamed(l) && log == Log(l)[1..] + [Slot(l.gen + 1, l.gen + 1)]
    ensures forall j :: 0 <= j < |l.ring| ==> log[j] == SlotNamed(l.gen + 2 + j - |l.ring|)
  {
    hide Log;
    forall j | 0 <= j < |l.ring| ensures log[j] == SlotNamed(l.gen + 2 + j - |l.ring|) {
      if j < |l.ring| - 1 { assert log[j] == Log(l)[j + 1]; }
    }
  }

  /** The next number is inserted without any eviction, below capacity or when the oldest slot is dead. */
  lemma InsertNext(l: Limiter, t: real)
    requires SelfNamed(l) && (|l.entries| < |l.ring| || l.gen + 1 < |l.ring| || l.gen + 1 - |l.ring| !in l.entries)
    ensures var r := Step(l, Checked(l.gen + 1, t, 9));
            && SelfNamed(r) && |r.ring| == |l.ring| && r.gen == l.gen + 1
            && r.entries == l.entries[l.gen + 1 := Entry(t, 1, l.gen + 1)]
  {
    NothingEvicted(l);
    var r := Insert(l, l.gen + 1, t);
    assert Step(l, Checked(l.gen + 1, t, 9)) == r;
    hide Insert, Kept, Log, SlotNamed, Step;
    InsertIs(l, l.gen + 1, t);
    InsertShiftsLog(l, l.gen + 1, t);
    NamesShift(l, Log(r));
  }

  /** Addresses 1..n, each with its own number, last checked at `t`. */
  function Group(n: nat, t: real): map<Ip, Entry> {
    map a: nat | 1 <= a <= n :: Entry(t, 1, a)
  }

  lemma {:induction false} GroupSize(n: nat, t: real)
    ensures |Group(n, t)| == n
  {
    if n == 0 {
      assert Group(n, t) == map[];
    } else {
      GroupSize(n - 1, t);
      GroupGrows(n, t);
      MapWith(Group(n - 1, t), n, Entry(t, 1, n));
    }
  }

  lemma GroupGrows(n: nat, t: real)
    requires n > 0
    ensures Group(n, t) == Group(n - 1, t)[n := Entry(t, 1, n)] && n !in Group(n - 1, t)
  {}

  lemma VisitsGrow(from: nat, n: nat, t: real)
    requires n > 0
    ensures Visits(from, n, t) == Visits(from, n - 1, t) + [Checked(from + n - 1, t, 9)]
  {}

  predicate IsState(l: Limiter, capacity: nat, gen: nat, entries: map<Ip, Entry>) {
    SelfNamed(l) && |l.ring| == capacity && l.gen == gen && l.entries == entries
  }

  lemma {:induction false} Filled(capacity: nat, n: nat)
    requires 0 < capacity && n <= capacity
    ensures IsState(Run(Empty(capacity), Visits(1, n, 0.0)), capacity, n, Group(n, 0.0))
  {
    if n == 0 {
      assert Group(0, 0.0) == map[];
    } else {
      Filled(capacity, n - 1);
      var l := Run(Empty(capacity), Visits(1, n - 1, 0.0));
      VisitsGrow(1, n, 0.0);
      RunAppend(Empty(capacity), Visits(1, n - 1, 0.0), [Checked(n, 0.0, 9)]);
      GroupSize(n - 1, 0.0);
      GroupGrows(n, 0.0);
      hide Run, Visits, Group, SelfNamed, Step;
      InsertNext(l, 0.0);
      RunOne(l, Checked(n, 0.0, 9));
    }
  }

  /** After visits of 1..n at `t` the window of exactly those addresses starts at `t`. */
  function Renewed(entries: map<Ip, Entry>, n: nat, t: real): map<Ip, Entry> {
    map a | a in entries :: if 1 <= a <= n then entries[a].(windowStart := t, count := 1) else entries[a]
  }

  lemma {:induction false} RunVisits(l: Limiter, n: nat, t: real)
    requires Shaped(l)
    requires forall a :: 1 <= a <= n ==> a in l.entries && t - l.entries[a].windowStart >= 1.0
    ensures Run(l, Visits(1, n, t)) == l.(entries := Renewed(l.entries, n, t))
  {
    if n == 0 {
      assert Renewed(l.entries, 0, t) == l.entries;
    } else {
      RunVisits(l, n - 1, t);
      var m := Run(l, Visits(1, n - 1, t));
      VisitsGrow(1, n, t);
      RunAppend(l, Visits(1, n - 1, t), [Checked(n, t, 9)]);
      RunOne(m, Checked(n, t, 9));
      hide Run, Visits;
      assert m.entries[n] == l.entries[n];
      assert Step(m, Checked(n, t, 9)).entries == Renewed(l.entries, n, t);
    }
  }

  function RoundEntries(capacity: nat, k: nat): map<Ip, Entry>
    requires capacity > 0
  {
    Group(capacity - 1, At(k))[capacity + k := Entry(At(k), 1, capacity + k)]
  }

  lemma RoundPurges(capacity: nat, k: nat)
    requires capacity > 0
    ensures var e := Renewed(RoundEntries(capacity, k), capacity - 1, At(k + 1));
            (map ip | ip in e && At(k + 1) - e[ip].windowStart <= 10.0 :: e[ip]) == Group(capacity - 1, At(k + 1))
  {
    assert At(k + 1) - At(k) == 40.0;
  }

  /** The first part of a round: everything but the group is gone. */
  lemma RunRenewal(l: Limiter, capacity: nat, k: nat)
    requires capacity > 0 && k + 1 < capacity
    requires IsState(l, capacity, capacity + k, RoundEntries(capacity, k))
    ensures var t, n := At(k + 1), capacity - 1;
            && Run(l, Visits(1, n, t) + [Purged(t, 10.0)]) == l.(entries := Group(n, t))
            && IsState(l.(entries := Group(n, t)), capacity, capacity + k, Group(n, t))
  {
    hide *;
    var t, n := At(k + 1), capacity - 1;
    StateMeans(l, capacity, capacity + k, RoundEntries(capacity, k));
    GroupIsNamed(l, n, t);
    GroupState(l, capacity, capacity + k, n, t);
    RoundIsOld(capacity, k);
    RunVisits(l, n, t);
    RunAppend(l, Visits(1, n, t), [Purged(t, 10.0)]);
    var a := l.(entries := Renewed(l.entries, n, t));
    RunOne(a, Purged(t, 10.0));
    PurgedIs(a, t);
    RoundPurges(capacity, k);
  }

  lemma StateMeans(l: Limiter, capacity: nat, gen: nat, entries: map<Ip, Entry>)
    requires IsState(l, capacity, gen, entries)
    ensures SelfNamed(l) && |l.ring| == capacity && l.gen == gen && l.entries == entries && Shaped(l)
  {}

  lemma GroupState(l: Limiter, capacity: nat, gen: nat, n: nat, t: real)
    requires SelfNamed(l.(entries := Group(n, t))) && |l.ring| == capacity && l.gen == gen
    ensures IsState(l.(entries := Group(n, t)), capacity, gen, Group(n, t))
  {}

  lemma RoundIsOld(capacity: nat, k: nat)
    requires capacity > 0
    ensures var e := RoundEntries(capacity, k);
            forall a :: 1 <= a <= capacity - 1 ==> a in e && At(k + 1) - e[a].windowStart >= 1.0
  {
    assert At(k + 1) - At(k) == 40.0;
  }

  lemma PurgedIs(l: Limiter, t: real)
    requires Shaped(l)
    ensures Step(l, Purged(t, 10.0)) ==
            l.(entries := map ip | ip in l.entries && t - l.entries[ip].windowStart <= 10.0 :: l.entries[ip])
  {}

  lemma GroupIsNamed(l: Limiter, n: nat, t: real)
    requires SelfNamed(l) && n <= l.gen
    ensures SelfNamed(l.(entries := Group(n, t)))
  {
    assert Log(l.(entries := Group(n, t))) == Log(l);
    hide Log;
  }

  /** One round: the limiter looks as before, one address and one ring slot further on. */
  lemma RunRound(l: Limiter, capacity: nat, k: nat)
    requires capacity > 0 && k + 1 < capacity
    requires IsState(l, capacity, capacity + k, RoundEntries(capacity, k))
    ensures IsState(Run(l, Round(capacity, k + 1)), capacity, capacity + k + 1, RoundEntries(capacity, k + 1))
  {
    hide SelfNamed, Step, Group, RoundEntries, Visits, Run, At;
    var t, n := At(k + 1), capacity - 1;
    var b, last := l.(entries := Group(n, t)), Checked(capacity + k + 1, t, 9);
    RoundEntriesAre(capacity, k + 1);
    GroupSize(n, t);
    RunRenewal(l, capacity, k);
    assert Round(capacity, k + 1) == (Visits(1, n, t) + [Purged(t, 10.0)]) + [last];
    hide Round;
    InsertNext(b, t);
    RunOne(b, last);
    RunAppend(l, Visits(1, n, t) + [Purged(t, 10.0)], [last]);
  }

  lemma RoundEntriesAre(capacity: nat, k: nat)
    requires capacity > 0
    ensures RoundEntries(capacity, k) == Group(capacity - 1, At(k))[capacity + k := Entry(At(k), 1, capacity + k)]
  {}

  lemma {:induction false} RunRounds(l: Limiter, capacity: nat, k: nat)
    requires 0 < capacity && k < capacity && IsState(l, capacity, capacity, RoundEntries(capacity, 0))
    ensures IsState(Run(l, Rounds(capacity, k)), capacity, capacity + k, RoundEntries(capacity, k))
  {
    hide IsState, RoundEntries, Round, At, SelfNamed, Step, Log;
    StateMeans(l, capacity, capacity, RoundEntries(capacity, 0));
    if k > 0 {
      assert Rounds(capacity, k) == Rounds(capacity, k - 1) + Round(capacity, k);
      hide *;
      RunRounds(l, capacity, k - 1);
      RunAppend(l, Rounds(capacity, k - 1), Round(capacity, k));
      RunRound(Run(l, Rounds(capacity, k - 1)), capacity, k - 1);
    }
  }

  /** Numbers up to `last`, and those from `first` on. */
  predicate Gap(l: Limiter, last: nat, first: nat) {
    forall ip :: ip in l.entries ==> ip <= last || first <= ip
  }

  predicate TailState(l: Limiter, capacity: nat, j: nat) {
    && SelfNamed(l) && |l.ring| == capacity && l.gen == 2 * capacity - 1 + j
    && Gap(l, capacity - 1, 2 * capacity - 1) && |l.entries| == capacity + j
  }

  lemma TailStep(l: Limiter, capacity: nat, j: nat, t: real)
    requires capacity > 0 && j + 1 < capacity && TailState(l, capacity, j)
    ensures TailState(Step(l, Checked(2 * capacity + j, t, 9)), capacity, j + 1)
  {
    assert l.gen + 1 !in l.entries && l.gen + 1 - capacity !in l.entries;
    hide SelfNamed, Step;
    InsertNext(l, t);
    MapWith(l.entries, l.gen + 1, Entry(t, 1, l.gen + 1));
  }

  /** With nothing in the ring slots ahead, each new address only adds to the map. */
  lemma {:induction false} RunTail(l: Limiter, capacity: nat, j: nat)
    requires capacity > 0 && j < capacity && Shaped(l) && TailState(l, capacity, 0)
    ensures TailState(Run(l, Visits(2 * capacity, j, At(capacity - 1))), capacity, j)
  {
    hide TailState, Shaped, Step, At;
    if j > 0 {
      var t := At(capacity - 1);
      VisitsGrow(2 * capacity, j, t);
      hide *;
      RunTail(l, capacity, j - 1);
      var m, last := Run(l, Visits(2 * capacity, j - 1, t)), Checked(2 * capacity + j - 1, t, 9);
      RunAppend(l, Visits(2 * capacity, j - 1, t), [last]);
      RunOne(m, last);
      TailStep(m, capacity, j - 1, t);
    }
  }

  lemma RoundGap(l: Limiter, capacity: nat)
    requires capacity > 0 && l.entries == RoundEntries(capacity, capacity - 1)
    ensures Gap(l, capacity - 1, 2 * capacity - 1) && |l.entries| == capacity
  {
    var k := capacity - 1;
    GroupSize(k, At(k));
    MapWith(Group(k, At(k)), capacity + k, Entry(At(k), 1, capacity + k));
  }

  /** At every capacity a run reaches 2 * capacity - 1 entries: BoundedUnderPurges cannot be improved. */
  lemma BoundIsReached(capacity: nat)
    requires capacity > 0
    ensures NonZero(Crowding(capacity)) && |Run(Empty(capacity), Crowding(capacity)).entries| == 2 * capacity - 1
  {
    var n := capacity;
    var fill, tail := Visits(1, n, 0.0), Visits(2 * n, n - 1, At(n - 1));
    Filled(n, n);
    GroupGrows(n, 0.0);
    var l0 := Run(Empty(n), fill);
    assert l0.entries == RoundEntries(n, 0);
    RoundsNonZero(n, n - 1);
    assert Crowding(n) == fill + Rounds(n, n - 1) + tail;
    assert NonZero(Crowding(n)) by { hide Rounds, Run; }
    hide Rounds, Visits, Run, RoundEntries, SelfNamed, Gap, Crowding, At, NonZero, Group;
    RunRounds(l0, n, n - 1);
    var l1 := Run(l0, Rounds(n, n - 1));
    RoundGap(l1, n);
    assert TailState(l1, n, 0);
    RunTail(l1, n, n - 1);
    RunAppend(Empty(n), fill, Rounds(n, n - 1));
    RunAppend(Empty(n), fill + Rounds(n, n - 1), tail);
  }

  lemma {:induction false} RoundsNonZero(capacity: nat, k: nat)
    requires capacity > 0
    ensures NonZero(Rounds(capacity, k))
  {
    if k > 0 { RoundsNonZero(capacity, k - 1); }
  }

  /** No event of the run is earlier than the one before it, and all lie between `lo` and `hi`. */
  predicate Clocked(es: seq<Event>, lo: real, hi: real) {
    && (forall i :: 0 <= i < |es| ==> lo <= es[i].now <= hi)
    && (forall i, j :: 0 <= i < j < |es| ==> es[i].now <= es[j].now)
  }

  lemma ClockedAppend(es: seq<Event>, fs: seq<Event>, lo: real, mid: real, hi: real)
    requires Clocked(es, lo, mid) && Clocked(fs, mid, hi) && lo <= mid <= hi
    ensures Clocked(es + fs, lo, hi)
  {}

  const CLEANUP_INTERVAL: real := 30.0

  /** Purges between `lo` and `hi` only, and one interval of the caller apart. */
  predicate PurgesApart(es: seq<Event>, lo: real, hi: real) {
    && (forall i :: 0 <= i < |es| && es[i].Purged? ==> lo <= es[i].now <= hi)
    && (forall i, j :: 0 <= i < j < |es| && es[i].Purged? && es[j].Purged? ==>
          es[i].now + CLEANUP_INTERVAL <= es[j].now)
  }

  lemma PurgesApartAppend(es: seq<Event>, fs: seq<Event>, lo: real, mid: real, hi: real)
    requires PurgesApart(es, lo, mid) && PurgesApart(fs, mid + CLEANUP_INTERVAL, hi) && lo <= mid <= hi
    ensures PurgesApart(es + fs, lo, hi)
  {}

  lemma {:induction false} RoundsClocked(capacity: nat, k: nat)
    requires capacity > 0
    ensures Clocked(Rounds(capacity, k), 0.0, At(k)) && 0.0 <= At(k)
    ensures PurgesApart(Rounds(capacity, k), 0.0, At(k))
  {
    if k > 0 {
      RoundsClocked(capacity, k - 1);
      assert At(k - 1) + CLEANUP_INTERVAL <= At(k);
      hide At;
      ClockedAppend(Rounds(capacity, k - 1), Round(capacity, k), 0.0, At(k - 1), At(k));
      PurgesApartAppend(Rounds(capacity, k - 1), Round(capacity, k), 0.0, At(k - 1), At(k));
    }
  }

  lemma VisitsPurgeNothing(from: nat, n: nat, t: real, lo: real, hi: real)
    ensures PurgesApart(Visits(from, n, t), lo, hi)
  {}

  /** And its clock never runs back, and its purges are as far apart as the server's. */
  lemma CrowdingIsClocked(capacity: nat)
    requires capacity > 0
    ensures Clocked(Crowding(capacity), 0.0, At(capacity - 1))
    ensures PurgesApart(Crowding(capacity), -CLEANUP_INTERVAL, At(capacity - 1))
  {
    var n, end := capacity, At(capacity - 1);
    var fill, tail := Visits(1, n, 0.0), Visits(2 * n, n - 1, end);
    RoundsClocked(n, n - 1);
    VisitsPurgeNothing(1, n, 0.0, -CLEANUP_INTERVAL, -CLEANUP_INTERVAL);
    VisitsPurgeNothing(2 * n, n - 1, end, end + CLEANUP_INTERVAL, end);
    hide At, Rounds, PurgesApart;
    ClockedAppend(fill, Rounds(n, n - 1), 0.0, 0.0, end);
    ClockedAppend(fill + Rounds(n, n - 1), tail, 0.0, end, end);
    PurgesApartAppend(fill, Rounds(n, n - 1), -CLEANUP_INTERVAL, -CLEANUP_INTERVAL, end);
    PurgesApartAppend(fill + Rounds(n, n - 1), tail, -CLEANUP_INTERVAL, end, end);
  }

  // ---------------------------------------------------------------------------------------------
  // Without purges
  // ---------------------------------------------------------------------------------------------

  predicate AllPresent(entries: map<Ip, Entry>, log: seq<Slot>) {
    forall j :: 0 <= j < |log| && log[j].generation > 0 ==>
      log[j].ip in entries && entries[log[j].ip].generation == log[j].generation
  }

  predicate NoOrphans(entries: map<Ip, Entry>, gen: nat, capacity: nat) {
    forall ip :: ip in entries ==> InLog(entries[ip], gen, capacity)
  }

  /** The map holds exactly the insertions the ring remembers. */
  predicate Exact(l: Limiter) {
    && Shaped(l) && Inv(l) && NoOrphans(l.entries, l.gen, |l.ring|) && AllPresent(l.entries, Log(l))
    && |l.entries| == if l.gen < |l.ring| then l.gen else |l.ring|
  }

  /** The head of a log that remembers every entry: its entry is there, and every other one is younger. */
  lemma HeadIsOldest(entries: map<Ip, Entry>, log: seq<Slot>, gen: nat)
    requires log != [] && gen >= |log| && log[0].generation == gen + 1 - |log|
    requires log[0].ip in entries && entries[log[0].ip].generation == log[0].generation
    requires EntriesLogged(entries, log, gen) && NoOrphans(entries, gen, |log|)
    ensures forall a :: a in entries && a != log[0].ip ==> log[0].generation < entries[a].generation
  {
    forall a | a in entries && a != log[0].ip ensures log[0].generation < entries[a].generation {
      assert InLog(entries[a], gen, |log|);
      assert log[entries[a].generation + |log| - gen - 1] == Slot(a, entries[a].generation);
    }
  }

  lemma HeadNumbered(log: seq<Slot>, gen: nat)
    requires LogNumbered(log, gen) && log != [] && gen >= |log|
    ensures log[0].generation == gen + 1 - |log| && log[0].ip != 0
  {}

  lemma HeadPresent(entries: map<Ip, Entry>, log: seq<Slot>)
    requires AllPresent(entries, log) && log != [] && log[0].generation > 0
    ensures log[0].ip in entries && entries[log[0].ip].generation == log[0].generation
  {}

  /** In a full limiter that was never purged the oldest slot names the oldest entry. */
  lemma OldestNamed(l: Limiter)
    requires Exact(l) && |l.entries| == |l.ring|
    ensures var oldest := Log(l)[0].ip;
            && oldest in l.entries && l.entries[oldest].generation == Log(l)[0].generation == l.gen + 1 - |l.ring|
            && oldest != 0
            && forall a :: a in l.entries && a != oldest ==> l.entries[oldest].generation < l.entries[a].generation
  {
    hide Inv, NoOrphans, AllPresent, LogNumbered, EntriesLogged, Log, Orphans;
    InvMeans(l);
    HeadNumbered(Log(l), l.gen);
    HeadPresent(l.entries, Log(l));
    HeadIsOldest(l.entries, Log(l), l.gen);
  }

  /** A full limiter that was never purged makes room by dropping the entry inserted longest ago, and only that. */
  lemma EvictsExactlyOldest(l: Limiter, ip: Ip, now: real)
    requires Exact(l) && |l.entries| == |l.ring| && ip !in l.entries
    ensures var oldest := Log(l)[0].ip;
            && oldest in l.entries && l.entries[oldest].generation + |l.ring| == l.gen + 1
            && (forall a :: a in l.entries && a != oldest ==> l.entries[oldest].generation < l.entries[a].generation)
            && Evicted(l) == l.entries - {oldest}
            && Insert(l, ip, now).entries == (l.entries - {oldest})[ip := Entry(now, 1, l.gen + 1)]
  {
    hide *;
    OldestNamed(l);
    ExactMeans(l);
    HeadEvicted(l, ip, now);
  }

  /** The slot about to be overwritten takes its entry with it when it names that very insertion. */
  lemma HeadEvicted(l: Limiter, ip: Ip, now: real)
    requires Shaped(l) && |l.entries| == |l.ring| && Log(l)[0].ip != 0
    requires Log(l)[0].ip in l.entries && l.entries[Log(l)[0].ip].generation == Log(l)[0].generation
    ensures Evicted(l) == l.entries - {Log(l)[0].ip}
    ensures Insert(l, ip, now).entries == (l.entries - {Log(l)[0].ip})[ip := Entry(now, 1, l.gen + 1)]
  {
    hide Log;
  }

  lemma AddKeepsExact(entries: map<Ip, Entry>, log: seq<Slot>, gen: nat, ip: Ip, now: real)
    requires log != [] && ip !in entries
    requires forall a :: a in entries ==> entries[a].generation + |log| > gen + 1
    requires AllPresent(entries, log[1..])
    ensures var r := entries[ip := Entry(now, 1, gen + 1)];
            NoOrphans(r, gen + 1, |log|) && AllPresent(r, log[1..] + [Slot(ip, gen + 1)])
  {}

  function Kept(l: Limiter): map<Ip, Entry>
    requires Shaped(l)
  {
    if |l.entries| >= |l.ring| then Evicted(l) else l.entries
  }

  /** What an insertion finds after making room: all but the slot it overwrites, and one place free. */
  lemma RoomMade(l: Limiter, ip: Ip, now: real)
    requires Exact(l) && ip !in l.entries
    ensures var n := |l.ring|;
            && AllPresent(Kept(l), Log(l)[1..]) && ip !in Kept(l)
            && (forall a :: a in Kept(l) ==> Kept(l)[a].generation + n > l.gen + 1)
            && |Kept(l)| == if l.gen < n then l.gen else n - 1
  {
    if |l.entries| >= |l.ring| {
      EvictsExactlyOldest(l, ip, now);
      MapWithout(l.entries, Log(l)[0].ip);
      OldestGone(l);
    }
  }

  lemma InsertKeepsExact(l: Limiter, ip: Ip, now: real)
    requires Exact(l) && ip !in l.entries && ip != 0
    ensures Exact(Insert(l, ip, now))
  {
    hide *;
    ExactMeans(l);
    InsertIs(l, ip, now);
    var r := Insert(l, ip, now);
    InsertKeepsInv(l, ip, now);
    InsertShiftsLog(l, ip, now);
    RoomMade(l, ip, now);
    MapWith(Kept(l), ip, Entry(now, 1, l.gen + 1));
    AddKeepsExact(Kept(l), Log(l), l.gen, ip, now);
    ExactFollows(r);
  }

  lemma InsertIs(l: Limiter, ip: Ip, now: real)
    requires Shaped(l)
    ensures var r := Insert(l, ip, now);
            r.entries == Kept(l)[ip := Entry(now, 1, l.gen + 1)] && r.gen == l.gen + 1 && |r.ring| == |l.ring|
  {}

  lemma ExactMeans(l: Limiter)
    requires Exact(l)
    ensures Shaped(l) && Inv(l) && |l.ring| > 0
  {}

  lemma ExactFollows(l: Limiter)
    requires Shaped(l) && Inv(l) && NoOrphans(l.entries, l.gen, |l.ring|) && AllPresent(l.entries, Log(l))
    requires |l.entries| == if l.gen < |l.ring| then l.gen else |l.ring|
    ensures Exact(l)
  {}

  /** Without the entry of its first slot a full log still finds all its others, and they are younger. */
  lemma HeadDropped(entries: map<Ip, Entry>, log: seq<Slot>, gen: nat)
    requires log != [] && gen >= |log| && LogNumbered(log, gen) && AllPresent(entries, log)
    requires forall a :: a in entries && a != log[0].ip ==> gen + 1 - |log| < entries[a].generation
    requires log[0].ip in entries && entries[log[0].ip].generation == gen + 1 - |log|
    ensures var rest := entries - {log[0].ip};
            AllPresent(rest, log[1..]) && forall a :: a in rest ==> rest[a].generation + |log| > gen + 1
  {
    forall j | 0 < j < |log| ensures log[j].ip != log[0].ip {
      assert log[j].generation == gen + 1 + j - |log|;
    }
  }

  lemma OldestGone(l: Limiter)
    requires Exact(l) && |l.entries| == |l.ring|
    ensures var entries := l.entries - {Log(l)[0].ip};
            && AllPresent(entries, Log(l)[1..])
            && forall a :: a in entries ==> entries[a].generation + |l.ring| > l.gen + 1
  {
    hide *;
    OldestNamed(l);
    FullMeans(l);
    HeadDropped(l.entries, Log(l), l.gen);
  }

  lemma FullMeans(l: Limiter)
    requires Exact(l) && |l.entries| == |l.ring|
    ensures Shaped(l) && |l.ring| > 0 && l.gen >= |l.ring|
    ensures LogNumbered(Log(l), l.gen) && AllPresent(l.entries, Log(l))
  {
    hide LogNumbered, AllPresent, EntriesLogged, NoOrphans, Orphans, Log;
  }

  lemma CheckKeepsExact(l: Limiter, ip: Ip, now: real, max: int)
    requires Exact(l) && ip != 0
    ensures Exact(Check(l, ip, now, max).0) && |Check(l, ip, now, max).0.ring| == |l.ring|
  {
    hide Inv, LogNumbered, EntriesLogged, Orphans, Evicted;
    if ip !in l.entries {
      InsertKeepsExact(l, ip, now);
    } else {
      var r := Check(l, ip, now, max).0;
      FewerEntries(l, r.entries);
      assert Log(r) == Log(l);
      MapWith(l.entries, ip, r.entries[ip]);
    }
  }

  lemma StepKeepsExact(l: Limiter, e: Event)
    requires Exact(l) && e.Checked? && e.ip != 0
    ensures Exact(Step(l, e)) && |Step(l, e).ring| == |l.ring|
  {
    assert Shaped(l);
    assert Step(l, e) == Check(l, e.ip, e.now, e.max).0;
    hide Exact, Check, Step, Shaped;
    CheckKeepsExact(l, e.ip, e.now, e.max);
  }

  lemma {:induction false} RunKeepsExact(l: Limiter, es: seq<Event>)
    requires Exact(l) && ChecksOnly(es)
    ensures Exact(Run(l, es)) && |Run(l, es).ring| == |l.ring|
    decreases |es|
  {
    assert Shaped(l);
    hide Exact, Step, Shaped, ChecksOnly;
    if es != [] {
      ChecksHead(es);
      StepKeepsExact(l, es[0]);
      RunKeepsExact(Step(l, es[0]), es[1..]);
    }
  }

  /** Without purges the limiter tracks the last `capacity` addresses it inserted, and never more. */
  lemma BoundedWithoutPurges(capacity: nat, es: seq<Event>)
    requires capacity > 0 && NonZero(es) && forall i :: 0 <= i < |es| ==> es[i].Checked?
    ensures Exact(Run(Empty(capacity), es)) && |Run(Empty(capacity), es).entries| <= capacity
  {
    EmptyInv(capacity);
    assert Exact(Empty(capacity));
    RunKeepsExact(Empty(capacity), es);
  }

  // ---------------------------------------------------------------------------------------------
  // When the map stays within capacity
  // ---------------------------------------------------------------------------------------------

  /** The slot's entry is still there; otherwise the slot is dead. */
  predicate Alive(entries: map<Ip, Entry>, s: Slot) {
    s.ip in entries && entries[s.ip].generation == s.generation
  }

  /** An unknown address meets a map at capacity and a dead oldest slot: nothing is evicted for it. */
  predicate Overfills(l: Limiter, e: Event)
    requires Shaped(l)
  {
    e.Checked? && e.ip !in l.entries && |l.entries| >= |l.ring| && !Alive(l.entries, l.ring[l.head])
  }

  predicate NeverOverfills(l: Limiter, es: seq<Event>)
    requires Shaped(l)
    decreases |es|
  {
    es == [] || (!Overfills(l, es[0]) && NeverOverfills(Step(l, es[0]), es[1..]))
  }

  predicate StaysWithin(l: Limiter, es: seq<Event>)
    requires Shaped(l)
    decreases |es|
  {
    |l.entries| <= |l.ring| && (es == [] || StaysWithin(Step(l, es[0]), es[1..]))
  }

  lemma AliveIsNamed(l: Limiter, s: Slot)
    requires Inv(l) && s in Log(l) && Alive(l.entries, s)
    ensures s.ip != 0 && s.generation > 0
  {
    InvMeans(l);
    hide Log;
  }

  /** What one insertion does to the entries kept, and their number. */
  lemma KeptExactly(l: Limiter)
    requires Inv(l)
    ensures var s := Log(l)[0];
            && Kept(l) == (if |l.entries| >= |l.ring| && Alive(l.entries, s) then l.entries - {s.ip} else l.entries)
            && |Kept(l)| == |l.entries| - if |l.entries| >= |l.ring| && Alive(l.entries, s) then 1 else 0
  {
    var s := Log(l)[0];
    if Alive(l.entries, s) { AliveIsNamed(l, s); }
    hide Inv;
    MapWithout(l.entries, s.ip);
  }

  lemma InsertSize(l: Limiter, ip: Ip, now: real)
    requires Inv(l) && ip !in l.entries
    ensures |Insert(l, ip, now).entries| ==
            |l.entries| + if |l.entries| >= |l.ring| && Alive(l.entries, Log(l)[0]) then 0 else 1
  {
    KeptExactly(l);
    InsertIs(l, ip, now);
    hide Inv, Insert, Log;
    MapWith(Kept(l), ip, Entry(now, 1, l.gen + 1));
  }

  lemma StepSize(l: Limiter, e: Event)
    requires Inv(l) && |l.entries| <= |l.ring|
    ensures Overfills(l, e) ==> |Step(l, e).entries| > |l.ring|
    ensures !Overfills(l, e) ==> |Step(l, e).entries| <= |l.ring|
  {
    match e {
      case Checked(ip, now, max) =>
        if ip !in l.entries {
          InsertSize(l, ip, now);
        } else {
          MapWith(l.entries, ip, Step(l, e).entries[ip]);
        }
      case Purged(now, maxAge) =>
        SubsetSize(Step(l, e).entries.Keys, l.entries.Keys);
    }
    hide Inv, Log;
  }

  /**
   In any run of checks and purges the map stays within capacity if and only if no unknown address
   meets a full map whose oldest ring slot is dead.
   */
  lemma {:induction false} StaysWithinExactly(l: Limiter, es: seq<Event>)
    requires Inv(l) && NonZero(es) && |l.entries| <= |l.ring|
    ensures StaysWithin(l, es) <==> NeverOverfills(l, es)
    decreases |es|
  {
    if es != [] {
      InvMeans(l);
      StepKeepsInv(l, es[0]);
      StepSize(l, es[0]);
      hide Inv, Step, Overfills, Shaped;
      if |Step(l, es[0]).entries| <= |l.ring| { StaysWithinExactly(Step(l, es[0]), es[1..]); }
    }
  }

  /** Nothing is forgotten, and no living slot stands before a dead one. */
  predicate Settled(l: Limiter)
    requires Shaped(l)
  {
    && NoOrphans(l.entries, l.gen, |l.ring|)
    && forall i, j :: 0 <= i < j < |l.ring| && Alive(l.entries, Log(l)[i]) ==> Alive(l.entries, Log(l)[j])
  }

  predicate AllAlive(entries: map<Ip, Entry>, log: seq<Slot>) {
    forall j :: 0 <= j < |log| ==> Alive(entries, log[j])
  }

  predicate Distinct(log: seq<Slot>) {
    forall i, j :: 0 <= i < j < |log| ==> log[i].ip != log[j].ip
  }

  lemma {:induction false} DistinctCount(log: seq<Slot>)
    requires Distinct(log)
    ensures |set j | 0 <= j < |log| :: log[j].ip| == |log|
  {
    if log != [] {
      var front, last := log[..|log| - 1], log[|log| - 1];
      DistinctCount(front);
      assert log == front + [last];
      AddressesStep(front, last);
      var few := set j | 0 <= j < |front| :: front[j].ip;
      assert last.ip !in few;
      assert |few + {last.ip}| == |few| + 1;
    }
  }

  lemma AliveAreDistinct(entries: map<Ip, Entry>, log: seq<Slot>, gen: nat)
    requires LogNumbered(log, gen) && AllAlive(entries, log) && EntriesLogged(entries, log, gen)
    ensures Distinct(log)
  {
    forall i, j | 0 <= i < j < |log| ensures log[i].ip != log[j].ip {
      assert Alive(entries, log[i]) && Alive(entries, log[j]);
      assert 1 <= entries[log[i].ip].generation;
    }
  }

  /** If every slot is alive, the map holds capacity entries and the forgotten ones besides. */
  lemma AllAliveFills(l: Limiter)
    requires Inv(l) && AllAlive(l.entries, Log(l))
    ensures |l.entries| >= |l.ring| + |Orphans(l.entries, l.gen, |l.ring|)|
  {
    var log, n := Log(l), |l.ring|;
    var named := set j | 0 <= j < n :: log[j].ip;
    var orphans := Orphans(l.entries, l.gen, n);
    InvMeans(l);
    AliveAreDistinct(l.entries, log, l.gen);
    DistinctCount(log);
    forall ip | ip in named ensures ip in l.entries && ip !in orphans {
      var j :| 0 <= j < n && log[j].ip == ip;
      assert Alive(l.entries, log[j]);
    }
    hide Inv, LogNumbered, EntriesLogged, Log, AllAlive, Orphans;
    assert named + orphans <= l.entries.Keys by { OrphansAreEntries(l); }
    SubsetSize(named + orphans, l.entries.Keys);
    assert named !! orphans;
    assert |named + orphans| == |named| + |orphans|;
  }

  lemma OrphansAreEntries(l: Limiter)
    ensures Orphans(l.entries, l.gen, |l.ring|) <= l.entries.Keys
  {}

  /** Every entry is forgotten by the ring or named in a living slot. */
  lemma NamedElsewhere(l: Limiter, j: nat, ip: Ip) returns (k: nat)
    requires Inv(l) && j < |l.ring| && !Alive(l.entries, Log(l)[j])
    requires ip in l.entries && ip !in Orphans(l.entries, l.gen, |l.ring|)
    ensures k < |l.ring| && k != j && Log(l)[k].ip == ip
  {
    InvMeans(l);
    hide Inv, Log;
    k := l.entries[ip].generation + |l.ring| - l.gen - 1;
    assert Log(l)[k] == Slot(ip, l.entries[ip].generation);
  }

  /** A dead slot leaves room for at most the other slots' entries and the forgotten ones. */
  lemma DeadLeavesRoom(l: Limiter, j: nat)
    requires Inv(l) && j < |l.ring| && !Alive(l.entries, Log(l)[j])
    ensures |l.entries| < |l.ring| + |Orphans(l.entries, l.gen, |l.ring|)|
  {
    var log, n := Log(l), |l.ring|;
    var rest := log[..j] + log[j + 1..];
    var named := set i | 0 <= i < |rest| :: rest[i].ip;
    var orphans := Orphans(l.entries, l.gen, n);
    LogAddressesFew(rest);
    hide Inv, Log, Orphans, Alive;
    forall ip | ip in l.entries ensures ip in named + orphans {
      if ip !in orphans {
        var k := NamedElsewhere(l, j, ip);
        assert rest[if k < j then k else k - 1] == log[k];
      }
    }
    SubsetSize(l.entries.Keys, named + orphans);
    assert |named + orphans| <= |named| + |orphans|;
  }

  lemma NoOrphansMeans(l: Limiter)
    ensures NoOrphans(l.entries, l.gen, |l.ring|) <==> Orphans(l.entries, l.gen, |l.ring|) == {}
  {
    var o := Orphans(l.entries, l.gen, |l.ring|);
    if o == {} {
      forall ip | ip in l.entries ensures InLog(l.entries[ip], l.gen, |l.ring|) { assert ip !in o; }
    }
  }

  /** After an insertion a slot lives exactly if it did before, one place further on, or is the new one. */
  lemma AliveAfterInsert(l: Limiter, ip: Ip, now: real, j: nat)
    requires Inv(l) && ip !in l.entries && ip != 0 && j < |l.ring|
    ensures var r := Insert(l, ip, now);
            Alive(r.entries, Log(r)[j]) <==> j == |l.ring| - 1 || Alive(l.entries, Log(l)[j + 1])
  {
    var r, log := Insert(l, ip, now), Log(l);
    InsertShiftsLog(l, ip, now);
    InsertIs(l, ip, now);
    KeptExactly(l);
    InvMeans(l);
    assert j < |l.ring| - 1 ==> log[j + 1].generation != log[0].generation || log[j + 1].generation == 0;
    assert j < |l.ring| - 1 ==> log[j + 1].generation <= l.gen;
    assert forall a :: a in l.entries ==> l.entries[a].generation >= 1;
    hide Inv, Insert, Log, Kept, LogNumbered, EntriesLogged;
  }

  /** An insertion creates an orphan exactly when the map has room and the oldest slot is alive. */
  lemma OrphansAfterInsert(l: Limiter, ip: Ip, now: real)
    requires Inv(l) && ip !in l.entries && ip != 0
    ensures var r, n := Insert(l, ip, now), |l.ring|;
            Orphans(r.entries, r.gen, n) == Orphans(l.entries, l.gen, n) +
              if |l.entries| < n && Alive(l.entries, Log(l)[0]) then {Log(l)[0].ip} else {}
  {
    var r, n, s := Insert(l, ip, now), |l.ring|, Log(l)[0];
    InsertIs(l, ip, now);
    KeptExactly(l);
    InvMeans(l);
    assert s.generation == if l.gen + 1 > n then l.gen + 1 - n else 0;
    assert forall a :: a in l.entries && l.entries[a].generation + n == l.gen + 1 ==>
        s == Slot(a, l.entries[a].generation);
    assert forall a :: a in l.entries ==> l.entries[a].generation >= 1;
    hide Inv, Insert, Log, Kept, LogNumbered, EntriesLogged;
  }

  predicate ChecksOnly(es: seq<Event>) {
    NonZero(es) && forall i :: 0 <= i < |es| ==> es[i].Checked?
  }

  /** A settled limiter with room has a dead oldest slot; a settled full one has none. */
  lemma SettledHead(l: Limiter)
    requires Inv(l) && Settled(l) && |l.entries| <= |l.ring|
    ensures Alive(l.entries, Log(l)[0]) <==> |l.entries| == |l.ring|
  {
    NoOrphansMeans(l);
    InvMeans(l);
    hide Inv, LogNumbered, EntriesLogged, Log, Orphans, NoOrphans;
    if Alive(l.entries, Log(l)[0]) {
      assert AllAlive(l.entries, Log(l));
      AllAliveFills(l);
    } else {
      DeadLeavesRoom(l, 0);
    }
  }

  lemma InsertStaysSettled(l: Limiter, ip: Ip, now: real)
    requires Inv(l) && Settled(l) && |l.entries| <= |l.ring| && ip !in l.entries && ip != 0
    ensures var r := Insert(l, ip, now); Settled(r) && |r.entries| <= |r.ring|
  {
    var r, n := Insert(l, ip, now), |l.ring|;
    SettledHead(l);
    InsertSize(l, ip, now);
    NoOrphansMeans(l);
    NoOrphansMeans(r);
    OrphansAfterInsert(l, ip, now);
    assert |r.ring| == n;
    forall i, j | 0 <= i < j < n && Alive(r.entries, Log(r)[i]) ensures Alive(r.entries, Log(r)[j]) {
      AliveAfterInsert(l, ip, now, i);
      AliveAfterInsert(l, ip, now, j);
    }
    hide Inv, Insert, Log, Orphans, NoOrphans;
  }

  lemma CheckStaysSettled(l: Limiter, ip: Ip, now: real, max: int)
    requires Inv(l) && Settled(l) && |l.entries| <= |l.ring| && ip != 0
    ensures var r := Check(l, ip, now, max).0; Settled(r) && |r.entries| <= |r.ring| == |l.ring|
  {
    if ip !in l.entries {
      InsertStaysSettled(l, ip, now);
    } else {
      KnownStaysSettled(l, ip, now, max);
    }
  }

  /** A check of a known address changes neither the ring nor a generation. */
  lemma KnownKeepsSlots(l: Limiter, ip: Ip, now: real, max: int)
    requires Shaped(l) && ip in l.entries
    ensures var r := Check(l, ip, now, max).0;
            && Shaped(r) && Log(r) == Log(l) && |r.ring| == |l.ring| && r.gen == l.gen
            && r.entries.Keys == l.entries.Keys && |r.entries| == |l.entries|
            && forall a :: a in l.entries ==> r.entries[a].generation == l.entries[a].generation
  {
    var r := Check(l, ip, now, max).0;
    MapWith(l.entries, ip, r.entries[ip]);
  }

  lemma KnownStaysSettled(l: Limiter, ip: Ip, now: real, max: int)
    requires Shaped(l) && Settled(l) && ip in l.entries
    ensures var r := Check(l, ip, now, max).0; Settled(r) && |r.entries| == |l.entries| && |r.ring| == |l.ring|
  {
    KnownKeepsSlots(l, ip, now, max);
    var r := Check(l, ip, now, max).0;
    hide Check, Log;
    assert forall s: Slot :: Alive(r.entries, s) <==> Alive(l.entries, s);
  }

  lemma StepStaysSettled(l: Limiter, e: Event)
    requires Inv(l) && Settled(l) && |l.entries| <= |l.ring| && e.Checked? && e.ip != 0
    ensures var r := Step(l, e); Inv(r) && Settled(r) && |r.entries| <= |r.ring| == |l.ring|
  {
    assert Step(l, e) == Check(l, e.ip, e.now, e.max).0;
    assert Shaped(l);
    hide Inv, Settled, Check, Step, Shaped;
    StepKeepsInv(l, e);
    CheckStaysSettled(l, e.ip, e.now, e.max);
  }

  lemma ChecksHead(es: seq<Event>)
    requires ChecksOnly(es) && es != []
    ensures es[0].Checked? && es[0].ip != 0 && ChecksOnly(es[1..])
  {
    assert es[0] in es;
  }

  lemma {:induction false} RunStaysSettled(l: Limiter, es: seq<Event>)
    requires Inv(l) && Settled(l) && |l.entries| <= |l.ring| && ChecksOnly(es)
    ensures |Run(l, es).entries| <= |l.ring|
    decreases |es|
  {
    assert Shaped(l);
    hide Inv, Settled, Step, Shaped, ChecksOnly;
    if es != [] {
      ChecksHead(es);
      StepStaysSettled(l, es[0]);
      RunStaysSettled(Step(l, es[0]), es[1..]);
    }
  }

  /** Some address that is not in a finite set, and not 0. */
  lemma FreshAddress(known: set<Ip>) returns (ip: Ip)
    ensures ip != 0 && ip !in known
  {
    ip := 1;
    var todo := known;
    while todo != {}
      invariant todo <= known && ip > 0 && forall a :: a in known && a !in todo ==> a < ip
      decreases |todo|
    {
      var a :| a in todo;
      todo := todo - {a};
      if a >= ip { ip := a + 1; }
    }
  }

  function FirstDead(entries: map<Ip, Entry>, log: seq<Slot>): (j: nat)
    ensures j <= |log| && (j < |log| ==> !Alive(entries, log[j])) && forall i :: 0 <= i < j ==> Alive(entries, log[i])
  {
    if log == [] || !Alive(entries, log[0]) then 0 else 1 + FirstDead(entries, log[1..])
  }

  /** An unsettled full limiter has forgotten an entry and has a dead slot. */
  lemma UnsettledFull(l: Limiter)
    requires Inv(l) && !Settled(l) && |l.entries| == |l.ring|
    ensures Orphans(l.entries, l.gen, |l.ring|) != {} && FirstDead(l.entries, Log(l)) < |l.ring|
  {
    NoOrphansMeans(l);
    InvMeans(l);
    var d := FirstDead(l.entries, Log(l));
    hide Inv, LogNumbered, EntriesLogged, Log, Orphans, NoOrphans, FirstDead;
    if d == |l.ring| {
      assert AllAlive(l.entries, Log(l));
      AllAliveFills(l);
    } else {
      DeadLeavesRoom(l, d);
    }
  }

  lemma UnsettledBy(l: Limiter, i: nat, j: nat)
    requires Shaped(l)
    ensures Orphans(l.entries, l.gen, |l.ring|) != {} ==> !Settled(l)
    ensures i < j < |l.ring| && Alive(l.entries, Log(l)[i]) && !Alive(l.entries, Log(l)[j]) ==> !Settled(l)
  {
    NoOrphansMeans(l);
    hide Orphans, NoOrphans, Log;
  }

  /** A living slot before a dead one, in a limiter that is unsettled although nothing is forgotten. */
  lemma LivingBeforeDead(l: Limiter) returns (i: nat, j: nat)
    requires Shaped(l) && !Settled(l) && Orphans(l.entries, l.gen, |l.ring|) == {}
    ensures i < j < |l.ring| && Alive(l.entries, Log(l)[i]) && !Alive(l.entries, Log(l)[j])
  {
    NoOrphansMeans(l);
    hide Orphans, NoOrphans, Log, Alive;
    i, j :| 0 <= i < j < |l.ring| && Alive(l.entries, Log(l)[i]) && !Alive(l.entries, Log(l)[j]);
  }

  /** The living slot before a dead one moves on with the log when the oldest slot is dead. */
  lemma PairMoves(l: Limiter, ip: Ip, now: real)
    requires Inv(l) && Shaped(l) && !Settled(l) && ip !in l.entries && ip != 0
    requires Orphans(l.entries, l.gen, |l.ring|) == {} && !Alive(l.entries, Log(l)[0])
    ensures !Settled(Insert(l, ip, now))
  {
    hide *;
    var i, j := LivingBeforeDead(l);
    assert i > 0;
    InsertIs(l, ip, now);
    AliveAfterInsert(l, ip, now, i - 1);
    AliveAfterInsert(l, ip, now, j - 1);
    UnsettledBy(Insert(l, ip, now), i - 1, j - 1);
  }

  /** Insertion of a fresh address keeps a limiter unsettled, as long as it stays within capacity. */
  lemma InsertStaysUnsettled(l: Limiter, ip: Ip, now: real)
    requires Inv(l) && !Settled(l) && |l.entries| <= |l.ring| && ip !in l.entries && ip != 0
    ensures !Settled(Insert(l, ip, now))
  {
    hide *;
    InvMeans(l);
    if |l.entries| == |l.ring| { UnsettledFull(l); }
    if Orphans(l.entries, l.gen, |l.ring|) == {} && !Alive(l.entries, Log(l)[0]) {
      PairMoves(l, ip, now);
    } else {
      InsertIs(l, ip, now);
      OrphansAfterInsert(l, ip, now);
      UnsettledBy(Insert(l, ip, now), 0, 0);
    }
  }

  lemma FirstDeadMoves(l: Limiter, ip: Ip, now: real)
    requires Inv(l) && ip !in l.entries && ip != 0
    requires 0 < FirstDead(l.entries, Log(l)) < |l.ring|
    ensures FirstDead(Insert(l, ip, now).entries, Log(Insert(l, ip, now))) < FirstDead(l.entries, Log(l))
  {
    var r, d := Insert(l, ip, now), FirstDead(l.entries, Log(l));
    AliveAfterInsert(l, ip, now, d - 1);
    assert |r.ring| == |l.ring|;
    hide Inv, Insert, Log, FirstDead;
  }

  /** From an unsettled limiter some fresh addresses, all checked at `now`, take the map past capacity. */
  lemma {:induction false} Overflows(l: Limiter, now: real) returns (es: seq<Event>)
    requires Inv(l) && !Settled(l) && |l.entries| <= |l.ring|
    ensures ChecksOnly(es) && |Run(l, es).entries| > |l.ring|
    decreases |l.ring| - |l.entries|, FirstDead(l.entries, Log(l))
  {
    var ip := FreshAddress(l.entries.Keys);
    var e, r := Checked(ip, now, 9), Insert(l, ip, now);
    assert Step(l, e) == r;
    InvMeans(l);
    InsertIs(l, ip, now);
    hide *;
    if |l.entries| == |l.ring| { UnsettledFull(l); }
    InsertSize(l, ip, now);
    InsertKeepsInv(l, ip, now);
    InsertStaysUnsettled(l, ip, now);
    if |r.entries| > |l.ring| {
      es := [e];
      RunOne(l, e);
      ChecksGrow(e, []);
    } else {
      if |l.entries| == |l.ring| {
        HeadAlive(l);
        FirstDeadMoves(l, ip, now);
      }
      var rest := Overflows(r, now);
      es := [e] + rest;
      ChecksGrow(e, rest);
      RunOne(l, e);
      RunAppend(l, [e], rest);
    }
  }

  lemma HeadAlive(l: Limiter)
    requires Shaped(l)
    ensures Alive(l.entries, Log(l)[0]) ==> FirstDead(l.entries, Log(l)) > 0
  {}

  lemma ChecksGrow(e: Event, rest: seq<Event>)
    requires e.Checked? && e.ip != 0
    ensures ChecksOnly(rest) ==> ChecksOnly([e] + rest)
    ensures ChecksOnly([e])
  {}

  predicate Contained(l: Limiter, es: seq<Event>)
    requires Shaped(l)
  {
    ChecksOnly(es) ==> |Run(l, es).entries| <= |l.ring|
  }

  /**
   The exact condition: from a state within capacity, no further checks can take the map past capacity
   if and only if no entry is forgotten by the ring and no living slot stands before a dead one.
   */
  lemma ContainedExactly(l: Limiter)
    requires Inv(l) && |l.entries| <= |l.ring|
    ensures (forall es: seq<Event> :: Contained(l, es)) <==> Settled(l)
  {
    if Settled(l) {
      forall es: seq<Event> ensures Contained(l, es) {
        if ChecksOnly(es) { RunStaysSettled(l, es); }
      }
    } else {
      var es := Overflows(l, 0.0);
      assert !Contained(l, es);
    }
  }

  // ---------------------------------------------------------------------------------------------
  // The limiter object
  // ---------------------------------------------------------------------------------------------

  class FastRateLimiter {
    var entries: map<Ip, Entry>
    const ring: array<Slot>
    var head: nat
    var genCounter: nat

    ghost predicate Valid()
      reads this, ring
    {
      head < ring.Length
    }

    ghost function View(): (l: Limiter)
      requires Valid()
      reads this, ring
      ensures Shaped(l)
    {
      Limiter(entries, ring[..], head, genCounter)
    }

    constructor (capacity: nat)
      requires capacity > 0
      ensures Valid() && fresh(ring) && View() == Empty(capacity)
    {
      ring := new Slot[capacity](_ => Slot(0, 0));
      entries, head, genCounter := map[], 0, 0;
    }

    /** The ring slot about to be overwritten takes its entry with it, if that is still the same insertion. */
    method EvictOldest()
      requires Valid()
      modifies this`entries
      ensures View() == old(View()).(entries := Evicted(old(View())))
    {
      var evict := ring[head];
      if evict.ip != 0 {
        if evict.ip in entries && entries[evict.ip].generation == evict.generation {
          entries := entries - {evict.ip};
        }
      }
    }

    static lemma NextHead(head: nat, n: nat)
      requires head < n
      ensures (head + 1) % n == if head + 1 == n then 0 else head + 1
    {}

    method InsertNew(ip: Ip, now: real)
      requires Valid()
      modifies this, ring
      ensures Valid() && View() == Insert(old(View()), ip, now)
    {
      hide Evicted;
      if |entries| >= ring.Length { EvictOldest(); }
      NextHead(head, ring.Length);
      genCounter := genCounter + 1;
      ring[head] := Slot(ip, genCounter);
      head := (head + 1) % ring.Length;
      entries := entries[ip := Entry(now, 1, genCounter)];
    }

    method CheckIp(ip: Ip, now: real, maxPerSec: int) returns (ok: bool)
      requires Valid()
      modifies this, ring
      ensures Valid() && (View(), ok) == Check(old(View()), ip, now, maxPerSec)
    {
      hide Insert;
      if ip !in entries {
        InsertNew(ip, now);
        return true;
      }
      var e := entries[ip];
      if now - e.windowStart >= 1.0 {
        entries := entries[ip := e.(windowStart := now, count := 1)];
        return true;
      }
      entries := entries[ip := e.(count := e.count + 1)];
      ok := e.count + 1 <= maxPerSec;
    }

    method PurgeExpired(now: real, maxAge: real)
      requires Valid()
      modifies this`entries
      ensures Valid() && View() == Purge(old(View()), now, maxAge)
    {
      var todo := entries.Keys;
      while todo != {}
        invariant todo <= old(entries).Keys
        invariant entries == map ip | ip in old(entries) && (ip in todo || now - old(entries)[ip].windowStart <= maxAge)
                               :: old(entries)[ip]
        decreases |todo|
      {
        var ip :| ip in todo;
        todo := todo - {ip};
        if now - entries[ip].windowStart > maxAge {
          entries := entries - {ip};
        }
      }
    }
  }
}
