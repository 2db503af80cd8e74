/**
 The response limiter of blackhole_responder.cpp: a token bucket of capacity one per address with a
 packet and byte ceiling per 60 s window, and a cleanup that forgets idle addresses. Times are reals.
 */
module Blackhole {
  import opened Wrappers

  type Ip = string

  const DEFAULT_MAX_RATE: real := 0.2
  const CAPACITY: real := 1.0
  const WINDOW: real := 60.0
  const MAX_PACKETS := 50
  const MAX_BYTES := 8192
  const CLEANUP_SIZE := 10000

  datatype Entry = Entry(tokens: real, lastRefill: real, packets: nat, bytes: nat, windowStart: real)

  type Table = map<Ip, Entry>

  function Rate(maxRate: real): (r: real)
    ensures r > 0.0
  {
    if maxRate <= 0.0 then DEFAULT_MAX_RATE else maxRate
  }

  function NewEntry(now: real, est: nat): Entry {
    Entry(CAPACITY - 1.0, now, 1, est, now)
  }

  function Windowed(e: Entry, now: real): Entry {
    if now - e.windowStart >= WINDOW then e.(windowStart := now, packets := 0, bytes := 0) else e
  }

  /** Tokens earned in a time, at one token per `rate` seconds. */
  function Earned(dt: real, rate: real): real
    requires rate > 0.0
  {
    dt * (1.0 / rate)
  }

  function Refilled(e: Entry, now: real, rate: real): Entry
    requires rate > 0.0
  {
    var dt := now - e.lastRefill;
    if dt > 0.0 then
      var tokens := e.tokens + Earned(dt, rate);
      e.(tokens := if tokens > CAPACITY then CAPACITY else tokens, lastRefill := now)
    else e
  }

  /** What a query does to a known address's entry, and the answer. */
  function Ask(e: Entry, now: real, rate: real, est: nat): (Entry, bool)
    requires rate > 0.0
  {
    var w := Windowed(e, now);
    if w.packets >= MAX_PACKETS || w.bytes >= MAX_BYTES then (w, false)
    else
      var f := Refilled(w, now, rate);
      if f.tokens < 1.0 then (f, false)
      else (f.(tokens := f.tokens - 1.0, packets := f.packets + 1, bytes := f.bytes + est), true)
  }

  function Cleaned(t: Table, now: real): Table {
    map ip | ip in t && now - t[ip].lastRefill <= WINDOW :: t[ip]
  }

  /** should_respond; `evicts` is false for a limiter that never cleans up. */
  function Respond(t: Table, evicts: bool, ip: Ip, now: real, maxRate: real, est: nat): (Table, bool) {
    if ip !in t then (t[ip := NewEntry(now, est)], true)
    else
      var (e, ok) := Ask(t[ip], now, Rate(maxRate), est);
      var t' := t[ip := e];
      (if ok && evicts && |t'| > CLEANUP_SIZE then Cleaned(t', now) else t', ok)
  }

  /** record_response. */
  function Record(t: Table, ip: Ip, sent: nat): Table {
    if ip in t && sent > 80 then t[ip := t[ip].(bytes := t[ip].bytes + (sent - 80))] else t
  }

  datatype Event = Query(ip: Ip, now: real, est: nat) | Sent(ip: Ip, bytes: nat)

  function Step(t: Table, evicts: bool, maxRate: real, e: Event): (Table, bool) {
    match e
    case Query(ip, now, est) => Respond(t, evicts, ip, now, maxRate, est)
    case Sent(ip, bytes) => (Record(t, ip, bytes), false)
  }

  /** The answers of a run, one per event. */
  function Answers(t: Table, evicts: bool, maxRate: real, es: seq<Event>): (a: seq<bool>)
    ensures |a| == |es|
    decreases |es|
  {
    if es == [] then []
    else
      var (t', ok) := Step(t, evicts, maxRate, es[0]);
      [ok] + Answers(t', evicts, maxRate, es[1..])
  }

  predicate Clocked(es: seq<Event>, clock: real)
    decreases |es|
  {
    es == [] || (if es[0].Query? then clock <= es[0].now && Clocked(es[1..], es[0].now) else Clocked(es[1..], clock))
  }

  // ---------------------------------------------------------------------------------------------
  // Eviction is invisible
  // ---------------------------------------------------------------------------------------------

  predicate Sane(e: Entry, clock: real) {
    0.0 <= e.tokens <= CAPACITY && e.windowStart <= e.lastRefill <= clock && e.packets <= MAX_PACKETS
  }

  lemma Reciprocal(rate: real)
    requires rate > 0.0
    ensures 1.0 / rate > 0.0 && rate * (1.0 / rate) == 1.0
  {}

  lemma ProductGrows(a: real, b: real, c: real)
    requires c > 0.0
    ensures a < b ==> a * c < b * c
    ensures a <= b ==> a * c <= b * c
  {}

  lemma EarnedGrows(a: real, b: real, rate: real)
    requires rate > 0.0
    ensures a < b ==> Earned(a, rate) < Earned(b, rate)
    ensures a <= b ==> Earned(a, rate) <= Earned(b, rate)
    ensures Earned(rate, rate) == 1.0 && Earned(0.0, rate) == 0.0
  {
    Reciprocal(rate);
    ProductGrows(a, b, 1.0 / rate);
  }

  lemma EarnedAdds(a: real, b: real, rate: real)
    requires rate > 0.0
    ensures Earned(a + b, rate) == Earned(a, rate) + Earned(b, rate)
  {}

  lemma AskStaysSane(e: Entry, clock: real, now: real, rate: real, est: nat)
    requires Sane(e, clock) && clock <= now && rate > 0.0
    ensures Sane(Ask(e, now, rate, est).0, now)
  {
    EarnedGrows(0.0, now - e.lastRefill, rate);
    hide Earned;
  }

  /** An address idle for more than a window is treated exactly as an unknown one, when the rate allows. */
  lemma IdleIsNew(e: Entry, clock: real, now: real, rate: real, est: nat)
    requires Sane(e, clock) && clock <= now && now - e.lastRefill > WINDOW && 0.0 < rate <= WINDOW
    ensures Ask(e, now, rate, est) == (NewEntry(now, est), true)
  {
    EarnedGrows(rate, now - e.lastRefill, rate);
    hide Earned;
  }

  /** The rate condition is exact: an idle entry without tokens answers as a new one at every age iff rate <= 60. */
  lemma IdleIsNewExactly(rate: real, est: nat)
    requires rate > 0.0
    ensures (forall e: Entry, now: real :: Sane(e, now) && now - e.lastRefill > WINDOW ==>
               Ask(e, now, rate, est) == (NewEntry(now, est), true))
            <==> rate <= WINDOW
  {
    if rate <= WINDOW {
      forall e: Entry, now: real | Sane(e, now) && now - e.lastRefill > WINDOW
        ensures Ask(e, now, rate, est) == (NewEntry(now, est), true)
      {
        IdleIsNew(e, now, now, rate, est);
      }
    } else {
      var age := (WINDOW + rate) / 2.0;
      var e := Entry(0.0, 0.0, 0, 0, 0.0);
      EarnedGrows(age, rate, rate);
      hide Earned;
      assert Sane(e, age) && !Ask(e, age, rate, est).1;
    }
  }

  /** The evicting table `t` against the one that never evicts: equal where known, idle where forgotten. */
  predicate Alike(t: Table, u: Table, clock: real) {
    && (forall ip :: ip in u ==> Sane(u[ip], clock))
    && (forall ip :: ip in t ==> ip in u && t[ip] == u[ip])
    && (forall ip :: ip in u && ip !in t ==> clock - u[ip].lastRefill > WINDOW)
  }

  lemma StepAlike(t: Table, u: Table, clock: real, maxRate: real, e: Event)
    requires Alike(t, u, clock) && maxRate <= WINDOW && (e.Query? ==> clock <= e.now)
    ensures var (t', a) := Step(t, true, maxRate, e);
            var (u', b) := Step(u, false, maxRate, e);
            a == b && Alike(t', u', if e.Query? then e.now else clock)
  {
    match e {
      case Query(ip, now, est) =>
        if ip in u {
          AskStaysSane(u[ip], clock, now, Rate(maxRate), est);
          if ip !in t { IdleIsNew(u[ip], clock, now, Rate(maxRate), est); }
        }
        hide Ask;
      case Sent(_, _) =>
    }
  }

  /** With one rate of at most 60 s and a clock that does not run back, cleaning up changes no answer. */
  lemma {:induction false} EvictionInvisible(t: Table, u: Table, clock: real, maxRate: real, es: seq<Event>)
    requires Alike(t, u, clock) && maxRate <= WINDOW && Clocked(es, clock)
    ensures Answers(t, true, maxRate, es) == Answers(u, false, maxRate, es)
    decreases |es|
  {
    if es != [] {
      StepAlike(t, u, clock, maxRate, es[0]);
      hide Alike, Step;
      var next := if es[0].Query? then es[0].now else clock;
      EvictionInvisible(Step(t, true, maxRate, es[0]).0, Step(u, false, maxRate, es[0]).0, next, maxRate, es[1..]);
    }
  }

  // ---------------------------------------------------------------------------------------------
  // How much is granted
  // ---------------------------------------------------------------------------------------------

  function Grants(a: seq<bool>, es: seq<Event>, ip: Ip): nat
    requires |a| == |es|
  {
    if es == [] then 0
    else (if es[0].Query? && es[0].ip == ip && a[0] then 1 else 0) + Grants(a[1..], es[1..], ip)
  }

  function Min(a: real, b: real): real {
    if a <= b then a else b
  }

  /** The tokens an address could draw on at time `at`: one if it is unknown. */
  function Credit(t: Table, ip: Ip, at: real, rate: real): real
    requires rate > 0.0
  {
    if ip !in t then CAPACITY else Available(t[ip], at, rate)
  }

  function Available(e: Entry, at: real, rate: real): real
    requires rate > 0.0
  {
    Min(CAPACITY, e.tokens + Earned(at - e.lastRefill, rate))
  }

  predicate AllSane(t: Table, clock: real) {
    forall ip :: ip in t ==> Sane(t[ip], clock)
  }

  /** A query spends at least what it grants. */
  lemma AskSpends(e: Entry, clock: real, now: real, rate: real, est: nat)
    requires Sane(e, clock) && clock <= now && rate > 0.0
    ensures var (f, ok) := Ask(e, now, rate, est);
            (if ok then 1.0 else 0.0) + Available(f, now, rate) <= Available(e, now, rate)
  {
    EarnedGrows(0.0, now - e.lastRefill, rate);
    hide Earned;
  }

  lemma AvailableGrows(e: Entry, clock: real, now: real, rate: real)
    requires clock <= now && rate > 0.0
    ensures Available(e, now, rate) <= Available(e, clock, rate) + Earned(now - clock, rate)
  {
    EarnedGrows(0.0, now - clock, rate);
    EarnedAdds(clock - e.lastRefill, now - clock, rate);
    assert clock - e.lastRefill + (now - clock) == now - e.lastRefill;
    hide Earned;
  }

  lemma FreshSpends(now: real, est: nat, rate: real)
    requires rate > 0.0
    ensures Available(NewEntry(now, est), now, rate) == 0.0
  {
    EarnedGrows(0.0, 0.0, rate);
    hide Earned;
  }

  lemma StepStaysSane(t: Table, clock: real, maxRate: real, e: Event)
    requires AllSane(t, clock) && (e.Query? ==> clock <= e.now)
    ensures AllSane(Step(t, false, maxRate, e).0, if e.Query? then e.now else clock)
  {
    if e.Query? && e.ip in t { AskStaysSane(t[e.ip], clock, e.now, Rate(maxRate), e.est); }
    hide Ask;
  }

  /** Credit earns at most elapsed time over rate, and each grant spends one. */
  lemma CreditStep(t: Table, clock: real, maxRate: real, e: Event, ip: Ip)
    requires AllSane(t, clock) && (e.Query? ==> clock <= e.now)
    ensures var (t', ok) := Step(t, false, maxRate, e);
            var next := if e.Query? then e.now else clock;
            (if e.Query? && e.ip == ip && ok then 1.0 else 0.0) + Credit(t', ip, next, Rate(maxRate))
            <= Credit(t, ip, clock, Rate(maxRate)) + Earned(next - clock, Rate(maxRate))
  {
    var next := if e.Query? then e.now else clock;
    EarnedGrows(0.0, next - clock, Rate(maxRate));
    if ip in t {
      AvailableGrows(t[ip], clock, next, Rate(maxRate));
      if e.Query? && e.ip == ip { AskSpends(t[ip], clock, e.now, Rate(maxRate), e.est); }
    } else if e.Query? && e.ip == ip {
      FreshSpends(e.now, e.est, Rate(maxRate));
    }
    if e.Sent? && ip in t {
      var after := Record(t, e.ip, e.bytes)[ip];
      assert Available(after, clock, Rate(maxRate)) == Available(t[ip], clock, Rate(maxRate));
    }
    hide Ask, Earned, Available;
  }

  function LastTime(es: seq<Event>, clock: real): real
    decreases |es|
  {
    if es == [] then clock else LastTime(es[1..], if es[0].Query? then es[0].now else clock)
  }

  lemma AvailableIsPositive(t: Table, clock: real, ip: Ip, rate: real)
    requires AllSane(t, clock) && rate > 0.0
    ensures 0.0 <= Credit(t, ip, clock, rate) <= 1.0 && Earned(0.0, rate) == 0.0
  {
    if ip in t { EarnedGrows(0.0, clock - t[ip].lastRefill, rate); }
    EarnedGrows(0.0, 0.0, rate);
    hide Earned;
  }

  lemma {:induction false} GrantsWithinCredit(t: Table, clock: real, maxRate: real, es: seq<Event>, ip: Ip)
    requires AllSane(t, clock) && Clocked(es, clock)
    ensures Grants(Answers(t, false, maxRate, es), es, ip) as real
            <= Credit(t, ip, clock, Rate(maxRate)) + Earned(LastTime(es, clock) - clock, Rate(maxRate))
    decreases |es|
  {
    if es == [] {
      AvailableIsPositive(t, clock, ip, Rate(maxRate));
      hide Credit, Earned;
    } else {
      var (t', ok) := Step(t, false, maxRate, es[0]);
      var next := if es[0].Query? then es[0].now else clock;
      var a, a' := Answers(t, false, maxRate, es), Answers(t', false, maxRate, es[1..]);
      assert a[1..] == a' && a[0] == ok;
      hide Step, Earned, Credit, AllSane, Answers;
      StepStaysSane(t, clock, maxRate, es[0]);
      CreditStep(t, clock, maxRate, es[0], ip);
      GrantsWithinCredit(t', next, maxRate, es[1..], ip);
      EarnedAdds(LastTime(es, clock) - next, next - clock, Rate(maxRate));
      assert LastTime(es, clock) - next + (next - clock) == LastTime(es, clock) - clock;
      assert Grants(a, es, ip) == (if es[0].Query? && es[0].ip == ip && ok then 1 else 0) + Grants(a', es[1..], ip);
    }
  }

  /**
   In any span of length T, starting from any state the limiter can be in, an address is granted at
   most 1 + T / max_rate responses, cleanup or not. (A max_rate that is not positive means 0.2.)
   */
  lemma AtMostOnePlusRate(t: Table, u: Table, clock: real, maxRate: real, es: seq<Event>, ip: Ip)
    requires Alike(t, u, clock) && maxRate <= WINDOW && Clocked(es, clock)
    ensures Grants(Answers(t, true, maxRate, es), es, ip) as real <= 1.0 + (LastTime(es, clock) - clock) / Rate(maxRate)
  {
    assert AllSane(u, clock);
    var span := LastTime(es, clock) - clock;
    EarnedIsQuotient(span, Rate(maxRate));
    hide *;
    EvictionInvisible(t, u, clock, maxRate, es);
    GrantsWithinCredit(u, clock, maxRate, es, ip);
    AvailableIsPositive(u, clock, ip, Rate(maxRate));
  }

  lemma EarnedIsQuotient(dt: real, rate: real)
    requires rate > 0.0
    ensures Earned(dt, rate) == dt / rate
  {}

  // ---------------------------------------------------------------------------------------------
  // The ceiling of a window
  // ---------------------------------------------------------------------------------------------

  /** No query of the run starts a new window for the address. */
  predicate SameWindow(es: seq<Event>, ip: Ip, windowStart: real) {
    forall i :: 0 <= i < |es| && es[i].Query? && es[i].ip == ip ==> es[i].now - windowStart < WINDOW
  }

  lemma {:induction false} CeilingHolds(t: Table, maxRate: real, es: seq<Event>, ip: Ip)
    requires ip in t && t[ip].packets <= MAX_PACKETS && SameWindow(es, ip, t[ip].windowStart)
    ensures Grants(Answers(t, false, maxRate, es), es, ip) + t[ip].packets <= MAX_PACKETS
    decreases |es|
  {
    if es != [] {
      var t' := Step(t, false, maxRate, es[0]).0;
      assert es[0] in es;
      assert ip in t' && t'[ip].windowStart == t[ip].windowStart;
      assert forall i :: 0 <= i < |es[1..]| ==> es[1..][i] == es[i + 1];
      CeilingHolds(t', maxRate, es[1..], ip);
      assert Answers(t, false, maxRate, es)[1..] == Answers(t', false, maxRate, es[1..]);
    }
  }

  /** Between the query that opens a window for an address and the next one, at most 50 responses, cleanup or not. */
  lemma AtMostFiftyPerWindow(t: Table, u: Table, clock: real, maxRate: real, first: Event, es: seq<Event>)
    requires Alike(t, u, clock) && maxRate <= WINDOW && Clocked([first] + es, clock)
    requires first.Query? && (first.ip !in u || first.now - u[first.ip].windowStart >= WINDOW)
    requires SameWindow(es, first.ip, first.now)
    ensures Grants(Answers(t, true, maxRate, [first] + es), [first] + es, first.ip) <= MAX_PACKETS
  {
    var all := [first] + es;
    EvictionInvisible(t, u, clock, maxRate, all);
    var (u', ok) := Step(u, false, maxRate, first);
    assert all[1..] == es;
    assert Answers(u, false, maxRate, all)[1..] == Answers(u', false, maxRate, es);
    assert u'[first.ip].windowStart == first.now && u'[first.ip].packets == if ok then 1 else 0;
    CeilingHolds(u', maxRate, es, first.ip);
  }

  // ---------------------------------------------------------------------------------------------
  // Who is granted
  // ---------------------------------------------------------------------------------------------

  /**
   A query is granted exactly when the window is over or below both ceilings, and the credit suffices. A grant
   costs one token, one packet and the estimated bytes; a refusal costs nothing.
   */
  lemma GrantExactly(e: Entry, clock: real, now: real, rate: real, est: nat)
    requires Sane(e, clock) && clock <= now && rate > 0.0
    ensures var (f, ok) := Ask(e, now, rate, est);
            var over := now - e.windowStart >= 60.0;
            && (ok <==> (over || (e.packets < 50 && e.bytes < 8192)) && Available(e, now, rate) >= 1.0)
            && f.windowStart == (if over then now else e.windowStart)
            && f.packets == (if over then 0 else e.packets) + (if ok then 1 else 0)
            && f.bytes == (if over then 0 else e.bytes) + (if ok then est else 0)
            && Available(f, now, rate) == Available(e, now, rate) - if ok then 1.0 else 0.0
  {
    EarnedGrows(0.0, now - e.lastRefill, rate);
    EarnedGrows(0.0, 0.0, rate);
    hide Earned;
  }

  /** An unknown address is granted, and its response counted. */
  lemma UnknownIsGranted(t: Table, evicts: bool, ip: Ip, now: real, maxRate: real, est: nat)
    requires ip !in t
    ensures Respond(t, evicts, ip, now, maxRate, est) == (t[ip := Entry(0.0, now, 1, est, now)], true)
  {}

  /** Bytes sent beyond the estimate of 80 count against a known address, and nothing else changes. */
  lemma RecordExactly(t: Table, ip: Ip, sent: nat)
    ensures Record(t, ip, sent) ==
            if ip in t && sent > 80 then t[ip := t[ip].(bytes := t[ip].bytes + sent - 80)] else t
  {}

  /** The queries of an address come at `from` or later, and then at least `rate` apart. */
  predicate Spaced(es: seq<Event>, ip: Ip, rate: real, from: real)
    decreases |es|
  {
    es == [] ||
    if es[0].Query? && es[0].ip == ip then from <= es[0].now && Spaced(es[1..], ip, rate, es[0].now + rate)
    else Spaced(es[1..], ip, rate, from)
  }

  /** No query of the address meets a ceiling. */
  predicate BelowCeilings(t: Table, maxRate: real, es: seq<Event>, ip: Ip)
    decreases |es|
  {
    es == [] ||
    ((es[0].Query? && es[0].ip == ip && ip in t ==>
        es[0].now - t[ip].windowStart >= 60.0 || (t[ip].packets < 50 && t[ip].bytes < 8192)) &&
     BelowCeilings(Step(t, false, maxRate, es[0]).0, maxRate, es[1..], ip))
  }

  function Queries(es: seq<Event>, ip: Ip): nat {
    if es == [] then 0 else (if es[0].Query? && es[0].ip == ip then 1 else 0) + Queries(es[1..], ip)
  }

  lemma LaterIsGranted(e: Entry, clock: real, now: real, rate: real)
    requires Sane(e, clock) && clock <= now && e.lastRefill + rate <= now && rate > 0.0
    ensures Available(e, now, rate) >= 1.0
  {
    EarnedGrows(rate, now - e.lastRefill, rate);
    hide Earned;
  }

  /** An address that asks no more often than once every interval, below the ceilings, is granted every time. */
  lemma {:induction false} SpacedIsGranted(t: Table, clock: real, maxRate: real, es: seq<Event>, ip: Ip, from: real)
    requires AllSane(t, clock) && Clocked(es, clock) && Spaced(es, ip, Rate(maxRate), from)
    requires ip in t ==> t[ip].lastRefill + Rate(maxRate) <= from
    requires BelowCeilings(t, maxRate, es, ip)
    ensures Grants(Answers(t, false, maxRate, es), es, ip) == Queries(es, ip)
    decreases |es|
  {
    if es != [] {
      var e := es[0];
      var (t', ok) := Step(t, false, maxRate, e);
      StepStaysSane(t, clock, maxRate, e);
      var asks := e.Query? && e.ip == ip;
      SpacedStep(t, clock, maxRate, e, ip, from);
      hide Step, Sane, AllSane;
      var next, from' := if e.Query? then e.now else clock, if asks then e.now + Rate(maxRate) else from;
      SpacedIsGranted(t', next, maxRate, es[1..], ip, from');
      assert Answers(t, false, maxRate, es)[1..] == Answers(t', false, maxRate, es[1..]);
    }
  }

  lemma SpacedStep(t: Table, clock: real, maxRate: real, e: Event, ip: Ip, from: real)
    requires AllSane(t, clock) && (e.Query? ==> clock <= e.now)
    requires ip in t ==> t[ip].lastRefill + Rate(maxRate) <= from
    requires e.Query? && e.ip == ip ==> from <= e.now
    requires e.Query? && e.ip == ip && ip in t ==>
               e.now - t[ip].windowStart >= 60.0 || (t[ip].packets < 50 && t[ip].bytes < 8192)
    ensures var (t', ok) := Step(t, false, maxRate, e);
            var asks := e.Query? && e.ip == ip;
            && (asks ==> ok)
            && (ip in t' ==> t'[ip].lastRefill + Rate(maxRate) <= if asks then e.now + Rate(maxRate) else from)
  {
    if e.Query? && e.ip == ip && ip in t {
      LaterIsGranted(t[ip], clock, e.now, Rate(maxRate));
      GrantExactly(t[ip], clock, e.now, Rate(maxRate), e.est);
      AskStaysSane(t[ip], clock, e.now, Rate(maxRate), e.est);
    }
    hide Ask, Available;
  }

  /** The estimated bytes of the responses granted to an address. */
  function Spent(a: seq<bool>, es: seq<Event>, ip: Ip): nat
    requires |a| == |es|
  {
    if es == [] then 0
    else (if es[0].Query? && es[0].ip == ip && a[0] then es[0].est else 0) + Spent(a[1..], es[1..], ip)
  }

  lemma {:induction false} BytesHold(t: Table, maxRate: real, es: seq<Event>, ip: Ip, most: nat)
    requires ip in t && SameWindow(es, ip, t[ip].windowStart)
    requires forall i :: 0 <= i < |es| && es[i].Query? && es[i].ip == ip ==> es[i].est <= most
    ensures var bound := 8191 + most;
            Spent(Answers(t, false, maxRate, es), es, ip) + t[ip].bytes
            <= if t[ip].bytes > bound then t[ip].bytes else bound
    decreases |es|
  {
    if es != [] {
      var t' := Step(t, false, maxRate, es[0]).0;
      assert es[0] in es;
      assert ip in t' && t'[ip].windowStart == t[ip].windowStart;
      assert forall i :: 0 <= i < |es[1..]| ==> es[1..][i] == es[i + 1];
      BytesHold(t', maxRate, es[1..], ip, most);
      assert Answers(t, false, maxRate, es)[1..] == Answers(t', false, maxRate, es[1..]);
    }
  }

  lemma {:induction false} FullHolds(t: Table, maxRate: real, es: seq<Event>, ip: Ip)
    requires ip in t && SameWindow(es, ip, t[ip].windowStart) && t[ip].bytes >= 8192
    ensures Grants(Answers(t, false, maxRate, es), es, ip) == 0
    decreases |es|
  {
    if es != [] {
      var t' := Step(t, false, maxRate, es[0]).0;
      assert es[0] in es;
      assert ip in t' && t'[ip].windowStart == t[ip].windowStart;
      assert forall i :: 0 <= i < |es[1..]| ==> es[1..][i] == es[i + 1];
      FullHolds(t', maxRate, es[1..], ip);
      assert Answers(t, false, maxRate, es)[1..] == Answers(t', false, maxRate, es[1..]);
    }
  }

  /** Between two window starts the granted bytes stay below 8192 plus the largest single estimate, cleanup or not. */
  lemma BytesPerWindow(t: Table, u: Table, clock: real, maxRate: real, es: seq<Event>, ip: Ip, most: nat)
    requires Alike(t, u, clock) && maxRate <= WINDOW && Clocked(es, clock)
    requires ip in u && SameWindow(es, ip, u[ip].windowStart) && u[ip].bytes < 8192
    requires forall i :: 0 <= i < |es| && es[i].Query? && es[i].ip == ip ==> es[i].est <= most
    ensures Spent(Answers(t, true, maxRate, es), es, ip) + u[ip].bytes <= 8191 + most
  {
    EvictionInvisible(t, u, clock, maxRate, es);
    BytesHold(u, maxRate, es, ip, most);
  }

  /** Once the counted bytes, recorded ones included, reach 8192 nothing more is granted in the window. */
  lemma FullIsSilent(t: Table, u: Table, clock: real, maxRate: real, es: seq<Event>, ip: Ip)
    requires Alike(t, u, clock) && maxRate <= WINDOW && Clocked(es, clock)
    requires ip in u && SameWindow(es, ip, u[ip].windowStart) && u[ip].bytes >= 8192
    ensures Grants(Answers(t, true, maxRate, es), es, ip) == 0
  {
    EvictionInvisible(t, u, clock, maxRate, es);
    FullHolds(u, maxRate, es, ip);
  }

  /** Every state reached from the empty limiter is Alike to that of the limiter that never evicts. */
  lemma {:induction false} ReachableAlike(t: Table, u: Table, clock: real, maxRate: real, es: seq<Event>)
    requires Alike(t, u, clock) && maxRate <= WINDOW && Clocked(es, clock)
    ensures Alike(After(t, true, maxRate, es), After(u, false, maxRate, es), LastTime(es, clock))
    decreases |es|
  {
    if es != [] {
      StepAlike(t, u, clock, maxRate, es[0]);
      hide Alike, Step;
      var next := if es[0].Query? then es[0].now else clock;
      ReachableAlike(Step(t, true, maxRate, es[0]).0, Step(u, false, maxRate, es[0]).0, next, maxRate, es[1..]);
    }
  }

  // ---------------------------------------------------------------------------------------------
  // Beyond a rate of 60 s eviction shows
  // ---------------------------------------------------------------------------------------------

  function After(t: Table, evicts: bool, maxRate: real, es: seq<Event>): Table
    decreases |es|
  {
    if es == [] then t else After(Step(t, evicts, maxRate, es[0]).0, evicts, maxRate, es[1..])
  }

  lemma {:induction false} AnswersAppend(t: Table, evicts: bool, maxRate: real, es: seq<Event>, fs: seq<Event>)
    ensures Answers(t, evicts, maxRate, es + fs) ==
            Answers(t, evicts, maxRate, es) + Answers(After(t, evicts, maxRate, es), evicts, maxRate, fs)
    ensures After(t, evicts, maxRate, es + fs) == After(After(t, evicts, maxRate, es), evicts, maxRate, fs)
    decreases |es|
  {
    hide Step;
    if es == [] {
      assert es + fs == fs;
    } else {
      assert (es + fs)[0] == es[0] && (es + fs)[1..] == es[1..] + fs;
      AnswersAppend(Step(t, evicts, maxRate, es[0]).0, evicts, maxRate, es[1..], fs);
    }
  }

  lemma {:induction false} ClockedAppend(es: seq<Event>, e: Event, clock: real)
    requires Clocked(es, clock) && e.Query? && LastTime(es, clock) <= e.now
    ensures Clocked(es + [e], clock) && LastTime(es + [e], clock) == e.now
    decreases |es|
  {
    if es == [] {
      assert es + [e] == [e] && [e][1..] == [];
    } else {
      assert (es + [e])[0] == es[0] && (es + [e])[1..] == es[1..] + [e];
      ClockedAppend(es[1..], e, if es[0].Query? then es[0].now else clock);
    }
  }

  function Name(n: nat): (ip: Ip)
    ensures |ip| == n
  {
    seq(n, _ => 'a')
  }

  /** One address at time 0, then n others at time `s`. */
  function Crowd(n: nat, s: real): seq<Event> {
    if n == 0 then [Query(Name(0), 0.0, 0)] else Crowd(n - 1, s) + [Query(Name(n), s, 0)]
  }

  /** What that leaves behind, with or without cleanup. */
  ghost predicate Crowded(t: Table, n: nat, s: real) {
    && |t| == n + 1 && (forall k :: k > n ==> Name(k) !in t)
    && Name(0) in t && t[Name(0)] == NewEntry(0.0, 0)
    && (n > 0 ==> Name(1) in t && t[Name(1)] == NewEntry(s, 0))
  }

  lemma OneMore(t: Table, n: nat, s: real, evicts: bool, maxRate: real)
    requires Crowded(t, n, s)
    ensures Step(t, evicts, maxRate, Query(Name(n + 1), s, 0)) == (t[Name(n + 1) := NewEntry(s, 0)], true)
    ensures Crowded(t[Name(n + 1) := NewEntry(s, 0)], n + 1, s)
  {
    MapWith(t, Name(n + 1), NewEntry(s, 0));
  }

  lemma RunOne(t: Table, evicts: bool, maxRate: real, e: Event)
    ensures After(t, evicts, maxRate, [e]) == Step(t, evicts, maxRate, e).0
    ensures Answers(t, evicts, maxRate, [e]) == [Step(t, evicts, maxRate, e).1]
  {
    assert [e][1..] == [];
    hide Step;
    assert After(Step(t, evicts, maxRate, e).0, evicts, maxRate, []) == Step(t, evicts, maxRate, e).0;
  }

  lemma {:induction false} AfterCrowd(n: nat, s: real, evicts: bool, maxRate: real)
    requires s >= 0.0
    ensures Crowded(After(map[], evicts, maxRate, Crowd(n, s)), n, s)
    ensures Clocked(Crowd(n, s), 0.0) && LastTime(Crowd(n, s), 0.0) <= s
  {
    if n == 0 {
      RunOne(map[], evicts, maxRate, Query(Name(0), 0.0, 0));
      MapWith<Ip, Entry>(map[], Name(0), NewEntry(0.0, 0));
      assert Crowd(0, s)[1..] == [];
    } else {
      AfterCrowd(n - 1, s, evicts, maxRate);
      var t, e := After(map[], evicts, maxRate, Crowd(n - 1, s)), Query(Name(n), s, 0);
      hide Crowded, Step, After, Clocked, LastTime, Name, NewEntry;
      ClockedAppend(Crowd(n - 1, s), e, 0.0);
      AnswersAppend(map[], evicts, maxRate, Crowd(n - 1, s), [e]);
      RunOne(t, evicts, maxRate, e);
      OneMore(t, n - 1, s, evicts, maxRate);
    }
  }

  /** The first address gets a token after one interval; only the cleaning table then forgets the second. */
  lemma FirstAsksAgain(t: Table, s: real, evicts: bool, maxRate: real)
    requires Crowded(t, CLEANUP_SIZE, s) && 0.0 < s && maxRate - s > WINDOW
    ensures var (t', ok) := Step(t, evicts, maxRate, Query(Name(0), maxRate, 0));
            ok && (if evicts then Name(1) !in t' else Name(1) in t' && t'[Name(1)] == NewEntry(s, 0))
  {
    EarnedGrows(0.0, 0.0, maxRate);
    EarnedGrows(0.0, maxRate, maxRate);
    hide Earned;
    var (e, ok) := Ask(t[Name(0)], maxRate, maxRate, 0);
    assert ok && Name(0) != Name(1);
    MapWith(t, Name(0), e);
  }

  /** An entry spent less than one interval ago grants nothing. */
  lemma TooEarly(s: real, maxRate: real)
    requires 0.0 < s && maxRate - s > WINDOW
    ensures !Ask(NewEntry(s, 0), maxRate, maxRate, 0).1
  {
    EarnedGrows(maxRate - s, maxRate, maxRate);
    hide Earned;
  }

  predicate SameAnswers(maxRate: real, es: seq<Event>) {
    Answers(map[], true, maxRate, es) == Answers(map[], false, maxRate, es)
  }

  lemma EvictionShows(maxRate: real, n: nat) returns (es: seq<Event>)
    requires maxRate > WINDOW && n == CLEANUP_SIZE
    ensures Clocked(es, 0.0) && !SameAnswers(maxRate, es)
  {
    var s := (maxRate - WINDOW) / 2.0;
    var crowd, first, second := Crowd(n, s), Query(Name(0), maxRate, 0), Query(Name(1), maxRate, 0);
    es := crowd + [first] + [second];
    LastAnswer(maxRate, s, n, true);
    LastAnswer(maxRate, s, n, false);
  }

  /** The last answer of the crowd's run: whether the second address was forgotten. */
  lemma LastAnswer(maxRate: real, s: real, n: nat, evicts: bool)
    requires 0.0 < s && maxRate - s > WINDOW && n == CLEANUP_SIZE
    ensures var es := Crowd(n, s) + [Query(Name(0), maxRate, 0)] + [Query(Name(1), maxRate, 0)];
            Clocked(es, 0.0) && Answers(map[], evicts, maxRate, es)[|es| - 1] == evicts
  {
    var crowd, first, second := Crowd(n, s), Query(Name(0), maxRate, 0), Query(Name(1), maxRate, 0);
    AfterCrowd(n, s, evicts, maxRate);
    var t := After(map[], evicts, maxRate, crowd);
    FirstAsksAgain(t, s, evicts, maxRate);
    TooEarly(s, maxRate);
    var t' := Step(t, evicts, maxRate, first).0;
    assert Step(t', evicts, maxRate, second).1 == evicts;
    hide Crowded, Step, Crowd, Clocked, After, LastTime, Name, Answers;
    ClockedAppend(crowd, first, 0.0);
    ClockedAppend(crowd + [first], second, 0.0);
    AnswersAppend(map[], evicts, maxRate, crowd, [first]);
    RunOne(t, evicts, maxRate, first);
    AnswersAppend(map[], evicts, maxRate, crowd + [first], [second]);
    RunOne(t', evicts, maxRate, second);
  }

  /** Cleaning up changes no answer of any clocked run from the empty table if and only if the rate is at most 60 s. */
  lemma EvictionInvisibleExactly(maxRate: real)
    ensures (forall es: seq<Event> :: Clocked(es, 0.0) ==> SameAnswers(maxRate, es)) <==> maxRate <= WINDOW
  {
    if maxRate <= WINDOW {
      forall es: seq<Event> | Clocked(es, 0.0) ensures SameAnswers(maxRate, es) {
        EvictionInvisible(map[], map[], 0.0, maxRate, es);
      }
    } else {
      var es := EvictionShows(maxRate, CLEANUP_SIZE);
    }
  }

  // ---------------------------------------------------------------------------------------------
  // The responder object
  // ---------------------------------------------------------------------------------------------

  class BlackholeResponder {
    var rateLimits: Table

    constructor ()
      ensures rateLimits == map[]
    {
      rateLimits := map[];
    }

    method ShouldRespond(ip: Ip, now: real, maxRateIn: real, est: nat) returns (ok: bool)
      modifies this
      ensures (rateLimits, ok) == Respond(old(rateLimits), true, ip, now, maxRateIn, est)
    {
      var maxRate := if maxRateIn <= 0.0 then DEFAULT_MAX_RATE else maxRateIn;
      if ip !in rateLimits {
        rateLimits := rateLimits[ip := Entry(CAPACITY - 1.0, now, 1, est, now)];
        return true;
      }
      var e;
      e, ok := Draw(rateLimits[ip], now, maxRate, est);
      rateLimits := rateLimits[ip := e];
      if ok && |rateLimits| > CLEANUP_SIZE { Cleanup(now); }
    }

    /** The part of should_respond that works on the entry found: window, ceiling, refill, consumption. */
    static method Draw(found: Entry, now: real, maxRate: real, est: nat) returns (e: Entry, ok: bool)
      requires maxRate > 0.0
      ensures (e, ok) == Ask(found, now, maxRate, est)
    {
      e, ok := found, false;
      if now - e.windowStart >= WINDOW {
        e := e.(windowStart := now, packets := 0, bytes := 0);
      }
      if e.packets >= MAX_PACKETS || e.bytes >= MAX_BYTES { return; }
      var dt := now - e.lastRefill;
      if dt > 0.0 {
        var refillRate := 1.0 / maxRate;
        e := e.(tokens := e.tokens + dt * refillRate);
        if e.tokens > CAPACITY {
          e := e.(tokens := CAPACITY);
        }
        e := e.(lastRefill := now);
      }
      assert e == Refilled(Windowed(found, now), now, maxRate) by {
        assert dt * (1.0 / maxRate) == Earned(dt, maxRate);
        hide Earned;
      }
      if e.tokens < 1.0 { return; }
      e, ok := e.(tokens := e.tokens - 1.0, packets := e.packets + 1, bytes := e.bytes + est), true;
    }

    method Cleanup(now: real)
      modifies this
      ensures rateLimits == Cleaned(old(rateLimits), now)
    {
      var todo := rateLimits.Keys;
      while todo != {}
        invariant todo <= old(rateLimits).Keys
        invariant rateLimits == map ip | ip in old(rateLimits) &&
                                         (ip in todo || now - old(rateLimits)[ip].lastRefill <= WINDOW)
                                  :: old(rateLimits)[ip]
        decreases |todo|
      {
        var ip :| ip in todo;
        todo := todo - {ip};
        if now - rateLimits[ip].lastRefill > WINDOW {
          rateLimits := rateLimits - {ip};
        }
      }
    }

    method RecordResponse(ip: Ip, sent: nat)
      modifies this
      ensures rateLimits == Record(old(rateLimits), ip, sent)
    {
      if ip in rateLimits {
        if sent > 80 {
          rateLimits := rateLimits[ip := rateLimits[ip].(bytes := rateLimits[ip].bytes + (sent - 80))];
        }
      }
    }
  }
}
