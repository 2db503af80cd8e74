/**
 The reader/recycle protocol of session.h for one session: SessionHandle::reset and release against
 Session::recycle, as sequentially consistent atomic steps of any number of threads. Every load,
 compare-and-swap and fetch-and-add of the source is one event.
 */
module SessionEpoch {
  import opened Wrappers

  type Thread = nat
  type Handle = nat

  /** Where a thread is. `h` is the handle object being filled, `g` the generation first read. */
  datatype Pc =
    | Idle
    | Loaded(h: Handle, g: nat)    // generation read
    | Passed(h: Handle, g: nat)    // first load of is_recycling_ was false
    | Counted(h: Handle, g: nat)   // active_readers_ incremented
    | Entered(h: Handle, g: nat)   // second load was false: enter_reader returned true
    | Undoing(h: Handle)           // will decrement active_readers_ and leave the handle empty
    | Won                          // recycle: the compare-and-swap succeeded
    | Waiting                      // recycle: generation incremented, polling active_readers_
    | Clearing                     // recycle: saw zero readers, inside the clearing block
    | Cleared                      // recycle: clearing block done, is_recycling_ still true

  /**
   A live handle: the generation it carries, and how many clearings, increments by recycle and other increments
   there had been when it was acquired.
   */
  datatype Live = Live(gen: nat, epoch: nat, bumps: nat, turns: nat)

  /**
   `readers`, `recycling` and `gen` are the atomics. The last five are history: clearings begun, generation
   increments made by recycle and by others, clearings finished, and the thread whose compare-and-swap last succeeded.
   */
  datatype State = State(readers: nat, recycling: bool, gen: nat, pcs: map<Thread, Pc>, held: map<Handle, Live>,
                         epoch: nat, bumps: nat, turns: nat, finished: nat, owner: Option<Thread>)

  datatype Event =
    | LoadGen(t: Thread, h: Handle)
    | FirstCheck(t: Thread)
    | Add(t: Thread)
    | SecondCheck(t: Thread)
    | SecondGen(t: Thread)
    | Sub(t: Thread)
    | Release(h: Handle)
    | Move(src: Handle, dst: Handle)
    | Cas(t: Thread)
    | Bump(t: Thread)
    | Poll(t: Thread)
    | Clear(t: Thread)
    | Store(t: Thread)
    | Rotate                       // generation increment by a handshake or a resumption

  function Init(threads: set<Thread>): State {
    State(0, false, 1, map t | t in threads :: Idle, map[], 0, 0, 0, 0, None)
  }

  predicate Acquiring(pc: Pc) {
    pc.Loaded? || pc.Passed? || pc.Counted? || pc.Entered? || pc.Undoing?
  }

  /** Threads whose increment of active_readers_ is outstanding although they hold no handle. */
  predicate InFlight(pc: Pc) {
    pc.Counted? || pc.Entered? || pc.Undoing?
  }

  predicate Recycler(pc: Pc) {
    pc.Won? || pc.Waiting? || pc.Clearing? || pc.Cleared?
  }

  predicate Reading(pc: Pc) {
    pc.Loaded? || pc.Passed? || pc.Counted? || pc.Entered?
  }

  predicate PastBump(pc: Pc) {
    pc.Waiting? || pc.Clearing? || pc.Cleared?
  }

  /** A handle object not in use: neither live nor being filled. */
  predicate FreeHandle(s: State, h: Handle) {
    h !in s.held && forall t :: t in s.pcs && Acquiring(s.pcs[t]) ==> s.pcs[t].h != h
  }

  predicate Enabled(s: State, e: Event) {
    match e
    case LoadGen(t, h) => t in s.pcs && s.pcs[t].Idle? && FreeHandle(s, h)
    case FirstCheck(t) => t in s.pcs && s.pcs[t].Loaded?
    case Add(t) => t in s.pcs && s.pcs[t].Passed?
    case SecondCheck(t) => t in s.pcs && s.pcs[t].Counted?
    case SecondGen(t) => t in s.pcs && s.pcs[t].Entered?
    case Sub(t) => t in s.pcs && s.pcs[t].Undoing?
    case Release(h) => h in s.held
    case Move(src, dst) => src in s.held && FreeHandle(s, dst)
    case Cas(t) => t in s.pcs && s.pcs[t].Idle?
    case Bump(t) => t in s.pcs && s.pcs[t].Won?
    case Poll(t) => t in s.pcs && s.pcs[t].Waiting?
    case Clear(t) => t in s.pcs && s.pcs[t].Clearing?
    case Store(t) => t in s.pcs && s.pcs[t].Cleared?
    case Rotate => true
  }

  /** fetch_sub; the invariant shows it never meets zero. */
  function Decrement(n: nat): nat {
    if n == 0 then 0 else n - 1
  }

  /** The handle a thread that has entered gets now. */
  function Acquired(s: State, t: Thread): Live
    requires t in s.pcs && s.pcs[t].Entered?
  {
    Live(s.pcs[t].g, s.epoch, s.bumps, s.turns)
  }

  function Step(s: State, e: Event): State
    requires Enabled(s, e)
  {
    match e
    case LoadGen(t, h) => s.(pcs := s.pcs[t := Loaded(h, s.gen)])
    case FirstCheck(t) =>
      if s.recycling then s.(pcs := s.pcs[t := Idle]) else s.(pcs := s.pcs[t := Passed(s.pcs[t].h, s.pcs[t].g)])
    case Add(t) => s.(readers := s.readers + 1, pcs := s.pcs[t := Counted(s.pcs[t].h, s.pcs[t].g)])
    case SecondCheck(t) =>
      if s.recycling then s.(pcs := s.pcs[t := Undoing(s.pcs[t].h)])
      else s.(pcs := s.pcs[t := Entered(s.pcs[t].h, s.pcs[t].g)])
    case SecondGen(t) =>
      if s.gen == s.pcs[t].g then
        s.(pcs := s.pcs[t := Idle], held := s.held[s.pcs[t].h := Acquired(s, t)])
      else s.(pcs := s.pcs[t := Undoing(s.pcs[t].h)])
    case Sub(t) => s.(readers := Decrement(s.readers), pcs := s.pcs[t := Idle])
    case Release(h) => s.(readers := Decrement(s.readers), held := s.held - {h})
    case Move(src, dst) => s.(held := (s.held - {src})[dst := s.held[src]])
    case Cas(t) => if s.recycling then s else s.(recycling := true, owner := Some(t), pcs := s.pcs[t := Won])
    case Bump(t) => s.(gen := s.gen + 1, bumps := s.bumps + 1, pcs := s.pcs[t := Waiting])
    case Poll(t) => if s.readers > 0 then s else s.(epoch := s.epoch + 1, pcs := s.pcs[t := Clearing])
    case Clear(t) => s.(finished := s.finished + 1, pcs := s.pcs[t := Cleared])
    case Store(t) => s.(recycling := false, owner := None, pcs := s.pcs[t := Idle])
    case Rotate => s.(gen := s.gen + 1, turns := s.turns + 1)
  }

  function Flying(s: State): set<Thread> {
    set t | t in s.pcs && InFlight(s.pcs[t])
  }

  /** active_readers_ is exactly the live handles plus the entries in flight. */
  predicate Counts(s: State) {
    s.readers == |Flying(s)| + |s.held|
  }

  /** is_recycling_ is true exactly while one thread, the owner, is past the compare-and-swap. */
  predicate OneRecycler(s: State) {
    && (s.recycling <==> s.owner.Some?)
    && (s.owner.Some? ==> s.owner.value in s.pcs)
    && forall t :: t in s.pcs ==> (Recycler(s.pcs[t]) <==> s.owner == Some(t))
  }

  /** Generations read are never ahead; once a recycle has incremented it, threads still inside read an older one. */
  predicate GenerationsOld(s: State) {
    NoneAhead(s) && EnteredOld(s)
  }

  predicate NoneAhead(s: State) {
    forall t :: t in s.pcs && Reading(s.pcs[t]) ==> s.pcs[t].g <= s.gen
  }

  predicate EnteredOld(s: State) {
    s.owner.Some? && s.owner.value in s.pcs && PastBump(s.pcs[s.owner.value]) ==>
      forall u :: u in s.pcs && s.pcs[u].Entered? ==> s.pcs[u].g < s.gen
  }

  predicate Cleaning(s: State) {
    s.owner.Some? && s.owner.value in s.pcs && (s.pcs[s.owner.value].Clearing? || s.pcs[s.owner.value].Cleared?)
  }

  /** While a recycle clears, and until it reopens the session, nobody holds or can get a handle. */
  predicate Quiet(s: State) {
    Cleaning(s) ==> s.held == map[] && forall u :: u in s.pcs ==> !s.pcs[u].Entered?
  }

  /** No clearing has begun since any live handle was acquired. */
  predicate HandlesCurrent(s: State) {
    forall h :: h in s.held ==> s.held[h].epoch == s.epoch && s.held[h].gen <= s.gen
  }

  predicate HandlesDistinct(s: State) {
    && (forall t :: t in s.pcs && Acquiring(s.pcs[t]) ==> s.pcs[t].h !in s.held)
    && (forall t, u :: t in s.pcs && u in s.pcs && t != u && Acquiring(s.pcs[t]) && Acquiring(s.pcs[u]) ==>
          s.pcs[t].h != s.pcs[u].h)
  }

  /** Recycles that incremented the generation and have not finished clearing: one while one waits or clears. */
  predicate History(s: State) {
    s.bumps == s.finished + if s.owner.Some? && s.owner.value in s.pcs &&
                               (s.pcs[s.owner.value].Waiting? || s.pcs[s.owner.value].Clearing?) then 1 else 0
  }

  /** Every increment shows in the generation, and a handle carries the generation of its acquisition. */
  predicate Stamped(s: State) {
    && s.gen == 1 + s.bumps + s.turns
    && forall h :: h in s.held ==>
         s.held[h].gen == 1 + s.held[h].bumps + s.held[h].turns &&
         s.held[h].bumps <= s.bumps && s.held[h].turns <= s.turns
  }

  /** A recycler past its increment finds only handles of older generations. */
  predicate HandlesOld(s: State) {
    s.owner.Some? && s.owner.value in s.pcs && PastBump(s.pcs[s.owner.value]) ==>
      forall h :: h in s.held ==> s.held[h].gen < s.gen
  }

  predicate Inv(s: State) {
    && Counts(s) && OneRecycler(s) && GenerationsOld(s) && Quiet(s)
    && HandlesCurrent(s) && HandlesDistinct(s) && History(s) && Stamped(s) && HandlesOld(s)
  }

  lemma InitInv(threads: set<Thread>)
    ensures Inv(Init(threads))
  {
    assert Flying(Init(threads)) == {};
  }

  /** One thread moving changes the number in flight by what that thread contributes. */
  lemma FlyingMoves(s: State, s': State, t: Thread, pc: Pc)
    requires t in s.pcs && s'.pcs == s.pcs[t := pc]
    ensures |Flying(s')| == |Flying(s)| + (if InFlight(pc) then 1 else 0) - (if InFlight(s.pcs[t]) then 1 else 0)
  {
    var rest := Flying(s) - {t};
    assert Flying(s) == if InFlight(s.pcs[t]) then rest + {t} else rest;
    assert Flying(s') == if InFlight(pc) then rest + {t} else rest;
  }

  lemma CountsRelease(s: State, h: Handle)
    requires Counts(s) && Enabled(s, Release(h))
    ensures Counts(Step(s, Release(h)))
  {
    assert Flying(Step(s, Release(h))) == Flying(s);
    hide Flying;
    MapWithout(s.held, h);
  }

  lemma CountsMove(s: State, src: Handle, dst: Handle)
    requires Counts(s) && Enabled(s, Move(src, dst))
    ensures Counts(Step(s, Move(src, dst)))
  {
    assert Flying(Step(s, Move(src, dst))) == Flying(s);
    hide Flying, FreeHandle;
    FreeIsNew(s, dst);
    MapMoved(s.held, src, dst);
  }

  lemma CountsRotate(s: State)
    requires Counts(s)
    ensures Counts(Step(s, Rotate))
  {
    assert Flying(Step(s, Rotate)) == Flying(s);
  }

  lemma CountsAcquire(s: State, t: Thread)
    requires Counts(s) && HandlesDistinct(s) && Enabled(s, SecondGen(t))
    ensures Counts(Step(s, SecondGen(t)))
  {
    var s' := Step(s, SecondGen(t));
    FlyingMoves(s, s', t, s'.pcs[t]);
    hide Flying;
    if s.gen == s.pcs[t].g { MapWith(s.held, s.pcs[t].h, Acquired(s, t)); }
  }

  lemma CountsOther(s: State, e: Event)
    requires Counts(s) && Enabled(s, e)
    requires !e.Release? && !e.Move? && !e.Rotate? && !e.SecondGen?
    ensures Counts(Step(s, e))
  {
    hide Flying;
    var s' := Step(s, e);
    assert s'.pcs == s.pcs[e.t := s'.pcs[e.t]];
    assert s'.held == s.held;
    assert s'.readers == s.readers + (if e.Add? then 1 else 0) - (if e.Sub? && s.readers > 0 then 1 else 0);
    assert (if InFlight(s'.pcs[e.t]) then 1 else 0)
        == (if InFlight(s.pcs[e.t]) then 1 else 0) + (if e.Add? then 1 else 0) - (if e.Sub? then 1 else 0);
    hide Step, Enabled;
    FlyingMoves(s, s', e.t, s'.pcs[e.t]);
  }

  lemma CountsStep(s: State, e: Event)
    requires Counts(s) && HandlesDistinct(s) && Enabled(s, e)
    ensures Counts(Step(s, e))
  {
    hide Counts, HandlesDistinct, Step, Enabled;
    match e {
      case Release(h) => CountsRelease(s, h);
      case Move(src, dst) => CountsMove(s, src, dst);
      case Rotate => CountsRotate(s);
      case SecondGen(t) => CountsAcquire(s, t);
      case _ => CountsOther(s, e);
    }
  }

  /** active_readers_ is never decremented at zero. */
  lemma NeverUnderflows(s: State, e: Event)
    requires Counts(s) && Enabled(s, e) && (e.Sub? || e.Release?)
    ensures s.readers > 0
  {
    match e {
      case Sub(t) => assert t in Flying(s);
      case Release(h) => MapWithout(s.held, h);
    }
  }

  lemma OneRecyclerStep(s: State, e: Event)
    requires OneRecycler(s) && Enabled(s, e)
    ensures OneRecycler(Step(s, e))
  {}

  lemma NoneAheadStep(s: State, e: Event)
    requires NoneAhead(s) && Enabled(s, e)
    ensures NoneAhead(Step(s, e))
  {}

  lemma EnteredOldStep(s: State, e: Event)
    requires OneRecycler(s) && NoneAhead(s) && EnteredOld(s) && Enabled(s, e)
    ensures EnteredOld(Step(s, e))
  {}

  lemma GenerationsStep(s: State, e: Event)
    requires OneRecycler(s) && GenerationsOld(s) && Enabled(s, e)
    ensures GenerationsOld(Step(s, e))
  {
    NoneAheadStep(s, e);
    EnteredOldStep(s, e);
    hide Step, Enabled, NoneAhead, EnteredOld, OneRecycler;
  }

  /** A recycle that sees zero readers sees no live handle and no thread inside. */
  lemma NobodyInside(s: State)
    requires Counts(s) && s.readers == 0
    ensures s.held == map[] && forall u :: u in s.pcs ==> !InFlight(s.pcs[u])
  {
    assert Flying(s) == {} && s.held == map[];
    forall u | u in s.pcs ensures !InFlight(s.pcs[u]) { assert u !in Flying(s); }
  }

  lemma QuietStep(s: State, e: Event)
    requires Counts(s) && OneRecycler(s) && Quiet(s) && Enabled(s, e)
    ensures Quiet(Step(s, e))
  {
    if s.readers == 0 { NobodyInside(s); }
    hide Counts, Flying;
  }

  lemma CurrentStep(s: State, e: Event)
    requires Counts(s) && HandlesCurrent(s) && GenerationsOld(s) && Enabled(s, e)
    ensures HandlesCurrent(Step(s, e))
  {
    if s.readers == 0 { NobodyInside(s); }
    hide Counts, Flying;
  }

  /** No handle becomes live and no thread starts filling one. */
  predicate NoNewHandle(s: State, s': State) {
    && s'.pcs.Keys == s.pcs.Keys && s'.held.Keys <= s.held.Keys
    && forall t :: t in s.pcs && Acquiring(s'.pcs[t]) ==> Acquiring(s.pcs[t]) && s'.pcs[t].h == s.pcs[t].h
  }

  lemma NoNewHandleKeepsDistinct(s: State, s': State)
    requires HandlesDistinct(s) && NoNewHandle(s, s')
    ensures HandlesDistinct(s')
  {}

  lemma DistinctLoad(s: State, t: Thread, h: Handle)
    requires HandlesDistinct(s) && Enabled(s, LoadGen(t, h))
    ensures HandlesDistinct(Step(s, LoadGen(t, h)))
  {}

  lemma DistinctAcquire(s: State, t: Thread)
    requires HandlesDistinct(s) && Enabled(s, SecondGen(t))
    ensures HandlesDistinct(Step(s, SecondGen(t)))
  {}

  lemma DistinctMove(s: State, src: Handle, dst: Handle)
    requires HandlesDistinct(s) && Enabled(s, Move(src, dst))
    ensures HandlesDistinct(Step(s, Move(src, dst)))
  {}

  lemma DistinctStep(s: State, e: Event)
    requires HandlesDistinct(s) && Enabled(s, e)
    ensures HandlesDistinct(Step(s, e))
  {
    hide HandlesDistinct;
    if e.LoadGen? {
      DistinctLoad(s, e.t, e.h);
    } else if e.SecondGen? {
      DistinctAcquire(s, e.t);
    } else if e.Move? {
      DistinctMove(s, e.src, e.dst);
    } else {
      assert NoNewHandle(s, Step(s, e));
      hide Step, Enabled, NoNewHandle;
      NoNewHandleKeepsDistinct(s, Step(s, e));
    }
  }

  lemma HistoryStep(s: State, e: Event)
    requires OneRecycler(s) && History(s) && Enabled(s, e)
    ensures History(Step(s, e))
  {}

  lemma StampedStep(s: State, e: Event)
    requires Stamped(s) && GenerationsOld(s) && Enabled(s, e)
    ensures Stamped(Step(s, e))
  {}

  lemma HandlesOldStep(s: State, e: Event)
    requires OneRecycler(s) && GenerationsOld(s) && HandlesCurrent(s) && HandlesOld(s) && Enabled(s, e)
    ensures HandlesOld(Step(s, e))
  {}

  lemma StepKeepsInv(s: State, e: Event)
    requires Inv(s) && Enabled(s, e)
    ensures Inv(Step(s, e))
  {
    hide Counts, OneRecycler, GenerationsOld, Quiet, HandlesCurrent, HandlesDistinct, History, Stamped, HandlesOld;
    hide Step;
    CountsStep(s, e);
    OneRecyclerStep(s, e);
    GenerationsStep(s, e);
    QuietStep(s, e);
    CurrentStep(s, e);
    DistinctStep(s, e);
    HistoryStep(s, e);
    StampedStep(s, e);
    HandlesOldStep(s, e);
  }

  // ---------------------------------------------------------------------------------------------
  // Whole runs
  // ---------------------------------------------------------------------------------------------

  predicate CanRun(s: State, es: seq<Event>)
    decreases |es|
  {
    es == [] || (Enabled(s, es[0]) && CanRun(Step(s, es[0]), es[1..]))
  }

  function Run(s: State, es: seq<Event>): State
    requires CanRun(s, es)
    decreases |es|
  {
    if es == [] then s else Run(Step(s, es[0]), es[1..])
  }

  lemma {:induction false} RunKeepsInv(s: State, es: seq<Event>)
    requires Inv(s) && CanRun(s, es)
    ensures Inv(Run(s, es))
    decreases |es|
  {
    if es != [] {
      StepKeepsInv(s, es[0]);
      RunKeepsInv(Step(s, es[0]), es[1..]);
    }
  }

  /**
   In every interleaving: the reader count is live handles plus entries in flight, at most one
   thread is past the compare-and-swap, and while one is in its clearing block no handle is live.
   */
  lemma Safety(threads: set<Thread>, es: seq<Event>)
    requires CanRun(Init(threads), es)
    ensures var s := Run(Init(threads), es);
            && s.readers == |Flying(s)| + |s.held|
            && (forall t, u :: t in s.pcs && u in s.pcs && Recycler(s.pcs[t]) && Recycler(s.pcs[u]) ==> t == u)
            && (forall t :: t in s.pcs && s.pcs[t].Clearing? ==> s.held == map[])
            && (forall h :: h in s.held ==> s.held[h].epoch == s.epoch)
  {
    Reachable(threads, es);
    hide GenerationsOld, HandlesDistinct, History, Stamped, HandlesOld, CanRun, Run;
  }

  lemma Reachable(threads: set<Thread>, es: seq<Event>)
    requires CanRun(Init(threads), es)
    ensures Inv(Run(Init(threads), es))
  {
    InitInv(threads);
    RunKeepsInv(Init(threads), es);
  }

  lemma NonePastBump(s: State)
    requires OneRecycler(s) && History(s)
    requires s.owner.Some? ==> s.owner.value in s.pcs && !PastBump(s.pcs[s.owner.value])
    ensures s.bumps == s.finished && forall u :: u in s.pcs ==> !PastBump(s.pcs[u])
  {}

  lemma AcquiredFrom(s: State, t: Thread)
    requires Inv(s) && Enabled(s, SecondGen(t)) && Step(s, SecondGen(t)).held != s.held
    ensures s.bumps == s.finished && forall u :: u in s.pcs ==> !PastBump(s.pcs[u])
  {
    assert t in s.pcs && s.pcs[t].Entered? && s.gen == s.pcs[t].g;
    hide Counts, Quiet, HandlesCurrent, HandlesDistinct, Stamped, HandlesOld, History, Step, Enabled;
    NonePastBump(s);
  }

  /** A handle becomes live only when every recycle that incremented the generation has finished clearing. */
  lemma AcquiredAfterClearing(threads: set<Thread>, es: seq<Event>, t: Thread)
    requires CanRun(Init(threads), es)
    requires var s := Run(Init(threads), es);
             Enabled(s, SecondGen(t)) && Step(s, SecondGen(t)).held != s.held
    ensures var s := Run(Init(threads), es);
            s.bumps == s.finished && forall u :: u in s.pcs ==> !PastBump(s.pcs[u])
  {
    hide *;
    Reachable(threads, es);
    AcquiredFrom(Run(Init(threads), es), t);
  }

  /** While a recycle waits, the handles that keep it waiting only go away: their number never grows. */
  lemma WaitingDrains(s: State, e: Event, t: Thread)
    requires Inv(s) && Enabled(s, e) && t in s.pcs && s.pcs[t].Waiting?
    ensures |Step(s, e).held| <= |s.held|
  {
    assert s.owner == Some(t);
    hide Counts, Flying, OneRecycler, Quiet, HandlesCurrent, HandlesDistinct, History, Stamped, HandlesOld;
    match e {
      case Release(h) => MapWithout(s.held, h);
      case Move(src, dst) => MapMoved(s.held, src, dst);
      case _ =>
    }
  }

  // ---------------------------------------------------------------------------------------------
  // A recycler does not wait for ever
  // ---------------------------------------------------------------------------------------------

  /** The steps a thread inside still has to take before it leaves or holds a handle, and one more for the handle. */
  function StepsLeft(pc: Pc): (n: nat)
    ensures n <= 3
  {
    match pc
    case Passed(_, _) => 3
    case Counted(_, _) => 2
    case Entered(_, _) => 2
    case Undoing(_) => 1
    case _ => 0
  }

  function AtLeastLeft(s: State, n: nat): set<Thread> {
    set t | t in s.pcs && StepsLeft(s.pcs[t]) >= n
  }

  /** All steps left to the threads inside and to the holders of live handles. */
  function Work(s: State): nat {
    |AtLeastLeft(s, 1)| + |AtLeastLeft(s, 2)| + |AtLeastLeft(s, 3)| + |s.held|
  }

  /** The steps that use up work. */
  predicate Leaving(e: Event) {
    e.Add? || e.SecondCheck? || e.SecondGen? || e.Sub? || e.Release?
  }

  lemma LevelMoves(s: State, s': State, t: Thread, pc: Pc, n: nat)
    requires t in s.pcs && s'.pcs == s.pcs[t := pc]
    ensures |AtLeastLeft(s', n)| ==
            |AtLeastLeft(s, n)| + (if StepsLeft(pc) >= n then 1 else 0) - (if StepsLeft(s.pcs[t]) >= n then 1 else 0)
  {
    hide StepsLeft;
    var rest := AtLeastLeft(s, n) - {t};
    assert AtLeastLeft(s, n) == if StepsLeft(s.pcs[t]) >= n then rest + {t} else rest;
    assert AtLeastLeft(s', n) == if StepsLeft(pc) >= n then rest + {t} else rest;
  }

  lemma WorkMoves(s: State, s': State, t: Thread, pc: Pc)
    requires t in s.pcs && s'.pcs == s.pcs[t := pc]
    ensures Work(s') == Work(s) + StepsLeft(pc) - StepsLeft(s.pcs[t]) + |s'.held| - |s.held|
  {
    LevelMoves(s, s', t, pc, 1);
    LevelMoves(s, s', t, pc, 2);
    LevelMoves(s, s', t, pc, 3);
    hide AtLeastLeft, StepsLeft;
  }

  lemma SameThreads(s: State, s': State)
    requires s'.pcs == s.pcs
    ensures Work(s') == Work(s) + |s'.held| - |s.held|
  {
    assert AtLeastLeft(s', 1) == AtLeastLeft(s, 1);
    assert AtLeastLeft(s', 2) == AtLeastLeft(s, 2);
    assert AtLeastLeft(s', 3) == AtLeastLeft(s, 3);
  }

  lemma HandlesMove(s: State, e: Event)
    requires Enabled(s, e) && (e.Release? || e.Move? || e.Rotate?)
    ensures Work(Step(s, e)) == Work(s) - if e.Release? then 1 else 0
  {
    hide Work, FreeHandle;
    match e {
      case Release(h) => MapWithout(s.held, h);
      case Move(src, dst) => FreeIsNew(s, dst); MapMoved(s.held, src, dst);
      case Rotate =>
    }
    SameThreads(s, Step(s, e));
  }

  lemma FreeIsNew(s: State, h: Handle)
    requires FreeHandle(s, h)
    ensures h !in s.held
  {}

  lemma ThreadMoves(s: State, e: Event)
    requires HandlesDistinct(s) && s.recycling && Enabled(s, e)
    requires !e.Release? && !e.Move? && !e.Rotate? && !e.Store?
    ensures Work(Step(s, e)) <= Work(s) - if Leaving(e) then 1 else 0
  {
    hide Work;
    var s' := Step(s, e);
    assert s'.pcs == s.pcs[e.t := s'.pcs[e.t]];
    WorkMoves(s, s', e.t, s'.pcs[e.t]);
    if e.SecondGen? && s.gen == s.pcs[e.t].g { MapWith(s.held, s.pcs[e.t].h, Acquired(s, e.t)); }
  }

  /** While a session is recycled no step but the reopening makes new work, and each leaving step uses some up. */
  lemma WorkShrinks(s: State, e: Event)
    requires HandlesDistinct(s) && s.recycling && Enabled(s, e) && !e.Store?
    ensures Work(Step(s, e)) <= Work(s) - if Leaving(e) then 1 else 0
  {
    hide Work, Step, Enabled, HandlesDistinct;
    if e.Release? || e.Move? || e.Rotate? {
      HandlesMove(s, e);
    } else {
      ThreadMoves(s, e);
    }
  }

  lemma StaysRecycling(s: State, e: Event)
    requires Enabled(s, e) && s.recycling && !e.Store?
    ensures Step(s, e).recycling
  {}

  lemma DistinctFrom(s: State)
    requires Inv(s)
    ensures HandlesDistinct(s)
  {
    hide HandlesDistinct;
  }

  function LeavingSteps(es: seq<Event>): nat {
    if es == [] then 0 else (if Leaving(es[0]) then 1 else 0) + LeavingSteps(es[1..])
  }

  predicate NoReopening(es: seq<Event>) {
    forall i :: 0 <= i < |es| ==> !es[i].Store?
  }

  /** From the compare-and-swap to the reopening only as many leaving steps happen as there was work. */
  lemma {:induction false} WorkBounds(s: State, es: seq<Event>)
    requires Inv(s) && s.recycling && CanRun(s, es) && NoReopening(es)
    ensures LeavingSteps(es) + Work(Run(s, es)) <= Work(s)
    decreases |es|
  {
    hide Inv, Work, Step, Enabled, Leaving, HandlesDistinct;
    if es != [] {
      StepKeepsInv(s, es[0]);
      DistinctFrom(s);
      WorkShrinks(s, es[0]);
      StaysRecycling(s, es[0]);
      WorkBounds(Step(s, es[0]), es[1..]);
    }
  }

  /**
   A waiting recycler is never stuck: either its next poll passes, or a thread inside or the holder of a
   handle can take one of the steps WorkBounds counts. So once the handles are released it gets through.
   */
  lemma WaitingIsNotStuck(s: State, t: Thread)
    requires Inv(s) && t in s.pcs && s.pcs[t].Waiting?
    ensures Enabled(s, Poll(t))
    ensures Step(s, Poll(t)).pcs[t].Clearing? <==> s.readers == 0
    ensures s.readers > 0 ==> exists e :: Leaving(e) && Enabled(s, e)
    ensures Work(s) == 0 ==> s.readers == 0
  {
    assert s.readers == |Flying(s)| + |s.held|;
    hide Inv, Counts;
    if s.readers > 0 { SomebodyLeaves(s); }
    InFlightIsWork(s);
  }

  lemma SomebodyLeaves(s: State)
    requires |Flying(s)| + |s.held| > 0
    ensures exists e :: Leaving(e) && Enabled(s, e)
  {
    if |s.held| > 0 {
      var h :| h in s.held;
      assert Leaving(Release(h)) && Enabled(s, Release(h));
    } else {
      var u :| u in Flying(s);
      var e := match s.pcs[u] case Counted(_, _) => SecondCheck(u) case Entered(_, _) => SecondGen(u) case _ => Sub(u);
      assert Leaving(e) && Enabled(s, e);
    }
  }

  lemma InFlightIsWork(s: State)
    ensures |Flying(s)| + |s.held| <= Work(s)
  {
    assert Flying(s) <= AtLeastLeft(s, 1);
    Smaller(Flying(s), AtLeastLeft(s, 1));
  }

  lemma Smaller<T>(a: set<T>, b: set<T>)
    requires a <= b
    ensures |a| <= |b|
  {
    assert b == a + (b - a);
  }

  // ---------------------------------------------------------------------------------------------
  // Who gets a handle
  // ---------------------------------------------------------------------------------------------

  /** The thread is on its way to a handle, and `es`, of all threads, takes it just to the end of that way. */
  predicate Attempt(s: State, es: seq<Event>, t: Thread)
    requires CanRun(s, es) && t in s.pcs
    decreases |es|
  {
    Acquiring(s.pcs[t]) && es != [] && t in Step(s, es[0]).pcs &&
    if |es| == 1 then Step(s, es[0]).pcs[t].Idle? else Attempt(Step(s, es[0]), es[1..], t)
  }

  /** The session is open at both checks, and its generation at the last one is still `g`. */
  predicate ChecksPass(s: State, es: seq<Event>, t: Thread, g: nat)
    requires CanRun(s, es)
    decreases |es|
  {
    es == [] ||
    ((es[0] == FirstCheck(t) || es[0] == SecondCheck(t) ==> !s.recycling) && (es[0] == SecondGen(t) ==> s.gen == g) &&
     ChecksPass(Step(s, es[0]), es[1..], t, g))
  }

  predicate ByThread(e: Event, t: Thread) {
    match e
    case Release(_) => false
    case Move(_, _) => false
    case Rotate => false
    case LoadGen(u, _) => u == t
    case _ => e.t == t
  }

  lemma OthersLeave(s: State, e: Event, t: Thread)
    requires Enabled(s, e) && t in s.pcs && !ByThread(e, t)
    ensures t in Step(s, e).pcs && Step(s, e).pcs[t] == s.pcs[t]
  {}

  lemma NotYetHeld(s: State, t: Thread)
    requires Inv(s) && t in s.pcs && Acquiring(s.pcs[t])
    ensures s.pcs[t].h !in s.held
  {
    hide Counts, OneRecycler, GenerationsOld, Quiet, HandlesCurrent, History, Stamped, HandlesOld;
  }

  /** A thread that is leaving gets no handle. */
  lemma {:induction false} UndoingGetsNothing(s: State, es: seq<Event>, t: Thread)
    requires Inv(s) && CanRun(s, es) && t in s.pcs && s.pcs[t].Undoing? && Attempt(s, es, t)
    ensures s.pcs[t].h !in Run(s, es).held
    decreases |es|
  {
    hide Inv;
    var e, s' := es[0], Step(s, es[0]);
    NotYetHeld(s, t);
    StepKeepsInv(s, e);
    if ByThread(e, t) {
      assert e == Sub(t) && |es| == 1 && es[1..] == [];
    } else {
      OthersLeave(s, e, t);
      hide Step, Enabled;
      UndoingGetsNothing(s', es[1..], t);
    }
  }

  /** What one step of the thread itself makes of its attempt. */
  lemma OwnStep(s: State, e: Event, t: Thread)
    requires t in s.pcs && Reading(s.pcs[t]) && Enabled(s, e) && ByThread(e, t)
    ensures var pc, s' := s.pcs[t], Step(s, e);
            t in s'.pcs &&
            match pc
            case Loaded(h, g) =>
              e == FirstCheck(t) && s'.held == s.held && s'.pcs[t] == if s.recycling then Idle else Passed(h, g)
            case Passed(h, g) => e == Add(t) && s'.pcs[t] == Counted(h, g)
            case Counted(h, g) => e == SecondCheck(t) && s'.pcs[t] == if s.recycling then Undoing(h) else Entered(h, g)
            case Entered(h, g) =>
              e == SecondGen(t) && s'.pcs[t] == (if s.gen == g then Idle else Undoing(h)) &&
              (s.gen == g ==> s'.held == s.held[h := Live(g, s.epoch, s.bumps, s.turns)])
  {}

  /**
   In any interleaving a thread that has read the generation gets its handle if and only if the session is
   open at both its checks and the generation has not been incremented when it reads it again.
   */
  lemma {:induction false} AcquiresExactly(s: State, es: seq<Event>, t: Thread)
    requires Inv(s) && CanRun(s, es) && t in s.pcs && Reading(s.pcs[t]) && Attempt(s, es, t)
    ensures s.pcs[t].h in Run(s, es).held <==> ChecksPass(s, es, t, s.pcs[t].g)
    ensures ChecksPass(s, es, t, s.pcs[t].g) ==> Run(s, es).held[s.pcs[t].h].gen == s.pcs[t].g
    decreases |es|
  {
    hide Inv;
    var e, s', pc := es[0], Step(s, es[0]), s.pcs[t];
    NotYetHeld(s, t);
    StepKeepsInv(s, e);
    if ByThread(e, t) {
      OwnStep(s, e, t);
      hide Step, Enabled;
      if s'.pcs[t].Idle? {
        assert |es| == 1 && es[1..] == [];
      } else if s'.pcs[t].Undoing? {
        UndoingGetsNothing(s', es[1..], t);
      } else {
        AcquiresExactly(s', es[1..], t);
      }
    } else {
      OthersLeave(s, e, t);
      hide Step, Enabled;
      AcquiresExactly(s', es[1..], t);
    }
  }

  /** reset from its first load on: exactly when all checks pass the handle is live, with the generation loaded. */
  lemma ResetExactly(s: State, es: seq<Event>, t: Thread, h: Handle)
    requires Inv(s) && Enabled(s, LoadGen(t, h)) && CanRun(Step(s, LoadGen(t, h)), es)
    requires Attempt(Step(s, LoadGen(t, h)), es, t)
    ensures var s1 := Step(s, LoadGen(t, h));
            && (h in Run(s1, es).held <==> ChecksPass(s1, es, t, s.gen))
            && (ChecksPass(s1, es, t, s.gen) ==> Run(s1, es).held[h].gen == s.gen)
  {
    StepKeepsInv(s, LoadGen(t, h));
    var s1 := Step(s, LoadGen(t, h));
    assert s1.pcs[t] == Loaded(h, s.gen);
    hide Inv, Step, Enabled;
    AcquiresExactly(s1, es, t);
  }

  /** An idle thread alone with an open session gets a handle of the current generation, and is counted. */
  lemma AloneGetsHandle(s: State, t: Thread, h: Handle)
    requires t in s.pcs && s.pcs[t].Idle? && FreeHandle(s, h) && !s.recycling
    ensures var es := [LoadGen(t, h), FirstCheck(t), Add(t), SecondCheck(t), SecondGen(t)];
            CanRun(s, es) && Run(s, es) ==
            s.(readers := s.readers + 1, held := s.held[h := Live(s.gen, s.epoch, s.bumps, s.turns)])
  {
    var s1 := Step(s, LoadGen(t, h));
    var s2 := Step(s1, FirstCheck(t));
    var s3 := Step(s2, Add(t));
    var s4 := Step(s3, SecondCheck(t));
    var s5 := Step(s4, SecondGen(t));
    assert s5.pcs == s.pcs;
    hide FreeHandle, Step;
    FiveSteps(s, LoadGen(t, h), FirstCheck(t), Add(t), SecondCheck(t), SecondGen(t));
  }

  /** A live handle stays as it is until it is released or moved, and a move carries it over unchanged. */
  lemma HandleFate(s: State, e: Event, h: Handle)
    requires Inv(s) && Enabled(s, e) && h in s.held
    ensures var after := Step(s, e).held;
            if e == Release(h) then h !in after
            else if e.Move? && e.src == h then h !in after && e.dst in after && after[e.dst] == s.held[h]
            else h in after && after[h] == s.held[h]
  {
    if e.SecondGen? { NotYetHeld(s, e.t); }
    if e.Move? { FreeIsNew(s, e.dst); }
    hide Inv, FreeHandle;
  }

  /** A recycle alone with a session nobody reads goes through: one generation on, one clearing more, open again. */
  lemma AloneRecycles(s: State, t: Thread)
    requires t in s.pcs && s.pcs[t].Idle? && !s.recycling && s.owner.None? && s.readers == 0
    ensures var es := [Cas(t), Bump(t), Poll(t), Clear(t), Store(t)];
            CanRun(s, es) && Run(s, es) ==
            s.(gen := s.gen + 1, bumps := s.bumps + 1, epoch := s.epoch + 1, finished := s.finished + 1)
  {
    var s1 := Step(s, Cas(t));
    var s2 := Step(s1, Bump(t));
    var s3 := Step(s2, Poll(t));
    var s4 := Step(s3, Clear(t));
    assert s4.pcs[t].Cleared? && s4.pcs[t := Idle] == s.pcs;
    var s5 := Step(s4, Store(t));
    assert s5.pcs == s.pcs;
    hide Step, Enabled;
    FiveSteps(s, Cas(t), Bump(t), Poll(t), Clear(t), Store(t));
  }

  lemma FiveSteps(s: State, a: Event, b: Event, c: Event, d: Event, e: Event)
    requires Enabled(s, a) && Enabled(Step(s, a), b) && Enabled(Step(Step(s, a), b), c)
    requires Enabled(Step(Step(Step(s, a), b), c), d) && Enabled(Step(Step(Step(Step(s, a), b), c), d), e)
    ensures CanRun(s, [a, b, c, d, e])
    ensures Run(s, [a, b, c, d, e]) == Step(Step(Step(Step(Step(s, a), b), c), d), e)
  {
    hide Step, Enabled;
    var es := [a, b, c, d, e];
    assert es[1..] == [b, c, d, e] && [b, c, d, e][1..] == [c, d, e] && [c, d, e][1..] == [d, e] && [d, e][1..] == [e];
    assert [e][1..] == [];
    var s1 := Step(s, a);
    var s2 := Step(s1, b);
    var s3 := Step(s2, c);
    var s4 := Step(s3, d);
    assert CanRun(s4, [e]) && Run(s4, [e]) == Run(Step(s4, e), []);
    assert CanRun(s3, [d, e]) && Run(s3, [d, e]) == Run(s4, [e]);
    assert CanRun(s2, [c, d, e]) && Run(s2, [c, d, e]) == Run(s3, [d, e]);
    assert CanRun(s1, [b, c, d, e]) && Run(s1, [b, c, d, e]) == Run(s2, [c, d, e]);
  }

  lemma ValidFrom(s: State, h: Handle)
    requires Inv(s) && h in s.held
    ensures s.held[h].gen == s.gen <==> s.held[h].bumps == s.bumps && s.held[h].turns == s.turns
    ensures s.held[h].gen == s.gen ==> s.bumps == s.finished && forall t :: t in s.pcs ==> !PastBump(s.pcs[t])
  {
    hide Counts, Quiet, HandlesCurrent, HandlesDistinct, GenerationsOld, History;
    if s.held[h].gen == s.gen { NonePastBump(s); }
  }

  /**
   is_valid, for any handle in any interleaving: it answers true exactly when the generation has not been
   incremented since the handle was acquired, neither by a recycle nor by a handshake; and then no recycle
   is between its increment and its end.
   */
  lemma ValidHandleUnbumped(threads: set<Thread>, es: seq<Event>, h: Handle)
    requires CanRun(Init(threads), es) && h in Run(Init(threads), es).held
    ensures var s := Run(Init(threads), es);
            && (s.held[h].gen == s.gen <==> s.held[h].bumps == s.bumps && s.held[h].turns == s.turns)
            && (s.held[h].gen == s.gen ==> s.bumps == s.finished && forall t :: t in s.pcs ==> !PastBump(s.pcs[t]))
  {
    hide *;
    Reachable(threads, es);
    ValidFrom(Run(Init(threads), es), h);
  }
}
