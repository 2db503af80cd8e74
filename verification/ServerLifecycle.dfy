/**
 The life of an address in server.cpp: handshakes with automatic slots, resumptions, data packets,
 forwarding from the TUN device, idle collection, revocation and registration, over the address
 pool, the session table, the route map and the endpoint cache. One event is one handler run to its
 end. Times are integer milliseconds.
 */
module ServerLifecycle {
  import opened Wrappers
  import IpPool

  type KeyId = nat
  type Ip = IpPool.Ip
  type Endpoint = nat

  /** Token life, idle timeout, busy interval, and how far the system clock can be ahead of the loop's reading. */
  datatype Config = Config(life: nat, idle: nat, busy: nat, lag: nat)

  function Production(lag: nat): Config {
    Config(180000, 600000, 60000, lag)
  }

  datatype Session = Session(ip: Ip, hasClient: bool, client: Endpoint, lastActivity: int, done: bool)

  /** A resumption token as the manager that issued it will read it. */
  datatype Token = Token(kid: KeyId, ip: Ip, expiry: int)

  /** `tokens` is every token ever issued; `now` is the loop's clock reading and `wall` the system clock. */
  datatype State = State(pool: IpPool.Pool, sessions: map<KeyId, Session>, routes: map<Ip, KeyId>,
                         endpoints: map<Endpoint, KeyId>, slots: map<KeyId, seq<KeyId>>, tokens: set<Token>,
                         now: int, wall: int)

  datatype Event =
    | Tick(now: int, wall: int)
    | Handshake(kid: KeyId, client: Endpoint)
    | Resume(token: Token, client: Endpoint, cryptoOk: bool)
    | Data(kid: KeyId, client: Endpoint, scanned: bool, authentic: bool)
    | Egress(dst: Ip)
    | Collect(order: seq<KeyId>)
    | Revoke(base: KeyId, kids: seq<KeyId>)
    | Register(kid: KeyId)
    | SetSlots(base: KeyId, kids: seq<KeyId>)

  // ---------------------------------------------------------------------------------------------
  // The handlers
  // ---------------------------------------------------------------------------------------------

  /** The slot has a recent client at another endpoint. */
  predicate Busy(s: State, cfg: Config, kid: KeyId, client: Endpoint)
    requires kid in s.sessions
  {
    var x := s.sessions[kid];
    x.hasClient && x.client != client && s.now - x.lastActivity < cfg.busy
  }

  function FirstFree(s: State, cfg: Config, alts: seq<KeyId>, kid: KeyId, client: Endpoint): (k: KeyId)
    requires kid in s.sessions
    ensures k in s.sessions
    decreases |alts|
  {
    if alts == [] then kid
    else if alts[0] != kid && alts[0] in s.sessions && !Busy(s, cfg, alts[0], client) then alts[0]
    else FirstFree(s, cfg, alts[1..], kid, client)
  }

  /** Auto-slot balancing: a busy slot passes the device on to the user's first free slot. */
  function PickSlot(s: State, cfg: Config, kid: KeyId, client: Endpoint): (k: KeyId)
    requires kid in s.sessions
    ensures k in s.sessions
  {
    if Busy(s, cfg, kid, client) && kid in s.slots then FirstFree(s, cfg, s.slots[kid], kid, client) else kid
  }

  /** The common end of handshake and resumption: routing, endpoint cache and a fresh token. */
  function Establish(s: State, cfg: Config, kid: KeyId, ip: Ip, client: Endpoint): State {
    s.(sessions := s.sessions[kid := Session(ip, true, client, s.now, true)],
       endpoints := s.endpoints[client := kid],
       tokens := s.tokens + {Token(kid, ip, s.wall + cfg.life)})
  }

  function DoHandshake(s: State, cfg: Config, kid: KeyId, client: Endpoint): State {
    if kid !in s.sessions then s
    else
      var k := PickSlot(s, cfg, kid, client);
      if s.sessions[k].ip != 0 then Establish(s, cfg, k, s.sessions[k].ip, client)
      else
        var (pool, ip) := IpPool.Allocate(s.pool);
        if ip.None? then s
        else Establish(s.(pool := pool, routes := s.routes[ip.value := k]), cfg, k, ip.value, client)
  }

  /** Fast and PFS resumption: the session's address if it has one, the token's otherwise. */
  function DoResume(s: State, cfg: Config, token: Token, client: Endpoint, cryptoOk: bool): State {
    if token.kid !in s.sessions || token !in s.tokens || s.wall > token.expiry || !cryptoOk then s
    else
      var ip := if s.sessions[token.kid].ip != 0 then s.sessions[token.kid].ip else token.ip;
      var s' := Establish(s, cfg, token.kid, ip, client);
      if ip == 0 then s' else s'.(routes := s'.routes[ip := token.kid])
  }

  /** A packet whose header matched `kid`, found by scanning or in the endpoint cache. */
  function DoData(s: State, kid: KeyId, client: Endpoint, scanned: bool, authentic: bool): State {
    if kid !in s.sessions then s
    else
      var s' := if scanned then s.(endpoints := s.endpoints[client := kid]) else s;
      var x := s.sessions[kid];
      if !authentic || !x.done then s'
      else s'.(sessions := s'.sessions[kid := x.(hasClient := true, client := client, lastActivity := s.now)])
  }

  function ByteSwap(ip: Ip): Ip {
    ip % 0x100 * 0x100_0000 + ip / 0x100 % 0x100 * 0x1_0000 + ip / 0x1_0000 % 0x100 * 0x100 + ip / 0x100_0000 % 0x100
  }

  /** Where a packet from the TUN device goes: the holder of its destination, or of the byte-swapped one. */
  function Target(s: State, dst: Ip): Option<KeyId> {
    if dst != 0 && dst in s.routes then Some(s.routes[dst])
    else if ByteSwap(dst) != 0 && ByteSwap(dst) in s.routes then Some(s.routes[ByteSwap(dst)])
    else None
  }

  function DoEgress(s: State, dst: Ip): State {
    var k := Target(s, dst);
    if k.None? || k.value !in s.sessions then s
    else
      var x := s.sessions[k.value];
      if !x.done || !x.hasClient then s
      else s.(sessions := s.sessions[k.value := x.(lastActivity := s.now)])
  }

  predicate Idle(s: State, cfg: Config, kid: KeyId)
    requires kid in s.sessions
  {
    s.sessions[kid].hasClient && s.now - s.sessions[kid].lastActivity > cfg.idle
  }

  /** Idle collection of one session. */
  function CollectOne(s: State, cfg: Config, kid: KeyId): State {
    if kid !in s.sessions || !Idle(s, cfg, kid) then s
    else
      var ip := s.sessions[kid].ip;
      var s' := s.(sessions := s.sessions[kid := Session(0, false, 0, s.sessions[kid].lastActivity, false)]);
      if ip == 0 then s' else s'.(routes := s'.routes - {ip}, pool := IpPool.Release(s'.pool, ip))
  }

  function CollectAll(s: State, cfg: Config, order: seq<KeyId>): State
    decreases |order|
  {
    if order == [] then s else CollectAll(CollectOne(s, cfg, order[0]), cfg, order[1..])
  }

  /** cleanup_idle_endpoints. */
  function FreshEndpoints(s: State, cfg: Config): map<Endpoint, KeyId> {
    map e | e in s.endpoints && s.endpoints[e] in s.sessions && s.sessions[s.endpoints[e]].hasClient &&
            !Idle(s, cfg, s.endpoints[e]) :: s.endpoints[e]
  }

  /** cleanup_maps, visiting the sessions in some order. */
  function DoCollect(s: State, cfg: Config, order: seq<KeyId>): State {
    CollectAll(s.(endpoints := FreshEndpoints(s, cfg)), cfg, order)
  }

  /** Revocation of one key: release the address, then remove_session. */
  function RemoveOne(s: State, kid: KeyId): State {
    if kid !in s.sessions then s
    else
      var ip := s.sessions[kid].ip;
      s.(pool := if ip != 0 then IpPool.Release(s.pool, ip) else s.pool,
         sessions := s.sessions - {kid},
         routes := if ip != 0 then s.routes - {ip} else s.routes,
         endpoints := map e | e in s.endpoints && s.endpoints[e] != kid :: s.endpoints[e])
  }

  function RemoveAll(s: State, kids: seq<KeyId>): State
    decreases |kids|
  {
    if kids == [] then s else RemoveAll(RemoveOne(s, kids[0]), kids[1..])
  }

  function DoRegister(s: State, kid: KeyId): State {
    if kid in s.sessions then s else s.(sessions := s.sessions[kid := Session(0, false, 0, s.wall, false)])
  }

  /**
   What is assumed of the surroundings: clocks do not run back and stay within `lag` of each other,
   and a key is not registered again while a token issued for it before its revocation is alive.
   */
  predicate Enabled(s: State, cfg: Config, e: Event) {
    match e
    case Tick(now, wall) => s.now <= now && s.wall <= wall && now <= wall <= now + cfg.lag
    case Register(kid) => kid in s.sessions || forall t :: t in s.tokens && t.kid == kid ==> t.expiry < s.wall
    case _ => true
  }

  function Step(s: State, cfg: Config, e: Event): State {
    match e
    case Tick(now, wall) => s.(now := now, wall := wall)
    case Handshake(kid, client) => DoHandshake(s, cfg, kid, client)
    case Resume(token, client, cryptoOk) => DoResume(s, cfg, token, client, cryptoOk)
    case Data(kid, client, scanned, authentic) => DoData(s, kid, client, scanned, authentic)
    case Egress(dst) => DoEgress(s, dst)
    case Collect(order) => DoCollect(s, cfg, order)
    case Revoke(base, kids) => RemoveAll(s, kids).(slots := s.slots - {base})
    case Register(kid) => DoRegister(s, kid)
    case SetSlots(base, kids) => s.(slots := s.slots[base := kids])
  }

  // ---------------------------------------------------------------------------------------------
  // The invariant
  // ---------------------------------------------------------------------------------------------

  predicate HoldersRouted(s: State) {
    forall k :: k in s.sessions && s.sessions[k].ip != 0 ==>
      s.sessions[k].ip in s.routes && s.routes[s.sessions[k].ip] == k
  }

  predicate RoutesHeld(s: State) {
    forall ip :: ip in s.routes ==> ip != 0 && s.routes[ip] in s.sessions && s.sessions[s.routes[ip]].ip == ip
  }

  /** Pool, sessions and route map agree on who has which address. */
  predicate AddressesAgree(s: State) {
    IpPool.Sound(s.pool) && s.pool.leased == s.routes.Keys && HoldersRouted(s) && RoutesHeld(s)
  }

  /** Exactly the sessions with a client have an address, and only those carry data. */
  predicate ClientsHold(s: State) {
    forall k :: k in s.sessions ==>
      (s.sessions[k].hasClient <==> s.sessions[k].ip != 0) && (s.sessions[k].done ==> s.sessions[k].ip != 0)
  }

  predicate EndpointsLive(s: State) {
    forall e :: e in s.endpoints ==> s.endpoints[e] in s.sessions
  }

  /** A living token's session still has an address, and has been active since the token was issued. */
  predicate TokensTied(s: State, cfg: Config) {
    forall t :: t in s.tokens ==>
      t.ip != 0 &&
      (t.kid in s.sessions && s.wall <= t.expiry ==>
         s.sessions[t.kid].ip != 0 && t.expiry <= s.sessions[t.kid].lastActivity + cfg.lag + cfg.life)
  }

  predicate ActiveByNow(s: State) {
    forall k :: k in s.sessions && s.sessions[k].hasClient ==> s.sessions[k].lastActivity <= s.now
  }

  predicate Inv(s: State, cfg: Config) {
    && AddressesAgree(s) && ClientsHold(s) && EndpointsLive(s) && TokensTied(s, cfg)
    && s.now <= s.wall <= s.now + cfg.lag && ActiveByNow(s)
  }

  lemma EstablishHolder(s: State, cfg: Config, kid: KeyId, ip: Ip, client: Endpoint)
    requires Inv(s, cfg) && kid in s.sessions && ip == s.sessions[kid].ip != 0
    ensures Inv(Establish(s, cfg, kid, ip, client), cfg)
  {}

  lemma EstablishNew(s: State, cfg: Config, kid: KeyId, client: Endpoint)
    requires Inv(s, cfg) && kid in s.sessions && s.sessions[kid].ip == 0
    requires IpPool.Allocate(s.pool).1.Some?
    ensures var (pool, ip) := IpPool.Allocate(s.pool);
            Inv(Establish(s.(pool := pool, routes := s.routes[ip.value := kid]), cfg, kid, ip.value, client), cfg)
            && IpPool.Addresses(pool) == IpPool.Addresses(s.pool)
  {
    hide IpPool.Sound, IpPool.Allocate, IpPool.Addresses;
    IpPool.AllocateConserves(s.pool);
  }

  lemma HandshakeKeepsInv(s: State, cfg: Config, kid: KeyId, client: Endpoint)
    requires Inv(s, cfg)
    ensures Inv(DoHandshake(s, cfg, kid, client), cfg)
    ensures IpPool.Addresses(DoHandshake(s, cfg, kid, client).pool) == IpPool.Addresses(s.pool)
  {
    if kid in s.sessions {
      var k := PickSlot(s, cfg, kid, client);
      hide Inv, IpPool.Addresses;
      if s.sessions[k].ip != 0 {
        EstablishHolder(s, cfg, k, s.sessions[k].ip, client);
      } else if IpPool.Allocate(s.pool).1.Some? {
        EstablishNew(s, cfg, k, client);
      }
    }
  }

  /** A living token never brings back an address: the session it names still has one, and keeps it. */
  lemma ResumeKeepsAddress(s: State, cfg: Config, token: Token, client: Endpoint, cryptoOk: bool)
    requires Inv(s, cfg)
    ensures var s' := DoResume(s, cfg, token, client, cryptoOk);
            && s'.routes == s.routes && s'.pool == s.pool
            && (forall k :: k in s.sessions ==> k in s'.sessions && s'.sessions[k].ip == s.sessions[k].ip)
  {
    if token in s.tokens && token.kid in s.sessions && s.wall <= token.expiry {
      assert s.sessions[token.kid].ip != 0;
      var ip := s.sessions[token.kid].ip;
      assert s.routes[ip := token.kid] == s.routes;
    }
  }

  lemma ResumeKeepsInv(s: State, cfg: Config, token: Token, client: Endpoint, cryptoOk: bool)
    requires Inv(s, cfg)
    ensures Inv(DoResume(s, cfg, token, client, cryptoOk), cfg)
  {
    ResumeKeepsAddress(s, cfg, token, client, cryptoOk);
    if token in s.tokens && token.kid in s.sessions && s.wall <= token.expiry && cryptoOk {
      assert s.sessions[token.kid].ip != 0;
      EstablishHolder(s, cfg, token.kid, s.sessions[token.kid].ip, client);
      var s' := Establish(s, cfg, token.kid, s.sessions[token.kid].ip, client);
      assert DoResume(s, cfg, token, client, cryptoOk) == s';
    }
  }

  lemma DataKeepsInv(s: State, cfg: Config, kid: KeyId, client: Endpoint, scanned: bool, authentic: bool)
    requires Inv(s, cfg)
    ensures Inv(DoData(s, kid, client, scanned, authentic), cfg)
  {
    hide IpPool.Sound;
  }

  lemma EgressKeepsInv(s: State, cfg: Config, dst: Ip)
    requires Inv(s, cfg)
    ensures Inv(DoEgress(s, dst), cfg)
  {
    hide IpPool.Sound, ByteSwap;
  }

  /** Once a session is idle, every token that names it is dead: this is where life + lag <= idle is used. */
  lemma IdleMeansDeadTokens(s: State, cfg: Config, kid: KeyId)
    requires Inv(s, cfg) && cfg.life + cfg.lag <= cfg.idle && kid in s.sessions && Idle(s, cfg, kid)
    ensures forall t :: t in s.tokens && t.kid == kid ==> t.expiry < s.wall
  {}

  lemma CollectOneKeepsInv(s: State, cfg: Config, kid: KeyId)
    requires Inv(s, cfg) && cfg.life + cfg.lag <= cfg.idle
    ensures Inv(CollectOne(s, cfg, kid), cfg)
    ensures IpPool.Addresses(CollectOne(s, cfg, kid).pool) == IpPool.Addresses(s.pool)
  {
    if kid in s.sessions && Idle(s, cfg, kid) {
      IdleMeansDeadTokens(s, cfg, kid);
      IpPool.ReleaseConserves(s.pool, s.sessions[kid].ip);
      hide IpPool.Sound, IpPool.Release, IpPool.Addresses;
    }
  }

  lemma {:induction false} CollectAllKeepsInv(s: State, cfg: Config, order: seq<KeyId>)
    requires Inv(s, cfg) && cfg.life + cfg.lag <= cfg.idle
    ensures Inv(CollectAll(s, cfg, order), cfg)
    ensures IpPool.Addresses(CollectAll(s, cfg, order).pool) == IpPool.Addresses(s.pool)
    decreases |order|
  {
    if order != [] {
      CollectOneKeepsInv(s, cfg, order[0]);
      hide Inv, IpPool.Addresses, CollectOne;
      CollectAllKeepsInv(CollectOne(s, cfg, order[0]), cfg, order[1..]);
    }
  }

  lemma RemoveOneKeepsInv(s: State, cfg: Config, kid: KeyId)
    requires Inv(s, cfg)
    ensures Inv(RemoveOne(s, kid), cfg)
    ensures IpPool.Addresses(RemoveOne(s, kid).pool) == IpPool.Addresses(s.pool)
  {
    if kid in s.sessions {
      IpPool.ReleaseConserves(s.pool, s.sessions[kid].ip);
      hide IpPool.Sound, IpPool.Release, IpPool.Addresses;
    }
  }

  lemma {:induction false} RemoveAllKeepsInv(s: State, cfg: Config, kids: seq<KeyId>)
    requires Inv(s, cfg)
    ensures Inv(RemoveAll(s, kids), cfg)
    ensures IpPool.Addresses(RemoveAll(s, kids).pool) == IpPool.Addresses(s.pool)
    decreases |kids|
  {
    if kids != [] {
      RemoveOneKeepsInv(s, cfg, kids[0]);
      hide Inv, IpPool.Addresses, RemoveOne;
      RemoveAllKeepsInv(RemoveOne(s, kids[0]), cfg, kids[1..]);
    }
  }

  lemma BookkeepingKeepsInv(s: State, cfg: Config, e: Event)
    requires Inv(s, cfg) && Enabled(s, cfg, e) && (e.Tick? || e.Register? || e.SetSlots? || e.Collect?)
    ensures e.Collect? ==> Inv(s.(endpoints := FreshEndpoints(s, cfg)), cfg)
    ensures !e.Collect? ==> Inv(Step(s, cfg, e), cfg) && Step(s, cfg, e).pool == s.pool
  {
    hide IpPool.Sound;
  }

  lemma StepKeepsInv(s: State, cfg: Config, e: Event)
    requires Inv(s, cfg) && Enabled(s, cfg, e) && cfg.life + cfg.lag <= cfg.idle
    ensures Inv(Step(s, cfg, e), cfg) && IpPool.Addresses(Step(s, cfg, e).pool) == IpPool.Addresses(s.pool)
  {
    hide IpPool.Addresses, Inv, Enabled;
    match e {
      case Handshake(kid, client) =>
        HandshakeKeepsInv(s, cfg, kid, client);
      case Resume(token, client, cryptoOk) =>
        ResumeKeepsAddress(s, cfg, token, client, cryptoOk);
        ResumeKeepsInv(s, cfg, token, client, cryptoOk);
      case Data(kid, client, scanned, authentic) =>
        DataKeepsInv(s, cfg, kid, client, scanned, authentic);
      case Egress(dst) =>
        EgressKeepsInv(s, cfg, dst);
      case Collect(order) =>
        BookkeepingKeepsInv(s, cfg, e);
        CollectAllKeepsInv(s.(endpoints := FreshEndpoints(s, cfg)), cfg, order);
      case Revoke(base, kids) =>
        RemoveAllKeepsInv(s, cfg, kids);
        SlotsDoNotMatter(RemoveAll(s, kids), cfg, s.slots - {base});
      case _ =>
        BookkeepingKeepsInv(s, cfg, e);
    }
  }

  lemma SlotsDoNotMatter(s: State, cfg: Config, slots: map<KeyId, seq<KeyId>>)
    requires Inv(s, cfg)
    ensures Inv(s.(slots := slots), cfg)
  {}

  // ---------------------------------------------------------------------------------------------
  // Whole runs
  // ---------------------------------------------------------------------------------------------

  function Start(pool: seq<Ip>): State {
    State(IpPool.Pool(pool, {}), map[], map[], map[], map[], {}, 0, 0)
  }

  predicate CanRun(s: State, cfg: Config, es: seq<Event>)
    decreases |es|
  {
    es == [] || (Enabled(s, cfg, es[0]) && CanRun(Step(s, cfg, es[0]), cfg, es[1..]))
  }

  function Run(s: State, cfg: Config, es: seq<Event>): State
    decreases |es|
  {
    if es == [] then s else Run(Step(s, cfg, es[0]), cfg, es[1..])
  }

  lemma {:induction false} RunKeepsInv(s: State, cfg: Config, es: seq<Event>)
    requires Inv(s, cfg) && CanRun(s, cfg, es) && cfg.life + cfg.lag <= cfg.idle
    ensures Inv(Run(s, cfg, es), cfg) && IpPool.Addresses(Run(s, cfg, es).pool) == IpPool.Addresses(s.pool)
    decreases |es|
  {
    if es != [] {
      StepKeepsInv(s, cfg, es[0]);
      hide Inv, Step, Enabled, IpPool.Addresses;
      RunKeepsInv(Step(s, cfg, es[0]), cfg, es[1..]);
    }
  }

  /** An address is leased exactly when it is routed, and then to the one session whose routing holds it. */
  predicate HeldOnce(s: State) {
    && s.pool.leased == s.routes.Keys
    && (forall ip :: ip in s.routes ==> s.routes[ip] in s.sessions && s.sessions[s.routes[ip]].ip == ip)
    && (forall k :: k in s.sessions && s.sessions[k].ip != 0 ==>
          s.sessions[k].ip in s.routes && s.routes[s.sessions[k].ip] == k)
  }

  /** With token life and clock lag within the idle timeout, in every run: HeldOnce, and no address is lost. */
  lemma AlwaysHeldOnce(pool: seq<Ip>, cfg: Config, es: seq<Event>)
    requires IpPool.Sound(IpPool.Pool(pool, {})) && cfg.life + cfg.lag <= cfg.idle && CanRun(Start(pool), cfg, es)
    ensures var s := Run(Start(pool), cfg, es);
            HeldOnce(s) && IpPool.Sound(s.pool) && IpPool.Addresses(s.pool) == set ip | ip in pool
  {
    RunKeepsInv(Start(pool), cfg, es);
    assert IpPool.Addresses(Start(pool).pool) == set ip | ip in pool;
  }

  /** The shipped constants leave seven minutes for the system clock to run ahead of the loop's reading. */
  lemma ProductionHeldOnce(base: nat, count: nat, lag: nat, es: seq<Event>)
    requires lag <= 420000 && CanRun(Start(IpPool.HostRange(base, count)), Production(lag), es)
    ensures HeldOnce(Run(Start(IpPool.HostRange(base, count)), Production(lag), es))
  {
    IpPool.HostRangeSound(base, count);
    AlwaysHeldOnce(IpPool.HostRange(base, count), Production(lag), es);
  }

  // ---------------------------------------------------------------------------------------------
  // The timing relation is needed
  // ---------------------------------------------------------------------------------------------

  function Later(cfg: Config): int {
    if cfg.lag <= cfg.idle + 1 then cfg.idle + 1 else cfg.lag
  }

  lemma Unroll(s: State, cfg: Config, e: Event, es: seq<Event>)
    requires Enabled(s, cfg, e) && CanRun(Step(s, cfg, e), cfg, es)
    ensures CanRun(s, cfg, [e] + es) && Run(s, cfg, [e] + es) == Run(Step(s, cfg, e), cfg, es)
  {
    assert ([e] + es)[1..] == es;
  }

  lemma {:induction false} RunAppend(s: State, cfg: Config, es: seq<Event>, fs: seq<Event>)
    requires CanRun(s, cfg, es) && CanRun(Run(s, cfg, es), cfg, fs)
    ensures CanRun(s, cfg, es + fs) && Run(s, cfg, es + fs) == Run(Run(s, cfg, es), cfg, fs)
    decreases |es|
  {
    if es == [] {
      assert es + fs == fs;
    } else {
      RunAppend(Step(s, cfg, es[0]), cfg, es[1..], fs);
      assert es + fs == [es[0]] + (es[1..] + fs);
      Unroll(s, cfg, es[0], es[1..] + fs);
    }
  }

  /** Two users register and the first gets the only address, with a token. */
  function GetsAddress(cfg: Config): seq<Event> {
    [Tick(0, cfg.lag), Register(1), Register(2), Handshake(1, 7)]
  }

  /** The first goes idle and is collected; the second gets the address; the first resumes with its token. */
  function ComesBack(cfg: Config, ip: Ip): seq<Event> {
    [Tick(cfg.idle + 1, Later(cfg)), Collect([1]), Handshake(2, 8), Resume(Token(1, ip, cfg.lag + cfg.life), 7, true)]
  }

  function NoClient(cfg: Config): Session {
    Session(0, false, 0, cfg.lag, false)
  }

  function Handed(cfg: Config, ip: Ip): State {
    State(IpPool.Pool([], {ip}), map[1 := Session(ip, true, 7, 0, true), 2 := NoClient(cfg)], map[ip := 1], map[7 := 1],
          map[], {Token(1, ip, cfg.lag + cfg.life)}, 0, cfg.lag)
  }

  lemma FirstGetsAddress(cfg: Config, ip: Ip)
    requires ip != 0
    ensures CanRun(Start([ip]), cfg, GetsAddress(cfg)) && Run(Start([ip]), cfg, GetsAddress(cfg)) == Handed(cfg, ip)
  {
    var es, x := GetsAddress(cfg), NoClient(cfg);
    var s1 := Start([ip]).(wall := cfg.lag);
    var s2 := s1.(sessions := map[1 := x]);
    var s3 := s1.(sessions := map[1 := x, 2 := x]);
    assert Step(Start([ip]), cfg, es[0]) == s1;
    assert Step(s1, cfg, es[1]) == s2;
    assert Step(s2, cfg, es[2]) == s3;
    assert Step(s3, cfg, es[3]) == Handed(cfg, ip);
    hide Step, Handed;
    Unroll(s3, cfg, es[3], []);
    Unroll(s2, cfg, es[2], [es[3]]);
    Unroll(s1, cfg, es[1], [es[2], es[3]]);
    Unroll(Start([ip]), cfg, es[0], [es[1], es[2], es[3]]);
  }

  function Aged(cfg: Config, ip: Ip): State {
    Handed(cfg, ip).(now := cfg.idle + 1, wall := Later(cfg))
  }

  /** The first user's address is free again; its token is not dead. */
  function Freed(cfg: Config, ip: Ip): State {
    State(IpPool.Pool([ip], {}), map[1 := NoClient(cfg).(lastActivity := 0), 2 := NoClient(cfg)], map[], map[], map[],
          {Token(1, ip, cfg.lag + cfg.life)}, cfg.idle + 1, Later(cfg))
  }

  lemma IdleIsFreed(cfg: Config, ip: Ip)
    requires ip != 0
    ensures Step(Aged(cfg, ip), cfg, Collect([1])) == Freed(cfg, ip)
  {
    var s := Aged(cfg, ip);
    assert s.sessions[1] == Session(ip, true, 7, 0, true) && Idle(s, cfg, 1);
    assert FreshEndpoints(s, cfg) == map[];
  }

  lemma FreedIsShared(cfg: Config, ip: Ip)
    requires ip != 0 && cfg.idle < cfg.life + cfg.lag
    ensures var s := Step(Freed(cfg, ip), cfg, Handshake(2, 8));
            !HeldOnce(Step(s, cfg, Resume(Token(1, ip, cfg.lag + cfg.life), 7, true)))
  {
    var s := Step(Freed(cfg, ip), cfg, Handshake(2, 8));
    assert s.sessions[2].ip == ip && s.sessions[1].ip == 0 && Token(1, ip, cfg.lag + cfg.life) in s.tokens;
    var s' := Step(s, cfg, Resume(Token(1, ip, cfg.lag + cfg.life), 7, true));
    assert s'.sessions[1].ip == ip == s'.sessions[2].ip;
  }

  lemma CollectedAndGivenAway(cfg: Config, ip: Ip)
    requires ip != 0 && cfg.idle < cfg.life + cfg.lag
    ensures CanRun(Handed(cfg, ip), cfg, ComesBack(cfg, ip))
    ensures !HeldOnce(Run(Handed(cfg, ip), cfg, ComesBack(cfg, ip)))
  {
    var es := ComesBack(cfg, ip);
    assert Step(Handed(cfg, ip), cfg, es[0]) == Aged(cfg, ip);
    hide Step, Handed, Aged, Freed, HeldOnce;
    IdleIsFreed(cfg, ip);
    FreedIsShared(cfg, ip);
    var s := Freed(cfg, ip);
    Unroll(Step(s, cfg, es[2]), cfg, es[3], []);
    Unroll(s, cfg, es[2], [es[3]]);
    Unroll(Aged(cfg, ip), cfg, es[1], [es[2], es[3]]);
    Unroll(Handed(cfg, ip), cfg, es[0], [es[1], es[2], es[3]]);
  }

  /** Whenever idle < life + lag, a run over a one-address pool ends with two sessions holding that address. */
  lemma RevivedAddressIsShared(cfg: Config, ip: Ip)
    requires cfg.idle < cfg.life + cfg.lag && ip != 0
    ensures var es := GetsAddress(cfg) + ComesBack(cfg, ip);
            CanRun(Start([ip]), cfg, es) && !HeldOnce(Run(Start([ip]), cfg, es))
  {
    FirstGetsAddress(cfg, ip);
    CollectedAndGivenAway(cfg, ip);
    hide *;
    RunAppend(Start([ip]), cfg, GetsAddress(cfg), ComesBack(cfg, ip));
  }

  predicate AlwaysSafe(cfg: Config, pool: seq<Ip>, es: seq<Event>) {
    CanRun(Start(pool), cfg, es) ==> HeldOnce(Run(Start(pool), cfg, es))
  }

  /** The exact condition: every run over every pool holds each address once if and only if life + lag <= idle. */
  lemma SafeExactly(cfg: Config)
    ensures (forall pool: seq<Ip>, es: seq<Event> :: IpPool.Sound(IpPool.Pool(pool, {})) ==> AlwaysSafe(cfg, pool, es))
            <==> cfg.life + cfg.lag <= cfg.idle
  {
    if cfg.life + cfg.lag <= cfg.idle {
      forall pool: seq<Ip>, es: seq<Event> | IpPool.Sound(IpPool.Pool(pool, {})) ensures AlwaysSafe(cfg, pool, es) {
        if CanRun(Start(pool), cfg, es) { AlwaysHeldOnce(pool, cfg, es); }
      }
    } else {
      RevivedAddressIsShared(cfg, 1);
      assert !AlwaysSafe(cfg, [1], GetsAddress(cfg) + ComesBack(cfg, 1));
      assert IpPool.Sound(IpPool.Pool([1], {}));
    }
  }

  // ---------------------------------------------------------------------------------------------
  // What single handlers achieve
  // ---------------------------------------------------------------------------------------------

  /** Collection takes the address from exactly the visited idle sessions and leaves every other session alone. */
  lemma {:induction false} CollectsExactlyIdle(s: State, cfg: Config, order: seq<KeyId>, k: KeyId)
    requires k in s.sessions
    ensures var s' := CollectAll(s, cfg, order);
            && s'.sessions.Keys == s.sessions.Keys
            && s'.sessions[k] ==
               if k in order && Idle(s, cfg, k) then Session(0, false, 0, s.sessions[k].lastActivity, false)
               else s.sessions[k]
    decreases |order|
  {
    if order != [] {
      var s1 := CollectOne(s, cfg, order[0]);
      assert s1.sessions.Keys == s.sessions.Keys && s1.now == s.now;
      CollectsExactlyIdle(s1, cfg, order[1..], k);
    }
  }

  /**
   After a revocation nothing refers to a revoked key, no session, no route, no cached endpoint, and its
   address is back in the free queue.
   */
  lemma RevokedIsGone(s: State, cfg: Config, base: KeyId, kids: seq<KeyId>, k: KeyId)
    requires Inv(s, cfg) && k in kids
    ensures var s' := Step(s, cfg, Revoke(base, kids));
            && k !in s'.sessions
            && (forall ip :: ip in s'.routes ==> s'.routes[ip] != k)
            && (forall e :: e in s'.endpoints ==> s'.endpoints[e] != k)
            && (k in s.sessions && s.sessions[k].ip != 0 ==>
                  s.sessions[k].ip in s'.pool.free && s.sessions[k].ip !in s'.pool.leased)
  {
    RemoveAllKeepsInv(s, cfg, kids);
    RemoveAllRemoves(s, cfg, kids, k);
    hide RemoveAll, IpPool.Sound;
  }

  /** The session has no address, or one that is free again. */
  predicate GivenBack(s: State, ip: Ip) {
    ip != 0 ==> ip in s.pool.free && ip !in s.pool.leased
  }

  lemma RemoveOneRemoves(s: State, cfg: Config, kid: KeyId, ip: Ip)
    requires Inv(s, cfg)
    ensures var s' := RemoveOne(s, kid);
            && s'.sessions == s.sessions - {kid}
            && (kid in s.sessions ==> GivenBack(s', s.sessions[kid].ip))
            && (GivenBack(s, ip) ==> GivenBack(s', ip))
  {
    hide IpPool.Sound;
    if kid in s.sessions { IpPool.ReleaseConserves(s.pool, s.sessions[kid].ip); }
  }

  lemma {:induction false} StaysGivenBack(s: State, cfg: Config, kids: seq<KeyId>, ip: Ip)
    requires Inv(s, cfg) && GivenBack(s, ip)
    ensures GivenBack(RemoveAll(s, kids), ip)
    decreases |kids|
  {
    hide Inv, GivenBack, RemoveOne;
    if kids != [] {
      RemoveOneKeepsInv(s, cfg, kids[0]);
      RemoveOneRemoves(s, cfg, kids[0], ip);
      StaysGivenBack(RemoveOne(s, kids[0]), cfg, kids[1..], ip);
    }
  }

  lemma {:induction false} RemoveAllRemoves(s: State, cfg: Config, kids: seq<KeyId>, k: KeyId)
    requires Inv(s, cfg)
    ensures var s' := RemoveAll(s, kids);
            && (k in s'.sessions <==> k in s.sessions && k !in kids)
            && (k in s.sessions && k in kids ==> GivenBack(s', s.sessions[k].ip))
    decreases |kids|
  {
    hide Inv, GivenBack, RemoveOne;
    if kids != [] {
      RemoveOneKeepsInv(s, cfg, kids[0]);
      RemoveOneRemoves(s, cfg, kids[0], 0);
      var s1 := RemoveOne(s, kids[0]);
      if k in s.sessions && k == kids[0] { StaysGivenBack(s1, cfg, kids[1..], s.sessions[k].ip); }
      RemoveAllRemoves(s1, cfg, kids[1..], k);
    }
  }

  // ---------------------------------------------------------------------------------------------
  // What each handler is for
  // ---------------------------------------------------------------------------------------------

  /** Authenticated data on an established session makes the sender its client, active now; nobody else changes. */
  lemma DataRefreshes(s: State, kid: KeyId, client: Endpoint, scanned: bool)
    requires kid in s.sessions && s.sessions[kid].done
    ensures var s' := DoData(s, kid, client, scanned, true);
            && s'.sessions == s.sessions[kid := Session(s.sessions[kid].ip, true, client, s.now, true)]
            && s'.endpoints == (if scanned then s.endpoints[client := kid] else s.endpoints)
            && s'.pool == s.pool && s'.routes == s.routes && s'.tokens == s.tokens
  {}

  /** Data that does not authenticate, or comes before the handshake, refreshes nobody. */
  lemma UnprovenDataRefreshesNobody(s: State, kid: KeyId, client: Endpoint, scanned: bool, authentic: bool)
    requires !authentic || (kid in s.sessions && !s.sessions[kid].done)
    ensures var s' := DoData(s, kid, client, scanned, authentic);
            s'.sessions == s.sessions && s'.pool == s.pool && s'.routes == s.routes && s'.tokens == s.tokens
  {}

  /** A packet from the TUN device refreshes the session it is forwarded to, if that has a client, and nothing else. */
  lemma EgressRefreshes(s: State, dst: Ip)
    ensures var s', k := DoEgress(s, dst), Target(s, dst);
            if k.Some? && k.value in s.sessions && s.sessions[k.value].done && s.sessions[k.value].hasClient
            then s' == s.(sessions := s.sessions[k.value := s.sessions[k.value].(lastActivity := s.now)])
            else s' == s
  {}

  /** The session holds the address and was active at `t` or later. */
  predicate ActiveSince(s: State, k: KeyId, ip: Ip, t: int) {
    k in s.sessions && ip != 0 && s.sessions[k].ip == ip && t <= s.sessions[k].lastActivity && t <= s.now
  }

  lemma OthersStayActive(s: State, cfg: Config, e: Event, k: KeyId, ip: Ip, t: int)
    requires ActiveSince(s, k, ip, t) && Enabled(s, cfg, e) && !e.Collect? && !e.Revoke?
    ensures ActiveSince(Step(s, cfg, e), k, ip, t)
  {}

  lemma {:induction false} RevokeSpares(s: State, kids: seq<KeyId>, k: KeyId)
    requires k !in kids
    ensures var s' := RemoveAll(s, kids);
            && s'.now == s.now && (k in s'.sessions <==> k in s.sessions)
            && (k in s.sessions ==> s'.sessions[k] == s.sessions[k])
            && (forall e :: e in s.endpoints && s.endpoints[e] == k ==> e in s'.endpoints && s'.endpoints[e] == k)
    decreases |kids|
  {
    if kids != [] { RevokeSpares(RemoveOne(s, kids[0]), kids[1..], k); }
  }

  lemma {:induction false} CollectKeepsClock(s: State, cfg: Config, order: seq<KeyId>)
    ensures CollectAll(s, cfg, order).now == s.now
    decreases |order|
  {
    if order != [] { CollectKeepsClock(CollectOne(s, cfg, order[0]), cfg, order[1..]); }
  }

  lemma StaysActive(s: State, cfg: Config, e: Event, k: KeyId, ip: Ip, t: int)
    requires ActiveSince(s, k, ip, t) && Enabled(s, cfg, e) && s.now - t <= cfg.idle
    requires e.Revoke? ==> k !in e.kids
    ensures ActiveSince(Step(s, cfg, e), k, ip, t)
  {
    match e {
      case Collect(order) =>
        var s1 := s.(endpoints := FreshEndpoints(s, cfg));
        CollectsExactlyIdle(s1, cfg, order, k);
        CollectKeepsClock(s1, cfg, order);
        hide CollectAll, FreshEndpoints;
      case Revoke(_, kids) =>
        RevokeSpares(s, kids, k);
        hide RemoveAll;
      case _ => OthersStayActive(s, cfg, e, k, ip, t);
    }
  }

  /** No clock reading of the run is more than `idle` after `t`, and the key is not revoked. */
  predicate WithinIdle(es: seq<Event>, cfg: Config, k: KeyId, t: int) {
    forall i :: 0 <= i < |es| ==>
      (es[i].Tick? ==> es[i].now - t <= cfg.idle) && (es[i].Revoke? ==> k !in es[i].kids)
  }

  /** Whatever happens, a session active at `t` keeps its address until more than the idle timeout has passed. */
  lemma {:induction false} ActiveKeepsAddress(s: State, cfg: Config, es: seq<Event>, k: KeyId, ip: Ip, t: int)
    requires CanRun(s, cfg, es) && ActiveSince(s, k, ip, t) && s.now - t <= cfg.idle && WithinIdle(es, cfg, k, t)
    ensures ActiveSince(Run(s, cfg, es), k, ip, t)
    decreases |es|
  {
    if es != [] {
      var s' := Step(s, cfg, es[0]);
      StaysActive(s, cfg, es[0], k, ip, t);
      ClockOf(s, cfg, es[0]);
      assert WithinIdle(es[1..], cfg, k, t);
      hide Step, Enabled, ActiveSince, WithinIdle;
      ActiveKeepsAddress(s', cfg, es[1..], k, ip, t);
    }
  }

  lemma ClockOf(s: State, cfg: Config, e: Event)
    ensures Step(s, cfg, e).now == if e.Tick? then e.now else s.now
  {
    match e {
      case Collect(order) =>
        CollectKeepsClock(s.(endpoints := FreshEndpoints(s, cfg)), cfg, order);
        hide CollectAll, FreshEndpoints;
      case Revoke(_, kids) =>
        RemoveKeepsClock(s, kids);
        hide RemoveAll;
      case _ =>
    }
  }

  lemma {:induction false} RemoveKeepsClock(s: State, kids: seq<KeyId>)
    ensures RemoveAll(s, kids).now == s.now && RemoveAll(s, kids).slots == s.slots
    decreases |kids|
  {
    if kids != [] { RemoveKeepsClock(RemoveOne(s, kids[0]), kids[1..]); }
  }

  /** So after authenticated data the session keeps its address for the idle timeout, through any run. */
  lemma DataKeepsAlive(s: State, cfg: Config, kid: KeyId, client: Endpoint, scanned: bool, es: seq<Event>)
    requires kid in s.sessions && s.sessions[kid].done && s.sessions[kid].ip != 0
    requires CanRun(DoData(s, kid, client, scanned, true), cfg, es) && WithinIdle(es, cfg, kid, s.now)
    ensures ActiveSince(Run(DoData(s, kid, client, scanned, true), cfg, es), kid, s.sessions[kid].ip, s.now)
  {
    DataRefreshes(s, kid, client, scanned);
    ActiveKeepsAddress(DoData(s, kid, client, scanned, true), cfg, es, kid, s.sessions[kid].ip, s.now);
  }

  /** And so does a session that a packet was forwarded to. */
  lemma EgressKeepsAlive(s: State, cfg: Config, dst: Ip, k: KeyId, es: seq<Event>)
    requires Target(s, dst) == Some(k) && k in s.sessions && s.sessions[k].done && s.sessions[k].hasClient
    requires s.sessions[k].ip != 0 && CanRun(DoEgress(s, dst), cfg, es) && WithinIdle(es, cfg, k, s.now)
    ensures ActiveSince(Run(DoEgress(s, dst), cfg, es), k, s.sessions[k].ip, s.now)
  {
    EgressRefreshes(s, dst);
    ActiveKeepsAddress(DoEgress(s, dst), cfg, es, k, s.sessions[k].ip, s.now);
  }

  /** The slot exists and has no client, or this one, or one that was silent for the busy interval. */
  predicate Available(s: State, cfg: Config, k: KeyId, client: Endpoint) {
    k in s.sessions &&
    (!s.sessions[k].hasClient || s.sessions[k].client == client || s.now - s.sessions[k].lastActivity >= cfg.busy)
  }

  /** The first of the alternatives that is not the key itself and available; the key itself if there is none. */
  lemma {:induction false} FirstFreeExactly(s: State, cfg: Config, alts: seq<KeyId>, kid: KeyId, client: Endpoint)
    requires kid in s.sessions
    ensures var k := FirstFree(s, cfg, alts, kid, client);
            if forall i :: 0 <= i < |alts| && Available(s, cfg, alts[i], client) ==> alts[i] == kid then k == kid
            else exists i :: 0 <= i < |alts| && alts[i] == k && k != kid && Available(s, cfg, k, client) &&
                             forall j :: 0 <= j < i && Available(s, cfg, alts[j], client) ==> alts[j] == kid
    decreases |alts|
  {
    if alts != [] && (alts[0] == kid || !Available(s, cfg, alts[0], client)) {
      FirstFreeExactly(s, cfg, alts[1..], kid, client);
      var k, rest := FirstFree(s, cfg, alts[1..], kid, client), alts[1..];
      assert forall i :: 0 < i < |alts| ==> alts[i] == rest[i - 1];
      if k != kid {
        var i :| 0 <= i < |rest| && rest[i] == k && Available(s, cfg, k, client) &&
                 forall j :: 0 <= j < i && Available(s, cfg, rest[j], client) ==> rest[j] == kid;
        assert alts[i + 1] == k;
      }
    }
  }

  /** An available slot is kept; a busy one gives way to the user's first other available slot, if there is one. */
  lemma PickSlotExactly(s: State, cfg: Config, kid: KeyId, client: Endpoint)
    requires kid in s.sessions
    ensures var k, alts := PickSlot(s, cfg, kid, client), if kid in s.slots then s.slots[kid] else [];
            if Available(s, cfg, kid, client) ||
               forall i :: 0 <= i < |alts| && Available(s, cfg, alts[i], client) ==> alts[i] == kid
            then k == kid
            else exists i :: 0 <= i < |alts| && alts[i] == k && k != kid && Available(s, cfg, k, client) &&
                             forall j :: 0 <= j < i && Available(s, cfg, alts[j], client) ==> alts[j] == kid
  {
    if kid in s.slots { FirstFreeExactly(s, cfg, s.slots[kid], kid, client); }
    hide FirstFree;
  }

  /** The session of a seated client, and what its address, endpoint and token now lead to. */
  predicate Seated(s: State, cfg: Config, k: KeyId, ip: Ip, client: Endpoint) {
    && ip != 0 && k in s.sessions && s.sessions[k] == Session(ip, true, client, s.now, true)
    && ip in s.routes && s.routes[ip] == k && client in s.endpoints && s.endpoints[client] == k
    && Token(k, ip, s.wall + cfg.life) in s.tokens && Target(s, ip) == Some(k)
  }

  /**
   A handshake seats the client on its slot, with the address the slot has or else the one free for longest;
   it is refused only for an unknown key or when a slot without an address meets an empty pool.
   */
  lemma HandshakeSeats(s: State, cfg: Config, kid: KeyId, client: Endpoint)
    requires Inv(s, cfg)
    ensures var s' := DoHandshake(s, cfg, kid, client);
            if kid !in s.sessions then s' == s
            else
              var k := PickSlot(s, cfg, kid, client);
              var held := s.sessions[k].ip;
              if held == 0 && s.pool.free == [] then s' == s
              else
                && Seated(s', cfg, k, if held != 0 then held else s.pool.free[0], client)
                && (forall j :: j in s.sessions && j != k ==> j in s'.sessions && s'.sessions[j] == s.sessions[j])
                && (held != 0 ==> s'.pool == s.pool)
                && (held == 0 ==> s'.pool.free == s.pool.free[1..])
  {
    if kid in s.sessions {
      var k := PickSlot(s, cfg, kid, client);
      hide PickSlot, TokensTied, EndpointsLive, ActiveByNow;
    }
  }

  /** A living token seats the client on the session it names, with the address that session has. */
  lemma ResumeSeats(s: State, cfg: Config, token: Token, client: Endpoint)
    requires Inv(s, cfg) && token in s.tokens && token.kid in s.sessions && s.wall <= token.expiry
    ensures var s' := DoResume(s, cfg, token, client, true);
            && Seated(s', cfg, token.kid, s.sessions[token.kid].ip, client)
            && (forall j :: j in s.sessions && j != token.kid ==> j in s'.sessions && s'.sessions[j] == s.sessions[j])
  {
    assert s.sessions[token.kid].ip != 0;
    hide EndpointsLive, ActiveByNow, IpPool.Sound;
  }

  /** A registered key can be seated: its session exists, and every other session is as before. */
  lemma RegisterMakesRoom(s: State, kid: KeyId, j: KeyId)
    ensures var s' := DoRegister(s, kid);
            && kid in s'.sessions && (kid !in s.sessions ==> s'.sessions[kid].ip == 0 && !s'.sessions[kid].hasClient)
            && (j in s.sessions ==> j in s'.sessions && s'.sessions[j] == s.sessions[j])
  {}

  /** A user's slot list is what was set last, until the user is revoked. */
  lemma SlotsFollow(s: State, cfg: Config, base: KeyId, kids: seq<KeyId>)
    ensures Step(s, cfg, SetSlots(base, kids)) == s.(slots := s.slots[base := kids])
    ensures Step(s, cfg, Revoke(base, kids)).slots == s.slots - {base}
  {
    RemoveKeepsClock(s, kids);
    hide RemoveAll;
  }

  /** A dead or forged token, or failing cryptography, changes nothing. */
  lemma ResumeRefused(s: State, cfg: Config, token: Token, client: Endpoint, cryptoOk: bool)
    requires token !in s.tokens || s.wall > token.expiry || token.kid !in s.sessions || !cryptoOk
    ensures DoResume(s, cfg, token, client, cryptoOk) == s
  {}

  /** After collection the endpoint cache keeps exactly the entries of sessions with a client that are not idle. */
  lemma CollectKeepsLiveEndpoints(s: State, cfg: Config, order: seq<KeyId>, e: Endpoint)
    ensures var s' := DoCollect(s, cfg, order);
            && (e in s'.endpoints <==>
                  e in s.endpoints && s.endpoints[e] in s.sessions && s.sessions[s.endpoints[e]].hasClient &&
                  s.now - s.sessions[s.endpoints[e]].lastActivity <= cfg.idle)
            && (e in s'.endpoints ==> s'.endpoints[e] == s.endpoints[e])
  {
    CollectKeepsEndpoints(s.(endpoints := FreshEndpoints(s, cfg)), cfg, order);
    hide CollectAll;
  }

  lemma {:induction false} CollectKeepsEndpoints(s: State, cfg: Config, order: seq<KeyId>)
    ensures CollectAll(s, cfg, order).endpoints == s.endpoints
    decreases |order|
  {
    if order != [] { CollectKeepsEndpoints(CollectOne(s, cfg, order[0]), cfg, order[1..]); }
  }

  /** Forwarding reaches the holder of the destination; the byte-swapped address only when nobody holds the other. */
  lemma EgressReachesHolder(s: State, cfg: Config, dst: Ip, k: KeyId)
    requires Inv(s, cfg) && dst != 0
    ensures k in s.sessions && s.sessions[k].ip == dst ==> Target(s, dst) == Some(k)
    ensures Target(s, dst) == Some(k) ==>
              k in s.sessions && (s.sessions[k].ip == dst ||
                                  (s.sessions[k].ip == ByteSwap(dst) && dst !in s.pool.leased))
  {
    hide ByteSwap;
  }
}
