/** The handlers of server.cpp as methods on the server's state, each tied to its function in ServerLifecycle. */
module ServerHandlers {
  import opened Wrappers
  import opened ServerLifecycle
  import IpPool

  class Server {
    const cfg: Config
    const pool: IpPool.IpPool
    var sessions: map<KeyId, Session>
    var routes: map<Ip, KeyId>
    var endpoints: map<Endpoint, KeyId>
    var slots: map<KeyId, seq<KeyId>>
    ghost var issued: set<Token>

    ghost predicate Valid()
      reads this, pool
    {
      pool.Valid()
    }

    /** The state at a reading of the two clocks. */
    ghost function View(now: int, wall: int): State
      reads this, pool
    {
      State(pool.View(), sessions, routes, endpoints, slots, issued, now, wall)
    }

    constructor (cfg: Config, pool: IpPool.IpPool)
      requires pool.Valid()
      ensures Valid() && this.cfg == cfg && this.pool == pool
      ensures pool.View().leased == {} ==> View(0, 0) == Start(pool.View().free)
    {
      this.cfg, this.pool := cfg, pool;
      sessions, routes, endpoints, slots, issued := map[], map[], map[], map[], {};
    }

    /** The slot the handshake ends up on. */
    method ChooseSlot(kid: KeyId, client: Endpoint, now: int, ghost wall: int) returns (k: KeyId)
      requires kid in sessions
      ensures k == PickSlot(View(now, wall), cfg, kid, client)
    {
      k := kid;
      var x := sessions[kid];
      if x.hasClient && x.client != client && now - x.lastActivity < cfg.busy {
        if kid in slots {
          var alts, i := slots[kid], 0;
          while i < |alts|
            invariant i <= |alts|
            invariant FirstFree(View(now, wall), cfg, alts, kid, client) ==
                      FirstFree(View(now, wall), cfg, alts[i..], kid, client)
          {
            var alt := alts[i];
            if alt != kid && alt in sessions {
              var y := sessions[alt];
              if !y.hasClient || now - y.lastActivity >= cfg.busy || y.client == client {
                return alt;
              }
            }
            i := i + 1;
          }
        }
      }
    }

    /** Routing, endpoint cache and token of an established session. */
    method Seat(kid: KeyId, ip: Ip, client: Endpoint, now: int, wall: int)
      modifies this`sessions, this`endpoints, this`issued
      ensures View(now, wall) == Establish(old(View(now, wall)), cfg, kid, ip, client)
    {
      sessions := sessions[kid := Session(ip, true, client, now, true)];
      endpoints := endpoints[client := kid];
      issued := issued + {Token(kid, ip, wall + cfg.life)};
    }

    /** The handshake branch, after process_init accepted the packet. */
    method OnHandshake(kid: KeyId, client: Endpoint, now: int, wall: int)
      requires Valid()
      modifies this, pool
      ensures Valid() && View(now, wall) == DoHandshake(old(View(now, wall)), cfg, kid, client)
    {
      if kid !in sessions { return; }
      var k := ChooseSlot(kid, client, now, wall);
      var ip := sessions[k].ip;
      if ip == 0 {
        var maybe := pool.AllocateIp();
        if maybe.None? { return; }
        ip := maybe.value;
        routes := routes[ip := k];
      }
      Seat(k, ip, client, now, wall);
    }

    /** Both resumption branches; `verified` is the answer of the token manager, which refuses a used token. */
    method OnResume(token: Token, verified: bool, client: Endpoint, cryptoOk: bool, now: int, wall: int)
      requires Valid() && (verified ==> token in issued && wall <= token.expiry)
      modifies this
      ensures Valid() && View(now, wall) == DoResume(old(View(now, wall)), cfg, token, client, verified && cryptoOk)
      ensures !verified || !cryptoOk ==> View(now, wall) == old(View(now, wall))
    {
      if token.kid !in sessions || !verified { return; }
      if !cryptoOk { return; }
      var held := sessions[token.kid].ip;
      var ip := if held != 0 then held else token.ip;
      Seat(token.kid, ip, client, now, wall);
      if ip != 0 {
        routes := routes[ip := token.kid];
      }
    }

    /** A data packet whose header matched a session. */
    method OnData(kid: KeyId, client: Endpoint, scanned: bool, authentic: bool, now: int, ghost wall: int)
      requires Valid()
      modifies this`sessions, this`endpoints
      ensures Valid() && View(now, wall) == DoData(old(View(now, wall)), kid, client, scanned, authentic)
    {
      if kid !in sessions { return; }
      if scanned {
        endpoints := endpoints[client := kid];
      }
      var x := sessions[kid];
      if !x.done || !authentic { return; }
      if !x.hasClient || x.client != client {
        sessions := sessions[kid := x.(hasClient := true, client := client)];
      }
      sessions := sessions[kid := sessions[kid].(lastActivity := now)];
    }

    /** Idle collection of one session. */
    method CollectSession(kid: KeyId, now: int, ghost wall: int)
      requires Valid()
      modifies this`sessions, this`routes, pool
      ensures Valid() && View(now, wall) == CollectOne(old(View(now, wall)), cfg, kid)
    {
      if kid !in sessions { return; }
      var x := sessions[kid];
      if x.hasClient && now - x.lastActivity > cfg.idle {
        sessions := sessions[kid := Session(0, false, 0, x.lastActivity, false)];
        if x.ip != 0 {
          routes := routes - {x.ip};
          pool.ReleaseIp(x.ip);
        }
      }
    }

    /** cleanup_idle_endpoints: erases while iterating. */
    method CleanEndpoints(now: int, ghost wall: int)
      modifies this`endpoints
      ensures View(now, wall) == old(View(now, wall)).(endpoints := FreshEndpoints(old(View(now, wall)), cfg))
    {
      var todo := endpoints.Keys;
      while todo != {}
        invariant todo <= old(endpoints).Keys
        invariant endpoints == map e | e in old(endpoints) &&
                                       (e in todo || e in FreshEndpoints(old(View(now, wall)), cfg))
                                 :: old(endpoints)[e]
        decreases |todo|
      {
        var e :| e in todo;
        todo := todo - {e};
        var kid := endpoints[e];
        if kid !in sessions || !sessions[kid].hasClient || now - sessions[kid].lastActivity > cfg.idle {
          endpoints := endpoints - {e};
        }
      }
    }

    /** cleanup_maps, visiting the sessions in the given order. */
    method OnCollect(order: seq<KeyId>, now: int, ghost wall: int)
      requires Valid()
      modifies this, pool
      ensures Valid() && View(now, wall) == DoCollect(old(View(now, wall)), cfg, order)
    {
      CleanEndpoints(now, wall);
      ghost var start := View(now, wall);
      var i := 0;
      assert order[0..] == order;
      while i < |order|
        invariant Valid() && i <= |order|
        invariant CollectAll(start, cfg, order) == CollectAll(View(now, wall), cfg, order[i..])
      {
        assert order[i..][1..] == order[i + 1..];
        CollectSession(order[i], now, wall);
        i := i + 1;
      }
    }

    /** The endpoint half of remove_session: every cached endpoint of the session is erased. */
    method ForgetEndpoints(kid: KeyId)
      modifies this`endpoints
      ensures endpoints == map e | e in old(endpoints) && old(endpoints)[e] != kid :: old(endpoints)[e]
    {
      var todo := endpoints.Keys;
      while todo != {}
        invariant todo <= old(endpoints).Keys
        invariant endpoints == map e | e in old(endpoints) && (e in todo || old(endpoints)[e] != kid)
                                 :: old(endpoints)[e]
        decreases |todo|
      {
        var e :| e in todo;
        todo := todo - {e};
        if endpoints[e] == kid {
          endpoints := endpoints - {e};
        }
      }
    }

    /** Revocation of one key: the address goes back to the pool, then remove_session. */
    method RemoveSession(kid: KeyId, ghost now: int, ghost wall: int)
      requires Valid()
      modifies this`sessions, this`routes, this`endpoints, pool
      ensures Valid() && View(now, wall) == RemoveOne(old(View(now, wall)), kid)
    {
      if kid !in sessions { return; }
      var ip := sessions[kid].ip;
      if ip != 0 {
        pool.ReleaseIp(ip);
      }
      sessions := sessions - {kid};
      if ip != 0 {
        routes := routes - {ip};
      }
      ForgetEndpoints(kid);
    }

    /** Revocation of a user: all slots. */
    method OnRevoke(base: KeyId, kids: seq<KeyId>, ghost now: int, ghost wall: int)
      requires Valid()
      modifies this, pool
      ensures Valid() && View(now, wall) == Step(old(View(now, wall)), cfg, Revoke(base, kids))
    {
      ghost var start := View(now, wall);
      var i := 0;
      assert kids[0..] == kids;
      while i < |kids|
        invariant Valid() && i <= |kids|
        invariant RemoveAll(start, kids) == RemoveAll(View(now, wall), kids[i..])
      {
        assert kids[i..][1..] == kids[i + 1..];
        RemoveSession(kids[i], now, wall);
        i := i + 1;
      }
      assert View(now, wall).slots == start.slots by { RemoveAllSlots(start, kids); }
      slots := slots - {base};
    }

    static lemma {:induction false} RemoveAllSlots(s: State, kids: seq<KeyId>)
      ensures RemoveAll(s, kids).slots == s.slots
      decreases |kids|
    {
      if kids != [] { RemoveAllSlots(RemoveOne(s, kids[0]), kids[1..]); }
    }

    /** register_device_session_helper. */
    method OnRegister(kid: KeyId, ghost now: int, wall: int)
      requires Valid()
      modifies this`sessions
      ensures Valid() && View(now, wall) == DoRegister(old(View(now, wall)), kid)
    {
      if kid in sessions { return; }
      sessions := sessions[kid := Session(0, false, 0, wall, false)];
    }
  }
}
