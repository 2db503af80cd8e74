/**
 The kill-switch transaction (network_security.cpp): prepare, apply, verify, commit or roll back,
 over a model of iptables in which any command may fail. Cleanup commands (-D, -F, -X) are assumed
 to succeed when their target is there.
 */
module KillSwitch {
  import opened Wrappers

  // ---------------------------------------------------------------------------------------------
  // The firewall
  // ---------------------------------------------------------------------------------------------

  datatype Proto = Udp | Tcp | OtherProto

  datatype Rule =
    | Established
    | OutLoopback
    | OutTun(iface: string)
    | Dhcp
    | Server(ip: string, proto: Proto, lo: nat, hi: nat)
    | DropAll
    | Jump(chain: string)
    | Foreign(id: nat)

  /** User chains, and the OUTPUT chain of one address family. */
  datatype Firewall = Firewall(chains: map<string, seq<Rule>>, output: seq<Rule>)

  datatype Op =
    | NewChain(c: string)         // -N
    | Append(c: string, r: Rule)  // -A
    | Hook(c: string)             // -I OUTPUT 1 -j
    | Check(c: string)            // -C OUTPUT -j
    | Unhook(c: string)           // -D OUTPUT -j
    | Flush(c: string)            // -F
    | Delete(c: string)           // -X

  predicate Referenced(fw: Firewall, c: string) {
    Jump(c) in fw.output || exists d :: d in fw.chains && Jump(c) in fw.chains[d]
  }

  function RemoveFirst(rs: seq<Rule>, r: Rule): seq<Rule> {
    if rs == [] then [] else if rs[0] == r then rs[1..] else [rs[0]] + RemoveFirst(rs[1..], r)
  }

  /** The firewall after a command, or None if the command is refused. */
  function Effect(fw: Firewall, op: Op): Option<Firewall> {
    match op
    case NewChain(c) => if c in fw.chains then None else Some(fw.(chains := fw.chains[c := []]))
    case Append(c, r) => if c in fw.chains then Some(fw.(chains := fw.chains[c := fw.chains[c] + [r]])) else None
    case Hook(c) => if c in fw.chains then Some(fw.(output := [Jump(c)] + fw.output)) else None
    case Check(c) => if Jump(c) in fw.output then Some(fw) else None
    case Unhook(c) => if Jump(c) in fw.output then Some(fw.(output := RemoveFirst(fw.output, Jump(c)))) else None
    case Flush(c) => if c in fw.chains then Some(fw.(chains := fw.chains[c := []])) else None
    case Delete(c) =>
      if c in fw.chains && fw.chains[c] == [] && !Referenced(fw, c) then Some(fw.(chains := fw.chains - {c})) else None
  }

  predicate IsCleanup(op: Op) {
    op.Unhook? || op.Flush? || op.Delete?
  }

  function Exec(fw: Firewall, op: Op, fails: bool): (Firewall, bool) {
    if fails && !IsCleanup(op) then (fw, false)
    else match Effect(fw, op)
         case None => (fw, false)
         case Some(fw') => (fw', true)
  }

  datatype Family = V4 | V6

  datatype Command = Command(family: Family, op: Op)

  /** Both tables, the number of commands run, and every IPv4 table there has been. */
  datatype Host = Host(v4: Firewall, v6: Firewall, calls: nat, past: seq<Firewall>)

  /** Which commands fail although they could succeed. */
  type Faults = nat -> bool

  function Execute(h: Host, cmd: Command, faults: Faults): (Host, bool) {
    if cmd.family.V4? then
      var (fw, ok) := Exec(h.v4, cmd.op, faults(h.calls));
      (Host(fw, h.v6, h.calls + 1, h.past + [fw]), ok)
    else
      var (fw, ok) := Exec(h.v6, cmd.op, faults(h.calls));
      (Host(h.v4, fw, h.calls + 1, h.past), ok)
  }

  /** Runs commands until one fails. */
  function RunUntil(h: Host, cmds: seq<Command>, faults: Faults): (Host, bool)
    decreases |cmds|
  {
    if cmds == [] then (h, true)
    else
      var (h', ok) := Execute(h, cmds[0], faults);
      if ok then RunUntil(h', cmds[1..], faults) else (h', false)
  }

  /** Runs all commands, whatever they answer. */
  function RunAll(h: Host, cmds: seq<Command>, faults: Faults): Host
    decreases |cmds|
  {
    if cmds == [] then h else RunAll(Execute(h, cmds[0], faults).0, cmds[1..], faults)
  }

  // ---------------------------------------------------------------------------------------------
  // The switch
  // ---------------------------------------------------------------------------------------------

  const CHAIN := "AEGS_KILLSWITCH"
  const CHAIN6 := "AEGS_KILLSWITCH6"

  datatype Params = Params(serverIp: string, basePort: nat, portCount: int, tun: string)

  datatype Phase = Unstarted | Prepared | Applied | Verified | Committed | RolledBack

  datatype Switch = Switch(active: bool, phase: Phase, params: Params, cleanup: seq<Command>, ipv6Blocked: bool)

  datatype World = World(host: Host, sw: Switch)

  predicate ValidIface(s: string) {
    0 < |s| <= 15 &&
    forall i :: 0 <= i < |s| ==>
      'a' <= s[i] <= 'z' || 'A' <= s[i] <= 'Z' || '0' <= s[i] <= '9' || s[i] == '_' || s[i] == '-'
  }

  predicate ValidPorts(p: Params) {
    p.basePort != 0 && 1 <= p.portCount <= 1000 && p.basePort + p.portCount - 1 <= 65535
  }

  /** enable's repair of a port count below one. */
  function AtLeastOnePort(p: Params): Params {
    p.(portCount := if p.portCount < 1 then 1 else p.portCount)
  }

  function EndPort(p: Params): nat {
    (p.basePort + if p.portCount > 0 then p.portCount - 1 else 0) % 0x1_0000
  }

  /** The rules of the IPv4 chain, the final DROP last. */
  function ChainRules(p: Params): seq<Rule> {
    [Established, OutLoopback, OutTun(p.tun), Dhcp, Server(p.serverIp, Udp, p.basePort, EndPort(p)),
     Server(p.serverIp, Tcp, p.basePort, EndPort(p)), DropAll]
  }

  function Appends(family: Family, c: string, rs: seq<Rule>): (cmds: seq<Command>)
    ensures |cmds| == |rs| && forall i :: 0 <= i < |rs| ==> cmds[i] == Command(family, Append(c, rs[i]))
  {
    seq(|rs|, i requires 0 <= i < |rs| => Command(family, Append(c, rs[i])))
  }

  /** generate_rules: create the chain, fill it, and only then hook it. */
  function Rules(p: Params): (cmds: seq<Command>)
    ensures |cmds| == 9
  {
    [Command(V4, NewChain(CHAIN))] + Appends(V4, CHAIN, ChainRules(p)) + [Command(V4, Hook(CHAIN))]
  }

  /** The rules of the IPv6 chain, the final DROP last. */
  function ChainRules6(): (rs: seq<Rule>)
    ensures |rs| == 3
  {
    [Established, OutLoopback, DropAll]
  }

  function Rules6(): (cmds: seq<Command>)
    ensures |cmds| == 5
  {
    [Command(V6, NewChain(CHAIN6))] + Appends(V6, CHAIN6, ChainRules6()) + [Command(V6, Hook(CHAIN6))]
  }

  function Cleanup(family: Family, c: string): seq<Command> {
    [Command(family, Unhook(c)), Command(family, Flush(c)), Command(family, Delete(c))]
  }

  /** prepare; `validIp` stands for inet_pton. */
  function DoPrepare(sw: Switch, validIp: string -> bool): (Switch, bool) {
    var p := sw.params;
    if 0 < |p.serverIp| <= 64 && validIp(p.serverIp) && ValidIface(p.tun) && ValidPorts(p)
    then (sw.(phase := Prepared), true) else (sw, false)
  }

  function DoRollback(w: World, faults: Faults): World {
    World(RunAll(w.host, w.sw.cleanup, faults),
          w.sw.(cleanup := [], active := false, ipv6Blocked := false, phase := RolledBack))
  }

  function DoApply(w: World, faults: Faults): (World, bool) {
    if !w.sw.phase.Prepared? then (w, false)
    else
      var sw := w.sw.(cleanup := Cleanup(V4, CHAIN));
      var (h, ok) := RunUntil(w.host, Rules(w.sw.params), faults);
      if !ok then (DoRollback(World(h, sw), faults), false)
      else
        var h' := h.(calls := h.calls + 1);
        if faults(h.calls) then (World(h', sw.(phase := Applied)), true)
        else
          (World(RunAll(h', Rules6(), faults),
                 sw.(cleanup := sw.cleanup + Cleanup(V6, CHAIN6), ipv6Blocked := true, phase := Applied)), true)
  }

  function DoVerify(w: World, faults: Faults): (World, bool) {
    if !w.sw.phase.Applied? then (w, false)
    else
      var (h, ok) := Execute(w.host, Command(V4, Check(CHAIN)), faults);
      if ok then (World(h, w.sw.(phase := Verified)), true)
      else (DoRollback(World(h, w.sw), faults), false)
  }

  function DoCommit(sw: Switch): (Switch, bool) {
    if sw.phase.Verified? then (sw.(active := true, phase := Committed), true) else (sw, false)
  }

  function DoDisable(w: World, faults: Faults): World {
    if !w.sw.active then w
    else World(RunAll(w.host, w.sw.cleanup, faults), w.sw.(ipv6Blocked := false, cleanup := [], active := false))
  }

  function DoEnable(w: World, p: Params, validIp: string -> bool, faults: Faults): (World, bool) {
    var w0 := DoDisable(w, faults);
    var sw := w0.sw.(params := AtLeastOnePort(p));
    var (prepared, ok0) := DoPrepare(sw, validIp);
    if !ok0 then (World(w0.host, prepared), false)
    else
      var (applied, ok1) := DoApply(World(w0.host, prepared), faults);
      if !ok1 then (applied, false)
      else
        var (verified, ok2) := DoVerify(applied, faults);
        if !ok2 then (verified, false)
        else
          var (committed, ok3) := DoCommit(verified.sw);
          (World(verified.host, committed), ok3)
  }

  // ---------------------------------------------------------------------------------------------
  // What our commands can have done to a table
  // ---------------------------------------------------------------------------------------------

  /** The chain name is not used in any way. */
  predicate Unused(fw: Firewall, c: string) {
    c !in fw.chains && !Referenced(fw, c)
  }

  /** The chain is there, empty and not jumped to from OUTPUT, and another chain jumps to it. */
  predicate Spare(fw: Firewall, c: string) {
    c in fw.chains && fw.chains[c] == [] && Jump(c) !in fw.output && Referenced(fw, c)
  }

  /** The tables on which the cleanup commands change nothing. */
  predicate Restorable(fw: Firewall, c: string) {
    Unused(fw, c) || Spare(fw, c)
  }

  /** A jump's target exists. */
  predicate JumpsLead(fw: Firewall, c: string) {
    Referenced(fw, c) ==> c in fw.chains
  }

  function Built(fw: Firewall, c: string, rs: seq<Rule>, hooked: bool): Firewall {
    Firewall(fw.chains[c := rs], if hooked then [Jump(c)] + fw.output else fw.output)
  }

  predicate NoJumps(rs: seq<Rule>) {
    forall i :: 0 <= i < |rs| ==> !rs[i].Jump?
  }

  /** The table as it was, or with our chain in it, somehow filled, and perhaps hooked. */
  predicate Touched(was: Firewall, fw: Firewall, c: string) {
    fw == was ||
    (c in fw.chains && NoJumps(fw.chains[c]) &&
     (fw == Built(was, c, fw.chains[c], false) || fw == Built(was, c, fw.chains[c], true)))
  }

  function Cleaned(fw: Firewall, c: string): Firewall {
    var a := Exec(fw, Unhook(c), false).0;
    var b := Exec(a, Flush(c), false).0;
    Exec(b, Delete(c), false).0
  }

  /** Cleanup changes nothing exactly in the restorable cases. */
  lemma CleanedSame(fw: Firewall, c: string)
    requires JumpsLead(fw, c)
    ensures Cleaned(fw, c) == fw <==> Restorable(fw, c)
  {
    var a := Exec(fw, Unhook(c), false).0;
    var b := Exec(a, Flush(c), false).0;
    if Jump(c) in fw.output {
      RemovesOne(fw.output, Jump(c));
      assert Cleaned(fw, c).output == a.output != fw.output;
    } else if c in fw.chains {
      assert b == fw.(chains := fw.chains[c := []]);
      if fw.chains[c] == [] {
        assert b == fw;
      } else {
        assert Cleaned(fw, c) != fw;
      }
    }
  }

  lemma RemovesOne(rs: seq<Rule>, r: Rule)
    requires r in rs
    ensures |RemoveFirst(rs, r)| == |rs| - 1
  {}

  lemma BuiltReferenced(was: Firewall, c: string)
    requires Restorable(was, c)
    ensures Referenced(Built(was, c, [], false), c) <==> Spare(was, c)
  {
    var b := Built(was, c, [], false);
    if Spare(was, c) {
      assert b == was;
    } else {
      forall d | d in b.chains ensures Jump(c) !in b.chains[d] {
        if d != c { assert d in was.chains && b.chains[d] == was.chains[d]; }
      }
    }
  }

  /** The three cleanup commands undo anything our commands can have done. */
  lemma CleanupRestores(was: Firewall, fw: Firewall, c: string)
    requires Restorable(was, c) && Touched(was, fw, c)
    ensures Cleaned(fw, c) == was
  {
    if fw == was {
      CleanedSame(was, c);
    } else {
      var rs := fw.chains[c];
      assert Exec(fw, Unhook(c), false).0 == Built(was, c, rs, false);
      var b := Built(was, c, [], false);
      assert Exec(Built(was, c, rs, false), Flush(c), false).0 == b;
      BuiltReferenced(was, c);
      if Spare(was, c) {
        assert b == was;
      } else {
        assert b.chains - {c} == was.chains;
      }
    }
  }

  lemma {:induction false} RunAllAppend(h: Host, a: seq<Command>, b: seq<Command>, faults: Faults)
    ensures RunAll(h, a + b, faults) == RunAll(RunAll(h, a, faults), b, faults)
    decreases |a|
  {
    if a == [] {
      assert a + b == b;
    } else {
      RunAllAppend(Execute(h, a[0], faults).0, a[1..], b, faults);
      assert (a + b)[1..] == a[1..] + b;
    }
  }

  lemma RunThree(h: Host, x: Command, y: Command, z: Command, faults: Faults)
    ensures RunAll(h, [x, y, z], faults) == Execute(Execute(Execute(h, x, faults).0, y, faults).0, z, faults).0
  {
    hide Execute;
    assert [x, y, z][1..] == [y, z] && [y, z][1..] == [z];
    assert RunAll(h, [x, y, z], faults) == RunAll(Execute(h, x, faults).0, [y, z], faults);
    var h1 := Execute(h, x, faults).0;
    assert RunAll(h1, [y, z], faults) == RunAll(Execute(h1, y, faults).0, [z], faults);
    var h2 := Execute(h1, y, faults).0;
    assert RunAll(h2, [z], faults) == RunAll(Execute(h2, z, faults).0, [], faults);
  }

  // ---------------------------------------------------------------------------------------------
  // No moment with an incomplete chain in the path
  // ---------------------------------------------------------------------------------------------

  /** OUTPUT jumps to the chain only when the chain ends in its final DROP. */
  predicate Guarded(fw: Firewall) {
    Jump(CHAIN) in fw.output ==>
      CHAIN in fw.chains && fw.chains[CHAIN] != [] && fw.chains[CHAIN][|fw.chains[CHAIN]| - 1] == DropAll
  }

  predicate AllGuarded(past: seq<Firewall>) {
    forall i :: 0 <= i < |past| ==> Guarded(past[i])
  }

  /** The IPv4 cleanup: its result, and that it unhooks before it empties. */
  lemma RunCleanup4(was: Firewall, h: Host, faults: Faults)
    requires Unused(was, CHAIN) && Touched(was, h.v4, CHAIN)
    ensures var h' := RunAll(h, Cleanup(V4, CHAIN), faults);
            h'.v4 == was && h'.v6 == h.v6 && (AllGuarded(h.past) ==> AllGuarded(h'.past))
  {
    var a := Exec(h.v4, Unhook(CHAIN), false).0;
    var b := Exec(a, Flush(CHAIN), false).0;
    RunThree(h, Command(V4, Unhook(CHAIN)), Command(V4, Flush(CHAIN)), Command(V4, Delete(CHAIN)), faults);
    CleanupRestores(was, h.v4, CHAIN);
    assert Jump(CHAIN) !in a.output;
    assert b.output == a.output && was.output == b.output;
  }

  lemma RunCleanup6(was: Firewall, h: Host, faults: Faults)
    requires Restorable(was, CHAIN6) && Touched(was, h.v6, CHAIN6)
    ensures var h' := RunAll(h, Cleanup(V6, CHAIN6), faults);
            h'.v6 == was && h'.v4 == h.v4 && h'.past == h.past
  {
    RunThree(h, Command(V6, Unhook(CHAIN6)), Command(V6, Flush(CHAIN6)), Command(V6, Delete(CHAIN6)), faults);
    CleanupRestores(was, h.v6, CHAIN6);
  }

  /** The IPv4 table after the first k commands of Rules. */
  function AfterRules(was: Firewall, p: Params, k: nat): Firewall
    requires k <= 9
  {
    if k == 0 then was
    else if k <= 8 then Built(was, CHAIN, ChainRules(p)[..k - 1], false)
    else Built(was, CHAIN, ChainRules(p), true)
  }

  lemma AfterRulesTouched(was: Firewall, p: Params, k: nat)
    requires k <= 9 && Unused(was, CHAIN)
    ensures Touched(was, AfterRules(was, p, k), CHAIN) && Guarded(AfterRules(was, p, k))
  {}

  /** One command of Rules either takes the table to the next stage or leaves it. */
  lemma RuleStep(was: Firewall, h: Host, p: Params, k: nat, faults: Faults)
    requires k < 9 && Unused(was, CHAIN) && h.v4 == AfterRules(was, p, k)
    ensures var (h', ok) := Execute(h, Rules(p)[k], faults);
            && h'.v4 == AfterRules(was, p, if ok then k + 1 else k)
            && h'.v6 == h.v6 && h'.past == h.past + [h'.v4] && h'.calls == h.calls + 1
            && (ok <==> !faults(h.calls))
  {
    if 0 < k < 8 {
      assert Rules(p)[k] == Command(V4, Append(CHAIN, ChainRules(p)[k - 1]));
      assert ChainRules(p)[..k - 1] + [ChainRules(p)[k - 1]] == ChainRules(p)[..k];
      assert was.chains[CHAIN := ChainRules(p)[..k - 1]][CHAIN := ChainRules(p)[..k]]
          == was.chains[CHAIN := ChainRules(p)[..k]];
    } else if k == 8 {
      assert ChainRules(p)[..7] == ChainRules(p);
    }
  }

  /** Applying the IPv4 rules, from any stage, under any faults. */
  lemma {:induction false} RunRules(was: Firewall, h: Host, p: Params, k: nat, faults: Faults)
    requires k <= 9 && Unused(was, CHAIN) && h.v4 == AfterRules(was, p, k)
    ensures var (h', ok) := RunUntil(h, Rules(p)[k..], faults);
            && (ok ==> h'.v4 == AfterRules(was, p, 9) && h'.calls == h.calls + 9 - k)
            && Touched(was, h'.v4, CHAIN) && h'.v6 == h.v6 && (AllGuarded(h.past) ==> AllGuarded(h'.past))
            && (ok <==> forall n: nat :: h.calls <= n < h.calls + 9 - k ==> !faults(n))
    decreases 9 - k
  {
    AfterRulesTouched(was, p, k);
    if k < 9 {
      var (h1, ok) := Execute(h, Rules(p)[k], faults);
      assert Rules(p)[k..][0] == Rules(p)[k] && Rules(p)[k..][1..] == Rules(p)[k + 1..];
      RuleStep(was, h, p, k, faults);
      AfterRulesTouched(was, p, if ok then k + 1 else k);
      hide Rules, AfterRules, Execute, Touched, Guarded, Unused;
      if ok { RunRules(was, h1, p, k + 1, faults); }
    }
  }

  // ---------------------------------------------------------------------------------------------
  // IPv6, best effort
  // ---------------------------------------------------------------------------------------------

  predicate Unhooked(was: Firewall, fw: Firewall, c: string) {
    fw == was || (c in fw.chains && NoJumps(fw.chains[c]) && fw == Built(was, c, fw.chains[c], false))
  }

  predicate Fills(cmd: Command, c: string) {
    cmd.family.V6? && (cmd.op == NewChain(c) || (cmd.op.Append? && cmd.op.c == c && !cmd.op.r.Jump?))
  }

  lemma FillStep(was: Firewall, h: Host, cmd: Command, c: string, faults: Faults)
    requires Restorable(was, c) && Unhooked(was, h.v6, c) && Fills(cmd, c)
    ensures var h' := Execute(h, cmd, faults).0;
            Unhooked(was, h'.v6, c) && h'.v4 == h.v4 && h'.past == h.past
  {
    var fw := h.v6;
    if cmd.op.Append? && c in fw.chains {
      var rs := fw.chains[c] + [cmd.op.r];
      assert was.chains[c := fw.chains[c]][c := rs] == was.chains[c := rs];
    }
  }

  lemma {:induction false} RunFills(was: Firewall, h: Host, cmds: seq<Command>, c: string, faults: Faults)
    requires Restorable(was, c) && Unhooked(was, h.v6, c) && forall i :: 0 <= i < |cmds| ==> Fills(cmds[i], c)
    ensures var h' := RunAll(h, cmds, faults);
            Unhooked(was, h'.v6, c) && h'.v4 == h.v4 && h'.past == h.past
    decreases |cmds|
  {
    if cmds != [] {
      FillStep(was, h, cmds[0], c, faults);
      hide Restorable, Unhooked, Execute, Fills;
      RunFills(was, Execute(h, cmds[0], faults).0, cmds[1..], c, faults);
    }
  }

  /** Whatever fails, the IPv6 rules leave the table in a state the cleanup undoes. */
  lemma RunRules6(was: Firewall, h: Host, faults: Faults)
    requires Restorable(was, CHAIN6) && h.v6 == was
    ensures var h' := RunAll(h, Rules6(), faults);
            Touched(was, h'.v6, CHAIN6) && h'.v4 == h.v4 && h'.past == h.past
  {
    var fill := [Command(V6, NewChain(CHAIN6))] + Appends(V6, CHAIN6, ChainRules6());
    var hook := Command(V6, Hook(CHAIN6));
    assert Rules6() == fill + [hook];
    hide Restorable, Touched, Execute;
    RunAllAppend(h, fill, [hook], faults);
    RunFills(was, h, fill, CHAIN6, faults);
    var h1 := RunAll(h, fill, faults);
    assert RunAll(h1, [hook], faults) == Execute(h1, hook, faults).0;
    HookTouches(was, h1, faults);
  }

  lemma HookTouches(was: Firewall, h: Host, faults: Faults)
    requires Restorable(was, CHAIN6) && Unhooked(was, h.v6, CHAIN6)
    ensures var h' := Execute(h, Command(V6, Hook(CHAIN6)), faults).0;
            Touched(was, h'.v6, CHAIN6) && h'.v4 == h.v4 && h'.past == h.past
  {
    hide Referenced;
    if CHAIN6 in was.chains { assert was.chains[CHAIN6 := was.chains[CHAIN6]] == was.chains; }
  }

  // ---------------------------------------------------------------------------------------------
  // The transaction
  // ---------------------------------------------------------------------------------------------

  /** The cleanup list covers what has been touched. */
  predicate Owns(cleanup: seq<Command>, was6: Firewall, v6: Firewall) {
    || (cleanup == Cleanup(V4, CHAIN) && v6 == was6)
    || (cleanup == Cleanup(V4, CHAIN) + Cleanup(V6, CHAIN6) && Touched(was6, v6, CHAIN6))
  }

  lemma RunOwned(was4: Firewall, was6: Firewall, h: Host, cleanup: seq<Command>, faults: Faults)
    requires Unused(was4, CHAIN) && Restorable(was6, CHAIN6) && Touched(was4, h.v4, CHAIN)
    requires Owns(cleanup, was6, h.v6)
    ensures var h' := RunAll(h, cleanup, faults);
            h'.v4 == was4 && h'.v6 == was6 && (AllGuarded(h.past) ==> AllGuarded(h'.past))
  {
    RunCleanup4(was4, h, faults);
    if cleanup != Cleanup(V4, CHAIN) {
      RunAllAppend(h, Cleanup(V4, CHAIN), Cleanup(V6, CHAIN6), faults);
      RunCleanup6(was6, RunAll(h, Cleanup(V4, CHAIN), faults), faults);
    }
  }

  predicate Restored(w: World, was4: Firewall, was6: Firewall) {
    w.host.v4 == was4 && w.host.v6 == was6 && !w.sw.active
  }

  /** The whole IPv4 chain is there and hooked at the top of OUTPUT, nothing else is changed. */
  predicate Isolated(w: World, was4: Firewall, was6: Firewall) {
    w.host.v4 == Built(was4, CHAIN, ChainRules(w.sw.params), true) && Owns(w.sw.cleanup, was6, w.host.v6)
  }

  lemma FirstAndLastStage(was: Firewall, p: Params)
    ensures AfterRules(was, p, 0) == was && AfterRules(was, p, 9) == Built(was, CHAIN, ChainRules(p), true)
    ensures Rules(p)[0..] == Rules(p)
  {}

  lemma ApplyOutcome(w: World, was4: Firewall, was6: Firewall, faults: Faults)
    requires Unused(was4, CHAIN) && Restorable(was6, CHAIN6) && Restored(w, was4, was6)
    requires w.sw.phase.Prepared?
    ensures var (w', ok) := DoApply(w, faults);
            && (if ok then Isolated(w', was4, was6) && w'.sw.phase.Applied? else Restored(w', was4, was6))
            && (AllGuarded(w.host.past) ==> AllGuarded(w'.host.past)) && w'.sw.params == w.sw.params
  {
    hide Rules, Rules6, Execute, Touched, Unused, Restorable, ChainRules, AllGuarded;
    hide RunUntil, RunAll, AfterRules, Built, Cleanup;
    var p := w.sw.params;
    FirstAndLastStage(was4, p);
    RunRules(was4, w.host, p, 0, faults);
    var (h, ok) := RunUntil(w.host, Rules(p), faults);
    if !ok {
      RunOwned(was4, was6, h, Cleanup(V4, CHAIN), faults);
    } else if !faults(h.calls) {
      RunRules6(was6, h.(calls := h.calls + 1), faults);
    }
  }

  lemma HookedIsTouched(was: Firewall, p: Params)
    ensures Touched(was, Built(was, CHAIN, ChainRules(p), true), CHAIN)
    ensures Guarded(Built(was, CHAIN, ChainRules(p), true))
  {}

  lemma VerifyOutcome(w: World, was4: Firewall, was6: Firewall, faults: Faults)
    requires Unused(was4, CHAIN) && Restorable(was6, CHAIN6) && Isolated(w, was4, was6)
    requires w.sw.phase.Applied?
    ensures var (w', ok) := DoVerify(w, faults);
            && (if ok then Isolated(w', was4, was6) && w'.sw.phase.Verified? else Restored(w', was4, was6))
            && (AllGuarded(w.host.past) ==> AllGuarded(w'.host.past)) && w'.sw.params == w.sw.params
  {
    HookedIsTouched(was4, w.sw.params);
    var h := Execute(w.host, Command(V4, Check(CHAIN)), faults).0;
    assert h.v4 == w.host.v4 && h.v6 == w.host.v6 && h.past == w.host.past + [h.v4];
    hide Execute, Touched, Unused, Restorable, ChainRules, Guarded, Built, Cleanup;
    RunOwned(was4, was6, h, w.sw.cleanup, faults);
  }

  /** Off: the tables as they were. On: the whole chain in place, with a cleanup list that can undo it. */
  predicate Inv(w: World, was4: Firewall, was6: Firewall) {
    && Unused(was4, CHAIN) && Restorable(was6, CHAIN6) && AllGuarded(w.host.past)
    && if w.sw.active then Isolated(w, was4, was6) else Restored(w, was4, was6)
  }

  /** disable restores the earlier tables exactly. */
  lemma DisableRestores(w: World, was4: Firewall, was6: Firewall, faults: Faults)
    requires Inv(w, was4, was6)
    ensures Restored(DoDisable(w, faults), was4, was6) && Inv(DoDisable(w, faults), was4, was6)
  {
    if w.sw.active {
      HookedIsTouched(was4, w.sw.params);
      hide Touched, Unused, Restorable, ChainRules, Built, Cleanup;
      RunOwned(was4, was6, w.host, w.sw.cleanup, faults);
    }
  }

  /** enable from a switch that is off. */
  lemma EnableOutcome(w: World, p: Params, validIp: string -> bool, faults: Faults)
    requires Unused(w.host.v4, CHAIN) && Restorable(w.host.v6, CHAIN6) && !w.sw.active
    ensures var (w', ok) := DoEnable(w, p, validIp, faults);
            && w'.sw.active == ok && (AllGuarded(w.host.past) ==> AllGuarded(w'.host.past))
            && (if ok then Isolated(w', w.host.v4, w.host.v6) && w'.sw.phase.Committed?
                else Restored(w', w.host.v4, w.host.v6))
  {
    var was4, was6 := w.host.v4, w.host.v6;
    var (prepared, ok0) := DoPrepare(w.sw.(params := AtLeastOnePort(p)), validIp);
    hide Touched, Unused, Restorable, ChainRules, Built, Cleanup, AllGuarded, Owns;
    if ok0 {
      ApplyOutcome(World(w.host, prepared), was4, was6, faults);
      var (applied, ok1) := DoApply(World(w.host, prepared), faults);
      hide DoApply;
      if ok1 { VerifyOutcome(applied, was4, was6, faults); }
    }
  }

  lemma EnableDisablesFirst(w: World, p: Params, validIp: string -> bool, faults: Faults)
    ensures DoEnable(w, p, validIp, faults) == DoEnable(DoDisable(w, faults), p, validIp, faults)
  {
    hide DoApply, DoPrepare, DoVerify, DoCommit;
    assert !DoDisable(w, faults).sw.active;
  }

  /**
   enable under any pattern of faults: true means the whole chain is in place and hooked, false means
   the tables are as they were before the first enable.
   */
  lemma EnableIsTransaction(w: World, was4: Firewall, was6: Firewall, p: Params, validIp: string -> bool,
                            faults: Faults)
    requires Inv(w, was4, was6)
    ensures var (w', ok) := DoEnable(w, p, validIp, faults);
            && Inv(w', was4, was6) && w'.sw.active == ok
            && (if ok then Isolated(w', was4, was6) && w'.sw.phase.Committed? else Restored(w', was4, was6))
  {
    DisableRestores(w, was4, was6, faults);
    EnableDisablesFirst(w, p, validIp, faults);
    hide DoDisable, DoEnable;
    EnableOutcome(DoDisable(w, faults), p, validIp, faults);
  }

  // ---------------------------------------------------------------------------------------------
  // Whole runs
  // ---------------------------------------------------------------------------------------------

  datatype Call = Enable(p: Params) | Disable

  function Run(w: World, calls: seq<Call>, validIp: string -> bool, faults: Faults): World
    decreases |calls|
  {
    if calls == [] then w
    else Run(if calls[0].Enable? then DoEnable(w, calls[0].p, validIp, faults).0 else DoDisable(w, faults), calls[1..],
             validIp, faults)
  }

  /**
   In any run of enable and disable calls under any faults, the tables are either as they were at the
   start or exactly extended, and never was there a hooked chain without its final DROP.
   */
  lemma {:induction false} RunKeepsInv(w: World, was4: Firewall, was6: Firewall, calls: seq<Call>,
                                       validIp: string -> bool, faults: Faults)
    requires Inv(w, was4, was6)
    ensures Inv(Run(w, calls, validIp, faults), was4, was6)
    decreases |calls|
  {
    if calls != [] {
      DisableRestores(w, was4, was6, faults);
      if calls[0].Enable? { EnableIsTransaction(w, was4, was6, calls[0].p, validIp, faults); }
      hide Inv, DoEnable, DoDisable;
      var w' := if calls[0].Enable? then DoEnable(w, calls[0].p, validIp, faults).0 else DoDisable(w, faults);
      RunKeepsInv(w', was4, was6, calls[1..], validIp, faults);
    }
  }

  // ---------------------------------------------------------------------------------------------
  // When a failed enable does not restore
  // ---------------------------------------------------------------------------------------------

  /** The parameters pass prepare. */
  predicate Prepares(w: World, p: Params, validIp: string -> bool) {
    DoPrepare(w.sw.(params := AtLeastOnePort(p)), validIp).1
  }

  /** If the chain is there already, -N fails and the rollback runs the cleanup commands on the table as it is. */
  lemma ChainThere(w: World, p: Params, validIp: string -> bool, faults: Faults)
    requires !w.sw.active && CHAIN in w.host.v4.chains && Prepares(w, p, validIp)
    ensures var (w', ok) := DoEnable(w, p, validIp, faults);
            !ok && w'.host.v4 == Cleaned(w.host.v4, CHAIN) && w'.host.v6 == w.host.v6
  {
    var prepared := DoPrepare(w.sw.(params := AtLeastOnePort(p)), validIp).0;
    var (h, ok) := RunUntil(w.host, Rules(prepared.params), faults);
    assert Rules(prepared.params)[0] == Command(V4, NewChain(CHAIN));
    assert !ok && h.v4 == w.host.v4 && h.v6 == w.host.v6;
    hide RunUntil, Rules;
    RunThree(h, Command(V4, Unhook(CHAIN)), Command(V4, Flush(CHAIN)), Command(V4, Delete(CHAIN)), faults);
  }

  /** A chain of that name from somewhere else makes -N fail, and the rollback then flushes and deletes it. */
  lemma ForeignChainIsDeleted(w: World, p: Params, validIp: string -> bool, faults: Faults)
    requires !w.sw.active && CHAIN in w.host.v4.chains && !Referenced(w.host.v4, CHAIN) && Prepares(w, p, validIp)
    ensures var (w', ok) := DoEnable(w, p, validIp, faults);
            !ok && CHAIN !in w'.host.v4.chains
  {
    hide DoEnable, Prepares;
    ChainThere(w, p, validIp, faults);
    var fw := w.host.v4.(chains := w.host.v4.chains[CHAIN := []]);
    assert !Referenced(fw, CHAIN) by {
      forall d | d in fw.chains ensures Jump(CHAIN) !in fw.chains[d] {
        if d != CHAIN { assert d in w.host.v4.chains && fw.chains[d] == w.host.v4.chains[d]; }
      }
    }
  }

  lemma {:induction false} OnlyV6(h: Host, cmds: seq<Command>, faults: Faults)
    requires forall i :: 0 <= i < |cmds| ==> cmds[i].family.V6?
    ensures RunAll(h, cmds, faults).v4 == h.v4
    decreases |cmds|
  {
    hide Exec;
    if cmds != [] { OnlyV6(Execute(h, cmds[0], faults).0, cmds[1..], faults); }
  }

  /** What enable does to the machine once the parameters pass prepare. */
  function EnableHost(h0: Host, p: Params, faults: Faults): (Host, bool) {
    var (h, ok) := RunUntil(h0, Rules(p), faults);
    if !ok then (RunAll(h, Cleanup(V4, CHAIN), faults), false)
    else
      var v6 := !faults(h.calls);
      var h' := h.(calls := h.calls + 1);
      var (g, hooked) := Execute(if v6 then RunAll(h', Rules6(), faults) else h', Command(V4, Check(CHAIN)), faults);
      if hooked then (g, true)
      else (RunAll(g, Cleanup(V4, CHAIN) + if v6 then Cleanup(V6, CHAIN6) else [], faults), false)
  }

  lemma EnableRuns(w: World, p: Params, validIp: string -> bool, faults: Faults)
    requires !w.sw.active && Prepares(w, p, validIp)
    ensures var (w', ok) := DoEnable(w, p, validIp, faults);
            (w'.host, ok) == EnableHost(w.host, AtLeastOnePort(p), faults)
  {
    hide RunUntil, RunAll, Rules, Rules6, Execute, Cleanup;
    assert Cleanup(V4, CHAIN) + [] == Cleanup(V4, CHAIN);
  }

  /** Whatever the IPv6 table was, a failing enable restores the IPv4 table if the name was not used in it. */
  lemma FailureRestores4(h0: Host, p: Params, faults: Faults)
    requires Unused(h0.v4, CHAIN) && !EnableHost(h0, p, faults).1
    ensures EnableHost(h0, p, faults).0.v4 == h0.v4
  {
    hide Rules, Rules6, RunUntil, RunAll, Unused, Touched, AfterRules, Built, ChainRules, Guarded, AllGuarded, Execute,
         Cleanup;
    var was := h0.v4;
    FirstAndLastStage(was, p);
    RunRules(was, h0, p, 0, faults);
    HookedIsTouched(was, p);
    var (h, ok) := RunUntil(h0, Rules(p), faults);
    if !ok {
      RunCleanup4(was, h, faults);
    } else {
      var h' := h.(calls := h.calls + 1);
      Rules6Only(h', faults);
      CheckedAndCleaned(was, if faults(h.calls) then h' else RunAll(h', Rules6(), faults), faults);
      assert Cleanup(V4, CHAIN) + [] == Cleanup(V4, CHAIN);
    }
  }

  lemma Rules6Only(h: Host, faults: Faults)
    ensures RunAll(h, Rules6(), faults).v4 == h.v4
  {
    OnlyV6(h, Rules6(), faults);
  }

  lemma CheckedAndCleaned(was: Firewall, g: Host, faults: Faults)
    requires Unused(was, CHAIN) && Touched(was, g.v4, CHAIN)
    ensures var h := Execute(g, Command(V4, Check(CHAIN)), faults).0;
            && RunAll(h, Cleanup(V4, CHAIN), faults).v4 == was
            && RunAll(h, Cleanup(V4, CHAIN) + Cleanup(V6, CHAIN6), faults).v4 == was
  {
    var h := Execute(g, Command(V4, Check(CHAIN)), faults).0;
    assert h.v4 == g.v4;
    hide Execute, Unused, Touched;
    RunCleanup4(was, h, faults);
    RunAllAppend(h, Cleanup(V4, CHAIN), Cleanup(V6, CHAIN6), faults);
    OnlyV6(RunAll(h, Cleanup(V4, CHAIN), faults), Cleanup(V6, CHAIN6), faults);
  }

  predicate FailureRestores(w: World, p: Params, validIp: string -> bool, faults: Faults, both: bool) {
    var (w', ok) := DoEnable(w, p, validIp, faults);
    !ok ==> w'.host.v4 == w.host.v4 && (both ==> w'.host.v6 == w.host.v6)
  }

  /**
   From any tables at all, a chain left behind and hooked included: failing enables restore the IPv4 table
   if and only if the name is not used in it, or its chain is empty, not hooked and jumped to from elsewhere.
   */
  lemma RestoresExactly(w: World, p: Params, validIp: string -> bool)
    requires !w.sw.active && JumpsLead(w.host.v4, CHAIN) && Prepares(w, p, validIp)
    ensures (forall faults: Faults :: FailureRestores(w, p, validIp, faults, false)) <==> Restorable(w.host.v4, CHAIN)
  {
    hide DoEnable, EnableHost, Cleaned;
    if CHAIN in w.host.v4.chains {
      forall faults: Faults
        ensures FailureRestores(w, p, validIp, faults, false) <==> Restorable(w.host.v4, CHAIN)
      {
        ChainThere(w, p, validIp, faults);
        CleanedSame(w.host.v4, CHAIN);
      }
      var none: Faults := n => false;
      assert FailureRestores(w, p, validIp, none, false) <==> Restorable(w.host.v4, CHAIN);
    } else {
      forall faults: Faults ensures FailureRestores(w, p, validIp, faults, false) {
        EnableRuns(w, p, validIp, faults);
        if !DoEnable(w, p, validIp, faults).1 { FailureRestores4(w.host, AtLeastOnePort(p), faults); }
      }
    }
  }

  /** Commands that all fail leave both tables alone. */
  lemma {:induction false} NoneTakesEffect(h: Host, cmds: seq<Command>, faults: Faults)
    requires forall i :: 0 <= i < |cmds| ==> !IsCleanup(cmds[i].op)
    requires forall n: nat :: h.calls <= n ==> faults(n)
    ensures var h' := RunAll(h, cmds, faults);
            h'.v4 == h.v4 && h'.v6 == h.v6 && h'.calls == h.calls + |cmds|
    decreases |cmds|
  {
    if cmds != [] { NoneTakesEffect(Execute(h, cmds[0], faults).0, cmds[1..], faults); }
  }

  /** All goes well up to the IPv6 rules; they and the check fail, and the cleanup meets the IPv6 table as it was. */
  lemma Cleaned6(h0: Host, p: Params) returns (faults: Faults)
    requires Unused(h0.v4, CHAIN)
    ensures var (h, ok) := EnableHost(h0, p, faults);
            !ok && h.v6 == Cleaned(h0.v6, CHAIN6)
  {
    hide Rules, Rules6, RunUntil, RunAll, Unused, Touched, AfterRules, Built, ChainRules, AllGuarded, Cleaned, Cleanup;
    hide Execute;
    var last := h0.calls + 9;
    faults := n => n > last;
    FirstAndLastStage(h0.v4, p);
    RunRules(h0.v4, h0, p, 0, faults);
    var h := RunUntil(h0, Rules(p), faults).0;
    var h' := h.(calls := h.calls + 1);
    Fails6(h', faults);
    var g := RunAll(h', Rules6(), faults);
    CheckFails(g, faults);
    BothCleanups(Execute(g, Command(V4, Check(CHAIN)), faults).0, faults);
  }

  lemma Fails6(h: Host, faults: Faults)
    requires forall n: nat :: h.calls <= n ==> faults(n)
    ensures var g := RunAll(h, Rules6(), faults); g.v6 == h.v6 && g.calls >= h.calls
  {
    NoneTakesEffect(h, Rules6(), faults);
  }

  lemma CheckFails(g: Host, faults: Faults)
    requires faults(g.calls)
    ensures var (e, ok) := Execute(g, Command(V4, Check(CHAIN)), faults); !ok && e.v6 == g.v6
  {}

  lemma BothCleanups(h: Host, faults: Faults)
    ensures RunAll(h, Cleanup(V4, CHAIN) + Cleanup(V6, CHAIN6), faults).v6 == Cleaned(h.v6, CHAIN6)
  {
    RunAllAppend(h, Cleanup(V4, CHAIN), Cleanup(V6, CHAIN6), faults);
    RunThree(h, Command(V4, Unhook(CHAIN)), Command(V4, Flush(CHAIN)), Command(V4, Delete(CHAIN)), faults);
    var g := RunAll(h, Cleanup(V4, CHAIN), faults);
    RunThree(g, Command(V6, Unhook(CHAIN6)), Command(V6, Flush(CHAIN6)), Command(V6, Delete(CHAIN6)), faults);
  }

  /**
   Failing enables restore both tables if and only if the IPv4 chain blocks every enable and survives its
   cleanup, or the IPv4 name is not used and the IPv6 table is one the cleanup does not change.
   */
  lemma RestoresBothExactly(w: World, p: Params, validIp: string -> bool)
    requires !w.sw.active && JumpsLead(w.host.v4, CHAIN) && JumpsLead(w.host.v6, CHAIN6) && Prepares(w, p, validIp)
    ensures (forall faults: Faults :: FailureRestores(w, p, validIp, faults, true)) <==>
            Spare(w.host.v4, CHAIN) || (Unused(w.host.v4, CHAIN) && Restorable(w.host.v6, CHAIN6))
  {
    hide DoEnable, EnableHost, Cleaned;
    if CHAIN in w.host.v4.chains {
      forall faults: Faults ensures FailureRestores(w, p, validIp, faults, true) <==> Spare(w.host.v4, CHAIN) {
        ChainThere(w, p, validIp, faults);
        CleanedSame(w.host.v4, CHAIN);
      }
      var none: Faults := n => false;
      assert FailureRestores(w, p, validIp, none, true) <==> Spare(w.host.v4, CHAIN);
    } else if Restorable(w.host.v6, CHAIN6) {
      forall faults: Faults ensures FailureRestores(w, p, validIp, faults, true) {
        EnableOutcome(w, p, validIp, faults);
      }
    } else {
      var faults := Cleaned6(w.host, AtLeastOnePort(p));
      EnableRuns(w, p, validIp, faults);
      CleanedSame(w.host.v6, CHAIN6);
      assert !FailureRestores(w, p, validIp, faults, true);
    }
  }

  /** Cleaning up removes our chain and our hook, wherever it stands by then, and nothing else. */
  lemma CleanupTouchesNothingElse(fw: Firewall, before: seq<Rule>, after: seq<Rule>)
    requires CHAIN in fw.chains && fw.output == before + [Jump(CHAIN)] + after
    requires Jump(CHAIN) !in before && Jump(CHAIN) !in after
    requires forall d :: d in fw.chains && d != CHAIN ==> Jump(CHAIN) !in fw.chains[d]
    ensures Cleaned(fw, CHAIN) == Firewall(fw.chains - {CHAIN}, before + after)
  {
    RemovesTheHook(before, after);
    var a := fw.(output := before + after);
    assert Exec(fw, Unhook(CHAIN), false).0 == a;
    var b := a.(chains := a.chains[CHAIN := []]);
    assert Exec(a, Flush(CHAIN), false).0 == b;
    assert !Referenced(b, CHAIN);
    assert b.chains - {CHAIN} == fw.chains - {CHAIN};
  }

  lemma {:induction false} RemovesTheHook(before: seq<Rule>, after: seq<Rule>)
    requires Jump(CHAIN) !in before
    ensures RemoveFirst(before + [Jump(CHAIN)] + after, Jump(CHAIN)) == before + after
  {
    var all := before + [Jump(CHAIN)] + after;
    if before == [] {
      assert all[1..] == after && before + after == after;
    } else {
      RemovesTheHook(before[1..], after);
      assert all[1..] == before[1..] + [Jump(CHAIN)] + after;
      assert before + after == [before[0]] + (before[1..] + after);
    }
  }

  // ---------------------------------------------------------------------------------------------
  // What the chain lets through
  // ---------------------------------------------------------------------------------------------

  /** An outgoing packet as the rules see it. */
  datatype Packet = Packet(established: bool, oif: string, proto: Proto, dst: string, sport: nat, dport: nat)

  predicate Matches(r: Rule, k: Packet) {
    match r
    case Established => k.established
    case OutLoopback => k.oif == "lo"
    case OutTun(iface) => k.oif == iface
    case Dhcp => k.proto == Udp && k.sport == 68 && k.dport == 67
    case Server(ip, proto, lo, hi) => k.dst == ip && k.proto == proto && lo <= k.dport <= hi
    case DropAll => true
    case _ => false
  }

  /** The verdict of the first matching rule: whether it accepts. None: the chain returns to its caller. */
  function Verdict(rs: seq<Rule>, k: Packet): Option<bool> {
    if rs == [] then None
    else if Matches(rs[0], k) then Some(!rs[0].DropAll?)
    else Verdict(rs[1..], k)
  }

  /**
   The chain decides every packet, so nothing after the hook is ever consulted: accepted are replies,
   loopback, the tunnel device, DHCP and the server's port range, and everything else is dropped.
   */
  lemma ChainDecides(p: Params, k: Packet)
    requires ValidPorts(p)
    ensures Verdict(ChainRules(p), k) ==
            Some(k.established || k.oif == "lo" || k.oif == p.tun ||
                 (k.proto == Udp && k.sport == 68 && k.dport == 67) ||
                 (k.dst == p.serverIp && !k.proto.OtherProto? && p.basePort <= k.dport <= p.basePort + p.portCount - 1))
  {
    var rs := ChainRules(p);
    assert EndPort(p) == p.basePort + p.portCount - 1;
    assert rs[1..][0] == rs[1] && rs[2..][0] == rs[2] && rs[3..][0] == rs[3]
        && rs[4..][0] == rs[4] && rs[5..][0] == rs[5]
        && rs[6..][0] == rs[6];
    assert rs[1..][1..] == rs[2..] && rs[2..][1..] == rs[3..] && rs[3..][1..] == rs[4..] && rs[4..][1..] == rs[5..]
        && rs[5..][1..] == rs[6..];
    assert Verdict(rs[6..], k) == Some(false);
    assert Verdict(rs[5..], k) == if Matches(rs[5], k) then Some(true) else Verdict(rs[6..], k);
    assert Verdict(rs[4..], k) == if Matches(rs[4], k) then Some(true) else Verdict(rs[5..], k);
    assert Verdict(rs[3..], k) == if Matches(rs[3], k) then Some(true) else Verdict(rs[4..], k);
    assert Verdict(rs[2..], k) == if Matches(rs[2], k) then Some(true) else Verdict(rs[3..], k);
    assert Verdict(rs[1..], k) == if Matches(rs[1], k) then Some(true) else Verdict(rs[2..], k);
  }

  /** The IPv6 chain lets replies and loopback through and drops the rest. */
  lemma Chain6Decides(k: Packet)
    ensures Verdict(ChainRules6(), k) == Some(k.established || k.oif == "lo")
  {
    var rs := ChainRules6();
    assert rs[1..][0] == rs[1] && rs[2..][0] == rs[2] && rs[1..][1..] == rs[2..];
    assert Verdict(rs[2..], k) == Some(false);
    assert Verdict(rs[1..], k) == if Matches(rs[1], k) then Some(true) else Verdict(rs[2..], k);
  }

  /** What the first rule of OUTPUT, a jump to the chain, does with a packet. */
  predicate Decides(fw: Firewall, c: string, k: Packet, accepts: bool) {
    fw.output != [] && fw.output[0] == Jump(c) && c in fw.chains && Verdict(fw.chains[c], k) == Some(accepts)
  }

  /** enable answers true only for parameters that pass every check of prepare. */
  lemma EnabledIsValid(w: World, p: Params, validIp: string -> bool, faults: Faults)
    requires DoEnable(w, p, validIp, faults).1
    ensures var q := AtLeastOnePort(p);
            && 0 < |q.serverIp| <= 64 && validIp(q.serverIp) && 0 < |q.tun| <= 15
            && q.basePort != 0 && 1 <= q.portCount <= 1000 && q.basePort + q.portCount - 1 <= 65535
            && forall i :: 0 <= i < |q.tun| ==>
                 'a' <= q.tun[i] <= 'z' || 'A' <= q.tun[i] <= 'Z' || '0' <= q.tun[i] <= '9' || q.tun[i] == '_' ||
                 q.tun[i] == '-'
    ensures DoEnable(w, p, validIp, faults).0.sw.params == AtLeastOnePort(p)
  {
    hide RunUntil, RunAll, Execute, Rules, Rules6, Cleanup;
  }

  /**
   After an enable that answered true, under whatever faults, OUTPUT begins with the jump, and the chain decides
   every packet: replies, loopback, the tunnel, DHCP and the server's ports pass, and everything else is dropped.
   */
  lemma EnabledDecides(w: World, was4: Firewall, was6: Firewall, p: Params, validIp: string -> bool, faults: Faults,
                       k: Packet)
    requires Inv(w, was4, was6) && DoEnable(w, p, validIp, faults).1
    ensures var q := AtLeastOnePort(p);
            Decides(DoEnable(w, p, validIp, faults).0.host.v4, CHAIN, k,
                    k.established || k.oif == "lo" || k.oif == q.tun ||
                    (k.proto == Udp && k.sport == 68 && k.dport == 67) ||
                    (k.dst == q.serverIp && !k.proto.OtherProto? &&
                     q.basePort <= k.dport <= q.basePort + q.portCount - 1))
  {
    EnableIsTransaction(w, was4, was6, p, validIp, faults);
    EnabledIsValid(w, p, validIp, faults);
    hide DoEnable, Inv, Owns, ChainRules, Verdict;
    ChainDecides(AtLeastOnePort(p), k);
  }

  /** The switch says IPv6 is blocked exactly when it is on and IPv6 was found available. */
  lemma BlockedIsTrue(w: World, p: Params, validIp: string -> bool, faults: Faults)
    requires !w.sw.active && !w.sw.ipv6Blocked && Unused(w.host.v4, CHAIN) && Prepares(w, p, validIp)
    ensures var (w', ok) := DoEnable(w, p, validIp, faults);
            && (w'.sw.ipv6Blocked <==> ok && !faults(w.host.calls + 9))
            && (w'.sw.ipv6Blocked ==> w'.sw.cleanup == Cleanup(V4, CHAIN) + Cleanup(V6, CHAIN6))
            && !DoDisable(w', faults).sw.ipv6Blocked
  {
    hide Rules, Rules6, RunUntil, RunAll, Unused, Touched, AfterRules, Built, ChainRules, Guarded, AllGuarded, Execute,
         Cleanup;
    FirstAndLastStage(w.host.v4, AtLeastOnePort(p));
    RunRules(w.host.v4, w.host, AtLeastOnePort(p), 0, faults);
  }

  lemma NoFaults6(was: Firewall, h: Host, faults: Faults)
    requires Unused(was, CHAIN6) && h.v6 == was && forall n: nat :: !faults(n)
    ensures RunAll(h, Rules6(), faults).v6 == Built(was, CHAIN6, ChainRules6(), true)
    ensures RunAll(h, Rules6(), faults).v4 == h.v4
  {
    var cmds, rs := Rules6(), ChainRules6();
    var h1 := Execute(h, cmds[0], faults).0;
    assert h1.v6 == Built(was, CHAIN6, [], false);
    assert [] + [rs[0]] == [rs[0]] && [rs[0]] + [rs[1]] == [rs[0], rs[1]] && [rs[0], rs[1]] + [rs[2]] == rs;
    var h2 := Append6(was, h1, [], rs[0], faults);
    var h3 := Append6(was, h2, [rs[0]], rs[1], faults);
    var h4 := Append6(was, h3, [rs[0], rs[1]], rs[2], faults);
    assert Execute(h4, cmds[4], faults).0.v6 == Built(was, CHAIN6, rs, true);
    hide Execute;
    assert cmds[1] == Command(V6, Append(CHAIN6, rs[0])) && cmds[2] == Command(V6, Append(CHAIN6, rs[1]));
    assert cmds[3] == Command(V6, Append(CHAIN6, rs[2]));
    RunFive(h, cmds, faults);
    Rules6Only(h, faults);
  }

  lemma Append6(was: Firewall, h: Host, rs: seq<Rule>, r: Rule, faults: Faults) returns (h': Host)
    requires h.v6 == Built(was, CHAIN6, rs, false) && !faults(h.calls)
    ensures h' == Execute(h, Command(V6, Append(CHAIN6, r)), faults).0
    ensures h'.v6 == Built(was, CHAIN6, rs + [r], false)
  {
    h' := Execute(h, Command(V6, Append(CHAIN6, r)), faults).0;
    assert was.chains[CHAIN6 := rs][CHAIN6 := rs + [r]] == was.chains[CHAIN6 := rs + [r]];
  }

  lemma RunFive(h: Host, cmds: seq<Command>, faults: Faults)
    requires |cmds| == 5
    ensures RunAll(h, cmds, faults) ==
            Execute(Execute(Execute(Execute(Execute(h, cmds[0], faults).0, cmds[1], faults).0, cmds[2], faults).0,
                            cmds[3], faults).0, cmds[4], faults).0
  {
    hide Execute;
    var h2 := Execute(Execute(h, cmds[0], faults).0, cmds[1], faults).0;
    RunThree(h2, cmds[2], cmds[3], cmds[4], faults);
    assert cmds[1..][1..] == [cmds[2], cmds[3], cmds[4]];
    assert RunAll(Execute(h, cmds[0], faults).0, cmds[1..], faults) == RunAll(h2, [cmds[2], cmds[3], cmds[4]], faults);
  }

  /** On a machine where no command fails and both names are free, enable answers true exactly for valid parameters. */
  lemma EnableSucceeds(w: World, p: Params, validIp: string -> bool, faults: Faults)
    requires !w.sw.active && Unused(w.host.v4, CHAIN) && Unused(w.host.v6, CHAIN6) && forall n: nat :: !faults(n)
    ensures var (w', ok) := DoEnable(w, p, validIp, faults);
            && ok == Prepares(w, p, validIp)
            && (ok ==> w'.host.v4 == Built(w.host.v4, CHAIN, ChainRules(AtLeastOnePort(p)), true)
                       && w'.host.v6 == Built(w.host.v6, CHAIN6, ChainRules6(), true))
            && (!ok ==> w'.host == w.host)
  {
    if Prepares(w, p, validIp) {
      EnableRuns(w, p, validIp, faults);
      hide DoEnable, Prepares;
      HostSucceeds(w.host, AtLeastOnePort(p), faults);
    }
  }

  lemma HostSucceeds(h0: Host, p: Params, faults: Faults)
    requires Unused(h0.v4, CHAIN) && Unused(h0.v6, CHAIN6) && forall n: nat :: !faults(n)
    ensures var (h, ok) := EnableHost(h0, p, faults);
            ok && h.v4 == Built(h0.v4, CHAIN, ChainRules(p), true) && h.v6 == Built(h0.v6, CHAIN6, ChainRules6(), true)
  {
    hide Rules, Rules6, RunUntil, RunAll, Unused, Touched, AfterRules, ChainRules, ChainRules6, Guarded, AllGuarded,
         Execute, Cleanup;
    FirstAndLastStage(h0.v4, p);
    RunRules(h0.v4, h0, p, 0, faults);
    var h := RunUntil(h0, Rules(p), faults).0;
    var h' := h.(calls := h.calls + 1);
    NoFaults6(h0.v6, h', faults);
    CheckPasses(RunAll(h', Rules6(), faults), faults);
  }

  lemma CheckPasses(g: Host, faults: Faults)
    requires !faults(g.calls) && Jump(CHAIN) in g.v4.output
    ensures var (h, ok) := Execute(g, Command(V4, Check(CHAIN)), faults); ok && h.v4 == g.v4 && h.v6 == g.v6
  {}

  // ---------------------------------------------------------------------------------------------
  // The objects
  // ---------------------------------------------------------------------------------------------

  /** The machine the commands run on. */
  class FirewallHost {
    const faults: Faults
    var v4: Firewall
    var v6: Firewall
    var calls: nat
    ghost var past: seq<Firewall>

    ghost function View(): Host
      reads this
    {
      Host(v4, v6, calls, past)
    }

    constructor (v4: Firewall, v6: Firewall, faults: Faults)
      ensures View() == Host(v4, v6, 0, []) && this.faults == faults
    {
      this.v4, this.v6, this.faults, calls, past := v4, v6, faults, 0, [];
    }

    /** One command and whether its exit status was 0. */
    method ExecuteCommand(cmd: Command) returns (ok: bool)
      modifies this
      ensures (View(), ok) == Execute(old(View()), cmd, faults)
    {
      if cmd.family.V4? {
        var r := Exec(v4, cmd.op, faults(calls));
        v4, ok := r.0, r.1;
        past := past + [v4];
      } else {
        var r := Exec(v6, cmd.op, faults(calls));
        v6, ok := r.0, r.1;
      }
      calls := calls + 1;
    }

    /** is_ipv6_available: a listing command that may fail. */
    method ListV6() returns (ok: bool)
      modifies this`calls
      ensures View() == old(View()).(calls := old(calls) + 1) && ok == !faults(old(calls))
    {
      ok := !faults(calls);
      calls := calls + 1;
    }
  }

  class KillSwitch {
    const host: FirewallHost
    const validIp: string -> bool
    var active: bool
    var phase: Phase
    var params: Params
    var cleanup: seq<Command>
    var ipv6Blocked: bool

    ghost function View(): World
      reads this, host
    {
      World(host.View(), Switch(active, phase, params, cleanup, ipv6Blocked))
    }

    constructor (host: FirewallHost, validIp: string -> bool)
      ensures this.host == host && this.validIp == validIp
      ensures View() == World(host.View(), Switch(false, Unstarted, Params("", 50001, 1, "aegs0"), [], false))
    {
      this.host, this.validIp := host, validIp;
      active, phase, params, cleanup, ipv6Blocked := false, Unstarted, Params("", 50001, 1, "aegs0"), [], false;
    }

    method PrepareTx() returns (ok: bool)
      modifies this`phase
      ensures View().host == old(View().host) && (View().sw, ok) == DoPrepare(old(View().sw), validIp)
    {
      if |params.serverIp| == 0 || |params.serverIp| > 64 || !validIp(params.serverIp) { return false; }
      if !ValidIface(params.tun) { return false; }
      if params.basePort == 0 || params.portCount < 1 || params.portCount > 1000 ||
         params.basePort + params.portCount - 1 > 65535 { return false; }
      phase := Prepared;
      ok := true;
    }

    /** Runs commands until one fails. */
    method RunWhileOk(cmds: seq<Command>) returns (ok: bool)
      modifies host
      ensures (host.View(), ok) == RunUntil(old(host.View()), cmds, host.faults)
    {
      ghost var start := host.View();
      var i := 0;
      assert cmds[0..] == cmds;
      while i < |cmds|
        invariant i <= |cmds|
        invariant RunUntil(start, cmds, host.faults) == RunUntil(host.View(), cmds[i..], host.faults)
      {
        assert cmds[i..][1..] == cmds[i + 1..];
        ok := host.ExecuteCommand(cmds[i]);
        if !ok { return; }
        i := i + 1;
      }
      ok := true;
    }

    /** Runs all commands, ignoring what they answer. */
    method RunRegardless(cmds: seq<Command>)
      modifies host
      ensures host.View() == RunAll(old(host.View()), cmds, host.faults)
    {
      ghost var start := host.View();
      var i := 0;
      assert cmds[0..] == cmds;
      while i < |cmds|
        invariant i <= |cmds|
        invariant RunAll(start, cmds, host.faults) == RunAll(host.View(), cmds[i..], host.faults)
      {
        assert cmds[i..][1..] == cmds[i + 1..];
        var _ := host.ExecuteCommand(cmds[i]);
        i := i + 1;
      }
    }

    method RollbackTx()
      modifies this, host
      ensures View() == DoRollback(old(View()), host.faults)
    {
      RunRegardless(cleanup);
      cleanup, active, ipv6Blocked, phase := [], false, false, RolledBack;
    }

    method ApplyTx() returns (ok: bool)
      modifies this, host
      ensures (View(), ok) == DoApply(old(View()), host.faults)
    {
      if !phase.Prepared? { return false; }
      cleanup := Cleanup(V4, CHAIN);
      ok := RunWhileOk(Rules(params));
      if !ok {
        RollbackTx();
        return false;
      }
      var available := host.ListV6();
      if available {
        cleanup := cleanup + Cleanup(V6, CHAIN6);
        RunRegardless(Rules6());
        ipv6Blocked := true;
      }
      phase := Applied;
    }

    method VerifyTx() returns (ok: bool)
      modifies this, host
      ensures (View(), ok) == DoVerify(old(View()), host.faults)
    {
      if !phase.Applied? { return false; }
      ok := host.ExecuteCommand(Command(V4, Check(CHAIN)));
      if !ok {
        RollbackTx();
        return;
      }
      phase := Verified;
    }

    method CommitTx() returns (ok: bool)
      modifies this`active, this`phase
      ensures View().host == old(View().host) && (View().sw, ok) == DoCommit(old(View().sw))
    {
      if !phase.Verified? { return false; }
      active, phase, ok := true, Committed, true;
    }

    method DisableSwitch()
      modifies this, host
      ensures View() == DoDisable(old(View()), host.faults)
    {
      if !active { return; }
      RunRegardless(cleanup);
      ipv6Blocked, cleanup, active := false, [], false;
    }

    /** enable, on a machine where the tables were `was4` and `was6` before any of this. */
    method EnableSwitch(p: Params, ghost was4: Firewall, ghost was6: Firewall) returns (ok: bool)
      modifies this, host
      ensures (View(), ok) == DoEnable(old(View()), p, validIp, host.faults)
      ensures Inv(old(View()), was4, was6) ==>
                Inv(View(), was4, was6) && if ok then Isolated(View(), was4, was6) else Restored(View(), was4, was6)
    {
      ghost var start := View();
      if Inv(start, was4, was6) { EnableIsTransaction(start, was4, was6, p, validIp, host.faults); }
      hide Inv, DoApply, DoVerify, DoPrepare, DoDisable, Isolated, Restored;
      DisableIfActive();
      params := AtLeastOnePort(p);
      ok := PrepareTx();
      if !ok { return; }
      ok := ApplyTx();
      if !ok { return; }
      ok := VerifyTx();
      if !ok { return; }
      ok := CommitTx();
    }

    method DisableIfActive()
      modifies this, host
      ensures View() == DoDisable(old(View()), host.faults)
    {
      if active { DisableSwitch(); }
    }
  }
}
