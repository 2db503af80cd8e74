/**
 Resumption tokens (session_resumption.h): issue and verify, and what any interleaving of verify
 calls can accept. HKDF, the ChaCha20 block, the clock and the nonces are parameters.
 */
module Resumption {
  import opened Bytes
  import opened Wrappers
  import Aead

  const TOKEN_LIFE := 180000
  const PRUNE_EVERY := 10000
  const PRUNE_SIZE := 10000

  datatype Token = Token(nonce: seq<Byte>, ciphertext: seq<Byte>, tag: seq<Byte>, keyId: seq<Byte>, reserved: seq<Byte>)

  /** What a token says once opened. */
  datatype Claim = Claim(sessionId: nat, ip: nat, expiry: nat)

  /** derive_resumption_key: HKDF of a master key, salted with the boot secret. */
  type Derive = seq<Byte> -> seq<Byte>

  // ---------------------------------------------------------------------------------------------
  // Tokens
  // ---------------------------------------------------------------------------------------------

  function Plaintext(c: Claim): (p: seq<Byte>)
    ensures |p| == 32
  {
    ToLE(c.sessionId, 8) + ToLE(c.ip, 4) + ToLE(c.expiry, 8) + [0, 0, 0, 0, 0, 0, 0, 0, 0, 0, 0, 0]
  }

  function ReadClaim(p: seq<Byte>): Claim
    requires |p| == 32
  {
    Claim(FromLE(p[..8]), FromLE(p[8..12]), FromLE(p[12..20]))
  }

  predicate Fits(c: Claim) {
    c.sessionId < 0x1_0000_0000_0000_0000 && c.ip < 0x1_0000_0000 && c.expiry < 0x1_0000_0000_0000_0000
  }

  lemma ReadBack(c: Claim)
    requires Fits(c)
    ensures ReadClaim(Plaintext(c)) == c
  {
    assert Pow256(8) == 0x1_0000_0000_0000_0000 && Pow256(4) == 0x1_0000_0000;
    PlaintextFields(c);
    hide *;
    FieldRoundTrip(c.sessionId, 8);
    FieldRoundTrip(c.ip, 4);
    FieldRoundTrip(c.expiry, 8);
  }

  lemma PlaintextFields(c: Claim)
    ensures var p := Plaintext(c);
            && p[..8] == ToLE(c.sessionId, 8) && p[8..12] == ToLE(c.ip, 4) && p[12..20] == ToLE(c.expiry, 8)
            && ReadClaim(p) == Claim(FromLE(ToLE(c.sessionId, 8)), FromLE(ToLE(c.ip, 4)), FromLE(ToLE(c.expiry, 8)))
            && (Fits(c) ==> c.sessionId < Pow256(8) && c.ip < Pow256(4) && c.expiry < Pow256(8))
  {
    var p := Plaintext(c);
    assert p[..8] == ToLE(c.sessionId, 8) && p[8..12] == ToLE(c.ip, 4) && p[12..20] == ToLE(c.expiry, 8) by {
      hide ToLE;
    }
    assert Pow256(8) == 0x1_0000_0000_0000_0000 && Pow256(4) == 0x1_0000_0000;
  }

  lemma FieldRoundTrip(n: nat, len: nat)
    requires n < Pow256(len)
    ensures FromLE(ToLE(n, len)) == n
  {
    FromToLE(n, len);
  }

  function Aad(nonce: seq<Byte>, keyId: seq<Byte>, reserved: seq<Byte>): seq<Byte> {
    nonce + keyId + reserved
  }

  /** issue: the claim sealed under the derived key; the AEAD nonce is the first 12 bytes of the token's. */
  function Issue(block: Aead.BlockFunction, derive: Derive, master: seq<Byte>, nonce: seq<Byte>, keyId: seq<Byte>,
                 claim: Claim): Token
    requires |nonce| == 32
  {
    var reserved := [0, 0, 0, 0, 0, 0, 0, 0];
    var sealed := Aead.Seal(block, derive(master), nonce[..12], Plaintext(claim), Aad(nonce, keyId, reserved));
    Token(nonce, sealed[..32], sealed[32..], keyId, reserved)
  }

  /** The decryption half of verify. */
  function OpenToken(block: Aead.BlockFunction, derive: Derive, tok: Token, master: seq<Byte>): Option<Claim> {
    if |tok.nonce| != 32 then None
    else
      var r := Aead.Open(block, derive(master), tok.nonce[..12], tok.ciphertext + tok.tag,
                         Aad(tok.nonce, tok.keyId, tok.reserved));
      if r.Plain? && |r.text| == 32 then Some(ReadClaim(r.text)) else None
  }

  /** An issued token opens to exactly what it was issued for. */
  lemma OpenIssued(block: Aead.BlockFunction, derive: Derive, master: seq<Byte>, nonce: seq<Byte>, keyId: seq<Byte>,
                   claim: Claim)
    requires |nonce| == 32 && Fits(claim)
    ensures OpenToken(block, derive, Issue(block, derive, master, nonce, keyId, claim), master) == Some(claim)
  {
    var reserved: seq<Byte> := [0, 0, 0, 0, 0, 0, 0, 0];
    var aad := Aad(nonce, keyId, reserved);
    var sealed := Aead.Seal(block, derive(master), nonce[..12], Plaintext(claim), aad);
    Aead.OpenSeal(block, derive(master), nonce[..12], Plaintext(claim), aad);
    ReadBack(claim);
    hide Aead.Seal, Aead.Open, Plaintext, ReadClaim;
    assert sealed[..32] + sealed[32..] == sealed;
  }

  /** The sealing of `text` that this token would be, with all its other fields authenticated. */
  predicate Seals(block: Aead.BlockFunction, derive: Derive, tok: Token, master: seq<Byte>, text: seq<Byte>)
    requires |tok.nonce| == 32
  {
    tok.ciphertext + tok.tag ==
    Aead.Seal(block, derive(master), tok.nonce[..12], text, tok.nonce + tok.keyId + tok.reserved)
  }

  /** Exactly the sealings of 32 bytes open, under the master key they were sealed with, to the claim in those bytes. */
  lemma OpensExactly(block: Aead.BlockFunction, derive: Derive, tok: Token, master: seq<Byte>)
    requires |tok.nonce| == 32
    ensures OpenToken(block, derive, tok, master).Some? <==>
            exists text: seq<Byte> :: |text| == 32 && Seals(block, derive, tok, master, text)
    ensures forall text: seq<Byte> :: |text| == 32 && Seals(block, derive, tok, master, text) ==>
              OpenToken(block, derive, tok, master) ==
              Some(Claim(FromLE(text[..8]), FromLE(text[8..12]), FromLE(text[12..20])))
  {
    var c, aad := tok.ciphertext + tok.tag, Aad(tok.nonce, tok.keyId, tok.reserved);
    var r := Aead.Open(block, derive(master), tok.nonce[..12], c, aad);
    hide Aead.Open, Aead.Seal;
    if r.Plain? {
      Aead.SealOpen(block, derive(master), tok.nonce[..12], c, aad);
      assert Seals(block, derive, tok, master, r.text);
    }
    forall text: seq<Byte> | |text| == 32 && Seals(block, derive, tok, master, text)
      ensures r == Aead.Plain(text)
    {
      Aead.OpenSeal(block, derive(master), tok.nonce[..12], text, aad);
    }
  }

  /** An issued token seals session, address and expiry, each least significant byte first, and nothing else. */
  lemma IssueLayout(block: Aead.BlockFunction, derive: Derive, master: seq<Byte>, nonce: seq<Byte>, keyId: seq<Byte>,
                    claim: Claim)
    requires |nonce| == 32
    ensures var tok := Issue(block, derive, master, nonce, keyId, claim);
            && tok.nonce == nonce && tok.keyId == keyId && tok.reserved == [0, 0, 0, 0, 0, 0, 0, 0]
            && |tok.ciphertext| == 32 && |tok.tag| == 16
            && Seals(block, derive, tok, master,
                     ToLE(claim.sessionId, 8) + ToLE(claim.ip, 4) + ToLE(claim.expiry, 8) +
                     [0, 0, 0, 0, 0, 0, 0, 0, 0, 0, 0, 0])
  {
    hide Aead.Seal, ToLE;
    var sealed := Aead.Seal(block, derive(master), nonce[..12], Plaintext(claim),
                            Aad(nonce, keyId, [0, 0, 0, 0, 0, 0, 0, 0]));
    assert sealed[..32] + sealed[32..] == sealed;
  }

  // ---------------------------------------------------------------------------------------------
  // The used-nonce table
  // ---------------------------------------------------------------------------------------------

  /** Nonces already accepted, with the expiry of the token they came with. */
  datatype Table = Table(used: map<seq<Byte>, nat>, lastPrune: nat)

  /** prune_expired_locked, with unsigned 64-bit subtraction. */
  predicate PruneDue(t: Table, now: nat) {
    (now - t.lastPrune) % 0x1_0000_0000_0000_0000 >= PRUNE_EVERY || |t.used| >= PRUNE_SIZE
  }

  function Unexpired(used: map<seq<Byte>, nat>, now: nat): map<seq<Byte>, nat> {
    map n | n in used && now <= used[n] :: used[n]
  }

  function Pruned(t: Table, now: nat): Table {
    if PruneDue(t, now) then Table(Unexpired(t.used, now), now) else t
  }

  /** verify, run alone at time `now`. */
  function Verified(t: Table, says: Option<Claim>, nonce: seq<Byte>, now: nat): (Table, Option<Claim>) {
    var t' := Pruned(t, now);
    if nonce in t'.used || says.None? || now > says.value.expiry then (t', None)
    else (t'.(used := t'.used[nonce := says.value.expiry]), says)
  }

  /**
   Pruning happens when 10 s have passed since the last time or 10000 nonces are held, and forgets exactly the
   nonces whose expiry is past.
   */
  lemma PrunedExactly(t: Table, now: nat, nonce: seq<Byte>)
    requires t.lastPrune <= now < 0x1_0000_0000_0000_0000
    ensures var due := now >= t.lastPrune + 10000 || |t.used| >= 10000;
            var r := Pruned(t, now);
            && (nonce in r.used <==> nonce in t.used && (due ==> now <= t.used[nonce]))
            && (nonce in r.used ==> r.used[nonce] == t.used[nonce])
            && r.lastPrune == if due then now else t.lastPrune
  {
    assert (now - t.lastPrune) % 0x1_0000_0000_0000_0000 == now - t.lastPrune;
  }

  /**
   A verification run alone returns the claim exactly when the token opens, is not expired, and its nonce has not
   been used by one that is not expired or not yet pruned. Only then is the table changed beyond pruning, and
   only by this nonce.
   */
  lemma VerifiedExactly(t: Table, says: Option<Claim>, nonce: seq<Byte>, now: nat)
    requires t.lastPrune <= now < 0x1_0000_0000_0000_0000
    ensures var (t', r) := Verified(t, says, nonce, now);
            var due := now >= t.lastPrune + 10000 || |t.used| >= 10000;
            && (r.Some? <==> says.Some? && now <= says.value.expiry &&
                             (nonce in t.used ==> due && t.used[nonce] < now))
            && (r.Some? ==> r == says && t'.used == Pruned(t, now).used[nonce := says.value.expiry])
            && (r.None? ==> t' == Pruned(t, now))
  {
    PrunedExactly(t, now, nonce);
    hide Pruned;
  }

  /** The first verification within the token's life returns the issued session and address; the second refuses. */
  lemma FirstVerifyReturnsClaim(block: Aead.BlockFunction, derive: Derive, master: seq<Byte>, nonce: seq<Byte>,
                                keyId: seq<Byte>, sessionId: nat, ip: nat, issued: nat, t: Table, now: nat, later: nat)
    requires |nonce| == 32 && sessionId < 0x1_0000_0000_0000_0000 && ip < 0x1_0000_0000
    requires issued + TOKEN_LIFE < 0x1_0000_0000_0000_0000
    requires nonce !in t.used && now <= later
    ensures var tok := Issue(block, derive, master, nonce, keyId, Claim(sessionId, ip, issued + TOKEN_LIFE));
            var says := OpenToken(block, derive, tok, master);
            var first := Verified(t, says, tok.nonce, now);
            && (now <= issued + TOKEN_LIFE ==> first.1 == Some(Claim(sessionId, ip, issued + TOKEN_LIFE)))
            && (now > issued + TOKEN_LIFE ==> first.1 == None)
            && Verified(first.0, says, tok.nonce, later).1 == None
  {
    OpenIssued(block, derive, master, nonce, keyId, Claim(sessionId, ip, issued + TOKEN_LIFE));
    hide OpenToken, Aead.Seal;
  }

  // ---------------------------------------------------------------------------------------------
  // Interleaved calls
  // ---------------------------------------------------------------------------------------------

  type CallId = nat

  /** How far a call has come: clock read, pre-check passed, token opened and unexpired. */
  datatype Stage = Started | Checked | Unsealed

  datatype Call = Call(nonce: seq<Byte>, says: Option<Claim>, now: nat, stage: Stage)

  datatype Grant = Grant(nonce: seq<Byte>, claim: Claim)

  datatype State = State(clock: nat, table: Table, calls: map<CallId, Call>, grants: seq<Grant>)

  /** `says` is what OpenToken makes of the token under the session's master key. */
  datatype Event =
    | Tick(to: nat)
    | Begin(id: CallId, nonce: seq<Byte>, says: Option<Claim>)
    | PreCheck(id: CallId)
    | Unseal(id: CallId)
    | Insert(id: CallId)

  predicate Enabled(s: State, e: Event) {
    match e
    case Tick(to) => s.clock <= to
    case Begin(id, _, _) => id !in s.calls
    case PreCheck(id) => id in s.calls && s.calls[id].stage.Started?
    case Unseal(id) => id in s.calls && s.calls[id].stage.Checked?
    case Insert(id) => id in s.calls && s.calls[id].stage.Unsealed?
  }

  function Step(s: State, e: Event): State
    requires Enabled(s, e)
  {
    match e
    case Tick(to) => s.(clock := to)
    case Begin(id, nonce, says) => s.(calls := s.calls[id := Call(nonce, says, s.clock, Started)])
    case PreCheck(id) =>
      var c := s.calls[id];
      var t := Pruned(s.table, c.now);
      if c.nonce in t.used then s.(table := t, calls := s.calls - {id})
      else s.(table := t, calls := s.calls[id := c.(stage := Checked)])
    case Unseal(id) =>
      var c := s.calls[id];
      if c.says.None? || c.now > c.says.value.expiry then s.(calls := s.calls - {id})
      else s.(calls := s.calls[id := c.(stage := Unsealed)])
    case Insert(id) =>
      var c := s.calls[id];
      if c.nonce in s.table.used || c.says.None? then s.(calls := s.calls - {id})
      else s.(table := s.table.(used := s.table.used[c.nonce := c.says.value.expiry]), calls := s.calls - {id},
              grants := s.grants + [Grant(c.nonce, c.says.value)])
  }

  /** A call that may still be granted for this nonce and expiry. */
  predicate Hopeful(c: Call, nonce: seq<Byte>, expiry: nat) {
    c.nonce == nonce && c.says.Some? && c.says.value.expiry == expiry && c.now <= expiry
  }

  /** The clock does not pass the expiry while a call on such a token is in flight. */
  predicate Prompt(s: State, e: Event, nonce: seq<Byte>, expiry: nat) {
    e.Tick? && expiry < e.to ==> forall id :: id in s.calls ==> !Hopeful(s.calls[id], nonce, expiry)
  }

  function Grants(gs: seq<Grant>, nonce: seq<Byte>, expiry: nat): nat {
    if gs == [] then 0
    else Grants(gs[..|gs| - 1], nonce, expiry) +
         if gs[|gs| - 1].nonce == nonce && gs[|gs| - 1].claim.expiry == expiry then 1 else 0
  }

  /** Calls read the clock at or before now; an opened token was unexpired at the call's reading. */
  predicate CallsDated(s: State) {
    forall id :: id in s.calls ==>
      s.calls[id].now <= s.clock &&
      (s.calls[id].stage.Unsealed? ==> s.calls[id].says.Some? && s.calls[id].now <= s.calls[id].says.value.expiry)
  }

  predicate NoHopeLeft(s: State, nonce: seq<Byte>, expiry: nat) {
    s.clock > expiry ==> forall id :: id in s.calls ==> !Hopeful(s.calls[id], nonce, expiry)
  }

  /** Granted at most once; afterwards the nonce stays in the table, or the expiry is past. */
  predicate GrantedOnce(s: State, nonce: seq<Byte>, expiry: nat) {
    && Grants(s.grants, nonce, expiry) <= 1
    && (Grants(s.grants, nonce, expiry) == 1 && s.clock <= expiry ==>
          nonce in s.table.used && s.table.used[nonce] == expiry)
  }

  predicate Inv(s: State, nonce: seq<Byte>, expiry: nat) {
    CallsDated(s) && NoHopeLeft(s, nonce, expiry) && GrantedOnce(s, nonce, expiry)
  }

  lemma CallsStayDated(s: State, e: Event)
    requires CallsDated(s) && Enabled(s, e)
    ensures CallsDated(Step(s, e))
  {
    hide Pruned;
  }

  lemma HopeStaysLost(s: State, e: Event, nonce: seq<Byte>, expiry: nat)
    requires CallsDated(s) && NoHopeLeft(s, nonce, expiry) && Enabled(s, e) && Prompt(s, e, nonce, expiry)
    ensures NoHopeLeft(Step(s, e), nonce, expiry)
  {
    hide Pruned;
  }

  lemma StaysGrantedOnce(s: State, e: Event, nonce: seq<Byte>, expiry: nat)
    requires Inv(s, nonce, expiry) && Enabled(s, e)
    ensures GrantedOnce(Step(s, e), nonce, expiry)
  {
    if e.Insert? {
      var c := s.calls[e.id];
      if c.nonce !in s.table.used {
        var g := Grant(c.nonce, c.says.value);
        assert (s.grants + [g])[..|s.grants|] == s.grants;
        assert c.nonce == nonce && c.says.value.expiry == expiry ==> Hopeful(c, nonce, expiry);
      }
      hide CallsDated;
    } else {
      assert e.PreCheck? ==> s.calls[e.id].now <= s.clock;
      hide CallsDated, NoHopeLeft, Grants;
    }
  }

  lemma StepKeepsInv(s: State, e: Event, nonce: seq<Byte>, expiry: nat)
    requires Inv(s, nonce, expiry) && Enabled(s, e) && Prompt(s, e, nonce, expiry)
    ensures Inv(Step(s, e), nonce, expiry)
  {
    hide CallsDated, NoHopeLeft, GrantedOnce, Step, Enabled, Prompt;
    CallsStayDated(s, e);
    HopeStaysLost(s, e, nonce, expiry);
    StaysGrantedOnce(s, e, nonce, expiry);
  }

  predicate CanRun(s: State, es: seq<Event>)
    decreases |es|
  {
    es == [] || (Enabled(s, es[0]) && CanRun(Step(s, es[0]), es[1..]))
  }

  predicate RunPrompt(s: State, es: seq<Event>, nonce: seq<Byte>, expiry: nat)
    requires CanRun(s, es)
    decreases |es|
  {
    es == [] || (Prompt(s, es[0], nonce, expiry) && RunPrompt(Step(s, es[0]), es[1..], nonce, expiry))
  }

  function Run(s: State, es: seq<Event>): State
    requires CanRun(s, es)
    decreases |es|
  {
    if es == [] then s else Run(Step(s, es[0]), es[1..])
  }

  lemma {:induction false} RunKeepsInv(s: State, es: seq<Event>, nonce: seq<Byte>, expiry: nat)
    requires Inv(s, nonce, expiry) && CanRun(s, es) && RunPrompt(s, es, nonce, expiry)
    ensures Inv(Run(s, es), nonce, expiry)
    decreases |es|
  {
    if es != [] {
      StepKeepsInv(s, es[0], nonce, expiry);
      hide Inv, Step, Enabled;
      RunKeepsInv(Step(s, es[0]), es[1..], nonce, expiry);
    }
  }

  const Empty := State(0, Table(map[], 0), map[], [])

  /**
   A token is accepted at most once in any interleaving of any number of verify calls, provided the
   clock does not pass its expiry while a call on it is in flight.
   */
  lemma AcceptedAtMostOnce(es: seq<Event>, nonce: seq<Byte>, expiry: nat)
    requires CanRun(Empty, es) && RunPrompt(Empty, es, nonce, expiry)
    ensures Grants(Run(Empty, es).grants, nonce, expiry) <= 1
  {
    RunKeepsInv(Empty, es, nonce, expiry);
  }

  // ---------------------------------------------------------------------------------------------
  // The exact condition
  // ---------------------------------------------------------------------------------------------

  /** A due prune by a call whose clock reading is past the expiry, while the nonce is in the table. */
  predicate Forgets(s: State, e: Event, nonce: seq<Byte>, expiry: nat)
    requires Enabled(s, e)
  {
    e.PreCheck? && nonce in s.table.used && s.calls[e.id].now > expiry && PruneDue(s.table, s.calls[e.id].now)
  }

  /** The insertion of a call on such a token that read the clock at or before the expiry. */
  predicate Arrives(s: State, e: Event, nonce: seq<Byte>, expiry: nat)
    requires Enabled(s, e)
  {
    e.Insert? && Hopeful(s.calls[e.id], nonce, expiry)
  }

  predicate ArrivesLater(s: State, es: seq<Event>, nonce: seq<Byte>, expiry: nat)
    requires CanRun(s, es)
    decreases |es|
  {
    es != [] && (Arrives(s, es[0], nonce, expiry) || ArrivesLater(Step(s, es[0]), es[1..], nonce, expiry))
  }

  /** Somewhere in the run a prune forgets the nonce, and later a call on it arrives at its insertion. */
  predicate ForgottenThenArrives(s: State, es: seq<Event>, nonce: seq<Byte>, expiry: nat)
    requires CanRun(s, es)
    decreases |es|
  {
    es != [] &&
    ((Forgets(s, es[0], nonce, expiry) && ArrivesLater(Step(s, es[0]), es[1..], nonce, expiry)) ||
     ForgottenThenArrives(Step(s, es[0]), es[1..], nonce, expiry))
  }

  /** Every token of the run that carries the nonce, if it opens at all, has this expiry. */
  predicate OneExpiry(es: seq<Event>, nonce: seq<Byte>, expiry: nat) {
    forall i :: 0 <= i < |es| && es[i].Begin? && es[i].nonce == nonce && es[i].says.Some? ==>
      es[i].says.value.expiry == expiry
  }

  predicate CallsAgree(s: State, nonce: seq<Byte>, expiry: nat) {
    forall id :: id in s.calls && s.calls[id].nonce == nonce && s.calls[id].says.Some? ==>
      s.calls[id].says.value.expiry == expiry
  }

  /** The table holds the nonce only after a grant, and with the expiry. */
  predicate TableAgrees(s: State, nonce: seq<Byte>, expiry: nat) {
    nonce in s.table.used ==> s.table.used[nonce] == expiry && Grants(s.grants, nonce, expiry) > 0
  }

  predicate Agrees(s: State, nonce: seq<Byte>, expiry: nat) {
    CallsDated(s) && CallsAgree(s, nonce, expiry) && TableAgrees(s, nonce, expiry)
  }

  lemma CallsKeepAgreeing(s: State, e: Event, nonce: seq<Byte>, expiry: nat)
    requires CallsAgree(s, nonce, expiry) && Enabled(s, e) && OneExpiry([e], nonce, expiry)
    ensures CallsAgree(Step(s, e), nonce, expiry)
  {
    assert [e][0] == e;
    hide Pruned;
  }

  lemma GrantMore(gs: seq<Grant>, g: Grant, nonce: seq<Byte>, expiry: nat)
    ensures Grants(gs + [g], nonce, expiry) ==
            Grants(gs, nonce, expiry) + if g.nonce == nonce && g.claim.expiry == expiry then 1 else 0
  {
    assert (gs + [g])[..|gs|] == gs;
  }

  /** What one step does to the number of grants and to the nonce's place in the table. */
  lemma StepCounts(s: State, e: Event, nonce: seq<Byte>, expiry: nat)
    requires Agrees(s, nonce, expiry) && Enabled(s, e)
    ensures var s' := Step(s, e);
            && Grants(s'.grants, nonce, expiry) ==
               Grants(s.grants, nonce, expiry) +
               (if Arrives(s, e, nonce, expiry) && nonce !in s.table.used then 1 else 0)
            && (nonce in s'.table.used <==>
                Arrives(s, e, nonce, expiry) || (nonce in s.table.used && !Forgets(s, e, nonce, expiry)))
            && TableAgrees(s', nonce, expiry)
  {
    match e {
      case Insert(id) =>
        var c := s.calls[id];
        if c.nonce !in s.table.used { GrantMore(s.grants, Grant(c.nonce, c.says.value), nonce, expiry); }
        assert c.nonce == nonce ==> Hopeful(c, nonce, expiry);
        hide Grants, CallsDated, CallsAgree;
      case PreCheck(id) =>
        hide Grants, CallsDated, CallsAgree;
      case _ =>
        hide Grants, CallsDated, CallsAgree, Pruned;
    }
  }

  lemma StepAgrees(s: State, e: Event, nonce: seq<Byte>, expiry: nat)
    requires Agrees(s, nonce, expiry) && Enabled(s, e) && OneExpiry([e], nonce, expiry)
    ensures Agrees(Step(s, e), nonce, expiry)
  {
    CallsStayDated(s, e);
    CallsKeepAgreeing(s, e, nonce, expiry);
    StepCounts(s, e, nonce, expiry);
    hide CallsDated, CallsAgree, TableAgrees, Step, Enabled;
  }

  lemma {:induction false} RelapseArrives(s: State, es: seq<Event>, nonce: seq<Byte>, expiry: nat)
    requires CanRun(s, es) && ForgottenThenArrives(s, es, nonce, expiry)
    ensures ArrivesLater(s, es, nonce, expiry)
    decreases |es|
  {
    hide Forgets, Arrives, Step, Enabled;
    if !ArrivesLater(Step(s, es[0]), es[1..], nonce, expiry) { RelapseArrives(Step(s, es[0]), es[1..], nonce, expiry); }
  }

  /** At most one grant in the end, judged from any state of the run. */
  predicate OnceFrom(s: State, es: seq<Event>, nonce: seq<Byte>, expiry: nat)
    requires CanRun(s, es)
  {
    var g := Grants(s.grants, nonce, expiry);
    g <= 1 &&
    if g == 1 && nonce !in s.table.used then !ArrivesLater(s, es, nonce, expiry)
    else !ForgottenThenArrives(s, es, nonce, expiry)
  }

  /** The judgement is the same one step on. */
  lemma OnceStep(s: State, es: seq<Event>, nonce: seq<Byte>, expiry: nat)
    requires Agrees(s, nonce, expiry) && CanRun(s, es) && es != []
    ensures OnceFrom(s, es, nonce, expiry) <==> OnceFrom(Step(s, es[0]), es[1..], nonce, expiry)
  {
    var s', rest := Step(s, es[0]), es[1..];
    StepCounts(s, es[0], nonce, expiry);
    if ForgottenThenArrives(s', rest, nonce, expiry) { RelapseArrives(s', rest, nonce, expiry); }
    hide Grants, Step, Enabled, CallsDated, CallsAgree;
  }

  lemma {:induction false} OnceFromExactly(s: State, es: seq<Event>, nonce: seq<Byte>, expiry: nat)
    requires Agrees(s, nonce, expiry) && CanRun(s, es) && OneExpiry(es, nonce, expiry)
    ensures Grants(Run(s, es).grants, nonce, expiry) <= 1 <==> OnceFrom(s, es, nonce, expiry)
    decreases |es|
  {
    if es != [] {
      assert [es[0]][0] == es[0];
      StepAgrees(s, es[0], nonce, expiry);
      OnceStep(s, es, nonce, expiry);
      hide Agrees, Step, Enabled, OnceFrom, Grants;
      OnceFromExactly(Step(s, es[0]), es[1..], nonce, expiry);
    }
  }

  /**
   The exact condition: over every interleaving in which the tokens carrying a nonce have one expiry,
   the token is accepted at most once if and only if no prune forgets its nonce before a call that
   read the clock in time arrives at its insertion.
   */
  lemma AtMostOnceExactly(es: seq<Event>, nonce: seq<Byte>, expiry: nat)
    requires CanRun(Empty, es) && OneExpiry(es, nonce, expiry)
    ensures Grants(Run(Empty, es).grants, nonce, expiry) <= 1 <==> !ForgottenThenArrives(Empty, es, nonce, expiry)
  {
    OnceFromExactly(Empty, es, nonce, expiry);
  }

  /** The clock condition is one way to meet it: once a prune can forget the nonce, no call in flight can arrive. */
  lemma {:induction false} PromptNeverArrives(s: State, es: seq<Event>, nonce: seq<Byte>, expiry: nat)
    requires CanRun(s, es) && CallsDated(s) && NoHopeLeft(s, nonce, expiry) && RunPrompt(s, es, nonce, expiry)
    ensures s.clock > expiry ==> !ArrivesLater(s, es, nonce, expiry)
    ensures !ForgottenThenArrives(s, es, nonce, expiry)
    decreases |es|
  {
    if es != [] {
      CallsStayDated(s, es[0]);
      HopeStaysLost(s, es[0], nonce, expiry);
      assert Forgets(s, es[0], nonce, expiry) ==> Step(s, es[0]).clock > expiry;
      assert Step(s, es[0]).clock >= s.clock;
      assert s.clock > expiry ==> !Arrives(s, es[0], nonce, expiry);
      hide Step, Enabled, CallsDated, NoHopeLeft, Forgets, Arrives, Prompt;
      PromptNeverArrives(Step(s, es[0]), es[1..], nonce, expiry);
    }
  }

  /** The clock condition is not necessary: the clock may pass the expiry under a single call and nothing happens. */
  lemma PromptIsNotNeeded(nonce: seq<Byte>, claim: Claim)
    ensures var es := [Begin(1, nonce, Some(claim)), Tick(claim.expiry + 1)];
            && CanRun(Empty, es) && !RunPrompt(Empty, es, nonce, claim.expiry)
            && !ForgottenThenArrives(Empty, es, nonce, claim.expiry)
  {
    var es := [Begin(1, nonce, Some(claim)), Tick(claim.expiry + 1)];
    var s1 := Step(Empty, es[0]);
    assert es[1..] == [es[1]] && es[1..][1..] == [];
    assert Hopeful(s1.calls[1], nonce, claim.expiry) && Enabled(s1, es[1]);
    assert !RunPrompt(s1, [es[1]], nonce, claim.expiry);
    assert !ForgottenThenArrives(Step(s1, es[1]), [], nonce, claim.expiry);
    assert !ForgottenThenArrives(s1, [es[1]], nonce, claim.expiry);
  }

  /** Two calls on one token reach the insertion. */
  function BothArrive(nonce: seq<Byte>, claim: Claim): seq<Event> {
    [Begin(1, nonce, Some(claim)), Begin(2, nonce, Some(claim)), PreCheck(1), PreCheck(2), Unseal(1), Unseal(2)]
  }

  /** The first inserts, the clock passes the expiry, a third call prunes the nonce, and the second inserts as well. */
  function BothInsert(other: seq<Byte>, claim: Claim): seq<Event> {
    [Insert(1), Tick(claim.expiry + PRUNE_EVERY), Begin(3, other, None), PreCheck(3), Insert(2)]
  }

  lemma Unroll(s: State, e: Event, es: seq<Event>)
    requires Enabled(s, e) && CanRun(Step(s, e), es)
    ensures CanRun(s, [e] + es) && Run(s, [e] + es) == Run(Step(s, e), es)
  {
    assert ([e] + es)[1..] == es;
  }

  lemma {:induction false} RunAppend(s: State, es: seq<Event>, fs: seq<Event>)
    requires CanRun(s, es) && CanRun(Run(s, es), fs)
    ensures CanRun(s, es + fs) && Run(s, es + fs) == Run(Run(s, es), fs)
    decreases |es|
  {
    if es == [] {
      assert es + fs == fs;
    } else {
      RunAppend(Step(s, es[0]), es[1..], fs);
      assert es + fs == [es[0]] + (es[1..] + fs);
      Unroll(s, es[0], es[1..] + fs);
    }
  }

  function Racing(nonce: seq<Byte>, claim: Claim): State {
    var c := Call(nonce, Some(claim), 0, Unsealed);
    State(0, Table(map[], 0), map[1 := c, 2 := c], [])
  }

  lemma BothArriveRuns(nonce: seq<Byte>, claim: Claim)
    ensures CanRun(Empty, BothArrive(nonce, claim)) && Run(Empty, BothArrive(nonce, claim)) == Racing(nonce, claim)
  {
    var es := BothArrive(nonce, claim);
    var t, c := Table(map[], 0), Call(nonce, Some(claim), 0, Started);
    var d := c.(stage := Checked);
    var u := c.(stage := Unsealed);
    assert Pruned(t, 0) == t;
    var s1 := State(0, t, map[1 := c], []);
    var s2 := State(0, t, map[1 := c, 2 := c], []);
    var s3 := State(0, t, map[1 := d, 2 := c], []);
    var s4 := State(0, t, map[1 := d, 2 := d], []);
    var s5 := State(0, t, map[1 := u, 2 := d], []);
    assert Step(Empty, es[0]) == s1;
    assert Step(s1, es[1]) == s2;
    assert Step(s2, es[2]) == s3;
    assert Step(s3, es[3]) == s4;
    assert Step(s4, es[4]) == s5;
    assert Step(s5, es[5]) == Racing(nonce, claim);
    hide Step, Racing;
    Unroll(s5, es[5], []);
    Unroll(s4, es[4], [es[5]]);
    Unroll(s3, es[3], [es[4], es[5]]);
    Unroll(s2, es[2], [es[3], es[4], es[5]]);
    Unroll(s1, es[1], [es[2], es[3], es[4], es[5]]);
    Unroll(Empty, es[0], [es[1], es[2], es[3], es[4], es[5]]);
  }

  /** One call has inserted, the other still races. */
  function Inserted(nonce: seq<Byte>, claim: Claim): State {
    State(0, Table(map[nonce := claim.expiry], 0), map[2 := Call(nonce, Some(claim), 0, Unsealed)],
          [Grant(nonce, claim)])
  }

  /** A third call has read the clock past the expiry and pruned the nonce. */
  function Forgotten(nonce: seq<Byte>, other: seq<Byte>, claim: Claim): State {
    var late := claim.expiry + PRUNE_EVERY;
    State(late, Table(map[], late),
          map[2 := Call(nonce, Some(claim), 0, Unsealed), 3 := Call(other, None, late, Checked)],
          [Grant(nonce, claim)])
  }

  lemma FirstInserts(nonce: seq<Byte>, claim: Claim)
    ensures Enabled(Racing(nonce, claim), Insert(1)) && Step(Racing(nonce, claim), Insert(1)) == Inserted(nonce, claim)
  {}

  lemma ThirdPrunes(nonce: seq<Byte>, other: seq<Byte>, claim: Claim)
    requires claim.expiry + PRUNE_EVERY < 0x1_0000_0000_0000_0000
    ensures var late := claim.expiry + PRUNE_EVERY;
            var s := Inserted(nonce, claim).(clock := late);
            var t := s.(calls := s.calls[3 := Call(other, None, late, Started)]);
            && Step(Inserted(nonce, claim), Tick(late)) == s && Step(s, Begin(3, other, None)) == t
            && Step(t, PreCheck(3)) == Forgotten(nonce, other, claim)
  {
    var late := claim.expiry + PRUNE_EVERY;
    assert Pruned(Table(map[nonce := claim.expiry], 0), late) == Table(map[], late);
  }

  lemma SecondInserts(nonce: seq<Byte>, other: seq<Byte>, claim: Claim)
    ensures Enabled(Forgotten(nonce, other, claim), Insert(2))
    ensures Step(Forgotten(nonce, other, claim), Insert(2)).grants == [Grant(nonce, claim), Grant(nonce, claim)]
  {}

  lemma BothInsertRuns(nonce: seq<Byte>, other: seq<Byte>, claim: Claim)
    requires claim.expiry + PRUNE_EVERY < 0x1_0000_0000_0000_0000 && nonce != other
    ensures var es := BothInsert(other, claim);
            && CanRun(Racing(nonce, claim), es)
            && Run(Racing(nonce, claim), es).grants == [Grant(nonce, claim), Grant(nonce, claim)]
  {
    var es, late := BothInsert(other, claim), claim.expiry + PRUNE_EVERY;
    var s1 := Inserted(nonce, claim);
    var s2 := s1.(clock := late);
    var s3 := s2.(calls := s2.calls[3 := Call(other, None, late, Started)]);
    FirstInserts(nonce, claim);
    ThirdPrunes(nonce, other, claim);
    SecondInserts(nonce, other, claim);
    hide Step, Racing, Forgotten;
    Unroll(Forgotten(nonce, other, claim), es[4], []);
    Unroll(s3, es[3], [es[4]]);
    Unroll(s2, es[2], [es[3], es[4]]);
    Unroll(s1, es[1], [es[2], es[3], es[4]]);
    Unroll(Racing(nonce, claim), es[0], [es[1], es[2], es[3], es[4]]);
  }

  /** That run accepts the token twice: it is safe only under a condition. */
  lemma AcceptedTwiceWhenSlow(nonce: seq<Byte>, other: seq<Byte>, claim: Claim)
    requires claim.expiry + PRUNE_EVERY < 0x1_0000_0000_0000_0000 && nonce != other
    ensures var es := BothArrive(nonce, claim) + BothInsert(other, claim);
            CanRun(Empty, es) && Grants(Run(Empty, es).grants, nonce, claim.expiry) == 2
  {
    BothArriveRuns(nonce, claim);
    BothInsertRuns(nonce, other, claim);
    RunAppend(Empty, BothArrive(nonce, claim), BothInsert(other, claim));
    TwoGrants(Grant(nonce, claim));
  }

  lemma TwoGrants(g: Grant)
    ensures Grants([g, g], g.nonce, g.claim.expiry) == 2
  {
    assert [g][..0] == [];
    assert Grants([g], g.nonce, g.claim.expiry) == 1;
    assert [g, g][..1] == [g];
  }

  // ---------------------------------------------------------------------------------------------
  // The manager object
  // ---------------------------------------------------------------------------------------------

  class ResumptionManager {
    const block: Aead.BlockFunction
    const derive: Derive
    var used: map<seq<Byte>, nat>
    var lastPrune: nat

    ghost function View(): Table
      reads this
    {
      Table(used, lastPrune)
    }

    constructor (block: Aead.BlockFunction, derive: Derive)
      ensures View() == Table(map[], 0) && this.block == block && this.derive == derive
    {
      this.block, this.derive, used, lastPrune := block, derive, map[], 0;
    }

    /** prune_expired_locked: one pass over the table. */
    method Prune(now: nat)
      modifies this
      ensures View() == Pruned(old(View()), now)
    {
      if (now - lastPrune) % 0x1_0000_0000_0000_0000 < PRUNE_EVERY && |used| < PRUNE_SIZE { return; }
      lastPrune := now;
      var todo := used.Keys;
      while todo != {}
        invariant lastPrune == now && todo <= old(used).Keys
        invariant used == map n | n in old(used) && (n in todo || now <= old(used)[n]) :: old(used)[n]
        decreases |todo|
      {
        var n :| n in todo;
        todo := todo - {n};
        if now > used[n] {
          used := used - {n};
        }
      }
    }

    /** issue, with the time and the 32 random bytes given. */
    method IssueToken(sessionId: nat, ip: nat, master: seq<Byte>, keyId: seq<Byte>, now: nat, random: seq<Byte>)
      returns (tok: Token)
      requires |random| == 32
      ensures tok == Issue(block, derive, master, random, keyId, Claim(sessionId, ip, now + TOKEN_LIFE))
    {
      var reserved: seq<Byte> := [0, 0, 0, 0, 0, 0, 0, 0];
      var plain := ToLE(sessionId, 8) + ToLE(ip, 4) + ToLE(now + TOKEN_LIFE, 8) + [0, 0, 0, 0, 0, 0, 0, 0, 0, 0, 0, 0];
      var sealed := Aead.Seal(block, derive(master), random[..12], plain, random + keyId + reserved);
      tok := Token(random, sealed[..32], sealed[32..], keyId, reserved);
    }

    /** verify, run alone. */
    method Verify(tok: Token, master: seq<Byte>, now: nat) returns (r: Option<Claim>)
      requires |tok.nonce| == 32 && |tok.ciphertext| == 32 && |tok.tag| == 16
      modifies this
      ensures (View(), r) == Verified(old(View()), OpenToken(block, derive, tok, master), tok.nonce, now)
    {
      Prune(now);
      if tok.nonce in used { return None; }
      var says := Aead.Open(block, derive(master), tok.nonce[..12], tok.ciphertext + tok.tag,
                              tok.nonce + tok.keyId + tok.reserved);
      if !says.Plain? || |says.text| != 32 { return None; }
      var expiry := FromLE(says.text[12..20]);
      if now > expiry { return None; }
      if tok.nonce in used { return None; }
      used := used[tok.nonce := expiry];
      r := Some(Claim(FromLE(says.text[..8]), FromLE(says.text[8..12]), expiry));
    }
  }
}
