# AEGS, verified in Dafny

A Dafny 4.11 model of the state machines and codecs of AEGS, a UDP tunnel with a C++ server, an
Android client and a Python attack suite, with proofs of what they promise. `dafny verify
dfyconfig.toml` checks the whole project.

One module models one component:

- `Poly1305`, `Aead`: the pure-Java ChaCha20-Poly1305. The ChaCha20 block is any function that
  yields 64 bytes; the MAC and the construction of RFC 8439 around it are complete, so that opening
  undoes sealing is proved, not assumed.
- `WireCodec`, `Camouflage`: the data frame, and its TLS, QUIC and Encrypted ClientHello wrappers.
- `SessionEpoch`: readers against the recycler of one session, one event per atomic step, for any
  number of threads.
- `ServerLifecycle`, `ServerHandlers`, `IpPool`, `SessionTable`: who holds which tunnel address; the
  handlers as methods; the pool; the sharded table.
- `AntiReplay`, `ShiftWindow`: the ring of words and the shift register as two implementations of a
  set of sequence numbers, and their comparison.
- `TxBatch`: the transmit batch over a socket that may answer anything.
- `HandshakeState`, `Resumption`: pre-authentication state and resumption tokens.
- `RateLimiter`, `Blackhole`: the two limiters.
- `KillSwitch`: the firewall transaction over a model of iptables in which commands may fail.
- `Bytes`, `Wrappers`: bytes, little-endian numbers, exclusive or; optional values and map sizes.

Where the source changes things in place, a class does the same and each method's contract ties the
new state to a function of the old one; the theorems are about those functions and about runs of
them. Inputs from outside are parameters: clocks, random bytes, HMAC, HKDF, whether a key could be
imported, what a socket or a command answers, and the order in which a hash table is visited.

## Results worth knowing

- Token life (180 s) plus the distance between the loop's clock reading and the system clock must
  not exceed the idle timeout (600 s). That condition is exact (`ServerLifecycle.SafeExactly`):
  beyond it a resumption can bring back an address that another session has got meanwhile. The
  resume handlers do not ask the pool; they are right only because of this relation.
- `verify` accepts a token at most once if and only if no due prune forgets its nonce before a call
  that read the clock in time arrives at its insertion (`Resumption.AtMostOnceExactly`). It suffices
  that the clock does not pass the expiry while a call on the token is in flight; that is not
  necessary. `Resumption.AcceptedTwiceWhenSlow` is a run that accepts a token twice.
- The server's data path checks, decrypts and commits a sequence number in separate steps: two
  workers can deliver one packet twice, exactly when their steps overlap
  (`AntiReplay.WorkersOnceExactly`).
- The ring filter's window is 2048 minus up to 63: it differs from the 2048-bit register of the
  attack suite on numbers 1985 to 2047 behind the maximum.
- `FastRateLimiter` can hold up to 2 * CAPACITY - 1 addresses once entries are purged, and reaches
  that at every capacity. `RateLimiter.StaysWithinExactly` and `RateLimiter.ContainedExactly` say when
  it stays within CAPACITY.
- A chain of the kill switch's name that is there already, say one left hooked by a process that died,
  makes every `enable` fail, and the rollback then dismantles it. `KillSwitch.RestoresExactly` and
  `KillSwitch.RestoresBothExactly` say from which tables a failing `enable` changes nothing.
- `remove_session` unmaps only the session's own address (`SessionTable.NothingDangles` says when
  that is enough; `ServerLifecycle` shows that it always is).
- Before packing, the Poly1305 limbs are all below 2^26 exactly when the prime was not subtracted: when
  it is, the source adds 2^26 back to the top limb, and the packing then drops it. The tag is right.
  In terms of the input: all limbs fit if and only if r is 0 or the accumulator of the MAC ends at 5 or
  more (`Poly1305.LimbsToPack`); `Poly1305.TopLimbPasses26Bits` is a key and a ciphertext where they do
  not.
- Cleaning up the blackhole responder's table changes no answer if and only if the rate is at most 60 s
  (`Blackhole.EvictionInvisibleExactly`).
- The capacity loop of `process_init` is called least-recently-used in a comment, but a stale record
  takes the newer state of its key id with it: `HandshakeState.FresherStateIsDropped` is a run that
  drops a fresher state than 1022 that stay, and `HandshakeState.EvictsOldestExactly` says when the
  dropped state is an oldest one.
- `remove_session` and the revocation handler read the session's address as a field of its own
  (`assigned_ip.load`), which `session.h` no longer has; the model reads the routing's address.
- PROTOCOL.md gives the handshake time window as 30 s; the code uses 300 s, and so does the model.
  PROTOCOL.md also says repeated timestamps are rejected; the code records but does not reject them.

## Assumptions

- Steps of `SessionEpoch` are sequentially consistent; the generation and reader counters do not wrap.
- `ServerLifecycle` runs handlers one after the other. Clocks do not run back; tokens cannot be
  forged; a revoked key is not registered again while a token issued for it is alive.
- Cleanup commands of the kill switch succeed when their target exists, and no other program changes
  the tables meanwhile; a firewall command either takes effect or changes nothing.
- Addresses given to `FastRateLimiter` are not 0. Times of the limiters are reals; those of the server
  are integer milliseconds.
- The kernel reports no more sent messages than it was given.

## Model

| member | source | states |
|---|---|---|
| Poly1305.ComputePoly1305 | android/app/src/main/java/com/aegs/titan/AegsProtocol.java:350-506 | for every key, associated data and ciphertext the 26-bit-limb computation returns the MAC of sections 2.5 and 2.8 of RFC 8439; every intermediate before packing is a value of a 64-bit `Long` type, so none leaves the signed range |
| Poly1305.KeyLimbs | android/app/src/main/java/com/aegs/titan/AegsProtocol.java:351-359 | the five masked limbs are exactly the clamped r of section 2.5: after the byte clamps the masks remove nothing |
| Poly1305.Multiply | android/app/src/main/java/com/aegs/titan/AegsProtocol.java:385-389 | the five columns are those of h times r with 2^130 folded to 5, each below 2^63 |
| Poly1305.Carry | android/app/src/main/java/com/aegs/titan/AegsProtocol.java:391-397 | one carry chain takes the prime away once for every 2^130 in the value, exactly, and leaves every limb below 2^26 except the second, which passes it by less than 128 |
| Poly1305.AbsorbBlock | android/app/src/main/java/com/aegs/titan/AegsProtocol.java:377-397 | one block turns h into (h + block) * r modulo 2^130-5, with the limb bounds the next block needs; for r = 1 the sum is exact below 2^130; the value is 0 for r = 0 and at least 5 otherwise |
| Poly1305.AbsorbPadded | android/app/src/main/java/com/aegs/titan/AegsProtocol.java:369-400 | the loop over the data absorbs it as padded 16-byte blocks, whatever its length; for r = 1 it adds them exactly below 2^130 |
| Poly1305.FullCarry | android/app/src/main/java/com/aegs/titan/AegsProtocol.java:467-474 | after the final chain every limb, the second included, is below 2^26 and the prime was taken away once for every 2^130 in the value |
| Poly1305.SubtractP | android/app/src/main/java/com/aegs/titan/AegsProtocol.java:476-488 | selecting h or h+5-2^130 leaves the canonical residue; every limb is below 2^26 afterwards if and only if nothing was subtracted, else the top limb is 2^26 and the rest the residue |
| Poly1305.Reduce | android/app/src/main/java/com/aegs/titan/AegsProtocol.java:466-488 | the final reduction leaves the canonical residue modulo 2^128, and a limb above 26 bits if and only if the accumulator lies from the prime up to 2^130 |
| Poly1305.LimbsToPack | android/app/src/main/java/com/aegs/titan/AegsProtocol.java:350-488 | what is packed carries the tag for every input, and for every input all limbs are below 2^26 if and only if r is 0 or the accumulator of section 2.5 ends at 5 or more |
| Poly1305.FitsForOne | android/app/src/main/java/com/aegs/titan/AegsProtocol.java:350-488 | for a key with r = 1 whose blocks sum to less than 2^130 the limbs fit if and only if the sum is below the prime |
| Poly1305.PrimeIsReached | android/app/src/main/java/com/aegs/titan/AegsProtocol.java:350-488 | a key with r = 1, no associated data and a 32-byte ciphertext make the blocks sum to the prime exactly |
| Poly1305.TopLimbPasses26Bits | android/app/src/main/java/com/aegs/titan/AegsProtocol.java:484-488 | for that key and ciphertext the accumulator ends at 0, so the limbs do not fit |
| Poly1305.Accumulated | android/app/src/main/java/com/aegs/titan/AegsProtocol.java:350-464 | key and block loops leave limbs whose value is the accumulator of section 2.5 modulo the prime, 0 for r = 0 and at least 5 otherwise; for r = 1 they hold the plain sum of the blocks while it is below 2^130 |
| Poly1305.Pack | android/app/src/main/java/com/aegs/titan/AegsProtocol.java:490-491 | the two packed words are the low 128 bits of the limbs' value |
| Poly1305.AddS | android/app/src/main/java/com/aegs/titan/AegsProtocol.java:493-505 | adding s with the unsigned carry test is addition modulo 2^128, written least significant byte first |
| Poly1305.BlockLimbsValue | android/app/src/main/java/com/aegs/titan/AegsProtocol.java:377-381 | the five overlapping 32-bit reads of a block are its digits in base 2^26 |
| Poly1305.ColumnsCongruent | android/app/src/main/java/com/aegs/titan/AegsProtocol.java:385-389 | the folded columns differ from the product by a multiple of 2^130-5 |
| Bytes.XorByteBits | android/app/src/main/java/com/aegs/titan/AegsProtocol.java:333-348 | the exclusive or of two bytes works bit by bit |
| Aead.ChaCha20Stream | android/app/src/main/java/com/aegs/titan/AegsProtocol.java:333-348 | the keystream loop computes the xor of the data with consecutive blocks, in 64-byte steps and a short last one |
| Aead.StreamInvolution | android/app/src/main/java/com/aegs/titan/AegsProtocol.java:333-348 | applying the stream twice gives the data back |
| Aead.StreamAt | android/app/src/main/java/com/aegs/titan/AegsProtocol.java:333-348 | byte i is xored with byte i mod 64 of the block numbered counter + i / 64 |
| Aead.Encrypt | android/app/src/main/java/com/aegs/titan/AegsProtocol.java:301-313 | the method returns the sealing of section 2.8 |
| Aead.Decrypt | android/app/src/main/java/com/aegs/titan/AegsProtocol.java:315-331 | the method answers as the opening of section 2.8, with its two failures |
| Aead.SealLayout | android/app/src/main/java/com/aegs/titan/AegsProtocol.java:301-313 | the text stands under the blocks from number 1 on, and the tag covers associated data and ciphertext under the first half of block 0 |
| Aead.OpenSeal | android/app/src/main/java/com/aegs/titan/AegsProtocol.java:301-331 | opening what was sealed under the same key, nonce and associated data gives the text back |
| Aead.SealOpen | android/app/src/main/java/com/aegs/titan/AegsProtocol.java:315-331 | whatever opens is the sealing of what it opens to, so no other ciphertext is accepted for a text |
| WireCodec.BuildDataPacket | android/app/src/main/java/com/aegs/titan/AegsProtocol.java:704-768 | the array-filling builder produces the packet of the wire format, random choices given |
| WireCodec.PacketLayout | android/app/src/main/java/com/aegs/titan/AegsProtocol.java:704-768 | every field of a packet, its length included, stands where the receivers read it, and the sealed part opens to length, packet and padding |
| WireCodec.CarriesItsNumber | server.cpp:834-839 | the eight bytes the server reads as the sequence number are the packet's number |
| WireCodec.NoncesDiffer | android/app/src/main/java/com/aegs/titan/AegsProtocol.java:753-758 | packets with different numbers have different nonces, whatever the random choices |
| WireCodec.UnmaskHeader | android/app/src/main/java/com/aegs/titan/AegsProtocol.java:803-827 | a header is found if and only if it names the key id and the version mark under the primary mask key or under a 32-byte alternative; the primary key goes first |
| WireCodec.ParseBuilt | android/app/src/main/java/com/aegs/titan/AegsProtocol.java:704-857 | a built packet parses to the original IP packet, or to chaff when marked so, for every packet, padding, junk and counter |
| WireCodec.ParseBuiltAlternative | android/app/src/main/java/com/aegs/titan/AegsProtocol.java:803-827 | a packet masked under the 32-byte alternative key parses too, unless its header also matches under the primary key |
| WireCodec.AcceptedIsSealed | android/app/src/main/java/com/aegs/titan/AegsProtocol.java:774-857 | whatever parses to a packet is that packet sealed under the data key behind a header that names the key id and version mark |
| WireCodec.ForeignIsRejected | android/app/src/main/java/com/aegs/titan/AegsProtocol.java:803-827 | a header that matches under neither mask key, or a packet shorter than 56 bytes, is refused |
| Camouflage.StripWrapTls | android/app/src/main/java/com/aegs/titan/AegsProtocol.java:915-937 | unwrapping a TLS record gives back every payload of 1 to 65535 bytes |
| Camouflage.WrapQuicInitial | protocol_mimicry.cpp:31-101 | in place: the header in front of the shifted payload, bytes past the capacity untouched; without room, for any length, or without randomness nothing changes |
| Camouflage.QuicHeaderLayout | protocol_mimicry.cpp:64-97 | header bits, the two connection ids of eight bytes, the seed and the empty token stand where RFC 9000 section 17.2 has them |
| Camouflage.VersionIsChosen | protocol_mimicry.cpp:48-62 | a requested version is used, else one of the five supported |
| Camouflage.StripWrapQuic | protocol_mimicry.h:50-83 | the receiver strips the header exactly when the requested version is one it supports |
| Camouflage.BuildClientHello | android/app/src/main/java/com/aegs/titan/AegsProtocol.java:939-1043 | the stream-by-stream builder produces the ClientHello record with the payload in the Encrypted ClientHello extension |
| Camouflage.HelloIsRead | android/app/src/main/java/com/aegs/titan/AegsProtocol.java:939-1043 | a reader of the TLS grammar (sections 4.1.2, 4.2 and 5.1 of RFC 8446) finds one ClientHello with every length right, the server name and the payload in their extensions |
| Camouflage.ParseTlsRealityPayload | android/app/src/main/java/com/aegs/titan/AegsProtocol.java:1045-1070 | the scan returns the payload of the first offset that passes its test, reads nothing at or past the length, and the result fits in it |
| Camouflage.FirstEchShort | android/app/src/main/java/com/aegs/titan/AegsProtocol.java:1047-1066 | a payload found from an offset on lies wholly behind the ten bytes of its extension head |
| Camouflage.EchRoundTrip | android/app/src/main/java/com/aegs/titan/AegsProtocol.java:939-1070 | when no earlier offset passes the test, the scan recovers the embedded payload if and only if it is non-empty, fits the 16-bit length and does not begin with AEG1 |
| Camouflage.ParseDataPacket | android/app/src/main/java/com/aegs/titan/AegsProtocol.java:774-857 | the parser is: take one wrapper off, then parse the frame |
| Camouflage.ParseTlsWrapped | android/app/src/main/java/com/aegs/titan/AegsProtocol.java:704-857 | a frame of up to 65535 bytes in a TLS record parses to the original packet |
| Camouflage.ParseQuicWrapped | android/app/src/main/java/com/aegs/titan/AegsProtocol.java:785-789 | a frame behind the QUIC header of the C++ sender parses to the original packet, whatever version it carries |
| Camouflage.ParseBare | android/app/src/main/java/com/aegs/titan/AegsProtocol.java:774-857 | a bare frame parses to the original packet when its random first bytes mimic no wrapper |
| Camouflage.ParseEchCarried | android/app/src/main/java/com/aegs/titan/AegsProtocol.java:790-796 | a frame carried in a ClientHello parses to the original packet under the conditions of the round trip |
| SessionEpoch.StepKeepsInv | session.h:139-216 | every atomic step of every thread keeps the whole invariant: the count, one recycler, old generations, quiet clearing, current and distinct handles |
| SessionEpoch.RunKeepsInv | session.h:139-298 | so does every interleaving of any number of readers and recyclers |
| SessionEpoch.Safety | session.h:139-298 | in every interleaving the reader count is live handles plus entries in flight, at most one thread is past the compare-and-swap, and while it clears no handle is live |
| SessionEpoch.AcquiredAfterClearing | session.h:261-276 | a handle becomes live only when every recycle that incremented the generation has finished clearing |
| SessionEpoch.ResetExactly | session.h:261-276 | in every interleaving, reset leaves a live handle with the generation first read if and only if the session is open at both checks and the generation is still the same at the second load |
| SessionEpoch.AcquiresExactly | session.h:139-149 | the same from any point of the way between the two loads |
| SessionEpoch.AloneGetsHandle | session.h:261-276 | an idle thread alone with an open session gets a handle of the current generation and is counted |
| SessionEpoch.AloneRecycles | session.h:195-216 | a recycle alone goes through: generation one on, one clearing more, open again |
| SessionEpoch.HandleFate | session.h:245-284 | a live handle stays as it is until released or moved, and a move carries it over unchanged |
| SessionEpoch.NeverUnderflows | session.h:139-153 | the reader count is never decremented at zero |
| SessionEpoch.NobodyInside | session.h:202-204 | a recycler that reads zero sees no live handle and no thread inside |
| SessionEpoch.QuietStep | session.h:205-215 | from the zero read to the reopening nobody holds or can get a handle |
| SessionEpoch.WaitingDrains | session.h:202-204 | while a recycler waits, the handles it waits for never grow in number |
| SessionEpoch.WorkShrinks | session.h:139-149 | from the compare-and-swap to the reopening no step of any thread makes new work for a recycler to wait for, and every step of a thread inside, or the release of a handle, uses some up |
| SessionEpoch.WorkBounds | session.h:188-215 | so in every interleaving only as many such steps happen as there was work at the start |
| SessionEpoch.WaitingIsNotStuck | session.h:202-204 | a waiting recycler passes its poll exactly at zero readers, and until then some thread inside or some holder of a handle can take such a step: once the handles are released it gets through |
| SessionEpoch.ValidHandleUnbumped | session.h:286-288 | a handle answers valid if and only if neither a recycle nor a handshake has incremented the generation since it was acquired; then no recycle is between its increment and its end |
| ServerLifecycle.AlwaysHeldOnce | server.cpp:423-901 | in every run, when token life plus clock lag is within the idle timeout, an address is leased exactly when it is routed, and then to the one session holding it; no address is lost or duplicated |
| ServerLifecycle.SafeExactly | server.cpp:180-226 | that holds over all pools and runs if and only if token life plus clock lag is at most the idle timeout |
| ServerLifecycle.ProductionHeldOnce | session_resumption.h:85 | the shipped 180 s and 600 s satisfy it for any lag up to 420 s |
| ServerLifecycle.RevivedAddressIsShared | server.cpp:519-534 | otherwise a run over a one-address pool ends with two sessions holding that address |
| ServerLifecycle.StepKeepsInv | server.cpp:423-901 | every handler keeps the invariant and the set of addresses the pool manages |
| ServerLifecycle.HandshakeKeepsInv | server.cpp:635-746 | a handshake on any slot, with or without a new address or an exhausted pool, keeps the invariant |
| ServerLifecycle.ResumeKeepsAddress | server.cpp:475-633 | a living token never brings back an address: pool, route map and every session's address stay as they are |
| ServerLifecycle.IdleMeansDeadTokens | server.cpp:208-224 | once a session is idle every token naming it has expired |
| ServerLifecycle.CollectsExactlyIdle | server.cpp:205-225 | collection empties exactly the visited idle sessions and leaves every other one alone, in any order |
| ServerLifecycle.CollectKeepsLiveEndpoints | session_table.h:151-163 | the endpoint cache keeps exactly the entries of sessions with a client that are not idle |
| ServerLifecycle.DataRefreshes | server.cpp:859-880 | authenticated data makes the sender the session's client, active now, and changes no other session |
| ServerLifecycle.UnprovenDataRefreshesNobody | server.cpp:846-857 | data that does not authenticate, or comes before the handshake, refreshes nobody |
| ServerLifecycle.EgressRefreshes | server.cpp:1008-1049 | a forwarded packet refreshes exactly the session it is forwarded to |
| ServerLifecycle.ActiveKeepsAddress | server.cpp:205-225 | through any run a session active at a time keeps its address until more than the idle timeout has passed, unless its key is revoked |
| ServerLifecycle.DataKeepsAlive | server.cpp:879 | so authenticated data keeps a session and its address for the idle timeout |
| ServerLifecycle.EgressKeepsAlive | server.cpp:1049 | and so does a forwarded packet |
| ServerLifecycle.PickSlotExactly | server.cpp:655-684 | an available slot is kept; a busy one gives way to the first other available slot of the user, if there is one |
| ServerLifecycle.HandshakeSeats | server.cpp:635-746 | a handshake seats the client: address, route, endpoint, token and forwarding all lead to its session; it takes the address held or the one free for longest, and is refused only for an unknown key or an exhausted pool |
| ServerLifecycle.ResumeSeats | server.cpp:475-633 | a living token seats the client on its session with the address that session has |
| ServerLifecycle.ResumeRefused | server.cpp:485-489 | a dead or forged token changes nothing |
| ServerLifecycle.RegisterMakesRoom | server.cpp:1160-1192 | a registered key has a session, without address or client if it is new, and no other session changes |
| ServerLifecycle.SlotsFollow | server.cpp:1294-1327 | a user's slot list is what was set last, until the user is revoked |
| ServerLifecycle.RevokeSpares | server.cpp:1294-1328 | a revocation leaves every other session and its cached endpoints alone |
| ServerLifecycle.RevokedIsGone | server.cpp:1294-1328 | after a revocation no session, route or cached endpoint refers to a revoked key, and its address is back in the free queue |
| ServerLifecycle.EgressReachesHolder | server.cpp:1008-1014 | forwarding reaches the holder of the destination, and the byte-swapped address only when nobody holds the destination |
| ServerHandlers.Server.ChooseSlot | server.cpp:655-684 | the slot loop picks the user's first free slot when the requested one is busy |
| ServerHandlers.Server.OnHandshake | server.cpp:635-746 | the handler changes the state as the handshake event does, allocating only when the slot has no address |
| ServerHandlers.Server.OnResume | server.cpp:475-633 | both resumption branches change the state as the resume event does; a refusal, of a dead, forged or already used token, changes nothing |
| ServerHandlers.Server.OnData | server.cpp:859-880 | authenticated data updates client and activity, and nothing else does |
| ServerHandlers.Server.OnCollect | server.cpp:182-226 | the endpoint sweep and the session loop amount to the collect event for any visiting order |
| ServerHandlers.Server.OnRevoke | server.cpp:1294-1327 | revoking a user removes all slots one after the other |
| ServerHandlers.Server.OnRegister | server.cpp:1144-1192 | registering a known key changes nothing, an unknown one gets a session without address or client |
| IpPool.IpPool.Create | ip_pool.cpp:15-60 | prefixes outside /16 to /30 are refused; otherwise every host address but .0, .1 and the broadcast is free, in order |
| IpPool.NetBaseExactly | ip_pool.cpp:46-48 | the network address has no host bits and the given address lies in its network |
| IpPool.HostRangeInOrder | ip_pool.cpp:50-59 | the free addresses are those from .2 to the one before the broadcast address, in order |
| IpPool.IpPool.AllocateIp | ip_pool.cpp:62-71 | hands out the address free for longest, or nothing |
| IpPool.IpPool.ReleaseIp | ip_pool.cpp:73-81 | puts a leased address at the end of the queue and ignores any other |
| IpPool.FirstFreeFirst | ip_pool.cpp:62-71 | addresses are handed out in the order of the queue |
| IpPool.ReleasedComesLast | ip_pool.cpp:73-81 | a released address comes after all that were free before it |
| IpPool.RunConserves | ip_pool.cpp:62-81 | whatever is taken and given back, addresses are neither lost nor duplicated nor both free and leased |
| IpPool.SizesAddUp | ip_pool.cpp:97-100 | free and leased addresses add up to the pool |
| AntiReplay.CommitRepresents | network_security.h:217-258 | a commit adds its number to the set the ring stands for, for every ring of more than one word |
| AntiReplay.CommitAllRepresents | network_security.h:217-258 | after any commits, slot w mod WORDS holds exactly the committed numbers of word w for each of the last WORDS words |
| AntiReplay.PeekExact | network_security.h:192-213 | a number is rejected exactly when it is 0, committed, or in a word the window has left |
| AntiReplay.AcceptedOnce | network_security.h:262-266 | check and update in one step: no number is let through twice, nor one already committed |
| AntiReplay.InterleavedOnceExactly | server.cpp:840-863 | peek, decrypt and commit as separate steps of any number of workers: no number is let through twice, nor one committed before, if and only if no delivery overlaps with another worker that holds the same number and delivers it later, and none holds a committed number to begin with that it will deliver |
| AntiReplay.WorkersOnceExactly | session.h:172-185 | from an empty filter and idle workers: every number at most once if and only if no two deliveries of one number overlap |
| AntiReplay.TwoWorkersDeliverTwice | server.cpp:840-863 | two workers that both check before either commits let one packet through twice |
| AntiReplay.FreshIsAccepted | network_security.h:192-213 | a fresh non-zero number at most (WORDS-1)*64 behind the maximum is never rejected |
| AntiReplay.RingIsCanonical | network_security.h:273-275 | the set determines the ring bit for bit |
| AntiReplay.CommitOrderIrrelevant | session.h:172-185 | two orders of commits with the same numbers, repetitions included, leave the same maximum and the same bitmap |
| AntiReplay.AntiReplayFilter.CheckPeek | network_security.h:192-213 | the read-only check answers as specified and changes nothing |
| AntiReplay.AntiReplayFilter.UpdateCommit | network_security.h:217-258 | the in-place clearing loop and bit set leave the specified ring |
| AntiReplay.AntiReplayFilter.CheckAndUpdate | network_security.h:262-266 | check, then commit only if not rejected |
| ShiftWindow.CheckExact | run_attack_tests.py:78-118 | the shift register rejects exactly 0, seen numbers and those 2048 or more behind |
| ShiftWindow.AntiReplayWindow.CheckAndUpdate | run_attack_tests.py:78-118 | the word moves and carry loop shift the 2048-bit register as one number |
| ShiftWindow.ShiftedFlat | run_attack_tests.py:90-102 | moving whole words and then carrying bits moves the flat register by their sum |
| ShiftWindow.StepTogether | run_attack_tests.py:78-118 | on one more number: what the ring accepts the register accepts, and exactly when they differ |
| ShiftWindow.RingWithinWindow | network_security.h:278 | on any common stream the maxima agree, the register accepts whatever the ring does, and they differ only 1985 to 2047 behind |
| ShiftWindow.WindowsDiffer | run_attack_tests.py:109-118 | they do differ: after 2048 the register takes 1 and the ring does not |
| AntiReplay.AntiReplayFilter.Reset | network_security.h:184-187 | resetting gives the ring of the empty set |
| TxBatch.FlushSplits | packet_scratch.h:106-186 | under every pattern of full, partial, congested and failing sends the packets dealt with are a prefix, what stays is the suffix in order, and a packet is dropped as stale only on its fifth congested attempt |
| TxBatch.PartialSend | packet_scratch.h:119-126 | when the kernel takes fewer messages than given, exactly those are gone and the rest stays untouched |
| TxBatch.FullSend | packet_scratch.h:119-122 | when it takes all, they are gone and the next descriptor's run follows |
| TxBatch.CongestedSend | packet_scratch.h:127-132 | congestion charges the head one attempt, or drops it at the fifth |
| TxBatch.FailedSend | packet_scratch.h:133-136 | any other error costs one packet |
| TxBatch.DeliveredIsTaken | packet_scratch.h:106-137 | as many packets are delivered as the kernel reports over the whole flush |
| TxBatch.OnTheWireAt | packet_scratch.h:106-137 | the wire shows payload and address of each delivered packet, in order, and nothing else |
| TxBatch.QueuedExactly | packet_scratch.h:48-73 | a new packet joins the end with no failed attempt, unless the batch is full or the packet oversized |
| TxBatch.FourChances | packet_scratch.h:127-132 | a new packet outlives four flushes of a jammed socket and goes with the fifth |
| TxBatch.FlushSpendsPatience | packet_scratch.h:111-136 | retained packets have fewer than 5 retries and the sum of 5 minus retries falls at every non-empty flush |
| TxBatch.GoneWithinFiveFlushesEach | packet_scratch.h:106-186 | n queued packets have left within 5n flushes, whatever the sockets do and whatever is queued meanwhile |
| TxBatch.MarkedAreOurs | packet_scratch.h:48-186 | the packets still waiting are always the last ones of the starting queue, in their order |
| TxBatch.PacketScratch.QueueTx | packet_scratch.h:48-73 | a full batch ignores the packet, an oversized one is counted, any other joins the end |
| TxBatch.PacketScratch.QueueTxMimicry | packet_scratch.h:75-101 | as above with the QUIC header in front, or the plain bytes when randomness fails |
| TxBatch.PacketScratch.FlushTx | packet_scratch.h:106-186 | the in-place flush leaves the queue, the datagrams read through the message headers and the count of the specification; the count is the number of messages the kernel reports |
| TxBatch.PacketScratch.SendAll | packet_scratch.h:112-136 | the sending loop groups runs of one descriptor and stops at the first partial or congested send |
| TxBatch.PacketScratch.BatchEnd | packet_scratch.h:113-117 | the inner loop finds the run of slots on one descriptor |
| TxBatch.PacketScratch.Transmit | packet_scratch.h:119 | what is sent through the headers is each slot's own bytes to its own address |
| TxBatch.PacketScratch.Compact | packet_scratch.h:156-183 | compaction leaves the old suffix in slots 0 and up, each header leading to its own slot |
| HandshakeState.BuiltInitIsJudgedByTime | handshake.cpp:120-144 | an init built with a registered key is accepted exactly when the clocks differ by at most 300 s |
| HandshakeState.AcceptedExactly | handshake.cpp:298-329 | an init passes the checks if and only if it has length and type, a registered key id, a big-endian time within 300 s and the MAC of its first 56 bytes |
| HandshakeState.ForgedIsRefused | handshake.cpp:316-329 | an init with a wrong MAC or from an unknown key passes at no time |
| HandshakeState.ForgedChangesNothing | handshake.cpp:316-329 | and leaves the server as it was |
| HandshakeState.RefusedChangesNothing | handshake.cpp:298-329 | so does every init that is not genuine |
| HandshakeState.InitLayout | handshake.cpp:120-144 | the fields of a built init stand where the server reads them |
| HandshakeState.PruneIsAgeFilter | handshake.cpp:278-291 | popping expired records removes exactly the pending states older than 30 s, stale records notwithstanding |
| HandshakeState.EvictEndsBelowCapacity | handshake.cpp:335-345 | the capacity loop ends below 1024, never by running out of records |
| HandshakeState.EvictsOne | handshake.cpp:335-345 | at capacity one state goes, that of the first queue record whose key id is pending, current or stale, and the queue is cut behind it |
| HandshakeState.EvictsOldestExactly | handshake.cpp:335-345 | the dropped state is an oldest one if and only if it is as old as the first current record; always when the record that names it is current |
| HandshakeState.FresherStateIsDropped | handshake.cpp:335-345 | a run from the empty server fills all 1024 places; the next init drops a state of time 2 while 1022 states of time 1 stay |
| HandshakeState.PruneSeenIsAgeFilter | handshake.cpp:268-275 | popping from the queue removes exactly the stamps older than 305 s |
| HandshakeState.EvictSeenDropsOldest | handshake.cpp:348-351 | the stamp eviction drops the oldest, exactly as many as needed |
| HandshakeState.AcceptPending | handshake.cpp:331-371 | after an init that passed the checks at most 1024 states are pending, none older than 30 s, and an accepted one is there |
| HandshakeState.AcceptBelowCapacity | handshake.cpp:331-371 | below capacity the outcome is exact: the young states and the new one |
| HandshakeState.AcceptStamps | handshake.cpp:331-358 | stamps match their queue one to one, never exceed 100000, and none outlives its life by a pruning interval |
| HandshakeState.AcceptStampsBelowCapacity | handshake.cpp:268-275 | below capacity the stamps are exact: pruned only when 5 s have passed, plus the new one |
| HandshakeState.NoKeyNothingPending | handshake.cpp:366-367 | without an imported client key nothing becomes pending |
| HandshakeState.RespondConsumes | handshake.cpp:378-384 | a response uses up the pending state of its key id and no other |
| HandshakeState.RemovedIsRefused | handshake.cpp:473-484 | a removed user has no pending state and no init of theirs passes; other users are unaffected |
| HandshakeState.AddedIsKnown | handshake.cpp:467-471 | an added user is known by the new key |
| HandshakeState.RunKeepsOk | handshake.cpp:298-372 | over every run with a clock that does not run back, both capacities and both queue invariants hold |
| HandshakeState.AfterEveryAcceptedInit | handshake.cpp:298-372 | from the empty server, whatever happened before, each accepted init leaves nothing pending older than 30 s and both bounds |
| HandshakeState.HandshakeServer.ProcessInit | handshake.cpp:298-372 | checks in source order, then the state change, and acceptance only if the public key was imported |
| HandshakeState.HandshakeServer.PruneTimestamps | handshake.cpp:268-275 | the loop prunes as specified, at most every 5 s |
| HandshakeState.HandshakeServer.PruneExpired | handshake.cpp:278-291 | the loop prunes as specified |
| HandshakeState.HandshakeServer.MakeRoom | handshake.cpp:335-351 | both eviction loops as specified |
| HandshakeState.HandshakeServer.TakePending | handshake.cpp:378-384 | a response consumes the pending state |
| HandshakeState.HandshakeServer.RemoveUser | handshake.cpp:473-484 | removing a user drops its key and its pending state |
| Resumption.OpenIssued | session_resumption.h:67-111 | an issued token opens to exactly the session, address and expiry it was issued for |
| Resumption.OpensExactly | session_resumption.h:128-152 | exactly the sealings of 32 bytes under the derived key open, nonce, key id and reserved bytes authenticated, and to the fields of those bytes |
| Resumption.IssueLayout | session_resumption.h:67-111 | an issued token seals session, address and expiry, least significant byte first |
| Resumption.PrunedExactly | session_resumption.h:272-282 | pruning happens after 10 s or at 10000 nonces and forgets exactly the expired ones |
| Resumption.VerifiedExactly | session_resumption.h:115-167 | a verification alone returns the claim if and only if the token opens, is not expired and its nonce is not held; only then is a nonce added |
| Resumption.FirstVerifyReturnsClaim | session_resumption.h:115-167 | the first verification within 180 s returns the issued session and address, a later first one refuses, and a second one always refuses |
| Resumption.AtMostOnceExactly | session_resumption.h:115-167 | over every interleaving in which the tokens with one nonce have one expiry, the token is accepted at most once if and only if no due prune forgets the nonce before a call that read the clock in time inserts it |
| Resumption.AcceptedAtMostOnce | session_resumption.h:115-167 | in any interleaving of verify steps a token is accepted at most once, if the clock does not pass its expiry while a call on it is in flight |
| Resumption.PromptNeverArrives | session_resumption.h:115-167 | that clock proviso is one way to meet the exact condition |
| Resumption.PromptIsNotNeeded | session_resumption.h:115-167 | it is not necessary: a run breaks it and still meets the exact condition |
| Resumption.AcceptedTwiceWhenSlow | session_resumption.h:157-162 | an interleaving that accepts a token twice: another call prunes the nonce between two insertions |
| Resumption.StaysGrantedOnce | session_resumption.h:157-162 | no step grants a second time: the nonce is in the table or the expiry is past |
| Resumption.ResumptionManager.IssueToken | session_resumption.h:67-111 | the token is the sealing of the claim with the expiry 180 s ahead |
| Resumption.ResumptionManager.Verify | session_resumption.h:115-167 | prune, pre-check, decrypt, expiry, insert, in that order, with the answers specified |
| Resumption.ResumptionManager.Prune | session_resumption.h:272-282 | at most every 10 s unless 10000 nonces are held, erasing exactly the expired ones |
| SessionTable.FlatAt | session_table.h:40-48 | a key is in the table exactly when it is in its own shard |
| SessionTable.FlatInsert | session_table.h:80-86 | inserting into the shard is inserting into one flat map |
| SessionTable.FlatWithout | session_table.h:104-113 | sweeping all shards is filtering the flat map |
| SessionTable.HexRoundTrip | session_table.h:229-245 | every 64-bit key survives printing and scanning |
| SessionTable.HexDigits | session_table.h:229-245 | the printed key shows its bytes from the least significant one on, two lower-case digits each |
| SessionTable.SessionTable.FindByKeyId | session_table.h:40-48 | the lookup answers as one flat map |
| SessionTable.SessionTable.FindByKeyIdHex | session_table.h:50-52 | looking up the printed key is looking up the key |
| SessionTable.SessionTable.FindByEndpoint | session_table.h:67-75 | the endpoint lookup answers as one flat map |
| SessionTable.SessionTable.FindByAssignedIp | session_table.h:57-65 | the route lookup answers from the current snapshot and never for address 0 |
| SessionTable.SessionTable.FindIf | session_table.h:165-186 | some session satisfying the predicate is found exactly when the flat map has one |
| SessionTable.SessionTable.TotalSessions | session_table.h:196-203 | the shard sizes add up to the size of the flat map |
| SessionTable.SessionTable.RemoveSession | session_table.h:88-117 | the key, every endpoint of the session and the route of its own address are gone, and the object is deleted; somebody still refers to it if and only if another address was routed to it |
| SessionTable.SessionTable.NewSession | server.cpp:1164-1166 | a new session object has its key id, no address and no client, and the table stays valid |
| SessionTable.SessionTable.SetRouting | session.h:107-111 | the address and client of this session change, nothing else |
| SessionTable.SessionTable.InsertSession | session_table.h:80-86 | the flat map gains the session under its own key id; a null session changes nothing |
| SessionTable.SessionTable.UpdateEndpoint | session_table.h:138-143 | the flat endpoint map gains the entry |
| SessionTable.SessionTable.MapIp | session_table.h:120-127 | the new snapshot has the route; an old one is unchanged |
| SessionTable.SessionTable.UnmapIp | session_table.h:129-136 | the new snapshot lacks the route |
| SessionTable.NothingDangles | session_table.h:88-117 | after removal nothing refers to the deleted session if and only if no other address was routed to it before |
| RateLimiter.BoundedWithoutPurges | server.cpp:101-128 | without purges the limiter holds exactly the last insertions its ring remembers, never more than capacity |
| RateLimiter.EvictsExactlyOldest | server.cpp:103-114 | a full limiter drops the entry inserted longest ago and no other |
| RateLimiter.BoundedUnderPurges | server.cpp:101-139 | under any mix of checks and purges at most 2*capacity-1 addresses are tracked |
| RateLimiter.OrphansStayFew | server.cpp:103-118 | an entry forgotten by the ring arises only when the map is below capacity, so there are fewer than capacity |
| RateLimiter.BoundIsReached | server.cpp:101-139 | at every capacity a run of checks and purges reaches 2*capacity-1 entries |
| RateLimiter.CrowdingIsClocked | server.cpp:101-139 | the clock of that run never goes back, and its purges are at least the 30 s of the server apart |
| RateLimiter.StaysWithinExactly | server.cpp:101-139 | a run stays within capacity if and only if no unknown address meets a full map whose oldest slot is dead |
| RateLimiter.ContainedExactly | server.cpp:101-139 | no checks to come can pass capacity if and only if the ring has forgotten no entry and no living slot stands before a dead one |
| RateLimiter.InsertShiftsLog | server.cpp:115-117 | an insertion forgets the oldest slot of the ring and remembers the new one |
| RateLimiter.FirstIsGranted | server.cpp:103-126 | the first check of an unknown address or after its second is granted and starts a window |
| RateLimiter.NextIsCounted | server.cpp:120-127 | within the second a check is granted exactly when it is not past the limit, and counted either way |
| RateLimiter.SecondGrantsMax | server.cpp:101-128 | after the first check of a second exactly max - 1 more are granted, or all if fewer, whatever other addresses do, as long as the address stays known |
| RateLimiter.WindowGrants | server.cpp:101-128 | the same from any point of a window |
| RateLimiter.PurgeExactly | server.cpp:130-139 | a purge forgets exactly the addresses whose window began longer ago than the given age |
| RateLimiter.FastRateLimiter.CheckIp | server.cpp:101-128 | the in-place check leaves the map, ring, head and counter specified |
| RateLimiter.FastRateLimiter.InsertNew | server.cpp:103-118 | eviction if full, then the new entry, slot and head as specified |
| RateLimiter.FastRateLimiter.EvictOldest | server.cpp:105-113 | the slot about to be overwritten takes its entry with it if that is still the same insertion |
| RateLimiter.FastRateLimiter.PurgeExpired | server.cpp:130-139 | the purge erases exactly the entries older than the given age |
| Blackhole.EvictionInvisible | blackhole_responder.cpp:16-79 | with one max_rate of at most 60 s and a clock that does not run back, cleaning up changes no answer |
| Blackhole.EvictionInvisibleExactly | blackhole_responder.cpp:16-79 | over all runs from the empty table with a clock that does not run back, cleaning up changes no answer if and only if the rate is at most 60 s |
| Blackhole.IdleIsNewExactly | blackhole_responder.cpp:70-77 | an address idle for a window is treated as a new one at every age if and only if the rate is at most 60 s |
| Blackhole.AtMostOnePlusRate | blackhole_responder.cpp:48-67 | an address is granted at most 1 + T/max_rate responses in any span of length T, cleanup or not |
| Blackhole.GrantsWithinCredit | blackhole_responder.cpp:48-67 | grants are paid from the credit at the start and the tokens earned since |
| Blackhole.AtMostFiftyPerWindow | blackhole_responder.cpp:36-46 | between two window starts an address gets at most 50 responses |
| Blackhole.GrantExactly | blackhole_responder.cpp:34-68 | a query is granted if and only if its window is over or below both ceilings and the credit suffices; a grant costs one token, one packet and the estimated bytes, a refusal nothing |
| Blackhole.UnknownIsGranted | blackhole_responder.cpp:21-32 | an unknown address is granted and its response counted |
| Blackhole.SpacedIsGranted | blackhole_responder.cpp:16-79 | an address that asks no more often than the interval, below the ceilings, is granted every time |
| Blackhole.BytesPerWindow | blackhole_responder.cpp:42-45 | between two window starts the granted bytes stay below 8192 plus the largest single estimate |
| Blackhole.FullIsSilent | blackhole_responder.cpp:42-45 | once the counted bytes reach 8192 nothing more is granted in the window |
| Blackhole.RecordExactly | blackhole_responder.cpp:81-89 | bytes beyond 80 count against a known address and nothing else changes |
| Blackhole.ReachableAlike | blackhole_responder.cpp:16-89 | every reachable state is covered by the two results above |
| Blackhole.BlackholeResponder.ShouldRespond | blackhole_responder.cpp:16-79 | the method updates the table and answers as specified |
| Blackhole.BlackholeResponder.Draw | blackhole_responder.cpp:34-68 | window, ceiling, refill and consumption on the entry found |
| Blackhole.BlackholeResponder.RecordResponse | blackhole_responder.cpp:81-89 | bytes beyond 80 are added to a known address only |
| KillSwitch.EnableIsTransaction | network_security.cpp:244-261 | under every pattern of command failures, enable either commits with the whole IPv4 chain hooked or leaves both tables as before |
| KillSwitch.DisableRestores | network_security.cpp:263-279 | disable restores the earlier tables exactly |
| KillSwitch.RunKeepsInv | network_security.cpp:158-279 | over every run of enable and disable the tables are as at the start or exactly extended, and at no moment did OUTPUT jump to a chain without its final DROP |
| KillSwitch.RestoresExactly | network_security.cpp:175-242 | from any tables, a hooked chain left behind included, all failing enables restore the IPv4 table if and only if the name is not used in it, or its chain is empty, not hooked and jumped to from elsewhere |
| KillSwitch.RestoresBothExactly | network_security.cpp:175-242 | all failing enables restore both tables if and only if the IPv4 chain is such an empty one, or the IPv4 name is not used and the IPv6 name is not used or its chain is such an empty one |
| KillSwitch.CleanedSame | network_security.cpp:181-183 | the three cleanup commands change nothing in exactly those cases |
| KillSwitch.ForeignChainIsDeleted | network_security.cpp:186-193 | a chain of that name from elsewhere is flushed and deleted by the rollback |
| KillSwitch.ChainDecides | network_security.cpp:111-152 | the chain decides every packet: replies, loopback, tunnel, DHCP and the server's port range pass, everything else is dropped |
| KillSwitch.Chain6Decides | network_security.cpp:79-88 | the IPv6 chain lets replies and loopback through and drops the rest |
| KillSwitch.EnabledDecides | network_security.cpp:244-261 | after an enable that answered true, under any faults, OUTPUT begins with the jump and the chain decides every packet |
| KillSwitch.EnabledIsValid | network_security.cpp:158-173 | enable answers true only for parameters that pass every check of prepare |
| KillSwitch.EnableSucceeds | network_security.cpp:244-261 | where no command fails and both names are free, enable answers true exactly for those parameters, and both chains are complete and hooked |
| KillSwitch.BlockedIsTrue | network_security.cpp:196-208 | the switch says IPv6 is blocked exactly when it is on and IPv6 was available |
| KillSwitch.RunRules | network_security.cpp:185-194 | whatever fails, the IPv4 table is at a stage the cleanup undoes, hooked only when complete |
| KillSwitch.RunRules6 | network_security.cpp:196-205 | the best-effort IPv6 rules leave the table in a state the cleanup undoes |
| KillSwitch.CleanupRestores | network_security.cpp:181-183 | the three cleanup commands undo anything the rules can have done |
| KillSwitch.CleanupTouchesNothingElse | network_security.cpp:263-279 | cleanup removes our chain and hook wherever it stands and nothing else |
| KillSwitch.KillSwitch.EnableSwitch | network_security.cpp:244-261 | prepare, apply, verify, commit on the object, with the transaction guarantee |
| KillSwitch.KillSwitch.ApplyTx | network_security.cpp:175-208 | rules until the first failure, rollback on it, then IPv6 if available |
| KillSwitch.KillSwitch.VerifyTx | network_security.cpp:210-221 | rollback when the hook cannot be confirmed |
| KillSwitch.KillSwitch.RollbackTx | network_security.cpp:232-242 | every recorded cleanup command is run and the switch is off |
| KillSwitch.KillSwitch.DisableSwitch | network_security.cpp:263-279 | as specified, and nothing when it is not active |

## Left out

- Sockets, epoll, the TUN device, process execution, SQLite, Telegram, the Android and Windows user interfaces: input and output without a property of their own.
- SHA-256, HKDF, PBKDF2, X25519, the ChaCha20 rounds, and the OpenSSL and JCE calls: parameters of the model.
- The C# client: its field arithmetic uses a subtraction bias that is not a multiple of the prime, so nothing is stated about it.
- The byte-array anti-replay filter of `aegs_server.py`: its carry runs against its bit order, so the set specification does not hold for it.
- The one-word specialisation of the ring filter: the window of 64 is the shift register again.
- The C++ scanner for TLS Reality payloads: the Java scan is modelled.
- The `sendto` fallback of `flush_tx` on systems without `sendmmsg`: the same loop with runs of one packet.
- Rejection of repeated handshake inits: the code computes `is_retransmit` and does not use it.
- The handshake response and the address in it: the C++ server and client disagree on its byte order.
- Ownership of OpenSSL key objects in `process_init` and `build_resp`.
- Weak memory ordering, and raw pointers kept from a route snapshot after a session is deleted.
- Ambiguous header matches of auto-balanced slots when a packet roams: the matched session is a parameter of the data event.
- Routing fields other than address, client and presence (descriptor, camouflage type, alternative mask): they do not influence who holds an address.
- The 30 s gate of `cleanup_maps`, bans, failure records, cookies, port hopping, pacing, chaff timing and padding choice.
- Client isolation on the TUN path, which only drops packets before they count as activity, and failures of token issuing, after which the client merely lacks a token.
- Windows firewall rules, the DNS leak protector, `inet_pton` (a parameter) and shell quoting.
- `sscanf` leniency in `hex_to_u64` (leading blanks, signs, `0x`): only digits and the first non-digit are modelled.
- `clear` and `for_each_session` of the session table: plain loops over all shards.
- AntiReplay.FreshIsAccepted: guarantees (WORDS-1)*64 numbers and not the documented WORDS*64, because the code counts the window in whole words; RingWithinWindow says which numbers are lost.
- Resumption.AcceptedAtMostOnce: assumes the clock proviso; the condition without which the code is not safe is in AtMostOnceExactly.
- ServerHandlers.Server.OnData: models the fields that decide who holds an address and who is idle, not the other routing fields.
