# The transport core, modelled and proved in Dafny

This project models the concurrent core of the TURN-relayed WireGuard proxy — the
state machines, time arithmetic and wire formats of `pkg/proxy` and a few codecs and
tables around them — and proves what the rest of the program relies on. Verify it with
`dafny verify dfyconfig.toml`.

## How it is built

* **Time** is an integer number of nanoseconds and never goes back. Go's zero `time.Time`
  is `None`.
* **Goroutines** are program counters. One action is one critical section, one channel
  operation, one compare-and-swap, one `sync.Once` entry, one cancellation or one `Close`.
  `Run(step, state, schedule)` executes a schedule, so a lemma about a reached state is about
  every interleaving. What the network, the remote side, the random generator or the clock
  decides is a parameter of the action.
* **Objects that the source updates in place** are classes with the source's fields. Each
  method is the source's code and is proved equal to the transition function that the run
  lemmas are about, or, where it takes several steps, to a function proved to be a run of
  them (`FanOutIsRun`, `ReapedIsRun`, `LoopIsRun`). So those lemmas speak of the code and not
  of a second description.
* **A channel used for broadcast** is a number; `closed` is the set of closed ones.

| module | component |
|---|---|
| `TurnRace`, `TurnRaceProofs`, `TurnRaceResults`, `TurnRaceOutcomes`, `TurnRaceObject` | one TURN connection attempt: assigned dial, failover fan-out, winner, reaper |
| `NetworkGate`, `NetworkWorkers`, `NetworkResults`, `NetworkHistory`, `NetworkEntry` | the gate in front of new TURN work, and the workers that pass it |
| `WrapNonce`, `WrapCodec`, `WrapPacket` | the WRAP packet layer |
| `Keepalive`, `KeepaliveResults`, `KeepaliveDeaths` | keepalive grid, dead-stream detector, and when it can be wrong |
| `SrtpDeadline`, `SrtpResults` | the two read-deadline mechanisms of the SRTP transport |
| `Credentials` | credential slots, expiry, throttled refresh |
| `StreamPlan`, `ServerAssignment` | stream count, grouping, credential slot, TURN server of each stream |
| `Dispatcher`, `DispatcherResults` | the chunked round-robin dispatcher |
| `DnsMessage`, `DnsResponse`, `DnsServers` | DNS query, response parser, ordered server list |
| `CaptchaMailbox` | the captcha mailbox |
| `BypassRoutes` | the Keenetic bypass-route table |
| `SocksUdp` | the SOCKS5 UDP header |
| `Basics`, `Arithmetic` | options, octets, runs of a step function, counting, quotients, int64 arithmetic |

## Where the code does not do what its comments or a reader would expect

Each of these is kept as the code has it, with a lemma for the exact condition and, where
useful, a concrete run.

* A new generation clears the probe but does not signal (`network_availability.go:96-106`).
  A worker parked without a timer behind the running probe is then left with nobody to wake
  it until validation, a proof or another probe's release: `StrandedExactly`, `StrandingRun`.
* A dead-check wake does send, exactly when it turns out to be a thaw
  (`turn-client.go:165-186`): `DeadCheckSendsOnlyOnThaw`.
* A stream can die less than 90 s after a packet, in three ways. The freeze reset stores
  the time read before the check over the stamp of a packet that arrived in between
  (`turn-client.go:158-167`). An RX store puts back a stamp older than the value it replaces
  (`keepalive_policy.go:83-93`), which with one RX goroutine means taken before a reset and
  stored after it (`StaleInOrder`). A stamp is stored after the fatal turn loaded `lastRx`
  and before it reports (`turn-client.go:159-179`). `DiedEarlyExactly`: a run dies too early
  exactly if a turn, the fatal one included, lost such a value in one of the first two ways
  (`LostExactly`), or such a stamp came in the third. `EarlyDeathExactly`: a live run can, if
  it goes on in silence, die too early exactly if some turn took one of the first two. In
  `ResetOverwritesRx`, `StaleStampUndoesReset` and `LateStoreIsIgnored`, a run for each way,
  the loop is never late (again).
* Keepalive slots are distinct only up to 2,000,000,000 streams: `PhasesDistinctExactly`.
* An API lifetime of 9,223,372,097 s or more can overflow the 64-bit duration and be stored
  already expired (`credentials.go:213-219`): `CacheForInRange`, `FittingLifetimes`.
* The streams' return address is the source of the last packet that changed anything
  (`init_groups.go:176-191`): `PeersAreLastChange`. It is the last packet's source exactly if
  that change was of its kind, `PeersFollowExactly`. The listener the program makes yields UDP
  sources only, so there it always is, `UdpPeersFollow`; a run of mixed kinds, which the
  code also provides for, leaves it behind, `MixedSourcesDisagree`.
* `buildDNSQuery` does not check its labels (`dns.go:363-368`). The question walk of the DNS
  parser reaches the answers if every label has 1 to 63 octets; if no part is above 255
  octets, only then (`QuestionSkippedExactly`). A longer part is counted modulo 256, and then
  its content decides: `LongPartCanBeWalked`. The parser compares neither the transaction id,
  the question nor the record class; `WellFormedResponsesAreRead` holds for any of them.
* A host name above 255 octets is cut by its one-octet length (`owrt/socks.go:492-494`):
  `LongNameIsCut`, `RoundTripExactly`. A name that spells an address is sent on as that
  address: `RebuiltExactly`.
* A total below the number of links is raised to one stream a link (`turn-client.go:999-1004`):
  `ReducedTotal`.

## Model

| member | source | states |
|---|---|---|
| TurnRaceProofs.StartInv | pkg/proxy/stream_run_with_creds.go:44-85 | a fresh attempt on any number of servers, with any slots held by other streams, satisfies the ownership invariant |
| TurnRaceProofs.StepKeepsInv | pkg/proxy/stream_run_with_creds.go:37-259 | every action of every goroutine keeps the invariant: who owns which handle, who claimed the once, where the winner is, how errors and slots add up |
| TurnRaceProofs.RunKeepsInv | pkg/proxy/stream_run_with_creds.go:37-259 | so does every schedule |
| TurnRaceResults.OneClaim | pkg/proxy/stream_run_with_creds.go:61-66 | in every interleaving at most one dial claims the session |
| TurnRaceResults.SingleOwner | pkg/proxy/stream_run_with_creds.go:52-117 | whatever a dial has open has exactly one party that must close it (its goroutine, the mailbox, the session or the reaper), a party is responsible only where something is open, and a winner in the mailbox will still be received or drained |
| TurnRaceResults.NothingLeaks | pkg/proxy/stream_run_with_creds.go:37-259 | once all goroutines ended nothing is open, no winner is stuck in the channel and no allocate slot is kept |
| TurnRaceResults.SendsNeverBlock | pkg/proxy/stream_run_with_creds.go:48-66 | no send of an error or of the winner ever blocks, nor does returning an allocate slot |
| TurnRaceResults.AllFailedMeansAll | pkg/proxy/stream_run_with_creds.go:94-108 | "all servers failed" is returned only after every address was dialed and reported its error, with nothing open and no winner |
| TurnRaceResults.FailoverOnlyAfterError | pkg/proxy/stream_run_with_creds.go:79-105 | a failover server is dialed only after an error was received |
| TurnRaceResults.SelectIsFed | pkg/proxy/stream_run_with_creds.go:96-116 | the select loop never waits for dials that are all past their sends with both channels empty |
| TurnRaceResults.NoDeadlock | pkg/proxy/stream_run_with_creds.go:37-259 | in every reached state some goroutine of the attempt can act, unless all have ended or a dial waits for slots that other streams hold |
| TurnRaceResults.StepWork | pkg/proxy/stream_run_with_creds.go:37-259 | every step of the attempt lowers a work measure and no step of its surroundings changes it |
| TurnRaceResults.BoundedWork | pkg/proxy/stream_run_with_creds.go:37-259 | in any schedule an attempt on n servers takes at most 20n + 10 steps of its own |
| TurnRaceOutcomes.StartIsFresh | pkg/proxy/stream_run_with_creds.go:37-85 | an attempt begins with the assigned server's dial under way and nothing else |
| TurnRaceOutcomes.FailsExactly | pkg/proxy/stream_run_with_creds.go:56-191 | in every run a dial is on its way to report an error, or has, exactly if one of its calls failed or it gave up waiting for a slot; so only a dial whose calls all succeeded can claim the session |
| TurnRaceOutcomes.ErrorMeansFailover | pkg/proxy/stream_run_with_creds.go:79-105 | in every interleaving, once an error was received the attempt is launching the failover servers or has launched them all; it neither waits nor returns without them |
| TurnRaceOutcomes.FailoverHappens | pkg/proxy/stream_run_with_creds.go:100-105 | a received error while some server was never dialed is followed by steps of this goroutine alone to a state that waits for results with every server dialed |
| TurnRaceOutcomes.SelectIsReady | pkg/proxy/stream_run_with_creds.go:96-114 | the select takes exactly the cases that are ready, and where each leads |
| TurnRaceOutcomes.CtxErrMeansCancelled | pkg/proxy/stream_run_with_creds.go:109-114 | a context error is returned only if the context is done |
| TurnRaceOutcomes.RaceCancelledExactly | pkg/proxy/stream_run_with_creds.go:41-66 | the race's context is cancelled exactly when a claimer said so or the attempt has returned |
| TurnRaceOutcomes.SlotWaitEnds | pkg/proxy/stream_run_with_creds.go:175-181 | a dial stops waiting for an allocate slot by taking one of the three, or because its context is done |
| TurnRaceOutcomes.ThreeAllocations | pkg/proxy/stream_run_with_creds.go:175-183 | never more than three allocations are under way, other streams' included |
| TurnRaceOutcomes.SessionIsWinners | pkg/proxy/stream_run_with_creds.go:60-99 | session and result belong to the dial that won, and a dial loses only after a winner was delivered |
| TurnRaceOutcomes.ErrorsInOrder | pkg/proxy/stream_run_with_creds.go:94-108 | errors are received in the order the dials reported them, and the one returned is the last received |
| TurnRaceObject.Race.constructor | pkg/proxy/stream_run_with_creds.go:44-85 | the variables as they are just after the assigned server's dial was launched |
| TurnRaceObject.DialAndAllocateCode | pkg/proxy/stream_run_with_creds.go:128-191 | dialAndAllocate written by where the goroutine stands, with its handles and closes, makes exactly the steps of the transition function |
| TurnRaceObject.LaunchedCode | pkg/proxy/stream_run_with_creds.go:53-76 | likewise for the launched function after it |
| TurnRaceObject.DialAndAllocate | pkg/proxy/stream_run_with_creds.go:119-191 | the whole function in source order: whatever call fails, all that was opened is closed; on success all three handles are open; and it is a run of the goroutine's steps |
| TurnRaceObject.LaunchedGoroutine | pkg/proxy/stream_run_with_creds.go:52-77 | the whole goroutine in source order ends failed with nothing open, lost with everything closed, or won with everything open |
| TurnRaceObject.Race.TouchShared | pkg/proxy/stream_run_with_creds.go:53-76 | the shared part of a dial's step happens exactly when channel room, semaphore, context and once allow it |
| TurnRaceObject.Race.AdvanceDial | pkg/proxy/stream_run_with_creds.go:52-191 | a step of the goroutine's code together with its shared operation moves exactly when, and to exactly where, the transition function says |
| TurnRaceObject.Race.HandleError | pkg/proxy/stream_run_with_creds.go:100-108 | the error case of the select, as the transition function has it, which is pinned by FailoverHappens, ErrorsInOrder and AllFailedMeansAll |
| TurnRaceObject.Race.HandleWinner | pkg/proxy/stream_run_with_creds.go:98-99 | the winner case of the select |
| TurnRaceObject.Race.HandleCtxDone | pkg/proxy/stream_run_with_creds.go:109-114 | the cancellation case of the select |
| TurnRaceObject.Race.FanOut | pkg/proxy/stream_run_with_creds.go:83-92 | the fan-out loop launches every remaining candidate once and touches nothing else |
| TurnRaceObject.Race.Reap | pkg/proxy/stream_run_with_creds.go:250-259 | the reaper closes what the mailbox holds and empties it |
| TurnRaceObject.FanOutIsRun | pkg/proxy/stream_run_with_creds.go:83-92 | the uninterrupted loop is a run of launches and the step back to the select |
| TurnRaceObject.FanOutKeepsInv | pkg/proxy/stream_run_with_creds.go:83-92 | the uninterrupted loop keeps the invariant |
| TurnRaceObject.ReapedIsRun | pkg/proxy/stream_run_with_creds.go:246-259 | the reaper's code is a run of its steps |
| TurnRaceObject.ReapedIsClean | pkg/proxy/stream_run_with_creds.go:246-259 | after all dialers exited, one non-blocking receive leaves no handle open |
| NetworkGate.NetworkAvailability.constructor | pkg/proxy/network_availability.go:32-44 | the gate starts open, validated, with an open channel |
| NetworkGate.NetworkAvailability.NetworkAvailableLocked | pkg/proxy/network_availability.go:46-48 | open if validated or before the proof's end |
| NetworkGate.NetworkAvailability.SignalNetworkWaitersLocked | pkg/proxy/network_availability.go:50-53 | closes the current channel, which was open, and installs a fresh one |
| NetworkGate.NetworkAvailability.SetNetworkAvailable | pkg/proxy/network_availability.go:57-72 | the critical section equals its transition function and closes no closed channel |
| NetworkGate.NetworkAvailability.MarkNetworkPathProven | pkg/proxy/network_availability.go:77-92 | likewise for a proof, with its refusal of another generation |
| NetworkGate.NetworkAvailability.BeginNetworkPathGeneration | pkg/proxy/network_availability.go:96-106 | likewise for a new generation, whose token it returns |
| NetworkGate.NetworkAvailability.EnterGate | pkg/proxy/network_availability.go:139-163 | likewise for one pass through the wait loop: permit, probe, or park on this channel with this timer |
| NetworkGate.NetworkAvailability.ReleaseNetworkPermit | pkg/proxy/network_availability.go:196-210 | likewise for giving a permit back |
| NetworkWorkers.StepKeepsInv | pkg/proxy/worker_group.go:94-211 | every step of any worker or of its surroundings keeps the gate invariant |
| NetworkWorkers.RunKeepsInv | pkg/proxy/worker_group.go:94-211 | so does every schedule |
| NetworkResults.ProbeHasOneHolder | pkg/proxy/network_availability.go:153-163 | while the probe is busy exactly one worker holds the permit with its id |
| NetworkResults.ReleaseIsExact | pkg/proxy/network_availability.go:196-210 | releasing the current probe frees it and wakes the waiters; releasing any other permit changes nothing |
| NetworkResults.ProbesAreSpaced | pkg/proxy/network_availability.go:148-163 | two probe claims with no validation, accepted proof or new generation between them are at least a minute apart |
| NetworkResults.PermitsAreReturned | pkg/proxy/worker_group.go:103-168 | a worker outside the guarded section has released as many permits as it took, on every path, and inside it owes exactly one |
| NetworkResults.VkTokensBalance | pkg/proxy/worker_group.go:115-121 | the credential semaphore holds one token for each fetch under way, never more than two, and giving one back never blocks |
| NetworkResults.ChannelsCloseOnce | pkg/proxy/network_availability.go:50-53 | each step closes no channel, or the current one, which was never closed before |
| NetworkResults.OpeningWakesAll | pkg/proxy/network_availability.go:46-92 | a step that opens the gate closes the very channel each parked worker waits on |
| NetworkResults.NoLostWakeup | pkg/proxy/network_availability.go:139-193 | whenever the gate is open, every parked worker can wake |
| NetworkResults.OnlyCurrentProofCounts | pkg/proxy/network_availability.go:77-106 | the proof changes only by a proof of the current generation or by a new generation |
| NetworkResults.StaleTokenIsRefused | pkg/proxy/network_availability.go:77-106 | a token of an older generation has no effect for the rest of the run |
| NetworkResults.StrandedExactly | pkg/proxy/network_availability.go:94-106 | a step leaves a worker with nobody to wake it exactly if it begins a generation while that worker waits, without a timer, for the running probe |
| NetworkResults.StrandingRun | pkg/proxy/network_availability.go:94-106 | a run of two workers in which this happens |
| NetworkResults.TimersAreShort | pkg/proxy/network_availability.go:142-191 | a parked worker's timer is due within a minute |
| NetworkHistory.OpenExactly | pkg/proxy/network_availability.go:46-106 | in every run the gate is open exactly if the host last said "validated" or a proof of the generation still current was presented less than three minutes ago |
| NetworkHistory.ProofIsYoungest | pkg/proxy/network_availability.go:77-106 | the stored proof is the youngest accepted one since the last new generation |
| NetworkEntry.NextProbeIsYoungest | pkg/proxy/network_availability.go:57-163 | the rate limit is that of the youngest probe claim since it was last lifted |
| NetworkEntry.RunningIsBusy | pkg/proxy/network_availability.go:57-210 | the probe is busy exactly while one is running that was neither released nor made void, and its claimer holds the permit |
| NetworkEntry.OneProbeAtATime | pkg/proxy/network_availability.go:153-210 | never do two probes run at once |
| NetworkEntry.EntryExactly | pkg/proxy/network_availability.go:139-193 | in every run a worker gets an ordinary permit exactly if the gate is open; a probe exactly if it is closed, none runs and none was claimed in the last minute; else it parks, with a timer, set to a minute after the last claim, exactly if no probe runs |
| NetworkEntry.FetchesExactly | pkg/proxy/worker_group.go:116-123 | a worker gets one of two fetch tokens exactly if one is free |
| NetworkEntry.ConnectsExactly | pkg/proxy/worker_group.go:124-157 | after its fetch a worker connects exactly if it holds a probe or the gate is still open; otherwise it gives the permit back |
| NetworkEntry.DelaysExactly | pkg/proxy/worker_group.go:124-211 | after a failure or a session a worker leaves exactly if the context is done, and waits its delay exactly if the gate is open or a probe's fetch failed |
| NetworkEntry.AfterSession | pkg/proxy/worker_group.go:157-211 | the same over the whole path from the end of a session, with the permit given back |
| NetworkEntry.AfterFailedFetch | pkg/proxy/worker_group.go:123-139 | likewise from a failed fetch |
| NetworkEntry.LeavesOnCancel | pkg/proxy/worker_group.go:95-121 | a waiting worker leaves on account of the context exactly if it is done, giving back what it holds |
| NetworkEntry.SignalsExactly | pkg/proxy/network_availability.go:50-210 | a step wakes the waiters exactly if it opens the gate or releases the running probe |
| WrapNonce.WrapTxState.constructor | pkg/proxy/wrap.go:75-79 | the SSRC in the high half, counter zero |
| WrapNonce.WrapTxState.CompareAndSwap | pkg/proxy/wrap.go:106 | the atomic step |
| WrapNonce.WrapTxState.Next | pkg/proxy/wrap.go:92-110 | the CAS loop returns the content of the very word its successful CAS replaced, however often rivals interfere |
| WrapNonce.LoopIsRun | pkg/proxy/wrap.go:92-110 | however senders interleave, going through the loop is a run of the transition function, and its claim is the pair the method returns |
| WrapNonce.ClaimsFormOneLine | pkg/proxy/wrap.go:54-110 | in every interleaving of senders the k-th claimed pair is counter k mod 4,000,000 of the (k div 4,000,000)-th SSRC installed; the counter never carries into the SSRC |
| WrapNonce.PairsRepeatExactlyWithSsrcs | pkg/proxy/wrap.go:81-110 | all claimed pairs differ exactly if the SSRCs they were claimed under differ |
| WrapNonce.StreamsShareNoPair | pkg/proxy/wrap.go:54-110 | two streams share a pair exactly if they share an SSRC they used |
| WrapNonce.NonceDetermines | pkg/proxy/wrap.go:247-258 | two nonces are equal exactly if SSRC, direction and counter are |
| WrapNonce.NoncesNeverRepeat | pkg/proxy/wrap.go:158-170 | while drawn SSRCs do not repeat, no uplink nonce repeats in any interleaving, and none equals a downlink nonce |
| WrapCodec.MaskedTwice | pkg/proxy/wrap.go:275-283 | the keystream is its own inverse |
| WrapCodec.XorIsBitwise | pkg/proxy/wrap.go:240-272 | each of the eight bits of the masked octet is set exactly if those of data and keystream differ, and no other octet has these bits |
| WrapCodec.NonceOctets | pkg/proxy/wrap.go:253-258 | the nonce octet by octet: SSRC, direction, three zeros, counter |
| WrapCodec.ShaKeystream | pkg/proxy/wrap.go:224-245 | the SHA keystream as octets: the hash of key and counter, then every 32 followed by their hash |
| WrapCodec.XorBlock | pkg/proxy/wrap.go:240 | the block XOR changes its window and nothing else |
| WrapCodec.XorInPlace | pkg/proxy/wrap.go:224-245 | the loop over 32-byte hash-chain blocks equals XOR with one flat keystream and leaves the rest of the buffer alone |
| WrapCodec.XorKeystream | pkg/proxy/wrap.go:263-283 | likewise for either cipher |
| WrapPacket.TimestampCarriesCounter | pkg/proxy/wrap.go:206-213 | the 32-bit timestamp carries the counter back exactly up to 4,473,924, hence below the modulus |
| WrapPacket.HeaderReadsBack | pkg/proxy/wrap.go:191-216 | counter, cipher and SSRC are read back from the header |
| WrapPacket.HeaderOctets | pkg/proxy/wrap.go:191-209 | the header octet by octet: cipher bit, marker, payload type, sequence number, timestamp, SSRC (section 5.1 of RFC 3550) |
| WrapPacket.HeadersAdvance | pkg/proxy/wrap.go:57-60 | within an SSRC the sequence number grows by one and the timestamp by 960 from packet to packet |
| WrapPacket.ReadersExactly | pkg/proxy/wrap.go:172-216 | what is read from any header: cipher by the X bit alone, counter as timestamp over 960 rounded down, SSRC |
| WrapPacket.PutHeader | pkg/proxy/wrap.go:191-209 | writes the header and nothing behind it |
| WrapPacket.PadFits | pkg/proxy/wrap.go:338-347 | padding never pushes a packet past the ceiling, and is undiminished where there is room |
| WrapPacket.PadIsLongest | pkg/proxy/wrap.go:338-347 | the padding is the longest that draw and ceiling allow |
| WrapPacket.UnpadData | pkg/proxy/wrap.go:401-409 | the trailer gives back the payload length |
| WrapPacket.RoundTrip | pkg/proxy/wrap.go:332-410 | for every payload, key, SSRC, counter below the modulus, padding, cipher and primitives, opening in the sender's direction returns exactly the payload |
| WrapPacket.CoverIsEmpty | pkg/proxy/wrap.go:401-427 | a cover packet always decodes to length 0 |
| WrapPacket.WireBits | pkg/proxy/wrap.go:348-363 | every bit behind the header is the plaintext's, flipped exactly where the keystream's is set |
| WrapPacket.ZerosShowKeystream | pkg/proxy/wrap.go:348-363 | a plaintext of zeros goes out as the keystream itself |
| WrapPacket.PacketsHaveOwnKeystreams | pkg/proxy/wrap.go:247-363 | in every interleaving, while drawn SSRCs do not repeat, two uplink packets are masked with the ChaCha20 keystreams of their own claimed nonces, and these differ |
| WrapPacket.AcceptedExactly | pkg/proxy/wrap.go:379-409 | whoever sent it, a packet yields n octets exactly if its body is a payload of n octets, or a cover body and n is 0, wrapped under the receiver's key and direction |
| WrapPacket.RefusedExactly | pkg/proxy/wrap.go:379-409 | which packets are refused, and for what reason |
| WrapPacket.CopyTo | pkg/proxy/wrap.go:358 | the copy changes its window and nothing else |
| WrapPacket.Seal | pkg/proxy/wrap.go:353-363 | header and plaintext are built and encrypted in place |
| WrapPacket.WrapPacketInto | pkg/proxy/wrap.go:332-365 | writes the packet of the pure description, touches nothing behind it, refuses exactly a bad key or a short buffer, and never with the promised room |
| WrapPacket.WrapCoverPacket | pkg/proxy/wrap.go:412-427 | builds a cover packet of 30 to 158 noise bytes |
| WrapPacket.Decrypt | pkg/proxy/wrap.go:397-399 | copy and decryption into the destination |
| WrapPacket.UnwrapPacket | pkg/proxy/wrap.go:379-410 | the verdict and the destination buffer equal the pure description |
| Keepalive.PhaseFormula | pkg/proxy/keepalive_policy.go:56-67 | up to 2,000,000,000 streams the int64 arithmetic does not wrap |
| Keepalive.PhasesAreDistinctSlots | pkg/proxy/keepalive_policy.go:50-67 | phases grow strictly with the stream id and stay within the 2 s window |
| Keepalive.PhaseInWindow | pkg/proxy/keepalive_policy.go:56-67 | also for a single stream |
| Keepalive.PhasesDistinctExactly | pkg/proxy/keepalive_policy.go:50-67 | all phases are distinct exactly up to 2,000,000,000 streams |
| Keepalive.GridIsLeast | pkg/proxy/keepalive_policy.go:104-110 | the next grid point is the least later instant congruent to the phase, so within 25 s, and the one after it exactly 25 s later |
| Keepalive.GridCadence | pkg/proxy/keepalive_policy.go:99-110 | a stream's gap is 25 s however late it woke |
| Keepalive.StreamActivity.constructor | pkg/proxy/keepalive_policy.go:77-81 | starts with the present as last RX |
| Keepalive.StreamActivity.NoteRx | pkg/proxy/keepalive_policy.go:83-85 | stores the stamp |
| Keepalive.StreamActivity.ResetLiveness | pkg/proxy/keepalive_policy.go:91-93 | stores the stamp |
| Keepalive.StreamActivity.ArmDeadline | pkg/proxy/keepalive_policy.go:120-136 | picks grid, retry or dead check |
| Keepalive.StreamActivity.Age | pkg/proxy/keepalive_policy.go:138-144 | age of the last RX, never negative |
| Keepalive.RunKeepalive | pkg/proxy/turn-client.go:148-198 | the loop, with RX stores landing between any two of its accesses and before a death is reported, equals the fold of its turns |
| KeepaliveResults.DeadlineExactly | pkg/proxy/keepalive_policy.go:120-136 | the deadline is the earliest of grid, retry and 90 s after the RX seen, and the dead check its reason exactly if strictly first |
| KeepaliveResults.TurnExactly | pkg/proxy/turn-client.go:148-198 | a turn that slept more than 45 s restarts the clock and sends whatever the age; else one whose age is 90 s or more dies; else it sends unless it woke for the dead check; a failed send is retried 5 s after the wake |
| KeepaliveResults.CancelledExactly | pkg/proxy/turn-client.go:153-155 | exactly a cancelled wait ends the loop without sending |
| KeepaliveResults.ArmedInTime | pkg/proxy/keepalive_policy.go:120-136 | every wake is armed within 25 s, within 90 s of the last RX, not after a pending retry, and at one of these three instants |
| KeepaliveResults.FreezeMeansLate | pkg/proxy/turn-client.go:161-165 | only a wake more than 20 s late counts as a freeze |
| KeepaliveResults.FreezeNeverKills | pkg/proxy/turn-client.go:161-178 | a freeze keeps the stream alive, restarts the clock and sends |
| KeepaliveResults.DeadCheckSendsOnlyOnThaw | pkg/proxy/turn-client.go:165-189 | a dead-check wake sends exactly if it is a thaw |
| KeepaliveResults.DeadCheckThaw | pkg/proxy/turn-client.go:165-177 | such a turn: a dead check that sends and starts the clock anew |
| KeepaliveResults.OneSendPerGridPoint | pkg/proxy/turn-client.go:141-197 | over any run that goes well the sends number exactly the grid points passed, whatever RX and dead-check wakes come in between |
| KeepaliveResults.RetryOnlyAfterFailure | pkg/proxy/turn-client.go:190-196 | a failed send is retried within 5 s, and a retry wake follows only a failed send |
| KeepaliveResults.QuietTurnDecides | pkg/proxy/turn-client.go:148-198 | in silence a turn that is no freeze kills exactly if it woke after 90 s |
| KeepaliveResults.SilenceIsCaught | pkg/proxy/turn-client.go:148-198 | without a freeze silence is caught at the first wake after 90 s, so between 90 s and 90 s plus the lateness of the wake |
| KeepaliveDeaths.HistoryIsRun | pkg/proxy/turn-client.go:148-198 | a history has the state the loop reaches |
| KeepaliveDeaths.DeathNeedsSilence | pkg/proxy/turn-client.go:158-183 | a stream dies at least 90 s after the value its last turn loads, and never in a turn that slept more than 45 s |
| KeepaliveDeaths.ThawBuysTime | pkg/proxy/turn-client.go:161-177 | however a run goes on in silence after a thaw, the stream cannot die within 90 s of it |
| KeepaliveDeaths.PunctualDeath | pkg/proxy/turn-client.go:148-198 | from any live state a silent stream whose loop is never late dies 90 s after lastRx, or at once if that has passed |
| KeepaliveDeaths.KeepsNewestExactly | pkg/proxy/turn-client.go:158-197 | a turn settles on the newest value exactly if it neither overwrites a newer RX stamp by a reset nor ends on a stamp older than what it found or stored |
| KeepaliveDeaths.StaleInOrder | pkg/proxy/turn-client.go:669-678 | with stamps stored in the order they are read, as the one RX goroutine does, a stale stamp is one older than what its turn found |
| KeepaliveDeaths.EarlyDeathFromHere | pkg/proxy/turn-client.go:158-183 | every silent continuation of a live run that dies keeps 90 s from every value stored in the run exactly if its last store is the newest |
| KeepaliveDeaths.EarlyDeathExactly | pkg/proxy/turn-client.go:148-198 | some silent continuation from a point of a live run dies less than 90 s after a value stored till then exactly if some turn takes one of the two branches that lose the newest value |
| KeepaliveDeaths.LosesExactly | pkg/proxy/turn-client.go:158-197 | a turn loses some value exactly if it takes one of those branches |
| KeepaliveDeaths.LostExactly | pkg/proxy/turn-client.go:148-198 | so does a run, its fatal turn included |
| KeepaliveDeaths.DiedEarlyExactly | pkg/proxy/turn-client.go:148-198 | every run that dies, with RX anywhere in it, does so less than 90 s after a value that lastRx had exactly if it lost such a value in some turn or stored such a stamp after its last load |
| KeepaliveDeaths.DiedEarlyByLateStore | pkg/proxy/turn-client.go:158-183 | if no turn took either branch, exactly a stamp stored between the last load and the report makes a death early |
| KeepaliveDeaths.ResetOverwritesRx | pkg/proxy/turn-client.go:158-167 | a run, with no late wake after the thaw, that dies 85 s after a packet whose stamp the reset overwrote |
| KeepaliveDeaths.StaleStampUndoesReset | pkg/proxy/keepalive_policy.go:83-93 | a run that dies 89 s after a reset, because a stamp taken before it was stored after it |
| KeepaliveDeaths.LateStoreIsIgnored | pkg/proxy/turn-client.go:158-183 | a run, never late and with neither branch taken, that dies 1 ns after a packet whose stamp came after the last load |
| SrtpDeadline.WrappedConn.SetDl | pkg/proxy/srtpwrap/srtp.go:734-762 | the critical section equals its transition function |
| SrtpDeadline.WrappedConn.FireDeadline | pkg/proxy/srtpwrap/srtp.go:769-779 | likewise, stale fires included |
| SrtpDeadline.WrappedConn.DeadlineCh | pkg/proxy/srtpwrap/srtp.go:711-719 | the channel, made on first use |
| SrtpDeadline.WrappedConn.DeadlineExpired | pkg/proxy/srtpwrap/srtp.go:721-725 | whether a deadline is set and reached |
| SrtpDeadline.PacketConnAdapter.SetDl | pkg/proxy/srtpwrap/srtp.go:466-505 | the critical section equals its transition function |
| SrtpDeadline.PacketConnAdapter.OnTimer | pkg/proxy/srtpwrap/srtp.go:492-503 | the timer callback, orphaned ones included |
| SrtpResults.ConnRunInv | pkg/proxy/srtpwrap/srtp.go:711-779 | every run of settings, timers, fires and reads keeps the invariant of the reusable timer |
| SrtpResults.AdapterRunInv | pkg/proxy/srtpwrap/srtp.go:451-505 | likewise for one timer a deadline |
| SrtpResults.ConnClosesSoundly | pkg/proxy/srtpwrap/srtp.go:734-779 | no channel is closed twice, and a closed current channel means the deadline has passed, for a woken reader too |
| SrtpResults.AdapterClosesSoundly | pkg/proxy/srtpwrap/srtp.go:466-505 | likewise |
| SrtpResults.ConnTimesOutExactly | pkg/proxy/srtpwrap/srtp.go:587-620 | a woken reader times out exactly if the deadline set last in the run has been reached |
| SrtpResults.AdapterTimesOutExactly | pkg/proxy/srtpwrap/srtp.go:409-426 | likewise |
| SrtpResults.ConnReaderCannotSpin | pkg/proxy/srtpwrap/srtp.go:587-620 | a reader takes at most one fruitless turn for each deadline set |
| SrtpResults.AdapterReaderCannotSpin | pkg/proxy/srtpwrap/srtp.go:409-426 | likewise |
| SrtpResults.ReaderCanMove | pkg/proxy/srtpwrap/srtp.go:587-620 | a reader is never stuck: it enters its select, takes packets while blocked, checks when woken, reads again after a timeout |
| SrtpResults.ConnPastDeadlineWakes | pkg/proxy/srtpwrap/srtp.go:711-732 | a deadline that has passed wakes all blocked readers at once, and the current channel is closed |
| SrtpResults.AdapterPastDeadlineWakes | pkg/proxy/srtpwrap/srtp.go:466-505 | likewise |
| SrtpResults.ConnLateReadTimesOut | pkg/proxy/srtpwrap/srtp.go:587-620 | a read that begins when the channel was closed times out in three steps |
| SrtpResults.AdapterLateReadTimesOut | pkg/proxy/srtpwrap/srtp.go:409-426 | likewise |
| SrtpResults.ConnTimerIsPrompt | pkg/proxy/srtpwrap/srtp.go:711-779 | the timer, when it runs, is due at the deadline set last |
| SrtpResults.AdapterTimerIsPrompt | pkg/proxy/srtpwrap/srtp.go:466-505 | so is that of the current channel |
| SrtpResults.ConnDeadlineWakes | pkg/proxy/srtpwrap/srtp.go:587-779 | a reader blocked while a deadline is armed holds the current channel, a fire is pending, and letting it run makes the reader time out, by the deadline set last and what its timer may be late |
| SrtpResults.AdapterDeadlineWakes | pkg/proxy/srtpwrap/srtp.go:409-505 | likewise |
| Credentials.CacheForInRange | pkg/proxy/credentials.go:211-219 | a credential is cached for a positive time of at most ten hours exactly if the API gave no usable lifetime or the 64-bit difference stays positive |
| Credentials.FittingLifetimes | pkg/proxy/credentials.go:211-219 | always so for lifetimes whose nanoseconds fit an int64; the first lifetime stored expired is 9,223,372,097 s |
| Credentials.CacheForExactly | pkg/proxy/credentials.go:211-219 | 59 minutes without a usable lifetime, else the lifetime less a minute up to ten hours |
| Credentials.StreamCredentialsCache.GetCredsCached | pkg/proxy/credentials.go:179-231 | lookup, fetch and expiry equal the slot's transition function |
| Credentials.StreamCredentialsCache.InvalidateGroupCreds | pkg/proxy/credentials.go:134-144 | force-expiry changes only the expiry |
| Credentials.StreamCredentialsCache.RefreshGroupCreds | pkg/proxy/credentials.go:151-165 | accepted exactly if there was no accepted refresh or it is 15 s old, and then the slot is expired as of a second ago |
| Credentials.CredentialsStore.GetStreamCache | pkg/proxy/credentials.go:73-91 | a slot keeps its object; a new slot is empty; no other slot is touched |
| Credentials.ExpiryOrigin | pkg/proxy/credentials.go:134-231 | a slot's expiry, credential and link come from the last fetch or forced expiry |
| Credentials.HitReturnsLastFetch | pkg/proxy/credentials.go:186-190 | a hit returns what the slot's last successful fetch stored, for the same link, unexpired and not force-expired since |
| Credentials.HitsExactly | pkg/proxy/credentials.go:186-190 | and there is a hit whenever such a fetch exists |
| Credentials.ForcedExpiryForcesFetch | pkg/proxy/credentials.go:134-144 | a forced expiry makes every lookup before the next fetch miss |
| Credentials.FailureChangesNothing | pkg/proxy/credentials.go:200-209 | a failed fetch, a hit and a skipped refresh leave the slot as it was |
| Credentials.MissFetches | pkg/proxy/credentials.go:186-231 | what is not in the slot is fetched, if the context allows and the API delivers |
| Credentials.AcceptedExactly | pkg/proxy/credentials.go:151-165 | over every run of a slot a refresh is accepted exactly if no accepted one was stored less than 15 s before, and else skipped |
| Credentials.RefreshForcesFetch | pkg/proxy/credentials.go:134-165 | a refresh 15 s after every accepted one makes the lookups after its force-expiry go to the API |
| Credentials.RefreshesAreSpaced | pkg/proxy/credentials.go:151-165 | accepted refreshes of a slot are at least 15 s apart |
| StreamPlan.ParseLinks | pkg/proxy/turn-client.go:895-911 | the non-empty pieces in order, at most the maximum, and one empty link if there is none |
| StreamPlan.NonEmptyOfBoth | pkg/proxy/turn-client.go:895-911 | pieces are kept or dropped each on its own, without reordering |
| StreamPlan.NonEmptyOfOne | pkg/proxy/turn-client.go:895-911 | exactly the empty one is dropped |
| StreamPlan.PlanStreams | pkg/proxy/turn-client.go:985-1014 | total, group size and group count as promised, links cycled |
| StreamPlan.GroupsFit | pkg/proxy/turn-client.go:985-1014 | the planned groups hold all streams and none is superfluous |
| StreamPlan.ReducedTotal | pkg/proxy/turn-client.go:998-1004 | a reduced total is the largest equal share, except that each link keeps one stream |
| StreamPlan.TotalExactly | pkg/proxy/turn-client.go:985-1014 | without a request the links are filled, a request of at least that is met exactly with groups of the given size, a smaller one is shared out evenly |
| StreamPlan.ClampedTotal | core/config.go:131-152 | under the config clamps at most 128 streams, so the stream byte tells them apart |
| StreamPlan.FormGroups | pkg/proxy/init_groups.go:70-106 | the grouping loop partitions the ids |
| StreamPlan.LoopCovers | pkg/proxy/init_groups.go:94-106 | contiguous, non-empty groups of at most n ids that cover 0..total-1 |
| StreamPlan.GroupIsSlot | pkg/proxy/credentials.go:61-64 | a stream's group is the one numbered by its credential slot, which is the slot fetchCreds reads |
| StreamPlan.StartStreams | pkg/proxy/turn-client.go:985-1014 | plan, groups and slots agree end to end |
| StreamPlan.AllGroupsUsed | pkg/proxy/init_groups.go:94-106 | every planned link gets a group |
| ServerAssignment.SortedIsUnique | pkg/proxy/worker_creds.go:64-65 | sorted lists of the same strings are equal |
| ServerAssignment.AssignServers | pkg/proxy/worker_creds.go:60-71 | the code equals the function the lemmas are about |
| ServerAssignment.ListingDoesNotMatter | pkg/proxy/worker_creds.go:51-71 | the result is the same for every permutation of the addresses |
| ServerAssignment.AssignedIsPermutation | pkg/proxy/worker_creds.go:60-71 | no address is lost or doubled |
| ServerAssignment.AssignedIsRotation | pkg/proxy/worker_creds.go:60-71 | the list is the canonical order, however it was sorted, read on a ring from the stream's own server |
| ServerAssignment.LoadFormula | pkg/proxy/worker_creds.go:60-71 | the load of the server with canonical index r over any range of ids, in closed form: a difference of two quotients |
| ServerAssignment.LoadsAreBalanced | pkg/proxy/worker_creds.go:44-71 | any m consecutive ids put m/n streams, rounded down or up, on each of n distinct servers |
| Dispatcher.FirstReadyIsFirst | pkg/proxy/init_groups.go:193-200 | the search finds the nearest ready stream on the ring, or none exactly if none is ready |
| Dispatcher.Loop.RememberSource | pkg/proxy/init_groups.go:176-191 | source bookkeeping and broadcast |
| Dispatcher.Loop.PickStream | pkg/proxy/init_groups.go:193-200 | the search loop |
| Dispatcher.Loop.TrySend | pkg/proxy/init_groups.go:207-211 | the non-blocking send |
| Dispatcher.Loop.FinishPacket | pkg/proxy/init_groups.go:206-216 | chunk counting and rotation |
| Dispatcher.Loop.HandlePacket | pkg/proxy/init_groups.go:168-217 | the loop body equals the transition function |
| DispatcherResults.RunKeeps | pkg/proxy/init_groups.go:150-218 | every run keeps ring position and buffer ownership |
| DispatcherResults.BuffersHaveOneOwner | pkg/proxy/init_groups.go:168-212 | each buffer made is in exactly one place: the pool, one channel, or one TX goroutine |
| DispatcherResults.PacketsFollowClosedForm | pkg/proxy/init_groups.go:193-217 | the k-th accepted packet goes to the first ready stream circularly from (k/8) mod n and nowhere else, or back to the pool if its channel is full |
| DispatcherResults.PeersAreLastChange | pkg/proxy/init_groups.go:166-191 | in every run all streams hold the source of the last packet that differed from the one of its kind before it |
| DispatcherResults.PeersFollowExactly | pkg/proxy/init_groups.go:166-191 | after a run all streams hold the last packet's source exactly if the last change was of its kind |
| DispatcherResults.UdpPeersFollow | pkg/proxy/init_groups.go:154-191 | on a UDP listener they always do |
| DispatcherResults.MixedSourcesDisagree | pkg/proxy/init_groups.go:166-191 | a run of three packets of mixed kinds after which they do not |
| DispatcherResults.GapIsMaximal | pkg/proxy/init_groups.go:193-200 | the gap counts exactly the not-ready streams directly before a stream |
| DispatcherResults.PickedExactly | pkg/proxy/init_groups.go:193-200 | a stream is picked from a ring start exactly if it lies at most its gap ahead |
| DispatcherResults.StartsFormula | pkg/proxy/init_groups.go:193-216 | how many ring starts pick a stream, in closed form |
| DispatcherResults.FairShare | pkg/proxy/init_groups.go:147-216 | with fixed flags the targets of any 8n consecutive packet numbers give a ready stream 8 for itself and 8 for each not-ready stream directly before it |
| DispatcherResults.RunsShareFairly | pkg/proxy/init_groups.go:147-217 | in every run, while the flags stay as they are, of 8n consecutive accepted packets a ready stream is offered 8 for itself and 8 for each not-ready stream directly before it |
| DnsMessage.SplitIsExact | pkg/proxy/dns.go:364 | splitting at dots loses nothing |
| DnsMessage.LabelsAreTheDomains | pkg/proxy/dns.go:364 | the query's labels are the only dot-free parts that joined by dots are the domain without its trailing dot |
| DnsMessage.BuildDNSQuery | pkg/proxy/dns.go:350-378 | the query octet by octet: id, flags, one question for the trimmed domain's address |
| DnsResponse.PassQuestion | pkg/proxy/dns.go:405-412 | the question loop |
| DnsResponse.PassName | pkg/proxy/dns.go:417-431 | the answer-name loop |
| DnsResponse.PassAnswers | pkg/proxy/dns.go:416-456 | the loop over the answers |
| DnsResponse.ParseDNSResponse | pkg/proxy/dns.go:381-457 | on every byte string the parser terminates, stays in range and equals the positional description |
| DnsResponse.RefusedExactly | pkg/proxy/dns.go:382-402 | which messages are refused before their answers are read: short, no response, an error, no answers |
| DnsResponse.AddressIsRecorded | pkg/proxy/dns.go:404-451 | whatever the message, an address it yields stands behind its header as the four octets of a record of type A |
| DnsResponse.WellFormedResponsesAreRead | pkg/proxy/dns.go:381-457 | on every well-formed response (section 4.1 of RFC 1035) it returns the first answer of type A with four octets, and fails exactly if there is none |
| DnsResponse.FirstAddressIsFirst | pkg/proxy/dns.go:443-451 | that answer is an address record and no earlier one is |
| DnsResponse.TurnReadsRecord | pkg/proxy/dns.go:416-454 | over a well-formed record a turn takes its address or goes on behind it; the guard that stops ten octets early never costs an answer |
| DnsResponse.AnswersAreRead | pkg/proxy/dns.go:415-454 | so the loop finds the first address record |
| DnsResponse.TruncationInventsNothing | pkg/proxy/dns.go:208-221 | an address read from a prefix of a message is the address read from the whole |
| DnsResponse.QuestionSkippedExactly | pkg/proxy/dns.go:404-413 | the question is walked to its end if every label has 1 to 63 octets, and short of it if some part has not and none is above 255 |
| DnsResponse.LongPartCanBeWalked | pkg/proxy/dns.go:365-368 | a part of 257 octets, counted as 1, that is walked exactly to the end |
| DnsServers.EveryServerHasOneTurn | pkg/proxy/dns.go:144-150 | one resolution reaches every server once |
| DnsServers.Resolver.Resolve | pkg/proxy/dns.go:138-166 | whatever resolutions beside it do to the index, the first server in circular order from the last success it read that answers is taken and remembered; failure means every server failed, and nothing is written |
| CaptchaMailbox.CaptchaHost.OpenRequest | pkg/proxy/captcha_host.go:45-54 | the opening critical section |
| CaptchaMailbox.CaptchaHost.FinishRequest | pkg/proxy/captcha_host.go:62-69 | the deferred critical section |
| CaptchaMailbox.CaptchaHost.PublishCaptchaAnswer | pkg/proxy/captcha_host.go:111-123 | the publishing critical section |
| CaptchaMailbox.CaptchaHost.PendingCaptchaURL | pkg/proxy/captcha_host.go:96-100 | the pending URL |
| CaptchaMailbox.RunKeepsInv | pkg/proxy/captcha_host.go:44-123 | every interleaving of requests, answers, timeouts and cancellations keeps the invariant |
| CaptchaMailbox.NoPanic | pkg/proxy/captcha_host.go:102-123 | no channel is closed twice, nothing is sent on a closed one, and the current one is open |
| CaptchaMailbox.AnswersBelong | pkg/proxy/captcha_host.go:80-93 | a request returns only an answer published while its own channel was current |
| CaptchaMailbox.PublishedWhileCurrent | pkg/proxy/captcha_host.go:111-123 | each publication goes to the current channel or nowhere |
| CaptchaMailbox.PublicationIsReceived | pkg/proxy/captcha_host.go:80-123 | an answer published to a waiting request reaches it, unless an earlier one is still buffered |
| CaptchaMailbox.PendingIsNewest | pkg/proxy/captcha_host.go:44-100 | the pending URL is the newest request's exactly while that is unfinished |
| CaptchaMailbox.SupersededCanLeave | pkg/proxy/captcha_host.go:48-51 | a superseded request can always return |
| BypassRoutes.AddIsAccounted | keen/routes.go:66-70 | adding, with or without success, keeps: current routes are installed, and the only others are those whose removal failed |
| BypassRoutes.RemoveIsAccounted | keen/routes.go:82-90 | so does removing |
| BypassRoutes.NothingStuck | keen/routes.go:82-91 | without failures exactly the current routes are installed |
| BypassRoutes.RouteManager.constructor | keen/routes.go:31-38 | an empty table on the WAN found |
| BypassRoutes.RouteManager.AddBypassRoutes | keen/routes.go:49-73 | keeps the account; only IPv4 texts are added, and each is in the table or its command was tried and failed |
| BypassRoutes.RouteManager.RemoveAllLocked | keen/routes.go:82-91 | keeps the account, empties the table after trying to remove every route of it, removes nothing else from the router |
| BypassRoutes.RouteManager.Cleanup | keen/routes.go:76-80 | likewise; if no command ever failed no route is left |
| BypassRoutes.RouteManager.RefreshWAN | keen/routes.go:96-121 | changes something exactly on a new WAN; every address is tried to be removed and added again; without failures the addresses stay and all move to it, and if none ever failed the routes via the WAN are all there are |
| SocksUdp.ParseUDPHeader | owrt/socks.go:442-484 | in range on every byte string; rejects exactly the truncated, the fragmented and those of unknown address type (section 7 of RFC 1928) |
| SocksUdp.BuildUDPHeader | owrt/socks.go:487-504 | writes the header of the pure description |
| SocksUdp.HeaderOctets | owrt/socks.go:487-504 | the header octet by octet, with address types 1, 3 and 4 |
| SocksUdp.MappedExactly | owrt/socks.go:487-504 | exactly an IPv4 address in IPv6 form is sent as IPv4 |
| SocksUdp.AcceptedExactly | owrt/socks.go:442-484 | which datagrams are accepted, by octet and length |
| SocksUdp.BuiltIsParsed | owrt/socks.go:442-504 | what is built is parsed back for every IPv4, IPv6 or name of at most 255 octets; a name that spells an address comes back as the address |
| SocksUdp.LongNameIsCut | owrt/socks.go:492-494 | a longer name comes back cut |
| SocksUdp.RoundTripExactly | owrt/socks.go:442-504 | the round trip is exact exactly for 16-bit ports and names of at most 255 octets |
| SocksUdp.RebuiltExactly | owrt/socks.go:442-504 | building from what was parsed gives back the octets exactly if the reserved ones are zero, no IPv4 address came in IPv6 form and no name spells an address |

## Left out

- ChaCha20 and SHA-256 are parameters, as are random bytes; that drawn SSRCs do not repeat is an assumption of the nonce lemmas, its probability is not modelled.
- WrapNonce.WrapTxState.Next: does not model the branch for the SHA client keystream with its process-wide counter, because the client cipher is a constant that selects ChaCha20.
- WrapPacket.WrapPacketInto: takes the claimed pair and the random draws as inputs and assumes, as the source demands, that destination and payload do not overlap.
- NetworkGate.NetworkAvailability.BeginNetworkPathGeneration: generations and probe ids are unbounded, the wrap of their 64-bit counters is not modelled.
- TurnRaceObject.Race.AdvanceDial: the outcome of dial, client creation, listen and allocate is an input; what they do inside, and the session transports between winner and close, are not modelled.
- TurnRaceResults.NoDeadlock: says that an action is possible, not that a scheduler takes it; no liveness under unfair scheduling is claimed anywhere.
- NetworkWorkers.StepKeepsInv: the length of retry delays (reconnectDelay), the classification of errors and the TURN address override do not matter to it and are not modelled; a delay may end at any time.
- Keepalive.StreamActivity.NoteRx: one atomic store; which packets count as validated is not modelled.
- SrtpDeadline.WrappedConn.SetDl: only the deadline part of the SRTP connection is modelled; sequence numbers, encryption, buffers, demultiplexing and the packet and close cases of the select are one `Receive` event.
- Credentials.CredentialsStore.GetStreamCache: the double-checked read lock is one critical section; clearing all slots on a network change and listing the active addresses are not modelled.
- StreamPlan.ParseLinks: starts from the pieces after splitting at separators and trimming.
- ServerAssignment.AssignServers: sort.Strings is a sorting function on values; by SortedIsUnique any sorting algorithm gives that result.
- Dispatcher.Loop.HandlePacket: `ready` holds what each flag reads as when the search reaches it; an IP address is a number that is equal for equal addresses; closing the listener is not modelled.
- DnsResponse.ParseDNSResponse: returns the four octets rather than their text.
- DnsServers.Resolver.Resolve: what each server answers is an input; the transports (UDP, HTTPS, TLS) and the cache in front are not modelled.
- CaptchaMailbox.CaptchaHost.OpenRequest: the wake-up of the readiness wait and the timer itself are not modelled; a request may give up at any time.
- BypassRoutes.RouteManager.AddBypassRoutes: whether a text parses as IPv4 is a parameter, and the router holds only the routes this manager installed.
- SocksUdp.ParseUDPHeader: a host is a structured value instead of its text, and which texts denote which addresses is a parameter; the association's session table is not modelled.
- The login chains, captcha solving, fingerprints, control panel, configuration files, netlink, nft, UCI and the WireGuard device are not modelled: they are remote behaviour, foreign calls, I/O or small single-branch functions.
