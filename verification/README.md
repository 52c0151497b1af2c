# GDNP negotiation: a verified model

GDNP (draft-carpenter-anima-gdn-protocol-03) lets two devices negotiate an objective
value. A client opens a TCP session with a REQUEST that carries a value and a loop
count; client and server then hand counter-offers (NEGO) back and forth under a falling
count until one side writes a NEGO_END with Accept or Decline. While the server's ASA
(the application) is thinking, helper threads write WAITs; a synchronization is a
REQUEST answered at once; discovery finds the server by UDP multicast with retries.

The project models this in four layers and proves that they fit together.

| file | module | content |
|---|---|---|
| Wire.dfy | Wire | bytes, options, frames; printing and parsing as functions |
| Codec.dfy | Codec | the in-place printers, parsers, `encode` and `decode` on arrays |
| Bargain.dfy | Bargain | the negotiation as a game between two ASAs (the reference) |
| ClientTcp.dfy | ClientTcp | the client's exchange: reaction to one PDU, to a stream, and the class |
| Session.dfy | Session | the server session's run loop, waiters and end threads, step by step |
| ClientStates.dfy | ClientStates | what keeps a client from bargaining twice at a time, and how an exchange fails |
| HelperThreads.dfy | HelperThreads | what end threads and waiters do, besides doing no harm |
| ServerSession.dfy | ServerSessions | class ServerSession as code, replayed on the machine of Session |
| ServerMaster.dfy | ServerMasters | the session table and the demultiplexer |
| Pairing.dfy, PairingInv.dfy, PairingSteps.dfy, PairingTheorems.dfy, Termination.dfy | same names | one client and its session joined by two channels: invariant, preservation, theorems, termination |
| PairedClient.dfy | PairedClient | the paired client is one run of the client's code |
| PairedServer.dfy | PairedServer | the paired server is an execution of the machine of Session |
| PairedIdleEnd.dfy | PairedIdleEnd | what one idle end can do to a paired run |
| Stack.dfy | Stack | the paired system with frames in its channels, a refinement of Pairing |
| Discovering.dfy | Discovering | the discovery state machine and its retry loop |
| WaitTicks.dfy | WaitTicks | run loop and waiters against a clock: how long a client can go without a PDU |

## Main results

* **Refinement** (`CompleteRunsPlayTheGame`). For all ASA callbacks on both sides and
  every opening count from 1 to 255, an execution in which no idle timeout fires and
  nothing is left to do has brought both ends to the outcome of `Bargain.Play`, whatever
  WAITs, repetitions, foreign PDUs and thread interleavings it contained, exactly when
  the duplicate filter did not swallow a message. `PlayEndsAtFirstStop` says what that
  outcome is without recursion. `EveryRunCanBeCompleted` carries every execution on to
  such an end, within the bound of `ProductiveStepsAreBounded`.
* **Idle ends.** That no idle timeout fires is needed (`IdleEndStrandsTheClient`,
  `NoIdleEndIsNeeded`). An idle end ends the session wherever the run loop does not
  overwrite the state (`IdleEndEndsSession`), and is lost exactly where it does
  (`IdleEndIsLost`).
* **One system.** The client in these executions is one run of the client's code
  (`ClientRunsItsCode`, with `TcpClient.Negotiate`), so the code plays the game
  (`CodePlaysTheGame`); the server is an execution of the machine of Session
  (`PairedServerIsSession`), which the class replays (`RunLoop`); and with every PDU printed, encoded, decoded and parsed on the
  way the executions are the same (`FramedRunsArePairedRuns`, `FramedRunsPlayTheGame`).
* **Agreement** (`VerdictsAreTheGames`). In every execution, idle timeouts included, a
  verdict that either side announces is the game's; at most one NEGO_END is written.
* **Counts and parity** (`CountsBoundOffers`, `ExhaustionFollowsParity`), **configured
  value** (`ConfiguredExactly`), **synchronization**
  (`SynchronizationConfiguresServerResult`).
* **Erasure** (`ErasureLeavesRun`): WAITs and foreign PDUs leave no trace in a client.
* **Threads** (`EveryInterleavingIsSafe`, `LateWriteExactly`), **demultiplexing**
  (`EverySessionGetsItsLane`, `SessionsAreIsolated`), **wire** (`FullStackRoundTrip`,
  `WireIsTransparent`, `OptionLayout`, `HeaderLayout`), **discovery**
  (`SixthTimeoutGivesUp`, `FirstAnswerIsTaken`, `RecvOutcome`), **timing**
  (`ClientHearsInTime`, `WaiterTakesItsTime`, `QuickAnswerDrawsNoWait`).
* **One bargain at a time** (`BusyClientRefuses`, `RefusalUnlocks`), **failing exchanges**
  (`UnexpectedMessageEndsExchange`).

## Where the code falls short of its intent

Each of these is proved, with the exact condition under which the intent is met.

* `content::operator==` uses `strcmp` on option bytes whose second byte is always zero, so
  it compares message and option types only (`StrcmpComparesTypes`). The client's second
  NEGO is dropped as a duplicate. A game that opens with 5 or more and is not decided
  upon one of its first four offers therefore never ends (`StrcmpSilencesLongGames`);
  two ASAs that nothing satisfies are an input (`StubbornAsasAreSilenced`). Since
  `negotiate` opens with 5, no decline is ever reported (`DefaultCountNeverDeclines`).
  The filter is a parameter: `CStringContent` is the code, `WholeContent` what it means
  to do.
* `send` tests the state and writes in two accesses, so a WAIT can follow the NEGO_END:
  exactly while a waiter is past its test (`LateWriteExactly`, `LateWaitHappens`). If
  the two were one access it could not happen (`AtomicSessionsEndWithNegoEnd`).
* `send_tcp` fills `lastTopOptions` after the exchange, from the buffer that was read
  into. A client whose opening offer the server accepts, instead of countering it,
  configures what was there before (`ConfiguredExactly`, `ImmediateAcceptsConfigureStale`).
* `end_thread_handler` writes the state without a lock. While the ASA works, and around
  the writing of a counter-offer, the run loop overwrites it and the session goes on
  (`IdleEndIsLost`).
* The client's state stays OFF until the server's first answer, so a second `negotiate`
  before that is not refused and writes a second REQUEST (`BusyClientRefuses`); and the
  thread of a refused `negotiate` sets the state to OFF, so the next one is not refused
  either (`RefusalUnlocks`).
* `synchronize` configures what it parses from its buffer even if the exchange failed
  (`UnexpectedMessageEndsExchange`).
* A WAIT without a waiting time ends the client's exchange (`WaitDeletableExactly`).
* After a discovery that gave up, state and type can look like a NEGO_END was received,
  because a refused PDU has already overwritten `type`: exactly if there are more
  timeouts than tries and the last message decoded before the one too many was a
  NEGO_END (`RecvOutcome`, `StaleTypeExample`).

## Modelling assumptions

* ASA callbacks are functions of their arguments, and their values are NUL-free and at
  most 994 bytes, so that one PDU holds them (a longer answer overruns `send_buffer`).
* Memory that the code reads without having written it is a parameter: the tail of
  `send_buffer` (`junk`), `last_content` before the first message (`uninit`),
  `lastTopOptions` (`stale`), the caller's `type` in discovery.
* A parsed value is the C string within its length; both hosts are little-endian; an
  option number above 7, for which the source leaves the type unset, reads as Divert.
* Reads and writes on an open TCP connection succeed and keep their order (what
  `ServerSession.Send` does if a write fails is modelled, its callers' writes succeed). Blocking
  reads, `select` and `recvfrom` are input streams: a call that would wait for more
  input stops where it stands.
* A shift by whole bytes and the `|` that follows it are a multiplication and a sum
  (`OrIsSum`, `HeaderOrIsSum`).
* `end_thread_handler` may end the session at any time after it was launched.

## Model

| member | source | states |
|---|---|---|
| Wire.OrIsSum | Option.cpp:103-103 | the word with count and flag is the sum of its halves and splits back into them |
| Wire.HeaderOrIsSum | msg.cpp:53-55 | the same for the frame header |
| Wire.ObjectiveRoundTrip | Option.cpp:174-219 | parsing what to_bits printed gives the option back, whatever bytes follow it |
| Wire.OptionRoundTrip | Option.cpp:119-163 | the same for options without count and flag |
| Wire.ObjectiveReadAsOption | Client_TCP.cpp:235-247 | of an objective option the plain parser gets the type right and finds flag and count in front of the value |
| Wire.OptionReadAsObjective | Client_TCP.cpp:235-247 | of a plain option the objective parser gets the type right and takes the two bytes behind the length as flag and count |
| Wire.DecodeOfEncode | msg.cpp:43-121 | encode fails exactly on oversized data or session id; otherwise decode returns type, id and the zero-padded data |
| Wire.EncodeOfDecode | msg.cpp:78-121 | decode accepts exactly the headers whose top byte is a message type, and encode rebuilds the frame but for its last byte |
| Wire.FullStackRoundTrip | msg.cpp:43-121 | to_bits, encode, decode, parse_bits return message type, session id, option type, length, value, count and flag, under any padding |
| Wire.OptionLayout | Option.cpp:73-108 | the bytes of options on the wire: the eight type numbers, length, flag before count, value |
| Wire.HeaderLayout | msg.cpp:43-62 | the six message numbers stand in the top byte of the header, the session id below |
| Codec.StartBits | Option.cpp:75-80 | the zeroed allocation with type and length words |
| Codec.OptionToBits | Option.cpp:73-85 | the array holds the option's bytes |
| Codec.ObjectiveToBits | Option.cpp:95-108 | the array holds the objective option's bytes |
| Codec.CopyUntilNul | Option.cpp:153-160 | the copy is the C string at the start of the window |
| Codec.OptionParseBits | Option.cpp:119-163 | the parsed option is ParseOption of the bytes |
| Codec.ObjectiveParseBits | Option.cpp:174-219 | the parsed option is ParseObjective of the bytes, count and flag split by division |
| Codec.Encode | msg.cpp:43-63 | the frame is filled in place, or left untouched with the error |
| Codec.Decode | msg.cpp:78-121 | out-parameters and buffer are those of the frame; nothing is written on failure |
| Codec.ShortWriteIsPadded | msg.cpp:50-61 | writing just the option's bytes makes the same frame as writing the zero-padded buffer |
| Codec.WireIsTransparent | BaseNegotiator.cpp:267-334 | a sequence of PDUs comes back from its frames unchanged |
| Codec.StoreLastOptions | Client.cpp:69-74 | lastTopOptions holds the data, zero behind it |
| Stack.ReplyOverWire | ServerSession.cpp:252-292 | the server's reply, written with its exact length, arrives as the PDU of the model |
| Stack.WaitOverWire | ServerSession.cpp:337-339 | a waiter's eight bytes arrive as the WAIT of the model, with the same option |
| Stack.ClientOverWire | Client_TCP.cpp:194-211 | all that the client's exchange sends carries its session id and is read back unchanged |
| Stack.FramedRunsArePairedRuns | BaseNegotiator.cpp:267-334 | executions whose channels hold encoded frames of the written bytes are the executions over PDUs, whatever device ids are drawn |
| Stack.FramedRunsPlayTheGame | BaseNegotiator.cpp:267-334 | over frames too, complete executions without idle end conclude as the game does, exactly when no message was swallowed |
| Bargain.Play | ServerSession.cpp:244-295 | between 1 and m offers; who decides follows the number of offers; a decline uses up the count; the server never accepts the last count |
| Bargain.PlayEndsAtFirstStop | Client_TCP.cpp:263-303 | the outcome is the first offer in the undecided sequence that its receiver decides upon, and that decision |
| Bargain.OffersAtMost | Client_TCP.cpp:263-303 | a game has at most j offers exactly if the count is at most j or one of the first j offers is decided upon |
| Bargain.StubbornGame | ServerSession.cpp:244-295 | two ASAs that nothing satisfies use up the five offers of the default count, and the server declines |
| Bargain.LastCountIsAsymmetric | ServerSession.cpp:244-295 | on the last count a server that could agree declines and a client that can agree accepts |
| Bargain.OwnAnswerIsComparedWithOffer | Client_TCP.cpp:268-268 | both sides ask whether their own answer reaches the offer, and not the other way round |
| Bargain.ExhaustionParity | Client_TCP.cpp:277-283 | with an odd opening count a decline is the server's, with an even one the client's |
| ClientTcp.ErasureLeavesRun | Client_TCP.cpp:200-340 | deleting waiting-time WAITs and foreign PDUs from the inbound stream changes nothing the client sends, decides, configures or ends with |
| ClientTcp.WaitDeletableExactly | Client_TCP.cpp:307-340 | an in-session WAIT can be deleted from in front of every stream exactly when it carries a waiting time |
| ClientTcp.ImmediateAcceptsConfigureStale | Client_TCP.cpp:119-139 | two immediate accepts in a row configure old memory and then the empty value of the first Accept |
| ClientTcp.TcpClient.ReadOwn | Client_TCP.cpp:200-208 | reads up to the next PDU of the session, or blocks, as RunReads does |
| ClientTcp.TcpClient.PrintObjective | Client_TCP.cpp:373-377 | the option is laid over the head of the buffer, the rest stays |
| ClientTcp.TcpClient.SendCounter | Client_TCP.cpp:284-291 | the counter-offer is written over uninitialised memory and stored |
| ClientTcp.TcpClient.Answer | Client_TCP.cpp:263-291 | accept, decline or counter, in this order, with exactly the effects of Handle |
| ClientTcp.TcpClient.HandleMessage | Client_TCP.cpp:227-361 | one level of do_negotiate has the effects of Handle |
| ClientTcp.TcpClient.DoNegotiate | Client_TCP.cpp:227-362 | the recursion over reads ends in the state, output and unread input of RunReads |
| ClientTcp.TcpClient.Open | Client_TCP.cpp:192-195 | refuses a busy client or a zero count, else writes the REQUEST and decrements |
| ClientTcp.TcpClient.Finish | Client_TCP.cpp:126-131 | on success the buffer that was read into becomes lastTopOptions; the state is OFF |
| ClientTcp.TcpClient.Negotiate | Client_TCP.cpp:151-215 | a whole exchange is Exchange, for negotiate and synchronize |
| ClientStates.StateFollowsMessages | Client_TCP.cpp:263-311 | while the exchange runs, the state is OFF, NEGOING or WAIT as no message, a NEGO or a WAIT of the session was read last |
| ClientStates.RefusedExchange | Client_TCP.cpp:119-139 | a busy client or a zero count: nothing written or read, nothing lost, the error of the failing test, and OFF afterwards |
| ClientStates.OpenedExchange | Client_TCP.cpp:192-195 | any other exchange writes its REQUEST first, with the value, count and flag it was given |
| ClientStates.BusyClientRefuses | Client_TCP.cpp:119-139 | a second negotiate on a running exchange is refused exactly if a message of that exchange has been read, and writes a second REQUEST otherwise |
| ClientStates.RefusalUnlocks | Client_TCP.cpp:100-104 | after a refused negotiate the next one writes its REQUEST, and synchronize is never refused |
| ClientStates.UnexpectedMessageEndsExchange | Client_TCP.cpp:312-361 | through any WAITs and foreign PDUs, the first message without a case ends the exchange with ERROR and without a trace, except that a synchronization configures its value |
| ClientStates.EndMessageEndsExchange | Client_TCP.cpp:342-354 | and a NEGO_END with SUCCESS, its data stored as the last options, with the verdict and configuration its option stands for |
| ClientStates.FirstOfferIsAnswered | Client_TCP.cpp:263-291 | for every count and exchange, the first offer read is answered by one message: Accept, Decline, or the ASA's answer with the count lowered, 0 wrapping to 255 |
| Session.ZeroCountWraps | ServerSession.cpp:244-265 | an offer with count 0 is countered with 255 |
| Session.FreshOfAppend | ServerSession.cpp:209-217 | a new entry passes the filter exactly when it differs from the last that passed |
| Session.FreshOfRepeat | ServerSession.cpp:209-217 | repeating a queue entry in place is invisible behind the filter |
| Session.EveryInterleavingIsSafe | ServerSession.cpp:196-306 | in every interleaving: IDLE or SESSION_END at the loop head, at most one NEGO_END, only WAITs behind it |
| Session.LateWriteExactly | ServerSession.cpp:389-434 | after a NEGO_END something can still be written exactly while a waiter is past its state test |
| Session.LateWaitHappens | ServerSession.cpp:322-344 | every session that ends with its first reply has an interleaving with a WAIT behind the NEGO_END |
| Session.AtomicSessionsEndWithNegoEnd | ServerSession.cpp:423-430 | were send one access, WAITs would be written in PROCESSING only and NEGO_END would be last |
| HelperThreads.IdleEndEndsSession | ServerSession.cpp:353-376 | an idle end where the state is not about to be overwritten: within four run steps the loop has exited, and at most a NEGO_END past its test was still written |
| HelperThreads.QuietSessionEnds | ServerSession.cpp:369-374 | a polling session with an empty queue is over one or two run steps after the idle end, with nothing written |
| HelperThreads.IdleEndIsLost | ServerSession.cpp:248-248 | everywhere else two run steps lead to where they lead without the idle end |
| HelperThreads.WaiterGoesOn | ServerSession.cpp:326-343 | in PROCESSING one waiter can write any number of WAITs and is still there |
| HelperThreads.AsaIsAttended | ServerSession.cpp:223-228 | in every interleaving, while the ASA works in PROCESSING some waiter can write |
| HelperThreads.WaitersGo | ServerSession.cpp:326-333 | out of PROCESSING all waiters can leave, with nothing written |
| HelperThreads.EndersGo | ServerSession.cpp:362-366 | end threads can leave without any effect |
| HelperThreads.PushedOfferIsServed | ServerSession.cpp:198-245 | an offer pushed to a resting session is taken to the ASA, with a waiter of its own |
| ServerSessions.RunThroughReply | ServerSession.cpp:235-295 | from the state test with an offer in hand, run steps alone write exactly the reply and lead back to the loop head |
| ServerSessions.ServerSession.constructor | ServerSession.cpp:132-145 | the session is idle with its opening message queued |
| ServerSessions.ServerSession.QueuePush | ServerSession.cpp:43-50 | appends |
| ServerSessions.ServerSession.QueuePop | ServerSession.cpp:61-68 | removes the front |
| ServerSessions.ServerSession.SetState | ServerSession.cpp:455-493 | the transition table with its error cases |
| ServerSessions.ServerSession.Send | ServerSession.cpp:389-444 | which message may be written in which state, what that changes, and that a failing write changes nothing |
| ServerSessions.ServerSession.Respond | ServerSession.cpp:244-295 | writes exactly Reply, ends the session exactly on NEGO_END, announces the verdict it tells |
| ServerSessions.ServerSession.Take | ServerSession.cpp:200-228 | the first half of the loop body is a run of machine steps |
| ServerSessions.ServerSession.Process | ServerSession.cpp:235-296 | the second half is a run of machine steps |
| ServerSessions.ServerSession.RunLoop | ServerSession.cpp:196-306 | the run thread's code is an execution of the machine's Run steps |
| ServerMasters.ServerMaster.Find | Server.cpp:368-384 | the scan finds the id exactly if it is in the table |
| ServerMasters.ServerMaster.Distribute | Server.cpp:361-410 | every queue afterwards is that of Arrived; other sessions keep their object; a new one is idle |
| ServerMasters.ServerMaster.ClearWhenSessionEnd | Server.cpp:433-446 | removes this entry only |
| ServerMasters.EverySessionGetsItsLane | Server.cpp:361-410 | over every trace, what a session has popped and still holds is its own lane, in order |
| ServerMasters.SessionsAreIsolated | Server.cpp:361-446 | no event of another session changes what a session is handed |
| ServerMasters.OpenSessionIsHandedItsMessages | Server.cpp:361-410 | an open session is handed its opening REQUEST and exactly the later non-REQUESTs with its id |
| ServerMasters.PairedSessionIsOneQueue | Server.cpp:361-410 | the paired system's delivery is the demultiplexer seen from one session |
| PairingInv.ReplyIsServerMove | ServerSession.cpp:244-295 | the reply to an offer is the server's move: count first, then match |
| PairingInv.ClientPlays | Client_TCP.cpp:263-291 | the reaction to an offer is the client's move: match first, then count |
| PairingInv.ClientHears | Client_TCP.cpp:342-353 | what a NEGO_END makes the client conclude and configure |
| PairingSteps.StrcmpComparesTypes | common_structs.h:45-50 | strcmp equality of two messages is equality of message and option type |
| PairingSteps.StepKeepsInv | ServerSession.cpp:196-443 | every action of client, demultiplexer, run loop, helper thread or network keeps the position in the game |
| PairingTheorems.VerdictsAreTheGames | ServerSession.cpp:264-304 | in every execution announced verdicts are the game's, and at most one NEGO_END is written, by the decider |
| PairingTheorems.CountsBoundOffers | Client_TCP.cpp:246-290 | the k-th offer alternates sides and carries n - k; at most n offers, none with count 0, no two equal |
| PairingTheorems.ConfiguredExactly | Client_TCP.cpp:267-348 | an accepting client configures one value, the last on the wire exactly if the server's move on the opening REQUEST is to counter it, or memory held the opening value |
| PairingTheorems.ExhaustionFollowsParity | Client_TCP.cpp:277-283 | in every execution a decline uses all n offers and is ended by the side that n's parity names |
| PairingTheorems.LongGameExactly | ServerSession.cpp:244-295 | count 5 or more and none of the first four offers decided upon is the same as five offers or more |
| PairingTheorems.StrcmpSilencesLongGames | common_structs.h:45-66 | with strcmp, such a game never yields a verdict, a configuration or a NEGO_END in any execution |
| PairingTheorems.StubbornAsasAreSilenced | common_structs.h:45-66 | on one input, strcmp silences the client for ever and whole contents let both sides hear the Decline |
| PairingTheorems.DefaultCountNeverDeclines | Client_TCP.cpp:60-60 | with strcmp and the opening count 5 no side ever reports a decline |
| PairingTheorems.CompleteRunsPlayTheGame | Client_TCP.cpp:151-362 | a complete execution without idle end concludes on both sides as the game does, exactly when no message was swallowed |
| PairingTheorems.SynchronizationConfiguresServerResult | Client_TCP.cpp:406-436 | one REQUEST, one NEGO_END, and the server ASA's result is configured |
| Pairing.CopyReachesQueue | Server.cpp:361-384 | a copy that the network makes reaches the session's queue as well |
| Pairing.ForeignIsCarried | Client_TCP.cpp:202-208 | a foreign PDU is delivered and dropped, or read into the buffer, and changes nothing else |
| PairedServer.PairedServerIsSession | ServerSession.cpp:196-306 | in every paired execution the session goes through an execution of its own machine and writes what that writes |
| PairedServer.WaitsReachTheClient | ServerSession.cpp:326-343 | while the ASA works any number of WAITs of one waiter can reach the client's channel |
| PairedIdleEnd.IdleEndStrandsTheClient | ServerSession.cpp:353-376 | if the first two offers are countered, one idle end leaves a complete execution without conclusion: session gone, client waiting, no NEGO_END |
| PairedIdleEnd.NoIdleEndIsNeeded | ServerSession.cpp:353-376 | such an input exists, with the whole-content filter |
| PairedClient.ClientRunsItsCode | Client_TCP.cpp:192-303 | in every execution the client's state and writes are one Exchange over exactly the PDUs it has read |
| PairedClient.CodePlaysTheGame | Client_TCP.cpp:151-362 | what the client's code makes of the PDUs read in a complete execution is the game's verdict, or endless waiting exactly when a message was swallowed |
| Termination.EveryRunCanBeCompleted | Client_TCP.cpp:192-303 | every execution has a bounded continuation without idle end that is complete, and concluded exactly when no message is swallowed |
| Termination.ProductiveStepsAreBounded | Client_TCP.cpp:192-303 | at most 40 n + 80 productive steps plus 20 for every disturbance; none is enabled exactly when the run is complete |
| Discovering.RetriesFollowTimeouts | Client.cpp:201-210 | from any number of tries on, sends follow timeouts while tries are left, one more ends the discovery, other errors use no try, the counter is reset on return |
| Discovering.SixthTimeoutGivesUp | Client.cpp:151-162 | from no tries on, the first five timeouts are followed by a send each, and the sixth is what the call gives up on |
| Discovering.FirstAnswerIsTaken | Client_fsm_funcs.cpp:186-267 | through errors, foreign PDUs, timeouts within the limit and any number of WAITs, the first RESPONSE or NEGO_END of the session makes recv succeed with its data |
| Discovering.FirstOtherEndsWait | Client_fsm_funcs.cpp:234-267 | in WAIT the first event that is no WAIT decides: an answer succeeds, anything else is returned as its error |
| Discovering.RecvRefuses | Client.cpp:193-229 | in every other state nothing is read or changed |
| Discovering.SendExactly | Client.cpp:138-181 | a discovery goes out from OFF, and from WAIT_RESPONSE five times at most |
| Discovering.GivesUp | Client.cpp:151-162 | with more timeouts than tries left the call ends on the one too many, with the type that the messages up to it have left |
| Discovering.RecvOutcome | Client.cpp:193-229 | recv never returns TIMEOUT; success means a response or an end; state and type tell the same, exactly if the state, type and events that the call starts on are not misleading |
| Discovering.StaleTypeExample | Client_fsm_funcs.cpp:152-161 | a foreign NEGO_END and silence look like success in state and type |
| Discovering.RetryRepeatsTheRequest | Client.cpp:138-157 | the data that is sent again is the data that was sent |
| Discovering.Discoverer.SendFrom | Client.cpp:138-181 | send by state, with the try limit |
| Discovering.Discoverer.RecvInTime | Client_fsm_funcs.cpp:133-173 | the effect of one event on buffer, type and result |
| Discovering.Discoverer.RecvInWait | Client_fsm_funcs.cpp:234-267 | the recursive wait is InWait |
| Discovering.Discoverer.RecvInWaitResponse | Client_fsm_funcs.cpp:186-222 | one receive is InWaitResponse, nested wait included |
| Discovering.Discoverer.ReceiveResponse | Client.cpp:201-210 | the retry loop is RecvWaitResponse |
| Discovering.Discoverer.Receive | Client.cpp:193-229 | recv is Recv |
| WaitTicks.ClientHearsInTime | ServerSession.cpp:196-344 | in every run of loop, ASA and waiters, a message that arrives at any moment is followed by a PDU within 9 seconds and then every 8 until it is answered, below the 10-second timeout |
| WaitTicks.WaiterTakesItsTime | ServerSession.cpp:322-344 | from its launch and from each of its WAITs a waiter takes eight seconds at least to the next |
| WaitTicks.QuickAnswerDrawsNoWait | ServerSession.cpp:322-344 | an ASA faster than eight seconds draws no WAIT: its answer is all that is written, when it is ready |
| WaitTicks.IdleSecondClearsWaiters | ServerSession.cpp:326-334 | a second after the ASA was last at work no waiter is left |
| WaitTicks.PollsOnceASecond | ServerSession.cpp:198-203 | between two looks into an empty queue lies exactly one second |
| WaitTicks.TimePasses | ServerSession.cpp:196-344 | at every moment finitely many things the threads do at once let time pass, so these bounds are met by PDUs |
| WaitTicks.WaitingTimeAsRead | Client_TCP.cpp:312-315 | the client takes 16 from the four-byte waiting time of 10000 |

## Left out

- Sockets, `select`, `bind`, thread creation, interface enumeration and address comparison: I/O.
- The `tcp_fd_set` table: Server.cpp:459 lowers the count on every pass, so there is no compaction to state.
- Repeating a REQUEST in the paired system: a live session drops it (`ServerMasters.Arrived`); after the session's end it would open a second session with the same id.
- Timing of the end thread: the `idle_check` flag races, so only the possible end of the session is modelled; the flag itself appears in class ServerSession.
- Sharing of session objects between threads after they are deleted, iterator validity and raw memory layout.
- Random numbers: session and device ids are inputs.
- Discovery's retries on ADDR_ERR and failures of `send_pdu` in the retry loop, whose result the loop overwrites.
- The Divert branch, `send_in_INFORMED`, the parsing of the locator, connection retries, console output and the demo programs.
- WaitTicks.ClientHearsInTime: takes writing and delivery as instantaneous and excludes the end thread, as its bound needs.
- Codec.WireIsTransparent: no socket errors and no short reads or writes, which the source reports without a retry.
- ClientTcp.TcpClient.ReadOwn: the read does not fail; the source then goes on with the ids and bytes of the read before.
- ClientTcp.TcpClient.DoNegotiate: reads and writes succeed; a failing write would return its error.
- ClientTcp.TcpClient.Open: the connection is there and the REQUEST can be written; connection retries are a loop over `connect`.
- ClientTcp.TcpClient.Negotiate: as Open and DoNegotiate; synchronize's local buffer is the client's one buffer.
- ServerSessions.ServerSession.Take: the run thread by itself; other threads' steps are those of module Session.
- ServerSessions.ServerSession.Process: the run thread by itself, and its writes succeed.
- ServerSessions.ServerSession.RunLoop: the run thread by itself, up to where it sleeps on an empty queue.
- Discovering.Discoverer.SendFrom: `send_pdu` succeeds (`sent` counts attempts), and INFORMED, which the discovery never sends in, is an error.
