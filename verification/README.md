# A Dafny model of the PPPoE access concentrator

The daemon terminates PPPoE sessions: it answers discovery packets, gives out session ids, negotiates LCP and IPCP with
each subscriber, authenticates subscribers with or without RADIUS, gives out addresses, and takes everything back when a
session ends. This project models that behaviour and proves what every run of it keeps. Paths below are relative to the
repository root.

Run `dafny verify dfyconfig.toml` in this directory to check it.

## How it is built

| files | what they model |
|---|---|
| `Wire`, `OptionArea`, `ControlPacket` | bytes, the option lists and the header that LCP and IPCP share |
| `LcpOptions`, `IpcpOptions` | scanning, rejecting, comparing and rewriting a request's options, in the packet buffer |
| `PppFsm`, `PppFsmRuns`, `PppFsmHistory`, `PppAutomaton` | the negotiation automaton as functions, what all its runs keep, what a run's packets say about its state, and the object with its event methods |
| `Convergence`, `PppPackets` | negotiations as a complying peer sees them, over the packets that come back; and what comes back for each kind of packet, byte by byte |
| `SessionIds`, `FramedPool`, `Aaa`, `AaaTable` | the id allocator, an address pool, the AAA table and who owns which address; as functions and as objects |
| `Daemon`, `DaemonInvariant`, `DaemonSteps` | the whole daemon as a transition system over packets, timers and RADIUS answers in any order; its invariant; that every event keeps it |
| `DaemonTheorems`, `DaemonHistory`, `DaemonAnswers` | what follows for every run, for sessions and addresses, for discovery, and for what PAP and CHAP tell the client |
| `DaemonContinuations`, `DaemonGate`, `DaemonEcho` | what a teardown leaves running, what nothing makes wait for LCP, and what the echo counter counts: expectations that fail, and exactly when they hold |
| `DaemonAddresses`, `DaemonOrphans`, `DaemonDataPlane`, `DaemonLayers` | likewise for shared addresses, for AAA sessions nobody can stop, for sessions that stay in the data plane, and for clients that negotiate LCP again |
| `PppoeSession`, `PppoeRuntime` | session object and session table in the code's own form, proved against the transition system |
| `Tags`, `Encapsulation`, `RadiusAvp`, `PapHiding` | the codecs, with their loops |
| `Discovery` | discovery from a packet's bytes to the session table and the answer's bytes |
| `RadiusMessages` | RADIUS requests and answers between their fields and their attributes' bytes |
| `RadiusClient` | the table of RADIUS requests in flight |
| `CommandTable`, `CommandTrie` | the control client's commands as a flat table, and the tree in the heap that stands for it |

Code that changes state step by step is a method over fields, arrays or heap nodes, and its postcondition ties the new
state to a function of the old one. The theorems are about these functions. Values that the code does not keep but a proof
needs (`Session.from`, `acked`, `auths`, `Entry.serial`, the ghost fields of classes) are marked as such where they are
declared.

## Where the code does not do what one would expect

Each of these is proved, by events or bytes that show the expectation failing, by the exact condition under which it holds,
or by both.

- **A session can be put into the data plane while its LCP is not open.** Nothing makes PAP, CHAP or IPCP frames wait for
  LCP (`src/ppp.cpp:68-91`), so whichever of CHAP and PAP are configured, a PAP request that an AAA method accepts and two
  IPCP packets are enough (`ProvisionedWithoutLcp`). A session is provisioned with LCP open if and only if LCP was open when
  the frame came (`ProvisionedOpenIff`); if no IPCP frame comes before LCP is open, every session with IPCP open has LCP
  open (`OpenTogether`).
- **Without an authentication protocol LCP never opens.** `docs/CONFIG.md:190` says that IPCP then starts at once; in the
  code LCP has no request to send and stays in Starting (`src/ppp_lcp.cpp:54-56`, `LcpBeginsIff`, `NoAuthNoLcp`), so IPCP
  is not started by LCP, and whoever is provisioned all the same is so without LCP (`NeverOpenWithoutMethod`). The model
  follows the code.
- **A client cannot negotiate LCP again.** When its Configure-Request arrives with LCP open, the automaton starts over and sends
  its own request (`src/ppp_fsm.cpp:78-83`), but the session is torn down at the same time (`src/ppp.cpp:60-63`): an open
  session is ended by exactly a Configure-Request, a Configure-Ack with our identifier and a Terminate-Request
  (`LcpPacketEndsIff`), and by no event is it left in the table with LCP no longer open (`OpenOrEnded`).
- **Without an authentication protocol a peer that answers every echo is torn down.** An automaton in Starting drops the
  reply (`src/ppp_fsm.cpp:25-30`, `ReplyIsNotHeard`). A reply resets the counter if and only if CHAP or PAP is configured
  (`ReplyCountsIff`), and the counter is always the number of firings since the last reply that was heard
  (`CounterIsUnanswered`, `TenthFiringIsLast`).
- **A torn-down session's echo timer ends another session.** Teardown does not stop the timer, and its last firing ends
  whatever session has the old id by then (`StaleTimerEndsAnother`). No other session is lost exactly if the object is
  still active or its id is free (`WhomTheTenthFiringEnds`).
- **A PADT ends anybody's session.** The sender is not compared with the session's key (`src/pppoe.cpp:207-210`): a session
  of another line is ended exactly if the id is that of a session of another line (`PadtFromAnyLine`,
  `StrangerEndsASession`).
- **A teardown never takes a session out of the data plane.** The destructor does (`src/session.cpp:23-26`), and from
  provisioning on the echo timer holds the object: a provisioned session leaves the data plane at its tenth firing without
  a heard reply and at no other event (`DataPlaneEndsIff`), so not with a PADT (`PadtLeavesItIn`), nor at a clean-up.
- **Teardown leaves AAA sessions behind.** A method that succeeds without RADIUS does not end the loop over the methods
  (`src/aaa.cpp:68-75`), so one PAP request can create two AAA sessions (`SecondMethodLeavesAnEntry`). The AAA side is clean
  exactly if the session authenticated at most once (`WhatTeardownLeaves`). An entry that is not the one an active session
  refers to is exactly one that no teardown takes out (`OrphanIff`); with its address it stays until a clean-up
  (`OrphansStay`, `OrphansKeepAddresses`).
- **A RADIUS answer that does not accept authenticates.** The error is reported and then the answer is treated like any
  other (`src/aaa.cpp:175-177`): the session is authenticated if and only if an AAA id is free and its object still exists,
  whatever the answer says (`AnswerBindsIff`).
- **Two sessions can have the same address.** A pool with nothing left gives 0.0.0.0, and that is no error
  (`ZeroIsShared`): two sessions served by one pool have the same address if and only if both got none
  (`SameAddressIffNone`), and a session gets one exactly if its pool has a free one (`NoneAddressIff`, `RadiusAddressIff`).
  An address that a RADIUS answer names is not reserved in any pool (`src/aaa_session.cpp:43`), so two answers can give it
  to two sessions (`NamedAddressIsShared`); if the pools' ranges do not overlap, sharing an address other than 0.0.0.0
  takes at least one session that has it from no pool (`SharingNeedsANamedAddress`).
- **IPCP can be open although the peer's latest request was rejected** (`IpcpOpensOnARejectedRequest`), because a reject
  leaves the state alone (`src/ppp_ipcp.cpp:159-161`). The latest request is the acknowledged one if and only if an AAA
  session was there to compare it with and all its options are known (`LatestAckedIff`); for LCP it always is (`WeAckedIt`).
- **Our keepalive is not one a peer of our own kind would answer.** The Echo-Request carries the magic number in an option
  where section 5.8 of RFC 1661 has the number itself (`src/ppp_lcp.cpp:272-276`), and the answering side compares those
  bytes: it answers if and only if the magic number is 0x05060506 (`OurKindAnswersIff`).
- **A complying IPCP peer is acknowledged if and only if it asks for at least one known option** (`NegotiationConverges`,
  `NothingKnownNeverAcked`, and over the packets `DialogueConverges`): an empty option list gets no answer.
- **Long tags are cut off.** `insertTag` returns the size as a byte, so a PADO is complete if and only if every value has at
  most 251 bytes and the whole fits 16 bits (`DeclaredIsExactIff`, `LongValueIsLost`).
- **A requested service with an empty name is refused** unless the policy ignores names, even if the policy lists the empty
  name (`Tags.Offer`).
- **An answer to a frame whose outer tag has id 0 with another tag inside does not come back** (`AnswerReachesSender`).
- **A RADIUS request is given up silently** exactly if the request with the same eight-bit id is still outstanding
  (`GivenUpIff`, `GivenUpStaysSilent`, and the last of 257 requests, `OneTooManyIsGivenUp`), and a handler may run more than
  once (`CallsCountHits`, `DuplicateAnswerRunsTwice`, `LateAnswerRunsBoth`).
- **A stray datagram can leave a request without its answer** until another request is sent (`StrayDatagramDeafens`):
  receiving is only started by sending (`src/auth_client.cpp:38-45`). Counted since the table of requests was last emptied,
  an answer can be taken if and only if fewer datagrams came than requests were accepted (`AnswerTakenIff`), and there is a
  receive for every request in the table if and only if no more datagrams came than timer completions
  (`ReceivePerRequestIff`); datagrams that had arrived when the table was emptied come on top in both.
- **A vendor's attribute in a request never arrives**, its container's type byte being left out (`src/radius_avp.cpp:76-95`,
  `VendorIsLost`).
- **A request's attributes with the same type displace each other.** A request arrives as a whole if and only if each
  attribute fits and no two different ones have the same type (`AllArriveIff`), as two names the dictionary lacks would.
- **A command line with unknown words in it calls the command the other words name** (`UnknownTokenIsSkipped`), and a command
  that others start with cannot be called (`OwnCallbackIff`).

## Model

| member | source | states |
|---|---|---|
| OptionArea.ParseUnparse | src/packet.cpp:18-27 | option lists written into an area are well-formed and read back unchanged |
| OptionArea.UnparseParse | src/packet.cpp:18-27 | reading a well-formed area and writing the options back gives the same bytes |
| ControlPacket.BuildIsSound | src/ppp_lcp.cpp:186-193 | a packet of ours carries exactly the area it was built from, if its length fits 16 bits |
| Wire.NetworkOrder | src/net_integer.hpp:6-12 | numbers are written with the most significant byte first: they compare as their bytes do from the left |
| LcpOptions.Scan | src/ppp_lcp.cpp:123-144 | the loop over the buffer acknowledges iff all options are MRU or Magic-Number, collects exactly the others' bytes in order, and notes the peer's values |
| LcpOptions.RejectBytes | src/ppp_lcp.cpp:140-166 | what is rejected is itself a well-formed area, holding the refused options in order |
| LcpOptions.NothingRefusedIff | src/ppp_lcp.cpp:134-147 | nothing is rejected iff the area holds MRU and Magic-Number options only |
| LcpOptions.ResubmissionIsAcked | src/ppp_lcp.cpp:134-166 | a peer that drops what was rejected has nothing left that could be: its remaining options are exactly the acceptable ones, in order, and the same values are noted (that a remainder is then acknowledged is Convergence.LcpConverges) |
| LcpOptions.LastMruCounts | src/ppp_lcp.cpp:134-136 | the noted MRU is that of the last MRU option, or the old one without such an option |
| LcpOptions.LastMagicCounts | src/ppp_lcp.cpp:137-139 | likewise for the magic number |
| IpcpOptions.ParseOptions | src/packet.cpp:18-27 | the loop finds the places of exactly the area's options |
| IpcpOptions.CollectRejected | src/ppp_ipcp.cpp:149-157 | the reject lists exactly the unknown options' bytes, in order |
| IpcpOptions.CompareValues | src/ppp_ipcp.cpp:163-189 | the verdict is positive iff every known option carries the AAA session's value |
| IpcpOptions.RewriteToNak | src/ppp_ipcp.cpp:81-116 | rewriting in the buffer replaces the known values, keeps header, option boundaries and padding, and changes nothing else |
| IpcpOptions.NakContents | src/ppp_ipcp.cpp:94-116 | the Nak's options stand at their old places with their old sizes; known ones hold the AAA values, unknown ones are untouched |
| IpcpOptions.EachItsOwnValue | src/ppp_ipcp.cpp:94-208 | without naming the lookup function: a request is acknowledged iff it holds options of types 3, 129 and 131 only and each reads as the AAA session's address, primary and secondary name server respectively; a Nak offers each its own value; a Reject lists exactly the options of other types |
| IpcpOptions.NegotiationConverges | src/ppp_ipcp.cpp:127-210 | with at least one known option a complying peer is acknowledged at its third request at the latest, at exactly the predicted one, with its known options in order and the AAA session's values |
| IpcpOptions.AcceptedOnceKnown | src/ppp_ipcp.cpp:163-208 | without unknown options: acknowledged at once if the values agree, else after exactly one Nak |
| IpcpOptions.NothingKnownNeverAcked | src/ppp_ipcp.cpp:131-161 | without a known option no request of the exchange is ever acknowledged |
| Convergence.IpcpRequest | src/ppp_ipcp.cpp:127-210 | in Req-Sent, Ack-Rcvd and Ack-Sent a request is answered by the one packet that says what its options come to, and only an acknowledgement moves the automaton on |
| Convergence.DialogueConverges | src/ppp_ipcp.cpp:127-210 | from these states, with any identifiers, the packets on the wire lead a complying peer to its acknowledgement at exactly the predicted request, with the AAA session's values; the layer comes up iff the peer had acknowledged ours |
| Convergence.LcpRequest | src/ppp_lcp.cpp:119-170 | likewise for LCP: an acknowledgement iff all options are MRU or Magic-Number, else a Configure-Reject of the others |
| Convergence.LcpConverges | src/ppp_lcp.cpp:146-167 | a peer that drops what it finds in the Reject and still asks for something is acknowledged at its second request |
| PppPackets.OurRequestIsSent | src/ppp_lcp.cpp:19-78 | by its bytes: our request has code 1 and identifier 1 and asks, for LCP, for the configured MRU, for 0xc223 with 5 if CHAP is configured and else for 0xc023, and for our magic number; for IPCP, for 100.64.0.1; none goes out iff LCP has no protocol to ask for |
| PppPackets.OpenAndUpCommute | src/ppp_fsm.cpp:96-141 | with something to ask for, opening and lower-layer-up come to the same in either order, from every phase: our request goes out once from Initial, Starting and Closed, and Closing becomes Stopping |
| PppPackets.IpcpAnswersRight | src/ppp_ipcp.cpp:127-210 | while our request is out, IPCP answers a request with options in one packet with the request's identifier: the request with code 2, a Nak (3) with each option's own value, or a Reject (4) of the others, exactly as the options demand; nothing iff the list is empty or there is no AAA session |
| PppPackets.LcpAnswersRight | src/ppp_lcp.cpp:119-214 | likewise LCP: the request with code 2 iff it holds options of types 1 and 5 only, else a Reject with its identifier that lists exactly the others, in order |
| PppPackets.RequestElsewhere | src/ppp_fsm.cpp:69-94 | a request in any other phase: in Opened our own request goes out and the layer goes down, in Stopped it goes out before the answer, elsewhere the request is dropped |
| PppPackets.PeerIsNoted | src/ppp_lcp.cpp:134-139 | LCP notes the last MRU and the last magic number of a request that it looks at, and of no other packet |
| PppPackets.AckSends | src/ppp_fsm.cpp:143-184 | an acknowledgement needs identifier 1; it sends nothing, except that one in Opened has our request go out again |
| PppPackets.ReturnedIff | src/ppp_lcp.cpp:217-252 | a Terminate-Request is answered by code 6 and an Echo-Request by code 10 iff it carries the peer's magic number; the answer has the packet's identifier, length and data, and our magic number |
| PppPackets.OthersAreIgnored | src/ppp_fsm.cpp:32-66 | no other packet sends or changes anything, and IPCP answers no Echo-Request and no Terminate-Request |
| PppPackets.ErrorIff | src/ppp_fsm.cpp:16-203 | a packet reported as an error changes and sends nothing, Stopped, which is never reached, aside; with our request out or the layer up, that is exactly an unanswered request, an acknowledgement with a wrong identifier, and an Echo-Request without the peer's magic number |
| PppPackets.FiringSends | src/ppp_lcp.cpp:254-293 | each firing up to the ninth sends one Echo-Request (code 9, identifier 1) with our magic number, the tenth none, and only the counter changes |
| PppPackets.OurKindAnswersIff | src/ppp_lcp.cpp:236-276 | a peer of our own kind that knows our magic number answers our Echo-Request iff that number is 0x05060506 |
| PppFsm.OwnRequestReads | src/ppp_lcp.cpp:19-78 | our own request, with the zeros that the final resize leaves behind it, can be read by a peer of our kind, with exactly the options meant; LCP has one iff CHAP or PAP is configured |
| PppFsmRuns.ReachablePhases | src/ppp_fsm.cpp:96-141 | in every run Closed, Stopped and Closing are never reached; Initial is left by the first start-up and by nothing else |
| PppFsmRuns.StoppingIsFinal | src/ppp_fsm.cpp:69-203 | Stopping is never left and reports nothing any more |
| PppFsmRuns.NoAuthNoLcp | src/ppp_lcp.cpp:54-56 | without CHAP and PAP, LCP sends nothing, never comes up and stays in Initial or Starting |
| PppFsmRuns.ActionsMarkOpened | src/ppp_fsm.cpp:143-203 | an event reports layer-up exactly when it enters Opened and layer-down exactly when it leaves it |
| PppFsmRuns.UpsMinusDowns | src/ppp_fsm.cpp:16-203 | over every run, layer-ups minus layer-downs is 1 in Opened and 0 otherwise |
| PppFsmRuns.PeerAckedIt | src/ppp_fsm.cpp:143-184 | in Ack-Rcvd and Opened the peer has acknowledged our id since the negotiation last started over |
| PppFsmRuns.WeAckedIt | src/ppp_lcp.cpp:146-167 | in Ack-Sent and Opened we have acknowledged a request since then; for LCP no later request with options came |
| PppFsmRuns.IpcpOpensOnARejectedRequest | src/ppp_ipcp.cpp:159-161 | for IPCP that last part fails: a run that is Opened with its latest request rejected |
| PppFsmRuns.LatestAckedIff | src/ppp_ipcp.cpp:127-208 | exactly when it holds: in Ack-Sent and Opened the latest request with options is the acknowledged one iff an AAA session was there and all its options are known |
| PppFsmRuns.EchoCountsFirings | src/ppp_lcp.cpp:285-298 | from any phase the eight-bit echo counter is the number of firings since the last reply the automaton did not drop |
| PppFsmRuns.TenthFiringReports | src/ppp_lcp.cpp:285-293 | a firing reports layer-down exactly when that number, in eight bits, is then above nine |
| PppFsmRuns.EchoUntouched | src/ppp_fsm.cpp:16-67 | in every phase no packet but an Echo-Reply changes the counter, and that one only past Starting |
| PppFsmHistory.OurRequestIsOut | src/ppp_fsm.cpp:69-184 | in every run, in Req-Sent, Ack-Rcvd, Ack-Sent and Opened: our request, by its bytes, is all that was sent when the negotiation last began, and neither it nor a layer-down came since; or the layer went down then with no protocol to ask for any more |
| PppFsmHistory.RequestsAreCounted | src/ppp_fsm.cpp:69-203 | with something to ask for, over every run: requests of ours are one for the start and one for each layer-down but that of a Terminate-Request |
| PppFsmHistory.PhaseIsWhatWasAcked | src/ppp_fsm.cpp:69-203 | in these phases, in every run: Ack-Rcvd or Opened iff the peer acknowledged our request since the negotiation last started over; Ack-Sent or Opened iff we acknowledged one of the peer's since, with none naked after it nor, for LCP, rejected |
| PppFsmHistory.CountersTell | src/ppp_fsm.cpp:143-156 | the Nak counter is the Naks sent since our last acknowledgement, in eight bits, and the flag says whether an acknowledgement was ever taken |
| PppAutomaton.Automaton.Open | src/ppp_fsm.cpp:119-141 | the method does to the fields and the queue what the automaton function says |
| PppAutomaton.Automaton.LayerUp | src/ppp_fsm.cpp:96-113 | likewise |
| PppAutomaton.Automaton.CheckLcp | src/ppp_lcp.cpp:119-170 | likewise, from the scanning loop to the answer on the queue |
| PppAutomaton.Automaton.CheckIpcp | src/ppp_ipcp.cpp:127-210 | likewise, with its three loops and the rewriting of the buffer |
| PppAutomaton.Automaton.RecvConfReq | src/ppp_fsm.cpp:69-94 | likewise |
| PppAutomaton.Automaton.RecvConfAck | src/ppp_fsm.cpp:143-184 | likewise |
| PppAutomaton.Automaton.RecvTermReq | src/ppp_fsm.cpp:186-203 | likewise |
| PppAutomaton.Automaton.SendBack | src/ppp_lcp.cpp:217-252 | Terminate-Ack and Echo-Reply reuse the peer's packet with our magic number, if it carried the peer's |
| PppAutomaton.Automaton.Receive | src/ppp_fsm.cpp:16-67 | a packet changes fields, queue and result as the automaton function says |
| PppAutomaton.Automaton.SendEchoReq | src/ppp_lcp.cpp:254-293 | likewise for a firing of the echo timer |
| SessionIds.AllocatesFirstFree | src/runtime.cpp:154-199 | allocation gives the cyclically first free id from the cursor on, and fails iff all 65535 are taken |
| SessionIds.FullCircle | src/runtime.cpp:154-239 | between two allocations of an id, every other id has been in use |
| FramedPool.AllocationIsLowestFree | src/aaa.cpp:20-36 | a pool gives out the lowest free address of its range, 0 iff none is free, and giving it back restores the pool |
| FramedPool.FramedPool.Allocate | src/aaa.cpp:20-29 | the loop does that |
| FramedPool.FramedPool.Deallocate | src/aaa.cpp:31-36 | giving back removes exactly that address |
| Aaa.SearchId | src/aaa.cpp:180-188 | the lowest free AAA id below the reserved one, none iff all are taken |
| Aaa.StartNoneFacts | src/aaa.cpp:209-235 | a session without RADIUS keeps the table and the pools consistent and touches no other session |
| Aaa.StartRadiusFacts | src/aaa.cpp:179-203 | likewise for the session a RADIUS answer creates |
| Aaa.NoneAddressIff | src/aaa_session.cpp:15-36 | such a session has an address iff its template's pool exists and has a free one, which it then took |
| Aaa.RadiusAddressIff | src/aaa_session.cpp:38-77 | an address in the answer is taken as it is; without one the pool decides, and it is to be given back iff a pool was asked |
| Aaa.NoneIsAnEmptyAnswer | src/aaa_session.cpp:15-77 | a session without RADIUS has pool and name servers of the local template, those an answer without attributes would give; the address is the same, too, iff the pool has a name, or no pool without a name has an address left |
| Aaa.StopReleasesOwn | src/aaa_session.cpp:79-146 | stopping removes one entry, and gives back its own address unless accounting is unfinished |
| Aaa.DropReleasesOwn | src/aaa_session.cpp:79-93 | the end of accounting gives a stopped session's own address back to its own pool and changes nothing else; a session still in the table stays |
| Aaa.StopEachEmpties | src/aaa.cpp:258-264 | after the clean-up the table is empty and only sessions with unfinished accounting live on |
| AaaTable.Table.FindFree | src/aaa.cpp:180-188 | the search loop finds the lowest free id |
| AaaTable.Table.CreateNone | src/aaa_session.cpp:15-36 | the constructor takes template values and a pool address as the function says, over pool objects |
| AaaTable.Table.CreateRadius | src/aaa_session.cpp:38-77 | likewise, with the answer's values taking precedence |
| AaaTable.Table.StartSessionNone | src/aaa.cpp:209-235 | the method changes table and pools as the function says |
| AaaTable.Table.ProcessRadiusAnswer | src/aaa.cpp:172-203 | table and pools change as the function says; the callbacks are, in order, an error if the answer does not accept, and then the new id or an error |
| AaaTable.Table.GetSession | src/aaa.cpp:237-243 | the lookup finds the values of the AAA session under the id, or nothing |
| AaaTable.Table.Destroy | src/aaa_session.cpp:79-93 | likewise for the destructor |
| AaaTable.Table.StopSession | src/aaa.cpp:245-250 | likewise |
| AaaTable.Table.StopAllSessions | src/aaa.cpp:258-264 | stops every session of the table, in some order that covers it |
| DaemonSteps.StepKeeps | src/runtime.cpp:132-262 | every event keeps the daemon's invariant: table, AAA ids, addresses and negotiated values belong together |
| DaemonSteps.InvAlways | src/ppp.cpp:16-104 | so every state of every run satisfies it |
| DaemonSteps.PacketReaction | src/ppp_fsm.cpp:16-67 | what a session may rely on when its automaton has handled a packet |
| DaemonSteps.AckMeansAgreed | src/ppp_ipcp.cpp:127-200 | an acknowledged IPCP request had its options compared with the AAA session's values, and they agreed |
| DaemonTheorems.IdsAreThoseOfTheTable | src/runtime.cpp:166-237 | ids in use are exactly those of the active sessions, one each, so both branches for an inconsistent table are unreachable |
| DaemonTheorems.SessionsOwnTheirAaaIds | src/runtime.cpp:230-232 | distinct active sessions carry distinct AAA ids, and these are in the AAA table |
| DaemonTheorems.PoolsMatchSessions | src/aaa_session.cpp:15-93 | each pool has handed out exactly what live or draining AAA sessions took from it, no address twice |
| DaemonTheorems.NoAddressTwice | src/ppp_ipcp.cpp:136-143 | two active sessions with addresses from the same pool have different ones |
| DaemonTheorems.SameAddressIffNone | src/aaa.cpp:20-29 | of two active sessions served by the same pool: they have the same address iff both have 0.0.0.0 |
| DaemonAddresses.ZeroIsShared | src/aaa.cpp:20-29 | a run of eight events after which two sessions served by one pool both have 0.0.0.0 |
| DaemonAddresses.SharingNeedsANamedAddress | src/aaa_session.cpp:38-77 | with pool ranges that do not overlap, of two active sessions with the same address other than 0.0.0.0 at least one has it from no pool |
| DaemonAddresses.NamedAddressIsShared | src/aaa_session.cpp:43 | for any address a run of eight events after which two active sessions have it, named by two RADIUS answers |
| DaemonTheorems.TeardownReleasesOwn | src/runtime.cpp:201-239 | a teardown takes out that session, its own AAA entry and its own address; all others keep what they have |
| DaemonTheorems.PadtFromAnyLine | src/pppoe.cpp:207-210 | a PADT removes exactly the session with its id, whoever sent it; it hits a foreign line iff the id belongs to one |
| DaemonAddresses.StrangerEndsASession | src/pppoe.cpp:207-210 | for any two lines a run of three events in which a PADT from one ends the other's session |
| DaemonTheorems.WhatTeardownLeaves | src/aaa.cpp:65-84 | one AAA entry stays for every successful authentication but the last, so none stays iff there was at most one |
| DaemonTheorems.AccountingReleases | src/aaa_session.cpp:79-93 | in every run, when a stopped session's last accounting callback goes, its object goes and its own address is back in its pool, and nothing else changes |
| DaemonTheorems.CleanupReleasesAll | src/runtime.cpp:248-262 | in every run a clean-up empties session, pending and AAA table and frees every id; each pool then holds exactly what sessions with unfinished accounting hold |
| DaemonOrphans.OrphanIff | src/runtime.cpp:226-233 | an AAA entry is one no active session refers to iff no teardown would take it out |
| DaemonOrphans.OrphansStay | src/aaa.cpp:245-250 | in every run such an entry stays as it is, and such an entry, until a clean-up |
| DaemonOrphans.OrphansKeepAddresses | src/aaa_session.cpp:79-93 | and so its address stays handed out by its pool |
| DaemonTheorems.AnswerBindsIff | src/aaa.cpp:172-203 | accepting or not, an answer authenticates iff an AAA id is free and the object exists; the packets the client is sent are given exactly |
| DaemonEcho.CounterIsUnanswered | src/session.cpp:74-106 | in every run an object's echo counter is its timer's firings since the last reply that was heard, and at most nine while the object exists |
| DaemonEcho.TenthFiringIsLast | src/session.cpp:96-105 | a firing removes its object iff nine before it are unanswered |
| DaemonEcho.WhomTheTenthFiringEnds | src/session.cpp:96-103 | the tenth unanswered firing ends exactly the session that has the object's id; nobody else is hit iff the object is active or the id is free |
| DaemonEcho.ReplyCountsIff | src/ppp_fsm.cpp:25-30 | a reply leaves its session in place and resets a counter that is not zero iff CHAP or PAP is configured |
| DaemonEcho.ReplyIsNotHeard | src/ppp_fsm.cpp:25-30 | a run of seven events in which an answered echo stays counted |
| DaemonDataPlane.ProvisionedRuns | src/ppp.cpp:82-89 | in every run an object that was put into the data plane has its timer running for as long as it exists |
| DaemonDataPlane.DataPlaneEndsIff | src/session.cpp:23-26 | its destructor, which takes it out of the data plane, runs at its tenth firing without a heard reply and at no other event |
| DaemonDataPlane.PadtLeavesItIn | src/pppoe.cpp:207-210 | a PADT for a provisioned session takes it out of the table and leaves it in the data plane |
| DaemonTheorems.AuthenticatedBeforeIpcp | src/ppp_auth.cpp:44-82 | in every configuration IPCP leaves Initial only after a successful authentication whose AAA id is in the table |
| DaemonTheorems.LcpBeginsIff | src/ppp.cpp:34-39 | once a session has started its LCP is past Starting iff CHAP or PAP is configured; before that it is in Initial |
| DaemonTheorems.ProvisionedWell | src/ppp.cpp:79-91 | the data plane gets one entry exactly when IPCP opens, for an authenticated session with an address of an AAA session of its own |
| DaemonGate.ProvisionedOpenIff | src/ppp.cpp:78-91 | a session is provisioned with its LCP open iff LCP was open when the IPCP frame came |
| DaemonGate.NeverOpenWithoutMethod | src/ppp_lcp.cpp:54-56 | without PAP and CHAP it never is |
| DaemonGate.OpenTogether | src/ppp.cpp:45-91 | if no IPCP frame comes before LCP is open, then in every state each active session with IPCP open has LCP open |
| DaemonLayers.LcpPacketEndsIff | src/ppp.cpp:47-66 | in every run an LCP packet takes its own open session, and no other, out of the table iff it is a Configure-Request, a Configure-Ack with identifier 1 or a Terminate-Request |
| DaemonLayers.OpenOrEnded | src/ppp.cpp:60-63 | in every run a session whose LCP is open has it open after any event, or is out of the table |
| DaemonGate.ProvisionedWithoutLcp | src/ppp.cpp:68-91 | for every choice of CHAP and PAP a run of five events, none an LCP frame, that provisions a session whose LCP is not open |
| DaemonTheorems.OneAuthOneAddress | src/ppp_ipcp.cpp:136-200 | after one authentication that address is the AAA session's and equals every address option acknowledged |
| DaemonTheorems.CopiedIffAnswered | src/ppp_ipcp.cpp:127-145 | in every phase the session copies the AAA address exactly when IPCP sends an acknowledgement, a Nak or a Reject |
| DaemonAnswers.ClientIsTold | src/ppp_auth.cpp:26-82 | in every run, event by event, what is queued for a client: a challenge when an LCP frame takes LCP to Opened with CHAP configured; one more acknowledgement for a request of a protocol that succeeded before, else one for each success it leads to; refusal and result of a RADIUS answer; a refusal for a RADIUS error; nothing at any other event |
| DaemonAnswers.ChallengesAreUps | src/ppp.cpp:50-52 | in every run the challenges queued for an object are the times its LCP came up with CHAP configured |
| DaemonAnswers.ToldIfBegun | src/ppp_auth.cpp:44-52 | in every run a protocol counts as succeeded iff its client was told so, and IPCP has left Initial iff the client was told of any success |
| DaemonAnswers.GrantedIff | src/aaa.cpp:65-105 | after an authentication request the client has been told of a success iff it had been before, or there is a template, an AAA id is free and a method without server comes before any that asks RADIUS |
| DaemonAnswers.GrantedPerMethod | src/aaa.cpp:65-105 | as many successes as there are such methods, until no id is free; other methods are passed over |
| DaemonAnswers.ErrorTellsOnly | src/aaa.cpp:205-207 | a RADIUS error queues one refusal for its object and changes nothing else |
| DaemonAnswers.MadeByPadr | src/session.cpp:9-21 | in every run each session object was made by a PADR, untouched by then, and kept its key and its magic number since |
| DaemonAnswers.AsksAsConfigured | src/ppp_lcp.cpp:42-67 | in every run the first frame has LCP ask for CHAP if configured, else for PAP, with the configured MRU and the object's magic number, and for nothing without either |
| DaemonHistory.PendingBalance | src/runtime.cpp:132-152 | per line and cookie: accepted PADIs are matched PADRs plus expiries plus what is pending |
| DaemonHistory.EachPadsHasItsPadi | src/pppoe.cpp:118-165 | every session set up has an earlier PADI of its own that nothing else used up |
| DaemonHistory.PendingIff | src/runtime.cpp:132-152 | a key is pending iff a PADI entered it and no expiry, PADR or clean-up came since |
| DaemonHistory.HandshakeIff | src/pppoe.cpp:149-165 | in every run a PADR gets a session iff its line and cookie are pending in that sense and not all 65535 ids are taken |
| Discovery.ProcessPadi | src/pppoe.cpp:54-128 | from the bytes: too short, a repeated tag or a refused service is an error before the pending table is touched, a pending key is an error after; else the PADO is the offer's bytes |
| Discovery.ProcessPadr | src/pppoe.cpp:130-185 | likewise: errors for short packets, repeated tags, an unknown key and no id; else the PADS carries the id given |
| Discovery.ProcessPppoe | src/pppoe.cpp:187-224 | every discovery packet changes the table by its event of the transition system; the error and the frame sent, header included, are given exactly |
| Discovery.EventByCode | src/pppoe.cpp:187-214 | by its bytes: code 0x09 is a PADI, 0x19 a PADR under the cookie of tag 0x0104, 0xA7 a PADT for the id in bytes 2 and 3; no other code does anything |
| Discovery.PadsNamesTheSession | src/pppoe.cpp:161-165 | by its bytes: a PADS starts with 0x11, 0x65 and the session id whose key the PADR has just added to the session table, for the new object and nothing else |
| Discovery.ReplyGoesToSender | src/pppoe.cpp:216-221 | the frame sent starts with the sender's address, our own, and 0x8863 after the tags; then comes a PADO with session id 0, or a PADS with the id given |
| Discovery.CookieComesBack | src/pppoe.cpp:113-156 | a client that returns what it reads as the PADO's cookie is looked up under the key of its PADI |
| Discovery.HandshakeCompletesIff | src/pppoe.cpp:54-185 | from bytes to table, in every run: such a PADR gets a session iff its key was entered and not taken out since, and an id is free |
| DaemonHistory.IdComesBackLast | src/runtime.cpp:154-199 | between two admissions under one id, whatever comes in between, every other id was an active session's at some moment |
| DaemonContinuations.StaleTimerEndsAnother | src/session.cpp:61-106 | from every reachable state, a PADT for a session with a running timer can lead to that timer ending somebody else's session |
| DaemonContinuations.SecondMethodLeavesAnEntry | src/aaa.cpp:65-84 | a run of four events after which an AAA entry without a session is left |
| PppoeSession.PppoeSession.Begin | src/ppp.cpp:33-38 | the first frame starts LCP as in the transition system and queues our Configure-Request, if there is one |
| PppoeSession.PppoeSession.ProcessLcp | src/ppp.cpp:44-67 | an LCP frame, through the automaton object and its buffer, is the transition system's LCP step, the CHAP challenge included; LCP queues exactly the automaton's packets |
| PppoeSession.PppoeSession.ProcessIpcp | src/ppp.cpp:78-91 | likewise for IPCP, with copying of the address and provisioning |
| PppoeSession.PppoeSession.StartSession | src/aaa.cpp:65-105 | the loop over the methods, with each callback delivered as it is made, is the transition system's; IPCP queues its request at the first success and nothing else |
| PppoeSession.PppoeSession.ProcessAuth | src/ppp_auth.cpp:26-42 | an authentication request is acknowledged again once it has succeeded, or handed to the AAA side: table, pools, object, the packets of PAP and CHAP and those of IPCP change as they should |
| PppoeSession.PppoeSession.AuthCallback | src/ppp_auth.cpp:44-82 | a success binds the AAA id, queues the acknowledgement and starts IPCP, with its request; an error queues the refusal only |
| PppoeSession.PppoeSession.RadiusAnswered | src/aaa.cpp:172-203 | a RADIUS answer over the AAA object, with its one or two callbacks delivered, is the transition system's step; IPCP queues its request at a success, once |
| PppoeSession.PppoeSession.ProcessPpp | src/ppp.cpp:34-104 | a frame for a session in the table, over session, automata and AAA objects, is the transition system's frame step; what LCP and IPCP queue is given exactly, and a packet of an unknown protocol goes back as a Code-Reject |
| PppoeRuntime.PppoeRuntime.PendeSession | src/runtime.cpp:132-142 | enters the key, and fails iff it is pending |
| PppoeRuntime.PppoeRuntime.CheckSession | src/runtime.cpp:144-152 | consumes the key, and succeeds iff it was pending |
| PppoeRuntime.PppoeRuntime.ClearPendingSession | src/runtime.cpp:241-246 | an expiry removes the key only |
| PppoeRuntime.PppoeRuntime.FindFreeId | src/runtime.cpp:154-191 | the do-while loop ends with the cyclically first free id, or finds none |
| PppoeRuntime.PppoeRuntime.AllocateSession | src/runtime.cpp:154-199 | the new table, object and cursor, and the id or the error that is returned |
| PppoeRuntime.PppoeRuntime.AcceptPadr | src/pppoe.cpp:154-165 | consuming the pending entry and allocating is the admission step; id and error are given exactly |
| PppoeRuntime.PppoeRuntime.DeallocateSession | src/runtime.cpp:201-239 | the search and the removals are the teardown step; an error iff the id was not in use |
| PppoeRuntime.PppoeRuntime.Cleanup | src/runtime.cpp:248-262 | the clean-up step |
| Tags.ParseTags | src/pppoe.cpp:24-52 | the loop reads tags up to an end tag, the end or a repeated type |
| Tags.TagsRoundTrip | src/pppoe.cpp:12-52 | written tags are read back as the same map iff their types are distinct, with or without end tag and padding |
| Tags.InsertTag | src/pppoe.cpp:12-22 | appends the tag's bytes and returns its size modulo 256 |
| Tags.DeclaredIsExactIff | src/pppoe.cpp:78-125 | the declared length is exact iff every value has at most 251 bytes and the whole fits 16 bits; it is never too large |
| Tags.LongValueIsLost | src/pppoe.cpp:86-89 | a 252-byte Host-Uniq is declared with length 0 |
| Tags.SelectService | src/pppoe.cpp:91-111 | a service is refused iff names count and it is empty or unlisted |
| Tags.Offer | src/pppoe.cpp:78-125 | the tags of a PADO: refused iff the service is; else our name, the client's Host-Uniq and service, and the cookie |
| Tags.Confirm | src/pppoe.cpp:167-182 | the PADS holds the client's service and Host-Uniq and the session id |
| Tags.OfferIsReadBack | src/pppoe.cpp:78-125 | with values up to 251 bytes a PADO reads as version 0x11, code 0x07, session id 0, a right length, and exactly our name, the client's service name and Host-Uniq if sent, and the cookie if the policy has one, under types 0x0101 to 0x0104 |
| Tags.ConfirmIsReadBack | src/pppoe.cpp:167-182 | likewise a PADS: code 0x65, the session id, and exactly the client's service name and Host-Uniq |
| Encapsulation.Strip | src/encap.cpp:10-40 | the constructor takes off exactly the header, and leaves a frame too short for one as it is |
| Encapsulation.GenerateHeader | src/encap.cpp:42-80 | the filled buffer is the header function's bytes |
| Encapsulation.HeaderBytes | src/encap.cpp:42-80 | by its bytes: the sender is the destination, our address the source, each VLAN tag is 0x8100 and its id, and the ethertype stands last |
| Encapsulation.MissingTagsAreAssumed | src/encap.cpp:10-37 | by its bytes: the VLANs given to the constructor count exactly for the tags a frame lacks |
| Encapsulation.ComesBackIff | src/encap.cpp:10-80 | header plus any payload parses back to VLANs, type, addresses and payload iff ids have twelve bits, no inner tag stands alone, and the type is not taken for a tag |
| Encapsulation.AnswerReachesSender | src/encap.cpp:10-80 | for a received frame the answer comes back iff it had no inner tag inside an outer tag with id 0 |
| RadiusAvp.ParseAvp | src/radius_avp.cpp:121-134 | the loop reads the attributes the buffer holds, up to the first that cannot be read |
| RadiusAvp.ReadAvp | src/radius_avp.cpp:52-70 | the constructor reads the attribute at its place, or throws exactly when the loop is to stop |
| RadiusAvp.SerializeAvp | src/radius_avp.cpp:177-185 | the loop writes all attributes in order |
| RadiusAvp.SerializeOne | src/radius_avp.cpp:76-95 | one attribute is written as the function says, with the missing type byte of a vendor container |
| RadiusAvp.ReadBack | src/radius_avp.cpp:121-134 | reading written attributes gives them back and goes on exactly where they end |
| RadiusAvp.RoundTripIff | src/radius_avp.cpp:52-95 | attributes without vendor survive iff none has type 26 or more than 253 bytes of value |
| RadiusAvp.VendorIsLost | src/radius_avp.cpp:76-95 | a vendor's attribute is not read back, whatever its value |
| RadiusAvp.WrittenAs | src/radius_avp.cpp:76-95 | by its bytes: type, length and value; a vendor's attribute starts with a length where the container's type should be, and has the vendor's number in host order |
| RadiusAvp.VendorIsRead | src/radius_avp.cpp:52-70 | a vendor's attribute in the format of section 5.26 of RFC 2865 is read with vendor, type and value, and reading goes on behind it |
| RadiusAvp.EmplaceAllIsSet | src/radius_avp.cpp:76-78 | the set is ascending by type and holds exactly the first attribute of each type |
| RadiusAvp.RequestRoundTrip | src/radius_avp.cpp:76-95 | what a set of attributes is built from is read at the other end: the first of each type, ascending |
| RadiusMessages.GetIdByName | src/radius_dict.cpp:92-106 | the loops find the type and vendor of a name, the standard section first, or type 0 |
| RadiusMessages.GetValueByName | src/radius_dict.cpp:133-146 | the nested loops find the number the dictionary has for a text, or 0 |
| RadiusMessages.NameStandsFor | src/radius_dict.cpp:92-97 | a name in the standard section stands for the first attribute there that has it |
| RadiusMessages.OtherNameStandsFor | src/radius_dict.cpp:98-106 | any other name for the first in the first vendor's section that has it, and an unknown one for type 0 |
| RadiusMessages.TextStandsFor | src/radius_dict.cpp:133-146 | a text stands for the number of the first attribute with the name that lists it, at its first place there |
| RadiusMessages.OtherTextIsZero | src/radius_dict.cpp:133-146 | and for 0 if none lists it |
| RadiusMessages.NameComesBack | src/radius_dict.cpp:92-124 | looking up the id of a known name and then the name of that id gives the name back, if no vendor has id 0 |
| RadiusMessages.SerializeRequest | src/request_response.cpp:47-114 | a PAP or CHAP request is the bytes of exactly its attributes: name, credentials, and what is configured and known to the dictionary |
| RadiusMessages.AllArriveIff | src/request_response.cpp:48-79 | all attributes are read at the other end iff each fits its format and no two different ones have the same type |
| RadiusMessages.UserArrives | src/request_response.cpp:48-79 | then the server reads exactly the request's attributes |
| RadiusMessages.RequestSays | src/request_response.cpp:48-114 | under these names and no others: user name, hidden password or CHAP response and challenge, and each configured optional attribute, a text as its number if the dictionary has one |
| RadiusMessages.ServerReads | src/request_response.cpp:48-114 | each of these is what the server reads under the type of its name, and nothing else is |
| RadiusMessages.ServerReadsChap | src/request_response.cpp:82-87 | for CHAP, unless the dictionary turns them into numbers: the server reads the response as the CHAP password and the challenge as the challenge |
| RadiusMessages.PasswordIsSent | src/request_response.cpp:48-52 | the hidden password is in a PAP request, unless the dictionary turns it into a number |
| RadiusMessages.PasswordFitsIff | src/request_response.cpp:48-52 | it fits its attribute iff the password has at most 240 bytes and the dictionary gives it an ordinary type |
| RadiusMessages.PasswordRecoveredIff | src/request_response.cpp:17-45 | a server with the same secret recovers the password from the attribute iff it does not end in a zero |
| RadiusMessages.Deserialize | src/request_response.cpp:117-142 | the loop over an answer's attributes fills the fields as the function says |
| RadiusMessages.LastCounts | src/request_response.cpp:117-142 | each field of an answer is what the last fitting attribute of its name says |
| RadiusMessages.AnswerReachesSession | src/aaa_session.cpp:38-77 | from the server's attributes over the wire to the AAA session: address, pool and name servers are those the last fitting attributes give, or else the template the answer names, or the local one |
| PapHiding.PasswordPapProcess | src/request_response.cpp:17-45 | the padding loop and the nested loops compute the hidden password |
| PapHiding.HideRoundTrip | src/request_response.cpp:17-45 | undoing the hiding gives the padded password, for every password, secret, authenticator and digest |
| PapHiding.HiddenBlocks | src/request_response.cpp:28-42 | every block satisfies the equations of section 5.2 of RFC 2865 |
| PapHiding.PaddingIsReversibleIff | src/request_response.cpp:20-27 | dropping trailing zeros gives the password back iff it does not end in a zero |
| PapHiding.FitsAnAttributeIff | src/request_response.cpp:51 | the hidden password fits an attribute iff the password has at most 240 bytes |
| RadiusClient.EntriesAndTimersMatch | src/auth_client.hpp:43-70 | in every run table entries and undelivered timer completions correspond one to one, of the same request |
| RadiusClient.CompletionEndsItsOwn | src/auth_client.cpp:92-109 | a completion erases its own request's entry only, after one of its handlers has run |
| RadiusClient.OnlyCompletionsRemove | src/auth_client.cpp:63-109 | nothing else removes or replaces an entry |
| RadiusClient.CancelledIffAnswered | src/auth_client.cpp:87-90 | in every run a request's timer has been cancelled iff its response handler has run |
| RadiusClient.GivenUpIff | src/auth_client.hpp:57-68 | a request is given up iff one with the same eight-bit id is outstanding |
| RadiusClient.GivenUpStaysSilent | src/auth_client.hpp:65-68 | then neither of its handlers ever runs |
| RadiusClient.OneTooManyIsGivenUp | src/auth_client.hpp:57-68 | a run of 257 requests without an answer, the last of which is given up |
| RadiusClient.NothingAfterTheEnd | src/auth_client.cpp:103-105 | once an entry is gone, its handlers never run again |
| RadiusClient.CallsCountHits | src/auth_client.cpp:87-102 | handlers run once per authentic answer in time and once for an expiry |
| RadiusClient.AnswerTakenIff | src/auth_client.cpp:38-45 | in every run: an answer can be taken iff fewer datagrams came than requests were accepted since the table was last emptied, datagrams that had arrived by then aside |
| RadiusClient.ReceivePerRequestIff | src/auth_client.cpp:38-45 | and there is a receive for every request in the table iff no more datagrams than completions came since |
| RadiusClient.StrayDatagramDeafens | src/auth_client.cpp:71-75 | a run in which a stray datagram uses up the receive of an outstanding request, whose answer can then not be taken |
| RadiusClient.DuplicateAnswerRunsTwice | src/auth_client.cpp:87-89 | a run of two requests and two datagrams in which one request's response handler runs twice |
| RadiusClient.LateAnswerRunsBoth | src/auth_client.cpp:87-102 | a run in which both handlers of one request run |
| RadiusClient.AuthClient.Send | src/auth_client.hpp:43-102 | the method changes the table as the function says, and sends unless the id is taken |
| RadiusClient.AuthClient.OnRcv | src/auth_client.cpp:63-90 | likewise for an answer |
| RadiusClient.AuthClient.ExpireCheck | src/auth_client.cpp:92-109 | likewise for a timer completion |
| CommandTable.SplitJoin | src/pppctl.cpp:27-43 | words joined with blanks are split into the same words |
| CommandTable.OwnCallbackIff | src/pppctl.cpp:93-149 | calling a command runs its own callback iff no other command has or starts with its tokens, and fails otherwise |
| CommandTable.AgreesWithTable | src/pppctl.cpp:93-149 | for commands none of which starts with another, tree and flat table agree on every path of the tree |
| CommandTable.IncompleteFails | src/pppctl.cpp:141-147 | a path that is no complete command cannot be called |
| CommandTable.WalkKeepsAllIff | src/pppctl.cpp:124-139 | the walk ends at the tokens given iff they are a path of the tree |
| CommandTable.UnknownTokenIsSkipped | src/pppctl.cpp:124-139 | a line with an unknown word in the middle runs a command |
| CommandTable.AddTokensRepresents | src/pppctl.cpp:93-116 | adding a command to the tree of paths adds it to the table it represents |
| CommandTrie.CliNode.Find | src/pppctl.cpp:101-107 | finds a child with the token iff there is one |
| CommandTrie.CliCmd.AddCmd | src/pppctl.cpp:93-116 | the heap tree then stands for the old table with the command added |
| CommandTrie.CliCmd.CallCmd | src/pppctl.cpp:118-149 | the walk through the heap runs the callback the flat table gives, and throws where it gives none |

## Left out

- Packets that make the code read outside the buffer (zero option lengths, length fields below the header, tags or attributes cut short): well-formedness is a precondition.
- The Ethernet and PPPoE session headers around LCP, IPCP, PAP and CHAP packets; control packets start at their code byte.
- PAP and CHAP packet contents, passwords and challenges: an authentication request is an event, its success is decided by the AAA side, and of what PAP and CHAP send only the kind is queued.
- The data plane: provisioning is a log entry, and stands for the call whether the data plane carries it out or not; removal is the moment at which the session object leaves memory. VRFs and unnumbered interfaces are not modelled.
- PppoeSession.PppoeSession.ProcessIpcp: does not model the interface index, its mapping to the AAA session, nor the VRF and unnumbered interface that are copied with the address; no other part of the model would read them.
- PppFsm.OwnRequestReads: a magic number of 0 is replaced by a random one when our request is built; the model's input is the number that is used.
- Sockets, the event loop and timers as such: packets, completions and answers are events that may come at any time.
- In the transition system a PADI and a PADR are events that got as far as the pending table; how a packet becomes one is `Discovery`.
- Randomness and MD5: cookies, magic numbers and authenticators are inputs, MD5 is any function with a 16-byte result, and the check of a RADIUS answer's authenticator is its verdict.
- Reloading the configuration, which replaces the pools by empty ones.
- Session objects in `PppoeRuntime` are values under handles, not heap objects; `PppoeSession` models one such object in the heap, together with the AAA object, against the same steps. Aliasing between the session objects of one table is not captured.
- Authentication callbacks reach only session objects that still exist; the code keeps a raw pointer.
- Accounting requests: only that a stopped session lives on until its last accounting callback is gone.
- Pools whose range starts at 0 or ends at 255.255.255.255: the search uses 0 for "none" and would not end.
- An attribute that is read without a vendor leaves the vendor field unset; the model takes it for 0.
- Reading the dictionary files, and accounting messages.
- `parseLCPOptions`, which is never called, `append_cmd`, printing, the terminal, and the log counter in `deallocateSession`.
- Callback arguments of commands, which are always empty.
