# Call control and protocol utilities

A Dafny model of the code behind a telephone answering machine: the call control of its SIP
phone (SipekSdk, in C#), its call log, and the utility library it links (pjlib-util, in C).
Verify it with `dafny verify dfyconfig.toml`.

**Call control.** `CallControl` has the states of a call, the manager's reactions to user
requests, stack callbacks and timers, and the deferred action, as steps over the table of calls.
A run is any sequence of such events, with any answers from the surroundings: whether a timer
starts, which configuration flags are set, which session a new call gets. `CallRequests` says what
requests come to that take several events. `CallManager` is the object, with its loops over the
table, each method proved to take the step of its event and to keep what a run keeps.
`CallLog` is the log's stack against the history of calls and deletions, and `CallHistory` puts
both together.

**DNS.** `Resolver` is the protocol of the resolver's pending queries: recycled nodes, two tables,
requests that join a pending query, retransmission, cancellation and callbacks. The steps of one
completion are separate steps of a run, so a callback may start, cancel or complete other queries.
`places`, `fates`, `asked`, `issued` and `sent` are history, kept beside the resolver's own fields.
`ResolverCauses` traces every callback to the event behind it, and `ResolverQueries` is the object.
`Nameservers` and `ResolverCache` are its choice of servers and its cache. `DnsName`, `DnsPacket`
and `DnsMessages` are the message parser and printers (sections 3.1, 4.1.2 and 4.1.4 of RFC 1035),
`DnsWire` has messages as they lie in memory, `DnsRoom` the checks of the room in the buffer, and
`SrvSelection` the election of servers by weight (RFC 2782).
A packet that is read is a total function from positions to bytes.

**Parsers and codecs.** `Xml` and `XmlScanner` are the XML parser and printer over the text scanner,
`XmlGrammar` has the texts it reads, and `XmlRoom` the printer's checks of the room in the buffer
and its result. `OptionSyntax` is what command lines mean, `Getopt` their scan and permutation, and
`Base64` section 4 of RFC 4648.

**Checksums.** `Hashing`, `Md5`, `Sha1` and `Hmac` are the streaming hashes (sections 3.1 to 3.5 of
RFC 1321, section 4 of RFC 3174, section 2 of RFC 2104), for any transformation of a block.
`Crc32` has both builds of the CRC, and the table itself.

Functions say what is computed; methods with loops, arrays and objects are proved to compute it;
lemmas say what it means.

Some things the sources promise do not hold, and are stated as they are:
- Two calls can be active without a conference, and three with one (`TwoActiveReached`,
  `ThreeActiveReached`).
- The DNS printer can take one legal name for another (`MistakenPacket`, `HyphenForDot`);
  `PacketRoundTrip` has the exact condition.
- The copy of a packet in the resolver's cache can have one name for another (`MistakenCopy`);
  `PacketCopied` has the exact condition.
- The DNS printer passes packets that are too long for the buffer (`TwoQuestionsOverrun`);
  `PacketChecksAreRight` has the exact condition, `PassesWhenWithinSlack` the exact sizes.
- The XML printer passes nodes that are too long for the buffer (`EmptyNodeOverruns`);
  `NodeChecksAreRight` has the exact condition, `NodeRoomIs` the exact sizes.
- With a prolog, the XML printer returns a positive size for a document that it could not print;
  `ResultTells` says how a failure can be told.
- An XML node with both children and content is read back with a longer content
  (`MixedTreeChanges`); `RoundTrip` has the exact condition.
- A transaction id that is still pending is given out again after 65535 queries
  (`IdReuseReached`); `IdReuse` has the exact condition.
- Where sizes have 64 bits, SHA-1 miscounts some pieces of 2^29 bytes and more
  (`MiscountedPiece`); `WideSizesMiscount` has the exact condition.
- The size check of a DNS query lets buffers pass that are too small (`ShortBufferPasses`);
  `SizeCheckTooWeak` has the exact condition.
- The closing assertion of the Base64 decoder fails in buffers of the promised size
  (`ClosingAssertionFails`); `ClosingAssertion` has the exact condition.

## Model

| member | source | states |
|---|---|---|
| `CallControl.RunKeepsTable` | SpiekSdk/Common/CallControl/callManager.cs:339-393 | In every run of user requests, stack callbacks and timers: each table entry is keyed by its own session, release timers are armed exactly on released and terminated calls, every machine is destroyed at most once, the log is what the destroyed calls' pasts call for, at most one call is in setup, and active calls plus calls in setup never exceed 3 (2 without a conference). |
| `CallControl.StepIsCalm` | SpiekSdk/Common/CallControl/callManager.cs:498-549 | No event but a connect callback or a conference request makes a second call active; setup stays at one call at most. |
| `CallControl.ActiveRisesOnlyBy` | SpiekSdk/Common/CallControl/callStates.cs:135-176 | The number of active calls rises above one, or above what it was, if and only if a call in setup connects beside an active one, or a conference retrieves a held one. |
| `CallControl.StepLoad` | SpiekSdk/Common/CallControl/callManager.cs:576-588 | How far one event can move active calls plus calls in setup: to 3 only by a conference request. |
| `CallControl.StepFits` | SpiekSdk/Common/CallControl/callStateMachine.cs:451-495 | Every event keeps the table, the timers, the call types and the log in agreement with the states each call has been through. |
| `CallControl.FinishFits` | SpiekSdk/Common/CallControl/callStates.cs:282-293 | Entering a final state leaves an armed release timer behind, or destroys the call at once and logs it. |
| `CallControl.DestroyFits` | SpiekSdk/Common/CallControl/callStateMachine.cs:471-495 | Destroying a call adds exactly the record its past calls for, and it can not be destroyed again. |
| `CallControl.IncomingFits` | SpiekSdk/Common/CallControl/callStates.cs:392-432 | A ringing call is logged as missed unless it is ever answered, automatic answering included. |
| `CallControl.HoldConfirmFits` | SpiekSdk/Common/CallControl/callStates.cs:238-248 | A hold confirmation, and the pending action it sets off, keep the table in order. |
| `CallControl.PendingFits` | SpiekSdk/Common/CallControl/callManager.cs:593-597 | The pending action keeps the table in order, whichever action it is. |
| `CallControl.ReplaceFits` | SpiekSdk/Common/CallControl/callManager.cs:702-708 | Renumbering a call keeps the table in order, also when it fails and the call is lost. |
| `CallControl.StepInOrder` | SpiekSdk/Common/CallControl/callManager.cs:613-708 | What the manager object keeps from one event to the next: table, timers, types and log in agreement, and at most one call in setup. |
| `CallControl.NoTimersNoRemains` | SpiekSdk/Common/CallControl/callStates.cs:337-346 | If release timers never start, no released or terminated call is ever left in the table. |
| `CallControl.TwoActiveReached` | SpiekSdk/Common/CallControl/callManager.cs:339-393 | A run without conferences that makes two calls active: the bound of one that the manager aims at is not kept. |
| `CallControl.ThreeActiveReached` | SpiekSdk/Common/CallControl/callManager.cs:576-588 | A run that makes three calls active: the bound of three is reached. |
| `CallManager.SetupMask` | SpiekSdk/Common/CallControl/callManager.cs:451-462 | The bit mask of the manager's count stands for exactly the two setup states. |
| `CallManager.CallManager.GetNoCallsInState` | SpiekSdk/Common/CallControl/callManager.cs:438-449 | The count of a state is the number of sessions in it. |
| `CallManager.CallManager.GetNoCallsInStates` | SpiekSdk/Common/CallControl/callManager.cs:451-462 | The counting loop gives the number of calls in any of the masked states. |
| `CallManager.CallManager.EnumCallsInState` | SpiekSdk/Common/CallControl/callManager.cs:469-481 | The collecting loop lists each session in the state once, and no other. |
| `CallManager.CallManager.Destroy` | SpiekSdk/Common/CallControl/callStateMachine.cs:471-495 | The object's table and log become those of the destroy step. |
| `CallManager.CallManager.ChangeState` | SpiekSdk/Common/CallControl/callStateMachine.cs:451-466 | A change of state takes the entry step of the new state. |
| `CallManager.CallManager.EndCall` | SpiekSdk/Common/CallControl/callStates.cs:140-145 | Ending a call takes the step of its state. |
| `CallManager.CallManager.HoldCall` | SpiekSdk/Common/CallControl/callStates.cs:223-227 | A hold request marks an active call and nothing else. |
| `CallManager.CallManager.AcceptCall` | SpiekSdk/Common/CallControl/callStates.cs:424-432 | Accepting takes the step of a ringing call and no other. |
| `CallManager.CallManager.RetrieveCall` | SpiekSdk/Common/CallControl/callStates.cs:497-503 | Retrieving takes the step of a held call and no other. |
| `CallManager.CallManager.OnUserRelease` | SpiekSdk/Common/CallControl/callManager.cs:488-491 | The manager's new table, pending action and log are those of the release event. |
| `CallManager.CallManager.CreateOutboundCall` | SpiekSdk/Common/CallControl/callManager.cs:339-393 | The new table, pending action and log are those of the dialling event, whichever active call is enumerated first. |
| `CallManager.CallManager.OnUserAnswer` | SpiekSdk/Common/CallControl/callManager.cs:498-514 | The new table, pending action and log are those of the answer event. |
| `CallManager.CallManager.OnUserHoldRetrieve` | SpiekSdk/Common/CallControl/callManager.cs:520-549 | The new table, pending action and log are those of the hold-or-retrieve event. |
| `CallManager.CallManager.OnUserConference` | SpiekSdk/Common/CallControl/callManager.cs:576-588 | The new table, pending action and log are those of the conference event. |
| `CallManager.CallManager.ActivatePendingAction` | SpiekSdk/Common/CallControl/callManager.cs:226-240 | The pending action is carried out and cleared, as its step says. |
| `CallManager.CallManager.OnHoldConfirm` | SpiekSdk/Common/CallControl/callStates.cs:238-248 | The new table, pending action and log are those of the hold confirmation. |
| `CallManager.CallManager.OnCallStateChanged` | SpiekSdk/Common/CallControl/callManager.cs:613-667 | Each session callback takes its step. |
| `CallManager.CallManager.OnIncomingCall` | SpiekSdk/Common/CallControl/callManager.cs:675-686 | The new table, pending action and log are those of the incoming call. |
| `CallManager.CallManager.OnCallReplaced` | SpiekSdk/Common/CallControl/callManager.cs:702-708 | The call is found under its new session only; it fails without such a call, or if the new session is in use, and then the call is lost from the table. |
| `CallManager.CallManager.OnTimer` | SpiekSdk/Common/CallControl/callStates.cs:457-473 | Each timer expiry takes its step. |
| `CallRequests.AnswerWhileTalking` | SpiekSdk/Common/CallControl/callManager.cs:498-514 | With one active call, answering another and the confirmation of the hold leave the first held and the second connected as received, nothing pending, and all other calls and the log as they were. |
| `CallRequests.RetrieveWhileTalking` | SpiekSdk/Common/CallControl/callManager.cs:520-549 | In the same way a held call is retrieved: the two calls change places. |
| `CallRequests.DialWhileTalking` | SpiekSdk/Common/CallControl/callManager.cs:339-393 | In the same way a number is dialled: the first call is held, and a call to that number is under way in the session the stack gives, if it gives one. |
| `CallRequests.AnswerAtOnce` | SpiekSdk/Common/CallControl/callManager.cs:498-514 | Without an active call, an incoming one is connected at once and counts as received. |
| `CallRequests.RetrieveAtOnce` | SpiekSdk/Common/CallControl/callManager.cs:520-549 | Without an active call, a held one is connected again at once. |
| `CallRequests.HoldAndConfirm` | SpiekSdk/Common/CallControl/callManager.cs:520-549 | A hold that nothing waits for changes nothing but that call. |
| `CallRequests.ConferenceJoins` | SpiekSdk/Common/CallControl/callManager.cs:576-588 | A conference connects a held call beside the active one and changes nothing else. |
| `CallRequests.OutgoingCall` | SpiekSdk/Common/CallControl/callStates.cs:61-176 | A dialled call is connecting, then alerting, then active, under the number dialled. |
| `CallRequests.HangUp` | SpiekSdk/Common/CallControl/callStates.cs:214-309 | Released by either side, a call keeps what its record needs until its timer ends, and is then gone and recorded. |
| `CallRequests.HangUpAtOnce` | SpiekSdk/Common/CallControl/callStates.cs:282-293 | If the timer does not start, it is gone and recorded at once. |
| `CallRequests.IncomingRings` | SpiekSdk/Common/CallControl/callStates.cs:75-101 | An incoming call rings with its number and name and counts as missed, unless it is answered automatically, which needs an empty table. |
| `CallRequests.MissedCall` | SpiekSdk/Common/CallControl/callStates.cs:392-477 | A call that rings and is not answered in time is recorded as missed. |
| `CallRequests.AnsweredByMachine` | SpiekSdk/Common/CallControl/callStates.cs:392-432 | Alone in the table and with automatic answering, a call is connected and counts as received. |
| `CallRequests.TurnedAway` | SpiekSdk/Common/CallControl/callStates.cs:75-96 | A call that is forwarded or turned away leaves neither an entry nor a record. |
| `CallRequests.Renumbered` | SpiekSdk/Common/CallControl/callManager.cs:702-708 | A renumbered call is the same call under its new session. |
| `CallRequests.SessionTaken` | SpiekSdk/Common/CallControl/callManager.cs:613-667 | An incoming call under a session in use ends the call that has it. |
| `CallRequests.IgnoredEvents` | SpiekSdk/Common/CallControl/callManager.cs:339-708 | An event that does not fit the state of its call changes nothing. |
| `CallLog.LogIsHistory` | Deveck.TAM/Sipek/Calllog.cs:208-265 | After any calls and deletions: a record for exactly the numbers and types called since they were last deleted, carrying the last such call's data and the number of such calls before it, later calls above earlier ones. |
| `CallLog.OneEach` | Deveck.TAM/Sipek/Calllog.cs:208-221 | No two records of the log have the same number and type. |
| `CallLog.FindIs` | Deveck.TAM/Sipek/Calllog.cs:196-206 | A record is found if and only if there is one. |
| `CallLog.DeleteLogged` | Deveck.TAM/Sipek/Calllog.cs:228-243 | A deletion removes its number and type, and no other. |
| `CallLog.Calllog.FindRecord` | Deveck.TAM/Sipek/Calllog.cs:196-206 | The search loop gives the topmost match. |
| `CallLog.Calllog.DeleteRecord` | Deveck.TAM/Sipek/Calllog.cs:228-243 | Emptying the stack and pushing back what is kept leaves the order as it was. |
| `CallLog.Calllog.AddRecord` | Deveck.TAM/Sipek/Calllog.cs:208-221 | The new record is on top, counting one more than the one it replaces. |
| `CallLog.Calllog.AddCall` | Deveck.TAM/Sipek/Calllog.cs:252-265 | A call takes its step of the log. |
| `CallHistory.RunFillsLog` | SpiekSdk/Common/CallControl/callStateMachine.cs:471-495 | After every run of the manager the log has a record for exactly the numbers and types of the calls destroyed, counting the earlier ones of each. |
| `Resolver.RunFacts` | pjproject_1.0/pjlib-util/src/pjlib-util/resolver.c:675-809 | After every run: both tables hold the same queries, no node of a pending query, of a request that joined it or of a callback under way is free, ids are 1 to 65535, no query was sent more than max(1, retransmissions) times, no request was called back twice, each was told what it asked for, and when nothing is pending every request was called back unless it was refused or cancelled without notice. |
| `Resolver.RunKeeps` | pjproject_1.0/pjlib-util/src/pjlib-util/resolver.c:1184-1261 | Every run keeps the whole invariant, whatever callbacks do between the steps of a completion. |
| `Resolver.StepKeeps` | pjproject_1.0/pjlib-util/src/pjlib-util/resolver.c:1265-1400 | Every step keeps it: start, join, refusal, response, timeout, cancellation, each callback, and the recycling at the end. |
| `Resolver.JoinKeeps` | pjproject_1.0/pjlib-util/src/pjlib-util/resolver.c:761-779 | A request that joins a pending query is listed with it once, on a node taken from the free list, and sends nothing. |
| `Resolver.OpenKeeps` | pjproject_1.0/pjlib-util/src/pjlib-util/resolver.c:781-801 | A new query enters both tables under a fresh id, provided no query has been pending for 65535 new ones. |
| `Resolver.IdReuse` | pjproject_1.0/pjlib-util/src/pjlib-util/resolver.c:784-788 | The tables agree after a new query if and only if its id is not still pending, which is the case exactly if a pending query is a multiple of 65535 queries old. |
| `Resolver.IdReuseReached` | pjproject_1.0/pjlib-util/src/pjlib-util/resolver.c:784-801 | A run that gets there: one query stays pending while 65534 others can not be sent, and the next one breaks the tables. |
| `Resolver.RefuseKeeps` | pjproject_1.0/pjlib-util/src/pjlib-util/resolver.c:790-795 | A query that can not be sent gives its node back and is never called back. |
| `Resolver.CloseKeeps` | pjproject_1.0/pjlib-util/src/pjlib-util/resolver.c:1355-1362 | A completed query leaves both tables; its node and its children's stay out of the free list until their callbacks were made. |
| `Resolver.FireKeeps` | pjproject_1.0/pjlib-util/src/pjlib-util/resolver.c:1364-1380 | One callback settles exactly one waiting request. |
| `Resolver.FinishKeeps` | pjproject_1.0/pjlib-util/src/pjlib-util/resolver.c:1385-1397 | Recycling puts each node of the completed query on the free list once. |
| `Resolver.CancelKeeps` | pjproject_1.0/pjlib-util/src/pjlib-util/resolver.c:815-832 | Cancelling drops the callback of one request; those that joined it stay. |
| `Resolver.CancelledOnce` | pjproject_1.0/pjlib-util/src/pjlib-util/resolver.c:823-828 | A cancelled query stays pending without a callback, so that a second cancellation with notice has nothing to call. |
| `Resolver.ResendKeeps` | pjproject_1.0/pjlib-util/src/pjlib-util/resolver.c:1208-1216 | Sending again keeps the count of transmissions within its bound and the timer running. |
| `Resolver.FateMoves` | pjproject_1.0/pjlib-util/src/pjlib-util/resolver.c:821-828 | A settled request stays settled; only a waiting one is called back, or silenced by a cancellation without notice of its own query; a request is refused exactly if a new query can not be sent. |
| `Resolver.InvOnce` | pjproject_1.0/pjlib-util/src/pjlib-util/resolver.c:1229-1261 | From the invariant: at most one call per request, exactly one once everything is quiet, none for the silenced and refused. |
| `Resolver.TimeoutsEnd` | pjproject_1.0/pjlib-util/src/pjlib-util/resolver.c:1208-1231 | A query without an answer is gone after as many timeouts as it has transmissions left, whatever the outcome of sending. |
| `Resolver.DrainIsRun` | pjproject_1.0/pjlib-util/src/pjlib-util/resolver.c:1360-1397 | A completion whose callbacks leave the resolver alone is a run of the protocol. |
| `Resolver.AllCalledInOrder` | pjproject_1.0/pjlib-util/src/pjlib-util/resolver.c:1364-1380 | However many requests joined a query, its end calls back the one that started it and then those that joined, in that order and with one status, and sends nothing. |
| `ResolverCauses.EveryCallIsCaused` | pjproject_1.0/pjlib-util/src/pjlib-util/resolver.c:1184-1400 | After every run, each call made has an event that caused it and the status of that event: the response to the query that the request waited for, a timeout of that query with no transmission left or a failed one, the cancellation of the request itself, or an answer from the cache. |
| `ResolverCauses.StepToCome` | pjproject_1.0/pjlib-util/src/pjlib-util/resolver.c:1355-1380 | A call that is to be made after a step was to be made before it, or is caused by it. |
| `ResolverCauses.StepCalls` | pjproject_1.0/pjlib-util/src/pjlib-util/resolver.c:1364-1380 | A call is made because it was to be made, or is caused by the step; no call is taken back. |
| `ResolverCauses.FirstComeFirstCalled` | pjproject_1.0/pjlib-util/src/pjlib-util/resolver.c:761-779 | After every run, whoever waits for a query is called in the order of asking. |
| `ResolverQueries.Queries.constructor` | pjproject_1.0/pjlib-util/src/pjlib-util/resolver.c:239-341 | The new resolver is the protocol's first state. |
| `ResolverQueries.Queries.AllocNode` | pjproject_1.0/pjlib-util/src/pjlib-util/resolver.c:519-545 | The oldest free node, or a new one, is taken into use and no other changes. |
| `ResolverQueries.Queries.StartQuery` | pjproject_1.0/pjlib-util/src/pjlib-util/resolver.c:675-809 | The object takes the start step, accepts unless a new query can not be sent, and calls back at once exactly if the answer is in the cache, with its code. |
| `ResolverQueries.Queries.CancelQuery` | pjproject_1.0/pjlib-util/src/pjlib-util/resolver.c:815-832 | The object takes the cancellation step, and calls back exactly if there is to be notice. |
| `ResolverQueries.Queries.OnTimeout` | pjproject_1.0/pjlib-util/src/pjlib-util/resolver.c:1184-1261 | The object takes the timeout step: the query is sent once more, or exactly the calls due are made, each with a timeout, and the nodes recycled. |
| `ResolverQueries.Queries.OnResponse` | pjproject_1.0/pjlib-util/src/pjlib-util/resolver.c:1339-1397 | The object takes the response step and makes exactly the calls due, each with the code of the response; a response with an unknown id changes nothing. |
| `ResolverQueries.Queries.End` | pjproject_1.0/pjlib-util/src/pjlib-util/resolver.c:1355-1397 | The loops over the children make every callback and recycle every node of the query. |
| `Nameservers.SelectionIs` | pjproject_1.0/pjlib-util/src/pjlib-util/resolver.c:972-1029 | A selection is the first fastest active server, if there is one, and then in order exactly the others whose state has expired without being probed or that are being probed in time; it is empty if and only if each server is bad and not expired, or an expired probe. |
| `Nameservers.BestIs` | pjproject_1.0/pjlib-util/src/pjlib-util/resolver.c:991-1006 | The scan finds the first active server of least response time. |
| `Nameservers.BadStaysOut` | pjproject_1.0/pjlib-util/src/pjlib-util/resolver.c:1009-1026 | Over any run, a server found bad is sent nothing before its time is over, unless a good answer comes from it. |
| `Nameservers.BecomesBad` | pjproject_1.0/pjlib-util/src/pjlib-util/resolver.c:1033-1087 | An answer that can not be parsed or has one of three codes, or a probe left unanswered until it expired, makes a server bad for the full time. |
| `Nameservers.BecomesActive` | pjproject_1.0/pjlib-util/src/pjlib-util/resolver.c:1033-1087 | Any other answer makes a server active for as long as a good one is trusted. |
| `Nameservers.BecomesProbing` | pjproject_1.0/pjlib-util/src/pjlib-util/resolver.c:1009-1026 | A bad or active server whose time is over is asked again, and is on probation for the time of all retransmissions. |
| `Nameservers.StateKept` | pjproject_1.0/pjlib-util/src/pjlib-util/resolver.c:1009-1087 | An answer changes no server but the first with its address; asking changes no state before its time. |
| `Nameservers.DelayMeasured` | pjproject_1.0/pjlib-util/src/pjlib-util/resolver.c:616-620 | Over any events in between, a server's response time is that of the first query sent to it since the last one measured. |
| `Nameservers.Table.constructor` | pjproject_1.0/pjlib-util/src/pjlib-util/resolver.c:425-466 | Servers start active, already expired, with a response time of ten seconds. |
| `Nameservers.Table.Select` | pjproject_1.0/pjlib-util/src/pjlib-util/resolver.c:972-1029 | Both loops over the array give the selection and the rechecked servers. |
| `Nameservers.Table.ReportStatus` | pjproject_1.0/pjlib-util/src/pjlib-util/resolver.c:1033-1087 | The first server with the address is judged by the reply, and no other. |
| `ResolverCache.ServedIsLatest` | pjproject_1.0/pjlib-util/src/pjlib-util/resolver.c:712-752 | After any use of the cache in order of time, a key is served if and only if the packet last put in under it is younger than the maximum and than each of its answers may be kept (or than the limit for failed and empty responses); what is served is what was made of that packet, and is a copy of it if and only if none of its names was mistaken for another. |
| `ResolverCache.LiveIsYoung` | pjproject_1.0/pjlib-util/src/pjlib-util/resolver.c:1110-1175 | The computed time to live and expiry let a packet be served exactly as long as it is young in that sense. |
| `ResolverCache.SameKey` | pjproject_1.0/pjlib-util/src/pjlib-util/resolver.c:631-647 | Two names have the same key if and only if they have the same type and differ in letter case only, in what a key holds of them: 128 bytes, and no zeros at the end. |
| `ResolverCache.PacketCopied` | pjproject_1.0/pjlib-util/src/pjlib-util/dns.c:614-691 | The packet made for the cache is the packet without its authority and additional sections, with names equal up to letter case, if and only if no name is taken for one copied before it that differs from it behind a zero byte. |
| `ResolverCache.AlikeMeans` | pjproject_1.0/pjlib/include/pj/string_i.h:204-220 | Two names compare as equal if and only if they have the same length and are the same, up to letter case, in front of their first zeros; without zeros that is equality up to letter case. |
| `ResolverCache.RecordCopied` | pjproject_1.0/pjlib-util/src/pjlib-util/dns.c:581-610 | A record is copied with its owner, and the target of a service, shared through the table, and is the same record exactly if neither is mistaken. |
| `ResolverCache.ZeroFreeCopied` | pjproject_1.0/pjlib-util/src/pjlib-util/dns.c:539-569 | A packet whose names have no zero bytes always gets a copy. |
| `ResolverCache.TwoNamesCopied` | pjproject_1.0/pjlib-util/src/pjlib-util/dns.c:539-569 | Two names in one packet are copied if and only if they are the same up to letter case or do not compare as equal. |
| `ResolverCache.MistakenCopy` | pjproject_1.0/pjlib-util/src/pjlib-util/dns.c:548-558 | Two legal names that differ behind a zero: the copy of the packet has the first one twice. |
| `ResolverCache.ApplyNameTable` | pjproject_1.0/pjlib-util/src/pjlib-util/dns.c:539-569 | The search loop shares the first name that compares as equal, or adds one while there is room. |
| `ResolverCache.DupPacket` | pjproject_1.0/pjlib-util/src/pjlib-util/dns.c:614-691 | The loops over the sections make that packet. |
| `ResolverCache.Responses.SmallestTtl` | pjproject_1.0/pjlib-util/src/pjlib-util/resolver.c:1119-1127 | The loop gives the smallest time to live of the answers. |
| `ResolverCache.Responses.UpdateCache` | pjproject_1.0/pjlib-util/src/pjlib-util/resolver.c:1091-1180 | The entry is stored, replaced or cleared as the time to live says. |
| `ResolverCache.Responses.LookUp` | pjproject_1.0/pjlib-util/src/pjlib-util/resolver.c:712-752 | A live entry is served and an expired one removed. |
| `DnsName.LengthIsExact` | pjproject_1.0/pjlib-util/src/pjlib-util/dns.c:117-243 | On every memory, pointer cycles included: measuring and copying a name both end, succeed together with the same error, and the measured length is the length copied. |
| `DnsName.WireReads` | pjproject_1.0/pjlib-util/src/pjlib-util/dns.c:117-243 | A name written out, with labels of 1 to 191 bytes, is measured and read back exactly, at any recursion depth. |
| `DnsName.MeasureName` | pjproject_1.0/pjlib-util/src/pjlib-util/dns.c:117-181 | The loop over labels, with its recursion at a pointer, measures the name or fails as specified. |
| `DnsName.CopyName` | pjproject_1.0/pjlib-util/src/pjlib-util/dns.c:187-243 | The loop fills exactly the measured length of the buffer and leaves the rest as it was. |
| `DnsName.PutName` | pjproject_1.0/pjlib-util/src/pjlib-util/dns_server.c:243-271 | The label loop writes the wire form, gives up exactly when that does not fit, and writes nothing outside its room. |
| `DnsPacket.PacketReads` | pjproject_1.0/pjlib-util/src/pjlib-util/dns_server.c:357-435 | For every packet of supported records, parsing what was printed gives the packet as the label table made it, name by name. |
| `DnsPacket.PacketRoundTrip` | pjproject_1.0/pjlib-util/src/pjlib-util/dns_server.c:213-435 | Parsing what was printed gives the packet back, up to data lengths, if and only if no name is taken for another one whose raw bytes it equals. |
| `DnsPacket.HostNamesFaithful` | pjproject_1.0/pjlib-util/src/pjlib-util/dns_server.c:222-226 | Host names with labels of at most 44 bytes are never taken for one another. |
| `DnsPacket.MistakenName` | pjproject_1.0/pjlib-util/src/pjlib-util/dns_server.c:222-238 | A family of pairs of legal names of which the second is printed as a pointer to the first, and the exact case in which that is harmless. |
| `DnsPacket.MistakenPacket` | pjproject_1.0/pjlib-util/src/pjlib-util/dns_server.c:213-402 | A whole packet that asks for both is read back as asking for the first one twice, which is the same packet only in that case. |
| `DnsPacket.HyphenForDot` | pjproject_1.0/pjlib-util/src/pjlib-util/dns_server.c:222-226 | Two ordinary host names, one with a dot and one with a hyphen, that are taken for one another. |
| `DnsPacket.NamePrinted` | pjproject_1.0/pjlib-util/src/pjlib-util/dns_server.c:213-272 | A printed name, written out or as a pointer, is read as the table made it, and the table stays right. |
| `DnsPacket.RecordPrinted` | pjproject_1.0/pjlib-util/src/pjlib-util/dns_server.c:274-355 | A printed record of each supported type is read back with its names as the table made them. |
| `DnsPacket.QueryRoundTrip` | pjproject_1.0/pjlib-util/src/pjlib-util/dns.c:55-111 | Parsing the query made for a name gives its id, name, type and class; its size is that of the name and 18 bytes. |
| `DnsPacket.SizeCheckTooWeak` | pjproject_1.0/pjlib-util/src/pjlib-util/dns.c:68-72 | For every name, a buffer that passes the size check holds the query if and only if it has the size of the name and 18 bytes (17 if the name is empty or ends with a dot); the check asks for 16. |
| `DnsPacket.ShortBufferPasses` | pjproject_1.0/pjlib-util/src/pjlib-util/dns.c:68-72 | A name and a buffer that passes, and is too small. |
| `DnsPacket.FindEntry` | pjproject_1.0/pjlib-util/src/pjlib-util/dns_server.c:222-226 | The search loop finds the first entry with these bytes in the packet. |
| `DnsPacket.AppendName` | pjproject_1.0/pjlib-util/src/pjlib-util/dns_server.c:213-272 | The name printer writes what the specification prints, and fails exactly when a name written out does not fit. |
| `DnsWire.ReadsWhatIsThere` | pjproject_1.0/pjlib-util/src/pjlib-util/dns.c:423-532 | For every memory and size: a message is read if and only if it stands there, with header, questions and records of any type one behind the other and every name spelled in labels with at most ten jumps. |
| `DnsWire.NameIsSpelled` | pjproject_1.0/pjlib-util/src/pjlib-util/dns.c:117-243 | A name is read if and only if it is spelled there with at most ten jumps, and then as it is spelled, up to the end of its first part. |
| `DnsWire.RecordIsThere` | pjproject_1.0/pjlib-util/src/pjlib-util/dns.c:288-417 | A record is read if and only if one stands there, of class IN and with data of its type, and the reader then stands behind its data. |
| `DnsWire.WireRecordReads` | pjproject_1.0/pjlib-util/src/pjlib-util/dns.c:288-417 | A record of any type, written out in full, is read with exactly its data. |
| `DnsWire.PiecesRead` | pjproject_1.0/pjlib-util/src/pjlib-util/dns.c:475-490 | A section of records of any type, some written out in full and some by the printer, is read back as that list. |
| `DnsWire.RefusedRecord` | pjproject_1.0/pjlib-util/src/pjlib-util/dns.c:310-345 | Why a record is refused whose name is there: cut off fields or data, or another class. |
| `DnsWire.RefusedName` | pjproject_1.0/pjlib-util/src/pjlib-util/dns.c:117-243 | Why a name is refused: a label that reaches the end, a pointer behind it, or a pointer to itself. |
| `DnsWire.AddressBytes` | pjproject_1.0/pjlib-util/src/pjlib-util/dns.c:288-417 | The bytes of an address record. |
| `DnsWire.QueryBytes` | pjproject_1.0/pjlib-util/src/pjlib-util/dns.c:55-111 | The bytes of a query for a name of two labels. |
| `DnsRoom.QueriesRoomIs` | pjproject_1.0/pjlib-util/src/pjlib-util/dns_server.c:381-402 | The checks of the questions pass if and only if what is printed exceeds the room by at most four bytes for each question but the last; four bytes of each question are missing in the account that is left. |
| `DnsRoom.RecordRoomIs` | pjproject_1.0/pjlib-util/src/pjlib-util/dns_server.c:274-355 | The checks of a record pass if and only if the room holds it, and one byte more if its target is printed as the root alone. |
| `DnsRoom.PassesWhenWithinSlack` | pjproject_1.0/pjlib-util/src/pjlib-util/dns_server.c:357-435 | A packet passes all checks of a printer given a size if and only if it can be printed and its bytes, and that spare one, are at most the size and four bytes for each question that something follows. |
| `DnsRoom.PacketChecksAreRight` | pjproject_1.0/pjlib-util/src/pjlib-util/dns_server.c:381-402 | What passes fits, whatever the size of the buffer, if and only if the packet has no questions, or one question and nothing else. |
| `DnsRoom.TwoQuestionsOverrun` | pjproject_1.0/pjlib-util/src/pjlib-util/dns_server.c:388-401 | Any two questions pass in a buffer four bytes too small for them. |
| `DnsMessages.ReadQueries` | pjproject_1.0/pjlib-util/src/pjlib-util/dns.c:456-472 | The loop over the questions reads what the specification reads. |
| `DnsMessages.ReadRecords` | pjproject_1.0/pjlib-util/src/pjlib-util/dns.c:475-490 | The loop over a section reads what the specification reads, or fails where it fails. |
| `DnsMessages.ReadPacket` | pjproject_1.0/pjlib-util/src/pjlib-util/dns.c:423-532 | A whole message is read, or refused, as specified. |
| `DnsMessages.WriteRecord` | pjproject_1.0/pjlib-util/src/pjlib-util/dns_server.c:274-355 | The record is appended to what the buffer held, with its data length filled in last, and the room that is left is told, if and only if it passes the checks; an unsupported type fails. |
| `DnsMessages.WriteQueries` | pjproject_1.0/pjlib-util/src/pjlib-util/dns_server.c:381-402 | The loop appends all questions and leaves the table of the specification, if and only if they pass the checks. |
| `DnsMessages.WriteRecords` | pjproject_1.0/pjlib-util/src/pjlib-util/dns_server.c:404-412 | The loop appends a section, or fails at the first record that can not be printed or does not pass. |
| `DnsMessages.WritePacket` | pjproject_1.0/pjlib-util/src/pjlib-util/dns_server.c:357-435 | The buffer holds the printed packet if and only if it passes the checks; otherwise the printer fails. |
| `DnsMessages.WriteQueryPacket` | pjproject_1.0/pjlib-util/src/pjlib-util/dns.c:55-111 | The buffer holds the query, or is refused by the size check and left alone. |
| `SrvSelection.VotesAreWeight` | pjproject_1.0/pjlib-util/src/pjlib-util/srv_resolver.c:231-245 | A target is elected by as many of the numbers that can be drawn as its weight says, the first one of its priority by one more. |
| `SrvSelection.ElectedBy` | pjproject_1.0/pjlib-util/src/pjlib-util/srv_resolver.c:237-248 | There is always a candidate, and which one follows from where the number falls among the running sums. |
| `SrvSelection.ChosenRises` | pjproject_1.0/pjlib-util/src/pjlib-util/srv_resolver.c:209-261 | The chosen targets have strictly rising priorities. |
| `SrvSelection.ChosenCovers` | pjproject_1.0/pjlib-util/src/pjlib-util/srv_resolver.c:209-261 | Every priority of the records, and no other, is chosen from. |
| `SrvSelection.ChosenFrom` | pjproject_1.0/pjlib-util/src/pjlib-util/srv_resolver.c:209-261 | Each chosen target is one of the records. |
| `SrvSelection.ChosenByWeight` | pjproject_1.0/pjlib-util/src/pjlib-util/srv_resolver.c:218-260 | Each chosen target is the one, among all of its priority, to whom the number drawn for it falls. |
| `SrvSelection.OrderByPriority` | pjproject_1.0/pjlib-util/src/pjlib-util/srv_resolver.c:197-207 | The selection sort orders the targets and permutes them. |
| `SrvSelection.RunningSums` | pjproject_1.0/pjlib-util/src/pjlib-util/srv_resolver.c:221-229 | The loop finds the whole group and notes its running sums. |
| `SrvSelection.Reduce` | pjproject_1.0/pjlib-util/src/pjlib-util/srv_resolver.c:218-260 | The elected target is left in front of what follows its group. |
| `SrvSelection.SelectServers` | pjproject_1.0/pjlib-util/src/pjlib-util/srv_resolver.c:209-261 | The second pass leaves the chosen targets at the front of the array. |
| `SrvSelection.ChooseServers` | pjproject_1.0/pjlib-util/src/pjlib-util/srv_resolver.c:197-261 | Both passes: targets of the answer, one of each of its priorities, in rising order, and each elected by its weight among those of its priority, put in some order. |
| `Xml.RoundTrip` | pjproject_1.0/pjlib-util/src/pjlib-util/xml.c:292-314 | For every tree of clean names, values and contents, with or without the prolog, parsing the printed text gives a determined tree, which is the same one if and only if no node has both children and content. |
| `Xml.NodeReads` | pjproject_1.0/pjlib-util/src/pjlib-util/xml.c:53-157 | A node printed at any depth, anywhere in a text, is read as that tree and no further. |
| `Xml.RereadSame` | pjproject_1.0/pjlib-util/src/pjlib-util/xml.c:184-290 | Exactly the trees without mixed nodes are read back unchanged. |
| `Xml.MixedTreeChanges` | pjproject_1.0/pjlib-util/src/pjlib-util/xml.c:262-285 | A mixed tree that is read back differently. |
| `Xml.AttrsRead` | pjproject_1.0/pjlib-util/src/pjlib-util/xml.c:104-118 | Printed attributes are read back in order. |
| `Xml.QuotedReads` | pjproject_1.0/pjlib-util/src/pjlib-util/scanner.c:350-424 | A quoted value is read back, and the scanner stands behind it. |
| `XmlGrammar.ReadsWhatStands` | pjproject_1.0/pjlib-util/src/pjlib-util/xml.c:53-157 | For every text and position: a node is read if and only if it stands there in some form, with gaps, either quotes, attributes with or without values, instructions and comments in front of nodes, and end tags in any letter case; and it is read as that form says. |
| `XmlGrammar.TextIsRead` | pjproject_1.0/pjlib-util/src/pjlib-util/xml.c:159-181 | The same for whole texts: white space, a node, and anything behind it. |
| `XmlGrammar.AttrsAreRead` | pjproject_1.0/pjlib-util/src/pjlib-util/xml.c:104-118 | Attributes that stand there are read in order, up to the end of the tag. |
| `XmlGrammar.QuotedIs` | pjproject_1.0/pjlib-util/src/pjlib-util/scanner.c:350-424 | A value is read if and only if it stands there up to the first quote of its kind that is not escaped, on one line. |
| `XmlGrammar.BackslashesAre` | pjproject_1.0/pjlib-util/src/pjlib-util/scanner.c:380-410 | The backslashes counted are the whole run of them, the first character of the text left out. |
| `XmlGrammar.SampleReads` | pjproject_1.0/pjlib-util/src/pjlib-util/xml.c:53-157 | A text with something of everything, and its tree. |
| `XmlScanner.Scanner.SkipWhitespace` | pjproject_1.0/pjlib-util/src/pjlib-util/scanner.c:136-189 | The scanner ends behind the white space, as specified. |
| `XmlScanner.Scanner.GetUntil` | pjproject_1.0/pjlib-util/src/pjlib-util/scanner.c:524-571 | The loop reads up to the first stop character, or fails at the end. |
| `XmlScanner.Scanner.GetQuotes` | pjproject_1.0/pjlib-util/src/pjlib-util/scanner.c:350-424 | The loops over quotes and backslashes find the closing quote that is not escaped. |
| `XmlScanner.Scanner.GetChar` | pjproject_1.0/pjlib-util/src/pjlib-util/scanner.c:445-460 | One character is read, or none at the end. |
| `XmlScanner.Scanner.GetAttributes` | pjproject_1.0/pjlib-util/src/pjlib-util/xml.c:104-118 | The loop reads all attributes. |
| `XmlScanner.Scanner.GetNode` | pjproject_1.0/pjlib-util/src/pjlib-util/xml.c:53-157 | The recursive parser moves the scanner and builds the tree as specified, or fails where it fails. |
| `XmlScanner.Read` | pjproject_1.0/pjlib-util/src/pjlib-util/xml.c:159-181 | A text is parsed, or refused, as specified. |
| `XmlScanner.PutNode` | pjproject_1.0/pjlib-util/src/pjlib-util/xml.c:184-290 | The recursive printer writes exactly the node's text into the buffer, if and only if the node passes the checks. |
| `XmlScanner.Write` | pjproject_1.0/pjlib-util/src/pjlib-util/xml.c:292-314 | The result is the specified one; without a failure the buffer holds the printed document, without its last line end if the rest fills the buffer; after a failure with a positive result it holds the prolog alone. |
| `XmlRoom.NodeRoomIs` | pjproject_1.0/pjlib-util/src/pjlib-util/xml.c:184-290 | A node, with all below it, passes the checks of the room if and only if the room holds it and what the checks ask for more: one character with children or for an empty node without attributes, none in general, and three less for an empty node whose last attribute has a value. |
| `XmlRoom.NodeChecksAreRight` | pjproject_1.0/pjlib-util/src/pjlib-util/xml.c:205-238 | What passes fits, whatever the room, if and only if the node is not an empty one whose last attribute has a value; it never exceeds the room by more than three characters. |
| `XmlRoom.ResultTells` | pjproject_1.0/pjlib-util/src/pjlib-util/xml.c:292-314 | A failure is told by a result that is not positive, or by the length of the prolog when there is one, and by nothing else; a negative result comes only without prolog or when the prolog does not fit; a success returns the document's size. |
| `XmlRoom.EmptyNodeOverruns` | pjproject_1.0/pjlib-util/src/pjlib-util/xml.c:230-238 | A node that takes twelve characters of a buffer of eight. |
| `XmlRoom.LayoutSample` | pjproject_1.0/pjlib-util/src/pjlib-util/xml.c:184-290 | How a tree is laid out: a line for each node, indented by its depth. |
| `Getopt.Run` | pjproject_1.0/pjlib-util/src/pjlib-util/getopt.c:374-462 | Calling until -1: the outcomes are those of the reference parse, the arguments end with the program name, then options and their arguments, then operands, and the index points at the first operand; a command line written for some options, in whatever order with operands, gives exactly those options. |
| `OptionSyntax.ModeIsDeclared` | pjproject_1.0/pjlib-util/src/pjlib-util/getopt.c:588-748 | An option string means what was declared, for every letter: none, an optional or a required argument, or unknown. |
| `OptionSyntax.CommandLineMeans` | pjproject_1.0/pjlib-util/src/pjlib-util/getopt.c:374-749 | For every list of flags, options with arguments in the same or the next element, long options by any name that matches, and operands: written out, it is understood as that list; everything behind two dashes is an operand. |
| `OptionSyntax.ClusterMeans` | pjproject_1.0/pjlib-util/src/pjlib-util/getopt.c:588-749 | Flags and one more option in one element give each flag and the option with its argument, and use up the elements it was written in. |
| `OptionSyntax.LongMeans` | pjproject_1.0/pjlib-util/src/pjlib-util/getopt.c:534-572 | A long option gives its value, or zero if it has a flag, its argument and its place in the table. |
| `OptionSyntax.Complaints` | pjproject_1.0/pjlib-util/src/pjlib-util/getopt.c:597-602 | An unknown letter is told as such and skipped; a missing argument is told by a colon if the option string starts with one. |
| `OptionSyntax.LongComplaints` | pjproject_1.0/pjlib-util/src/pjlib-util/getopt.c:524-586 | An unknown or ambiguous long name, or an argument that is not wanted, is told as such. |
| `OptionSyntax.ParsePermutes` | pjproject_1.0/pjlib-util/src/pjlib-util/getopt.c:394-462 | Options and operands together are exactly the arguments. |
| `OptionSyntax.ParseKeepsOrder` | pjproject_1.0/pjlib-util/src/pjlib-util/getopt.c:394-462 | Options and operands each keep their original order. |
| `Getopt.LayoutPermutes` | pjproject_1.0/pjlib-util/src/pjlib-util/getopt.c:374-462 | The final argument list is a permutation of the first one. |
| `Getopt.RotateInPlace` | pjproject_1.0/pjlib-util/src/pjlib-util/getopt.c:222-276 | The exchange ends, and rotates the two adjacent segments in place. |
| `Getopt.RotateShortBottom` | pjproject_1.0/pjlib-util/src/pjlib-util/getopt.c:236-251 | Swapping a shorter bottom segment into place leaves a smaller exchange of the same outcome. |
| `Getopt.RotateShortTop` | pjproject_1.0/pjlib-util/src/pjlib-util/getopt.c:252-267 | Swapping a shorter top segment into place leaves a smaller exchange of the same outcome. |
| `OptionSyntax.FindLongIsLongMatch` | pjproject_1.0/pjlib-util/src/pjlib-util/getopt.c:498-532 | The scan of the long options finds the exact name, else the only one abbreviated, else reports ambiguity or absence. |
| `Getopt.LookUp` | pjproject_1.0/pjlib-util/src/pjlib-util/getopt.c:498-532 | The loop over the long options gives that match. |
| `Getopt.Scanner.constructor` | pjproject_1.0/pjlib-util/src/pjlib-util/getopt.c:280-315 | Scanning starts behind the program name. |
| `Getopt.Scanner.Exchange` | pjproject_1.0/pjlib-util/src/pjlib-util/getopt.c:222-276 | The skipped operands move behind the options and their arguments, and the bounds follow. |
| `Getopt.Scanner.FindElement` | pjproject_1.0/pjlib-util/src/pjlib-util/getopt.c:394-462 | Scanning either is finished with everything in its final place, or stands at an option. |
| `Getopt.Scanner.DecodeShort` | pjproject_1.0/pjlib-util/src/pjlib-util/getopt.c:588-749 | A short option gives the next outcome of the reference parse. |
| `Getopt.Scanner.DecodeLong` | pjproject_1.0/pjlib-util/src/pjlib-util/getopt.c:486-586 | A long option gives the next outcome of the reference parse. |
| `Getopt.Scanner.Next` | pjproject_1.0/pjlib-util/src/pjlib-util/getopt.c:374-462 | Each call gives the next outcome of the reference parse and keeps the layout of the arguments; -1 comes only at the end. |
| `Base64.RoundTrip` | pjproject_1.0/pjlib-util/src/pjlib-util/base64.c:78-179 | Decoding an encoded byte string gives it back. |
| `Base64.QuadIsNumber` | pjproject_1.0/pjlib-util/src/pjlib-util/base64.c:51-75 | Three bytes and the four letters for them are the same number. |
| `Base64.TestVectors` | pjproject_1.0/pjlib-util/src/pjlib-util/base64.c:78-118 | The test vectors of section 10 of RFC 4648. |
| `Base64.InvalidAsSlash` | pjproject_1.0/pjlib-util/src/pjlib-util/base64.c:140-150 | An invalid character in a full group is read like a slash. |
| `Base64.InvalidEnds` | pjproject_1.0/pjlib-util/src/pjlib-util/base64.c:152-173 | In the last group an invalid character ends the result. |
| `Base64.CanonicalRoundTrip` | pjproject_1.0/pjlib-util/src/pjlib-util/base64.c:78-179 | A text is the encoding of what it decodes to if and only if it is whole groups of valid characters with padding over zero bits at its end. |
| `Base64.SizeFits` | pjproject_1.0/pjlib-util/include/pjlib-util/base64.h:42 | The promised size is enough for every length. |
| `Base64.Groups` | pjproject_1.0/pjlib-util/include/pjlib-util/base64.h:48 | No text decodes to more bytes than promised for its length. |
| `Base64.ClosingAssertion` | pjproject_1.0/pjlib-util/src/pjlib-util/base64.c:175 | The closing assertion of the decoder holds if and only if the buffer is larger than promised, or an invalid character ends the last group early. |
| `Base64.ClosingAssertionFails` | pjproject_1.0/pjlib-util/src/pjlib-util/base64.c:175 | Four letters fail it in a buffer of the promised size. |
| `Base64.EncodeInto` | pjproject_1.0/pjlib-util/src/pjlib-util/base64.c:78-118 | The loop writes the encoding into a buffer of the promised size, and refuses a smaller one. |
| `Base64.DecodeInto` | pjproject_1.0/pjlib-util/src/pjlib-util/base64.c:121-179 | The loop writes the decoded bytes into a buffer of the promised size, and refuses a smaller one. |
| `Hashing.FoldMore` | pjproject_1.0/pjlib-util/src/pjlib-util/md5.c:73-116 | Folding blocks may stop anywhere in the data and go on with what is left over. |
| `Hashing.AddBitsRight` | pjproject_1.0/pjlib-util/src/pjlib-util/md5.c:78-83 | Both words of the counter together count the bits modulo 2^64, whatever the carry and the size of the piece. |
| `Hashing.PaddingIsRight` | pjproject_1.0/pjlib-util/src/pjlib-util/md5.c:123-155 | Padding fills up the last block with as little as it can: the byte 0x80, zeros, and the number of bits. |
| `Hashing.WordsAreNumbers` | pjproject_1.0/pjlib-util/src/pjlib-util/md5.c:122-160 | The four bytes of a word, in either order, are its value. |
| `Md5.Context.Update` | pjproject_1.0/pjlib-util/src/pjlib-util/md5.c:73-116 | The context is right for the message so far, however it was cut into pieces. |
| `Md5.Context.Count` | pjproject_1.0/pjlib-util/src/pjlib-util/md5.c:78-83 | The counter takes the piece's bits. |
| `Md5.Context.Absorb` | pjproject_1.0/pjlib-util/src/pjlib-util/md5.c:85-115 | The block under way is completed, whole blocks are folded and the rest is kept. |
| `Md5.Context.Pad` | pjproject_1.0/pjlib-util/src/pjlib-util/md5.c:122-150 | The padding fills one block or two, up to the bit count. |
| `Md5.Context.Final` | pjproject_1.0/pjlib-util/src/pjlib-util/md5.c:122-161 | The digest is the fold over the padded message. |
| `Md5.DigestOf` | pjproject_1.0/pjlib-util/src/pjlib-util/md5.c:58-161 | The digest of a message in pieces is that of the whole. |
| `Sha1.Context.Update` | pjproject_1.0/pjlib-util/src/pjlib-util/sha1.c:206-225 | The context is right for the message so far; of the caller's data only whole blocks behind the first completed one are written over. |
| `Sha1.Context.Final` | pjproject_1.0/pjlib-util/src/pjlib-util/sha1.c:229-259 | The byte-by-byte padding ends at 56 modulo 64, and the digest is the fold over the padded message. |
| `Sha1.DigestOf` | pjproject_1.0/pjlib-util/src/pjlib-util/sha1.c:193-259 | The digest of a message in pieces is that of the whole. |
| `Sha1.WideSizesMiscount` | pjproject_1.0/pjlib-util/src/pjlib-util/sha1.c:212-213 | With sizes of 64 bits the counter counts the bits modulo 2^64 if and only if the shifted size of the piece has 32 bits or the low word really carries. |
| `Sha1.MiscountedPiece` | pjproject_1.0/pjlib-util/src/pjlib-util/sha1.c:212-213 | The first piece of 2^29 bytes is counted as twice its size. |
| `Sha1.HashInPlace` | pjproject_1.0/pjlib-util/src/pjlib-util/sha1.c:193-259 | The digest of some data in one piece; only whole blocks behind the first one are written over. |
| `Hmac.MakePad` | pjproject_1.0/pjlib-util/src/pjlib-util/hmac_md5.c:46-56 | The pad is the key, filled up with zeros, combined with the byte. |
| `Hmac.KeyPadIs` | pjproject_1.0/pjlib-util/src/pjlib-util/hmac_md5.c:46-56 | Behind the key the pad is all the byte; within it, combining once more gives the key back. |
| `Hmac.LongKeys` | pjproject_1.0/pjlib-util/src/pjlib-util/hmac_md5.c:30-40 | A key of up to one block is used as it is, a longer one counts as its hash. |
| `Hmac.EmptyKey` | pjproject_1.0/pjlib-util/src/pjlib-util/hmac_md5.c:46-84 | With an empty key the pads show: 0x36 inside, 0x5c outside. |
| `Hmac.HmacMd5.constructor` | pjproject_1.0/pjlib-util/src/pjlib-util/hmac_md5.c:23-63 | The inner context holds the inner pad of the key, hashed first if it is longer than a block. |
| `Hmac.HmacMd5.Update` | pjproject_1.0/pjlib-util/src/pjlib-util/hmac_md5.c:65-70 | The text grows by the piece. |
| `Hmac.HmacMd5.Final` | pjproject_1.0/pjlib-util/src/pjlib-util/hmac_md5.c:72-84 | The code is H(K xor opad, H(K xor ipad, text)) for MD5. |
| `Hmac.HmacSha1.constructor` | pjproject_1.0/pjlib-util/src/pjlib-util/hmac_sha1.c:23-62 | The inner context holds the inner pad of the key, hashed first if it is longer than a block; of such a key only whole blocks behind the first one are written over. |
| `Hmac.HmacSha1.Update` | pjproject_1.0/pjlib-util/src/pjlib-util/hmac_sha1.c:64-68 | The text grows by the piece; of the caller's data only whole blocks behind the first completed one are written over. |
| `Hmac.HmacSha1.Final` | pjproject_1.0/pjlib-util/src/pjlib-util/hmac_sha1.c:70-82 | The code is H(K xor opad, H(K xor ipad, text)) for SHA-1. |
| `Crc32.TableRight` | pjproject_1.0/pjlib-util/src/pjlib-util/crc32.c:26-79 | Each of the 256 entries of the table is what eight single-bit steps make of its index. |
| `Crc32.CheckValue` | pjproject_1.0/pjlib-util/src/pjlib-util/crc32.c:188-237 | The check value of this CRC. |
| `Crc32.WordStepRight` | pjproject_1.0/pjlib-util/src/pjlib-util/crc32.c:161-169 | Mixing in a word and stepping four times takes its four bytes one by one. |
| `Crc32.CrcSplits` | pjproject_1.0/pjlib-util/src/pjlib-util/crc32.c:194-218 | Updating with two pieces is updating with both together. |
| `Crc32.BurstNoticed` | pjproject_1.0/pjlib-util/src/pjlib-util/crc32.c:151-178 | Any change to the data within four neighbouring bytes changes the checksum. |
| `Crc32.EightBitsLinear` | pjproject_1.0/pjlib-util/src/pjlib-util/crc32.c:202-213 | The bit steps are linear. |
| `Crc32.BitContext.Update` | pjproject_1.0/pjlib-util/src/pjlib-util/crc32.c:194-218 | The bit-by-bit loop takes the remainder over all the data. |
| `Crc32.WordContext.Update` | pjproject_1.0/pjlib-util/src/pjlib-util/crc32.c:151-178 | At every alignment, the leading bytes, the words and the tail together take the same remainder. |
| `Crc32.CalcByBits` | pjproject_1.0/pjlib-util/src/pjlib-util/crc32.c:188-237 | The bit-by-bit build gives the checksum. |
| `Crc32.CalcByWords` | pjproject_1.0/pjlib-util/src/pjlib-util/crc32.c:146-183 | The table-driven build gives the same checksum. |
| `Crc32.CalcInParts` | pjproject_1.0/pjlib-util/src/pjlib-util/crc32.c:151-178 | So does it for data in two parts, however each is aligned. |

## Left out

- The native SIP stack, its wrappers, media, tones, transfer, DTMF and presence: calls passed on to code that is not part of this model.
- Displays, call durations and clock times in call control, and starting and stopping the manager: outputs without influence on the calls.
- CallControl.ReplaceFits: says what becomes of the table; a call lost from it by a failed replacement still has its timers in the source, so runs replace sessions by fresh ones only, as the stack promises.
- CallManager.CallManager.CreateOutboundCall: always gets a machine from the factory, as from the one of the application (Deveck.TAM/Sipek/SipekFactory.cs); without one the source dials nothing.
- CallManager.CallManager.OnCallStateChanged: has the three changes of a call in the table; the incoming one is `OnSessionIncoming`, which always gets a machine too, while the source would forward the call or enter a machine without function.
- Call machines are values in the manager's table, so that two references to one machine are not distinguished.
- Sockets, polling, mutexes, memory pools and logging: the outcome of sending is an input of a step, callbacks are log entries.
- ResolverQueries.Queries.End: makes its callbacks without other operations in between; those are covered by the runs of `Resolver`.
- Resolver.CancelKeeps: cancels through the handle of a pending query only; a handle kept after its query ended may point to another query, which the interface rules out. Cancelling with notice a query without a callback, or one already cancelled, is not a step of a run: the source calls a null pointer then.
- Destroying a resolver, its dump, and the parser of A responses: easy members only.
- Nameservers.Table.Select: has no limit of 16 on the selection, because at most 15 servers can be set and no more are selected than there are.
- ResolverCache.Responses.UpdateCache: takes the packet as a value; callbacks that change the packet before it is stored are not modelled.
- DnsMessages.WritePacket: requires four bytes for each question, and two, behind the size the printer is told, because the source writes there when its checks let it; what is in the buffer after a failure is not stated.
- DnsMessages.WriteQueries: requires those bytes in the same way.
- DnsMessages.WriteRecord: requires two bytes behind the room it is told, because a pointer is written in front of the check that fails.
- DnsMessages.WriteRecords: requires those two bytes in the same way.
- DnsMessages.WriteQueryPacket: requires two bytes behind the size it is told, which the source may write wrongly.
- DnsPacket.PacketRoundTrip: for printed packets of at most 16384 bytes, because a pointer has 14 bits; the server prints at most 1500.
- Reading SRV answers into targets, and filling in their addresses: filters and copies around the two passes modelled.
- The source position of the text scanner, its other reading functions, and searching and cloning XML trees: not used by the round trip.
- XmlScanner.Write: requires four characters behind the size it is told, because the source writes there when its checks let it; sizes have at most 31 bits.
- XmlScanner.PutNode: requires three characters behind the room it is told, in the same way.
- Getopt.Run: for the permuting order only, without the other two orders, `-W`, long options with a single dash, and the copy of a rejected option character; option values of -1 are excluded, because a caller takes them for the end.
- Base64.DecodeInto: does not model that the source looks at the byte before a text of padding only; what that byte is makes no difference.
- The transformations of MD5 and SHA-1: any function of state and block; `Sha1` also takes any function for what is left in the memory of a block.
- Crc32.WordContext.Update: has the table and byte order of the little-endian build only.
- Loading and saving the call log, and its lists by type.
- The answering machine's own actions, triggers, configuration and service hosting: input, output and easy members.
