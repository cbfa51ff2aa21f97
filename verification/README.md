# A verified model of TMET's election specification, proxy and virtual clock

TMET model-checks a Raft election, and replays what the checker finds in a real system through a transparent proxy
and intercepted system calls. This project models three of its parts in Dafny and proves, for all inputs and all
runs, what the repository checks only within bounds or relies on unstated.

* **The election over a FIFO network** (`FifoNetwork.dfy`, `Connectivity.dfy`, `Wires.dfy`, `NetworkRuns.dfy`,
  `PySyncObj.dfy`, `NextAction.dfy`, `ElectionSafety.dfy`, `LeaderReachable.dfy`, `AsWritten.dfy`). The TLA+ operators are functions on an
  immutable state. An action is named by the servers its existential chooses, so a run is a list of actions, for any
  finite set of servers and with no bound on terms, messages, partitions or cures. Every action is one call of the
  network's API; what holds of all runs of the network is proved once and carried over (`RunOnNet`).
  * The specification does not say what the roles become when a vote is counted without making a quorum. A run may take
    that step with any roles (`HandleRVRLoosely`); a run that never takes it is called completed. `NextAction` has the
    next-state relation conjunct by conjunct on the variables before and after, and `NextSteps` shows that the actions
    make exactly its steps.
  * Main results on all runs as written: `OneLeaderExactly` (the repository's invariant holds in all reachable states if
    and only if there are at most three servers), `OneVotePerTerm`, `VoteAccounting`, `LeaderReachable` (a leader can be
    elected from every reachable state of two or more servers, leaving no role to chance), `DeliveryIncreases`,
    `RunLive` (no message on a severed link).
  * Main result on completed runs of any number of servers, and on all runs of up to three: `ElectionSafety` (no two
    leaders of one term, even at different moments of a run). On completed stretches `LeaderStays`: a leader leads until
    it times out or gets a request of a strictly higher term.
  * The state only counts votes. The proof keeps beside a run a history of who voted for whom (`Record`), computed from
    the actions and never read by them.
* **The proxy** (`Framing.dfy`, `ProxyState.dfy`, `ProxyRuns.dfy`, `ProxyLoops.dfy`, `ProxyArrivals.dfy`,
  `Receiving.dfy`, `ReceiverRuns.dfy`, `TcpNetwork.dfy`, `Transparency.dfy`). `TcpNetwork` is the object: a table, queues and shared heap
  cells updated in place. Each of its methods is proved to do to the object what a function of `ProxyState` or
  `Receiving` says; invariants and whole runs are proved about these functions.
  * Main results: `NeverWrongConnection`, `NothingLost` (what came in for an end of an untagged connection is what was
    written to it followed by what is queued for it), `NothingMadeUp`, `TableStaysPaired`, `RecoveredNeverWritten`,
    `PartitionLasts`, `ChannelsAreBare`, `CallLeaves`, `GivenUpForGood`.
  * Framing: what the system does is given beforehand, as how many bytes come before each look, which waits expire and
    which writes fail. `TransparentExactly`: with waits and writes that succeed, whatever the arrivals, deliveries and
    partitions, all buffers come through if and only if no call's first peek sees one to three bytes. `EndToEndExactly`
    says the same of what the other program is written, and the method `EndToEnd` plays it from the sender's `sendto`
    to that program's end.
* **The virtual clock** (`VirtualClock.dfy`). `Clock` holds the fields of `timing.c`; its methods are proved against
  functions on its fields and on total nanoseconds, and all runs of reads and jumps are accounted for, in totals
  (`TimeAccounting`) and in seconds and nanoseconds (`FieldsNormal`).

## What the code does that one might not expect

* In `HandleMsgRVR` the branch for a vote that makes no quorum leaves `raftState'` unconstrained
  (`PySyncObjTLA/PySyncObj.tla:160-162`). A first counted vote is a quorum of up to three servers, so the branch is dead
  for the three that `PySyncObjTLA/PySyncObj.ini:32` names (`LooseNeedsFour`). From four on, the specification as written
  allows two leaders in one term after three actions (`TwoLeaders`), candidates and leaders that did not vote for
  themselves, and counts above the votes cast (`CountedTooMuch`). `OneLeaderExactly`, `RunnersVoteExactly` and
  `RunnersCountExactly` give the exact bound.
* Both flushing operations of the network count the messages before the flush, so `n_wire` is too large exactly when
  the flush threw something away (`PartitionCountExact`). A timeout and a partition are enough (`Miscounted`): `n_wire`
  is exact in all reachable states if and only if there is at most one server (`WireExactly`). In every run it is too
  large by what the last flush threw away (`MessagesConserved`).
* `GetCurrentLogTerm` and `GetCurrentLogIdx` return each other's field. As the log never changes, the comparison never
  refuses a vote (`LogCheckInert`).
* `votedFor` is never cleared. It is a vote of the current term exactly if the server has not stepped down as a leader
  since it last voted (`VotedForExactly`); a run of any two or more servers reaches such a step (`StaleVote`). Each
  server still casts one vote per term.
* `packet_validation` keeps the wrong end of the word for one to three bytes: on the first peek of a call it rejects
  every such header, good or bad (`FirstPeek`). On a stream of frames this is the only way to give up on the framing;
  and a frame whose rest stays out longer than the receive time limit closes the connection (`FramedReception`).
* The end of a stream closes its connection at once. In queued mode what is queued for the other end is then lost: all
  that came in was written exactly if nothing was queued and the call that met the end read nothing
  (`CloseLosesExactly`).
* `recover` of a node connected with itself calls `close` on a descriptor that it has closed already, and only then
  (`TcpNetwork.Recover`).
* `sendto` leaves `nr_send_syscall` standing when the header cannot be sent.
* `set_time_increment` adds without a carry, so nanoseconds may pass 10^9: exactly if what is left of the jump takes
  them there (`SetTimeIncrement`), for instance after two jumps of just under a second (`TwoJumps`). They are never
  negative.

## Model

| member | source | states |
|---|---|---|
| Connectivity.IsConnMeans | PySyncObjTLA/FifoNetwork.tla:233-234 | two nodes are connected exactly when they share a set of the list |
| Connectivity.AddConnPairs | PySyncObjTLA/FifoNetwork.tla:140-144 | connects exactly the old pairs and the pairs inside the given nodes |
| Connectivity.DelConnPairs | PySyncObjTLA/FifoNetwork.tla:151-156 | keeps exactly the old pairs that avoid the given nodes |
| Connectivity.PartConnPairs | PySyncObjTLA/FifoNetwork.tla:161-162 | exactly the pairs inside the given nodes and the old pairs fully outside them |
| Connectivity.IsPartedMeans | PySyncObjTLA/FifoNetwork.tla:239-243 | with two or more nodes, parted exactly when some pair is cut off |
| NetworkRuns.RunGroups | PySyncObjTLA/FifoNetwork.tla:217-228 | over all runs of partitions and cures the connection sets stay pairwise disjoint |
| NetworkRuns.RunConnectivity | PySyncObjTLA/FifoNetwork.tla:233-243 | over these runs being connected is symmetric and transitive, and NetIsParted means a pair is cut off |
| Wires.WireSumCounts | PySyncObjTLA/FifoNetwork.tla:94-112 | the sum is the number of places of queued messages, whatever the pick order |
| Wires.FlushMsgsQueues | PySyncObjTLA/FifoNetwork.tla:171-190 | empties exactly the queues that cross the partition, whatever the pick order |
| Wires.FlushMsgsDelQueues | PySyncObjTLA/FifoNetwork.tla:183-193 | empties exactly the queues with an end among the deleted nodes |
| Wires.DelMsgQueue | PySyncObjTLA/FifoNetwork.tla:283-286 | takes one head, and succeeds exactly on the head's sequence number |
| Wires.BatchIsAddEach | PySyncObjTLA/FifoNetwork.tla:269-278 | a batch is the same as its messages sent one by one: queues, numbers and counters |
| NetworkRuns.StepConnects | PySyncObjTLA/FifoNetwork.tla:199-243 | which pairs each call of the network connects |
| NetworkRuns.CountersCount | PySyncObjTLA/FifoNetwork.tla:206-349 | in every run n_part, n_cure and n_recv are the numbers of partitions, cures and deliveries |
| NetworkRuns.AddQueue | PySyncObjTLA/FifoNetwork.tla:252-262 | a connected message joins its queue under the next number, a disconnected one changes nothing |
| NetworkRuns.ReplyIsDelThenAdd | PySyncObjTLA/FifoNetwork.tla:301-342 | a reply is receiving the request and then sending the response |
| NetworkRuns.StepKeepsInv | PySyncObjTLA/FifoNetwork.tla:199-349 | no Assert fires on an enabled call; numbering, uniqueness and counter bounds survive every call |
| NetworkRuns.NumbersUnique | PySyncObjTLA/FifoNetwork.tla:252-278 | in every run no number is in flight twice |
| NetworkRuns.DeliveryIncreases | PySyncObjTLA/FifoNetwork.tla:283-349 | in every run the delivered numbers of a channel strictly increase and stay below what is queued |
| NetworkRuns.RunInv | PySyncObjTLA/FifoNetwork.tla:317-349 | in every run the queued messages are at most n_wire, and n_recv + n_wire at most n_sent |
| NetworkRuns.MessagesConserved | PySyncObjTLA/FifoNetwork.tla:206-349 | in every run n_wire is the queued messages and those the last flush threw away, and every message sent was delivered, is queued or was thrown away |
| NetworkRuns.CountersExact | PySyncObjTLA/FifoNetwork.tla:317-349 | both with equality until the first partition or deletion |
| NetworkRuns.PartitionCountExact | PySyncObjTLA/FifoNetwork.tla:217-223 | after a flushing partition n_wire is exact if and only if no message sat on a crossing queue |
| NetworkRuns.RunLive | PySyncObjTLA/FifoNetwork.tla:206-228 | with flushing, a non-empty queue connects its two ends, in every run |
| PySyncObj.TimeOutBatch | PySyncObjTLA/PySyncObj.tla:171-190 | the batch holds exactly one request per other server, and its Assert never fires |
| NextAction.RequestSteps | PySyncObjTLA/PySyncObj.tla:118-143 | handling a request makes exactly the step that the action allows, conjunct by conjunct: a term that is not higher leaves term and role alone |
| NextAction.ResponseSteps | PySyncObjTLA/PySyncObj.tla:145-166 | the two actions on a response make exactly the steps that the action allows, conjunct by conjunct, roles left open included |
| NextAction.TimeoutSteps | PySyncObjTLA/PySyncObj.tla:171-190 | a timeout makes exactly the step that the action allows, conjunct by conjunct |
| NextAction.NextSteps | PySyncObjTLA/PySyncObj.tla:195-227 | the actions make exactly the steps of Next |
| NextAction.RoleChanges | PySyncObjTLA/PySyncObj.tla:105-190 | a timeout makes a candidate, a request of a higher term a follower, the last vote of a majority a leader; any other action that decides the roles changes no role and no term |
| NextAction.LeaderStays | PySyncObjTLA/PySyncObj.tla:105-190 | a leader leads its term until it times out or gets a request of a strictly higher term |
| PySyncObj.RunOnNet | PySyncObjTLA/PySyncObj.tla:126-229 | every run as written is a run of the network that only partitions and cures |
| PySyncObj.NoAssertFails | PySyncObjTLA/PySyncObj.tla:195-227 | no Assert fires on any enabled action of any reachable state, in runs as written |
| PySyncObj.ElectionNetwork | PySyncObjTLA/PySyncObj.tla:214-229 | in every state reachable as written no message is on a severed link and the connection sets are disjoint |
| PySyncObj.ElectionFifo | PySyncObjTLA/PySyncObj.tla:195-227 | over every run as written the delivered numbers of a channel strictly increase |
| PySyncObj.ElectionCounters | PySyncObjTLA/PySyncObj.tla:214-217 | over every run as written n_wire and n_recv are exact until the first partition |
| ElectionSafety.GrantIsFirst | PySyncObjTLA/PySyncObj.tla:106-142 | a server that grants a vote has cast none in that term, nor stood in it, and is in that term afterwards |
| ElectionSafety.CountServers | PySyncObjTLA/PySyncObj.tla:145-165 | counting a response adds one voter not counted before, so the count stays the number of real voters, whatever the roles become |
| ElectionSafety.StepKeepsInv | PySyncObjTLA/PySyncObj.tla:126-227 | every action as written keeps the invariants on votes, counts and messages, and no Assert fires |
| ElectionSafety.StepKeepsRoles | PySyncObjTLA/PySyncObj.tla:106-190 | every action that decides the roles keeps this: candidates and leaders stand in their term, and leaders counted a majority |
| ElectionSafety.LooseNeedsFour | PySyncObjTLA/PySyncObj.tla:160-162 | while the roles are sound, the branch that leaves them open is taken in clusters of four or more only |
| ElectionSafety.ElectionSafety | PySyncObjTLA/PySyncObj.tla:126-229 | Election Safety, in completed runs and in all runs of up to three servers: leaders of one term are one server, at whatever two moments of a run |
| ElectionSafety.AtMostOneLeaderPerTerm | PySyncObjTLA/PySyncObj.tla:234-241 | the repository's invariant in every reachable state of such runs |
| ElectionSafety.OneVotePerTerm | PySyncObjTLA/PySyncObj.tla:105-142 | a server casts at most one vote per term over a whole run as written |
| ElectionSafety.VoteAccounting | PySyncObjTLA/PySyncObj.tla:115-165 | as written: counts stay within the cluster, and if a server stands in its term its votes counted and in flight never exceed the distinct voters; in completed runs and up to three servers so for every candidate and leader |
| ElectionSafety.TermsBounded | PySyncObjTLA/PySyncObj.tla:105-190 | as written: no request is ahead of its sender's term nor a response of its recipient's |
| ElectionSafety.RunnersVote | PySyncObjTLA/PySyncObj.tla:106-190 | in completed runs and up to three servers candidates and leaders voted for themselves |
| ElectionSafety.LogCheckInert | PySyncObjTLA/PySyncObj.tla:97-136 | the log comparison refuses no vote in any state reachable as written |
| ElectionSafety.HigherTermGranted | PySyncObjTLA/PySyncObj.tla:105-136 | in every run as written a request of a higher term is granted exactly by a server that does not lead |
| ElectionSafety.VotedForExactly | PySyncObjTLA/PySyncObj.tla:126-142 | in every run as written votedFor is a vote of the current term exactly if the server has not stepped down as a leader since it last voted |
| AsWritten.StaleVote | PySyncObjTLA/PySyncObj.tla:131-142 | a completed run of any two or more servers to a deposed leader whose votedFor is no vote of its term |
| AsWritten.VotesInTermExactly | PySyncObjTLA/PySyncObj.tla:126-142 | votedFor is a vote of the current term in all reachable states if and only if there is at most one server |
| AsWritten.OneLeaderExactly | PySyncObjTLA/PySyncObj.tla:145-241 | as written, the repository's invariant holds in all reachable states if and only if there are at most three servers |
| AsWritten.TwoLeaders | PySyncObjTLA/PySyncObj.tla:160-162 | any two of four or more servers can both come to lead term 1 |
| AsWritten.RunnersVoteExactly | PySyncObjTLA/PySyncObj.tla:106-190 | as written, candidates and leaders voted for themselves in all reachable states if and only if there are at most three servers |
| AsWritten.CountedTooMuch | PySyncObjTLA/PySyncObj.tla:160-162 | from four servers on, a run in which a candidate has more votes counted than were cast for it in its term |
| AsWritten.RunnersCountExactly | PySyncObjTLA/PySyncObj.tla:115-165 | as written, the accounting of votes holds of all candidates and leaders if and only if there are at most three servers |
| AsWritten.WireExactly | PySyncObjTLA/FifoNetwork.tla:217-223 | n_wire is exact in all reachable states if and only if there is at most one server |
| AsWritten.Miscounted | PySyncObjTLA/FifoNetwork.tla:217-223 | a timeout and a partition reach a state with n_wire too large |
| LeaderReachable.LeaderReachable | PySyncObjTLA/PySyncObj.tla:126-227 | every run as written of two or more servers has an extension, leaving no role to chance, that ends with a leader |
| LeaderReachable.LoneServerNeverLeads | PySyncObjTLA/PySyncObj.tla:145-174 | a single server never leads in any run as written |
| Framing.NetworkRoundTrip | mysyscall/mysendto.c:60-65 | htonl and ntohl are inverse on 32-bit words |
| Framing.Sender.Hack | mysyscall/mysendto.c:60-66 | puts the 8-byte header on the stream, or nothing on error |
| Framing.Sender.Sendto | mysyscall/mysendto.c:16-57 | a concerned buffer is one frame; what the stream and nr_send_syscall hold after either failure |
| Framing.ValidationIsMasked | tproxy/TcpNetwork.cpp:332-337 | the validation compares the low-order bytes of the two words, as many as have arrived |
| Framing.FirstPeek | tproxy/TcpNetwork.cpp:332-337 | on a fresh header a partial one passes exactly from its fourth byte, if these are the magic |
| Framing.LaterPeek | tproxy/TcpNetwork.cpp:142-204 | after a frame of the same call every partial good header passes |
| Framing.ParseFrameRoundTrip | mysyscall/mysendto.c:60-65 | a framed buffer is read back exactly if its length is below 2^32 |
| Framing.FramesDecode | tproxy/TcpNetwork.cpp:153-182 | frames read off a framed stream are its first buffers, and the rest frames the others |
| Framing.FramesInjective | mysyscall/mysendto.c:26-40 | two lists of short buffers with the same bytes on the stream are the same list |
| Framing.FramedReception | tproxy/TcpNetwork.cpp:142-206 | a call on a framed stream reads the first buffers; it gives up exactly on a first peek of one to three bytes, and finds a truncated frame exactly when the frame has not all come |
| Receiving.ReadFramesEnqueue | tproxy/TcpNetwork.cpp:153-182 | the bodies a call reads, and no others, go one by one through enqueue_msg |
| Receiving.CallLeaves | tproxy/TcpNetwork.cpp:142-206 | on any stream and in both modes: a call that closes leaves neither end in the table and both cells dead, one that gives up marks the descriptor, and nothing else happens to the table, the marks or the cells |
| ReceiverRuns.GivenUpForGood | tproxy/TcpNetwork.cpp:151-162 | after a call gave up on a descriptor, whatever comes and is done, nothing more comes in for its peer, and while the connection is there every call reads no body and changes nothing |
| Receiving.ReceiveReads | tproxy/TcpNetwork.cpp:142-206 | on any stream a call takes exactly the frames of its bodies, forgets nothing that had come, and stops for the listed reasons only |
| Receiving.FramedCall | tproxy/TcpNetwork.cpp:142-206 | on a framed stream a call gives up exactly if its first peek sees one to three bytes, closes only at the end of all or at the time limit, and otherwise reads everything if everything has come |
| Transparency.HearTurn | tproxy/TcpNetwork.cpp:142-273 | what a call reads is in the account of the peer; in direct mode, unless a write fails, the peer was written all of it |
| Transparency.CloseLosesExactly | tproxy/TcpNetwork.cpp:184-194 | a call that closes a connection in queued mode has lost nothing for the peer exactly if nothing was queued for it and the call read nothing |
| Transparency.CourseHolds | tproxy/TcpNetwork.cpp:142-273 | over any course of calls, arrivals, deliveries and partitions the buffers read are the first ones, in order, and if the course breaks off it is for a first peek of one to three bytes (exactly then it gives up), a failed direct write, the end of all, or an expired wait |
| Transparency.TransparentExactly | tproxy/TcpNetwork.cpp:142-206 | with waits and writes that succeed, all buffers come through if and only if no call's first peek sees one to three bytes |
| Transparency.Written | tproxy/TcpNetwork.cpp:212-273 | what was written to the peer is the beginning of what came in; untagged it is all but what is queued, and after enough delivers all |
| Transparency.EndToEndExactly | tproxy/TcpNetwork.cpp:104-273 | on a new connection that nothing cuts, with waits and writes that succeed the peer is written all buffers if and only if no call's first peek sees one to three bytes; in queued mode for streams that do not end |
| Transparency.Play | tproxy/TcpNetwork.cpp:142-273 | the objects, turn by turn, do what the course function says |
| Transparency.SendEach | mysyscall/mysendto.c:16-57 | buffers sent one by one are the frames of the list |
| Transparency.EndToEnd | tproxy/TcpNetwork.cpp:104-273 | from the sender's buffers to what the other program is written, in both modes: a prefix always, and everything exactly under the condition above |
| ProxyArrivals.DrainWritesAll | tproxy/TcpNetwork.cpp:227-273 | enough delivers that can write, from the channel of an untagged connection, write all that has come in for its end |
| ProxyState.OpenEntries | tproxy/TcpNetwork.cpp:104-110 | the two entries have the channel between the addresses without ports, each in its direction, and the two shared cells |
| ProxyRuns.ChannelsAreBare | tproxy/TcpNetwork.cpp:104-110 | in every run all entries and queues go by addresses without ports |
| ProxyRuns.OpenedIsCut | tproxy/TcpNetwork.cpp:104-110 | a partition of either end's bare address cuts a new connection |
| ProxyArrivals.OpenedIsServed | tproxy/TcpNetwork.cpp:104-261 | a body from the source's end of a new connection is written to the destination's end and to no other, by delivers from the source's to the destination's bare address |
| ProxyState.OpenKeepsInv | tproxy/TcpNetwork.cpp:104-110 | a connection on unused descriptors keeps the pairing, the message and the account invariants |
| ProxyState.CloseView | tproxy/TcpNetwork.cpp:281-319 | closing removes both ends and kills both cells, and nothing else |
| ProxyState.TagTable | tproxy/TcpNetwork.cpp:281-296 | tagging marks exactly the two ends |
| ProxyState.DispatchKeepsInv | tproxy/TcpNetwork.cpp:254-273 | a live message finds its own end's entry; it is written there, or its connection is tagged or closed |
| ProxyState.DeliverKeepsInv | tproxy/TcpNetwork.cpp:227-273 | writes the first live message to the entry that owns its cell and faces the channel; the descriptor lookup never fails |
| ProxyState.DeliverMeans | tproxy/TcpNetwork.cpp:227-273 | deliver_msg in every case: the dead front goes and the first live message with it, and it is dropped, written, or breaks its connection |
| ProxyState.EnqueueMeans | tproxy/TcpNetwork.cpp:212-225 | enqueue_msg in every case: dropped, queued, written, or the connection broken |
| ProxyState.RecoverMeans | tproxy/TcpNetwork.cpp:440-488 | what recover does to each entry, mark, cell and queue |
| ProxyState.EnqueueKeepsInv | tproxy/TcpNetwork.cpp:212-225 | a body is queued for, or written to, the other end of its own connection, unless that is tagged |
| ProxyArrivals.BodiesArrive | tproxy/TcpNetwork.cpp:153-225 | in direct mode the peer is written exactly the bodies in order; otherwise they join its queue in order |
| ProxyState.PartitionCuts | tproxy/TcpNetwork.cpp:451-477 | both ends of exactly the connections touching the node are tagged, and bodies arriving there go nowhere |
| ProxyState.PartitionStopsDelivery | tproxy/TcpNetwork.cpp:254-262 | no deliver from a channel touching the node then writes anything |
| ProxyState.RecoverClears | tproxy/TcpNetwork.cpp:440-488 | no entry touches the node, and every message queued from or to it is dead |
| ProxyLoops.RecoverLoops | tproxy/TcpNetwork.cpp:464-480 | the two loops come to that, and close a descriptor twice exactly when the node is connected with itself |
| ProxyRuns.RecoveredNeverWritten | tproxy/TcpNetwork.cpp:227-319 | in no later run, with descriptors reused at will, is such a message taken up for writing to any descriptor; its cell stays dead and its end gets nothing more |
| ProxyRuns.PartitionLasts | tproxy/TcpNetwork.cpp:212-319 | after a partition, in every later run, nothing is ever written to either end of a connection that touched the node |
| ProxyRuns.RunKeepsInv | tproxy/TcpNetwork.cpp:104-319 | all invariants hold over runs of opens, arrivals, deliveries, closes, partitions and recovers |
| ProxyRuns.TableStaysPaired | tproxy/TcpNetwork.cpp:104-110 | every entry's peer is present with swapped channel, swapped cells and the same tag |
| ProxyRuns.NeverWrongConnection | tproxy/TcpNetwork.cpp:227-261 | a queued message is dead, or its descriptor's entry owns its very cell and faces its channel |
| ProxyRuns.NothingLost | tproxy/TcpNetwork.cpp:142-273 | received is written plus queued, in order, for every end of an untagged connection |
| ProxyRuns.NothingMadeUp | tproxy/TcpNetwork.cpp:142-319 | what was written to an end is the beginning of what came in for it, tagged and closed connections included |
| ProxyRuns.RunKeepsDead | tproxy/TcpNetwork.cpp:309-319 | a dead cell stays dead and is never written for |
| TcpNetwork.TcpNetwork.AddFdToChannel | tproxy/TcpNetwork.cpp:104-110 | adds the two entries with two new shared cells and the channels between the addresses without ports |
| TcpNetwork.TcpNetwork.DoClose | tproxy/TcpNetwork.cpp:309-319 | erases one entry, its interception mark and its cell's descriptor |
| TcpNetwork.TcpNetwork.CloseConnection | tproxy/TcpNetwork.cpp:281-307 | tags or closes both ends; counts a close of an unknown descriptor |
| TcpNetwork.TcpNetwork.DeliverMsg | tproxy/TcpNetwork.cpp:227-273 | the loop drops the dead front and dispatches the first live message |
| TcpNetwork.TcpNetwork.DispatchMsg | tproxy/TcpNetwork.cpp:254-273 | looks up the descriptor and writes, drops, tags or closes |
| TcpNetwork.TcpNetwork.EnqueueMsg | tproxy/TcpNetwork.cpp:212-225 | drops, delivers directly or queues |
| TcpNetwork.TcpNetwork.ClearMsgs | tproxy/TcpNetwork.cpp:440-449 | empties one queue if it exists |
| TcpNetwork.TcpNetwork.Partition | tproxy/TcpNetwork.cpp:451-484 | its loop tags both ends of every connection touching the node, in any order of the table |
| TcpNetwork.TcpNetwork.Recover | tproxy/TcpNetwork.cpp:451-488 | its loops remove them, kill their cells and clear their queues; stray closes exactly on a self-connection |
| TcpNetwork.TcpNetwork.SetUnintercepted | tproxy/TcpNetwork.cpp:339-345 | marks the descriptor |
| TcpNetwork.TcpNetwork.DoReceive | tproxy/TcpNetwork.cpp:142-206 | its loop does to the object, the socket and its results what one call comes to (`Receiving.DoReceive`), and keeps all invariants |
| VirtualClock.Clock.IncreaseResolution | mysyscall/timing.c:40-48 | total time grows by one resolution, and normal nanoseconds stay normal |
| VirtualClock.AddResolutionMeans | mysyscall/timing.c:40-48 | the carry is right: the sum is normal and has the right total |
| VirtualClock.FieldsRefine | mysyscall/timing.c:35-90 | in every run the fields stand for the totals, and the nanoseconds are never negative |
| VirtualClock.FieldsNormal | mysyscall/timing.c:40-90 | until a jump passes a second, seconds and nanoseconds are quotient and remainder of the total |
| VirtualClock.Clock.GetTimeIncrement | mysyscall/timing.c:50-61 | the increment is the total since the last read, and the assertion holds |
| VirtualClock.Clock.IncreaseTime | mysyscall/timing.c:64-76 | a read ticks a stopped clock and reports that tick, and otherwise reports the time since the last read |
| VirtualClock.Clock.SetTimeIncrement | mysyscall/timing.c:78-90 | a jump is made less the ticks given out, or not at all; the nanoseconds stay below a second exactly if what is left does not take them over |
| VirtualClock.TwoJumps | mysyscall/timing.c:78-90 | two jumps that take them over |
| VirtualClock.TimeAccounting | mysyscall/timing.c:40-90 | total time is the start, plus the larger of jump and ticks per command, plus the ticks since |
| VirtualClock.ReadsIncrease | mysyscall/timing.c:35-76 | every read is strictly later than every earlier one |
| VirtualClock.ReportsTelescope | mysyscall/timing.c:50-76 | what the two branches of a read report adds up to the time of the last read: nothing twice and nothing lost |

## Left out

- `_netcmd`, the record of the last network call: nothing reads it.
- nextIndex, matchIndex, commitIndex, the command of a log entry and append-entries messages: no action changes or reads them.
- The type predicates of the specifications: the Dafny types stand for them. Roles left open are still roles, one of the three for each server.
- Sockets, epoll, accept and connect: a connection arrives with any two descriptors that are not in the table.
- Races between the epoll and the command thread: every handler is one atomic step.
- Partial writes: the write loop does not advance its pointer, so a write is complete or an error. For an empty body the source reads an unset variable; either outcome is allowed.
- Errors of recv other than running out of data or time; they close the connection or end the call.
- ProxyRuns.NothingLost: is about framed bodies; what is passed on raw for a descriptor marked as not intercepted is in no account.
- TcpNetwork.TcpNetwork.DoReceive: any wait inside a frame may expire, as the socket's schedule says; the length of the time limit is not modelled; in direct mode it stops after a failed write, because there the source goes on with an iterator into an erased entry; and it does not model the raw transfer of a descriptor marked as not intercepted.
- TcpNetwork.TcpNetwork.CloseConnection: close_peer is always true, as in every call of the source.
- TcpNetwork.TcpNetwork.Partition: partition's flags are two methods, as its two callers use them; the lookup of a node's address is an argument.
- Framing.Sender.Sendto: a send is complete or an error; whether the descriptor is of interest is an argument.
- The moves of Msg and the order cmp_channel puts on channels: messages are values that share a cell, and channels are compared for equality.
- VirtualClock.Clock.SetTimeIncrement: integers are unbounded, so the overflow of resolution_increment is not modelled.
- print_status: it adds an empty queue for every channel of the table, after which a deliver from it times out instead of finding no channel; nothing else changes.
- The client connections of the router, logging, configuration and the other intercepted calls: they touch none of the state above.
