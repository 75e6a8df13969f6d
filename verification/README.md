# Models of the protocols and algorithms in this repository

The repository bundles Redis 3.0 and glog with a small trading client. This project models
the parts of it that are hard to get right and proves what they promise. `dafny verify
dfyconfig.toml` checks all of it.

**Redis Cluster** (`cluster.c`). `ClusterModel` has the node-local handlers as functions on
a node's state, and a cluster as a set of nodes and a set of packets that may be delayed,
reordered, duplicated and lost. On top of it: `ClusterEpochs` (epoch domination in all
reachable states), `ClusterDecisions` (which votes are cast, what a win and a lost master
leave behind), `ClusterElection` (election safety, by counting votes in a history that runs
along), `ClusterElectionRun` (a run that shows what election safety depends on),
`ClusterCollision` (a bound on the moves of collision resolution, and what the states are in
which it rests) and `ClusterSlots` (what a slot update moves). `ClusterServer` and
`ClusterPackets` are the same handlers as the source has them, updating node records, slot
tables and bitmaps (`SlotBitmap`) on the heap; each method is proved against the function of
`ClusterModel` with the same job and keeps the redundant tables in agreement, up to the
whole packet handler. `FailReports` has the failure reports about a node, on the list of
`AdList`.

**The append-only file** (`aof.c`). `AofText` and `AofLoad` print and load commands,
`AofMalformed` says how a load ends on any other file; `AofRewriteBuffer` has the block
buffer and the two ends of the handshake, `AofRewrite` the protocol of parent, child and
three pipes as a state machine whose steps the methods' contracts are.

**The demangler** (`demangle.cc`). `Mangling` says where each parser ends, as functions of
the mangled name alone; `Demangle` has the parsers over the mutable state, each proved to
end there, to leave the state alone on failure, and to write nothing when it should not.
`ManglingGrammar` has the grammar as a context-free grammar with derivation trees and proves
that nothing else is accepted; `ManglingTerms`, `ManglingSteps` and `ManglingNames` print
terms of all kinds and prove that what is printed is accepted. `ManglingLengths` deals with
negative lengths.

**Kernels.** `BitString` fixes the numbering of bits; `BitPos`, `Popcount` and `BitOp` are the
word-at-a-time loops of `bitops.c`. `Crc16` is the table-driven loop and `Crc16Polynomial`
the algebra behind it.

**Smaller cores.** `AdList` (the doubly linked list), `RWLock` (the condition-variable
reader/writer lock, one statement a step), `FnMatch` (the glob matcher of `--vmodule`) and
`LineReader` (lines through a buffer of fixed size).

## What does not hold

Where the code does less than its comments or names say, the code is modelled as it is, with
an input that shows the difference and the exact condition:

- The vote counter of a slave also counts acknowledgements that arrive after a new attempt
  was scheduled and before its votes are asked for. Two nodes can win one epoch that way
  (`ClusterElectionRun.TwoWinners`). The counter is right exactly when none came in then
  (`ClusterElection.CounterIsVotesPlusLate`), and then elections are safe (`NoTwoWinners`).
- An UPDATE from a node still in handshake can put a configEpoch above the receiver's
  currentEpoch into its view (`ClusterEpochs.ReceiveKeepsIff`). No such packet comes up in a
  run in which the random name of a node in handshake never equals the ID of a node, which
  is what `EpochDomination` asks for.
- The glob matcher misses matches when the pattern ends in two stars, or when the string has
  a star of its own (`FnMatch.CompleteOnPlainStringsIff`, `CompleteIff`).
- A negative source-name length can keep the demangler's cursor where it is or send it back,
  and the prefix loop then need not end (`ManglingLengths.LoopsForever`). The recognizers of
  `Mangling` have an outcome of their own, `Stuck`, for such a length that is met by a parser
  that is tried; the demangler is proved for all names on which the outcome is another one.
  A negative length that still moves forward is accepted, too, although the grammar comment
  at demangle.cc:599 asks for positive lengths (`NegativeLengthAccepted`).
- The note on the parsing functions (demangle.cc:453-459) says that a failure leaves the
  state unchanged; ParseMangledName and ParseNumber leave the cursor where they got to.
- The code's prefix accepts template parameters and substitutions anywhere in a nested name,
  and an empty one, where the grammar comment has them at its beginning only.
- Loading a log cut in the middle of a command ends the process unless aof-load-truncated is
  set; the lemma says which outcome is which.

## Model

| member | source | states |
|---|---|---|
| ClusterElection.NoTwoWinners | ctp_trade/redis/src/cluster.c:2474-2574 | over every run: if every master that votes in an epoch sees, when it votes, the same set of masters with slots, and every winner of the epoch counted as many, then two nodes that won the epoch without late acknowledgements are one node |
| ClusterElection.ElectionSafety | ctp_trade/redis/src/cluster.c:2777-2875 | over every run: two wins of an epoch with a quorum of distinct voters each, late acknowledgements or not, are wins of one node, if the voters of that epoch come from one set and its quorums are computed for the size of that set |
| ClusterElection.CounterIsVotesPlusLate | ctp_trade/redis/src/cluster.c:2783-2848 | in every reachable state the vote counter is the number of masters that voted for the current attempt plus the acknowledgements counted between re-scheduling and the next request; it is exactly the number of votes if and only if there were none of those |
| ClusterElection.OnTimeWinHasQuorum | ctp_trade/redis/src/cluster.c:2855-2875 | a win without late acknowledgements has a quorum of distinct voters behind it |
| ClusterElectionRun.TwoWinners | ctp_trade/redis/src/cluster.c:2777-2786 | a run from three fresh nodes with one master, whose voters agree, in which two slaves win epoch 2: one on the only vote of the epoch, the other on an acknowledgement of an attempt it had given up, since the counter is cleared when an attempt is scheduled and not when votes are asked for. So the premises of NoTwoWinners can all be met, and without the one on late acknowledgements its conclusion is false |
| ClusterElection.VotesGrow | ctp_trade/redis/src/cluster.c:2474-2574 | along every step recorded votes stay, and a master casts a vote only in an epoch it has not voted in |
| ClusterElection.CountedOnce | ctp_trade/redis/src/cluster.c:1934-1946 | an acknowledgement that is counted answers a vote of the node's current attempt epoch, and while the attempt is open it is counted once |
| ClusterElection.AgreesRespects | ctp_trade/redis/src/cluster.c:2483-2487 | a node that votes is one of the masters with slots in its own view, so agreement makes every voter a member of the one set |
| ClusterElection.RoleKnown | ctp_trade/redis/src/cluster.c:2483-2487 | in every reachable state a node has itself in its tables, as a master or a slave |
| ClusterElection.MajoritiesMeet | ctp_trade/redis/src/cluster.c:2713 | two majorities of one set have a member in common |
| ClusterEpochs.EpochDomination | ctp_trade/redis/src/cluster.c:946-957 | in every reachable state of every run each node's currentEpoch is at least every configEpoch in its view, and every packet in flight carries a currentEpoch at least as great as the configEpoch it reports |
| ClusterEpochs.ReceiveKeepsIff | ctp_trade/redis/src/cluster.c:1605-1619 | receiving a packet keeps that domination if and only if the packet is not an UPDATE from a sender still in handshake about a known node above the local epoch |
| ClusterEpochs.LocalKeeps | ctp_trade/redis/src/cluster.c:990-1011 | every other action of a node (bump, takeover, failover, slot import, forget, soft reset, handshakes) keeps it and sends only honest packets |
| ClusterEpochs.CurrentEpochMonotone | ctp_trade/redis/src/cluster.c:1605-1619 | a node's currentEpoch never falls along a run |
| ClusterCollision.CollisionMovesBounded | ctp_trade/redis/src/cluster.c:1055-1070 | in every asynchronous run in which only collisions change epochs, a master with g masters of greater ID changes its configEpoch at most g times |
| ClusterCollision.QuiescentIffDistinct | ctp_trade/redis/src/cluster.c:1878-1885 | in every reachable state no up-to-date heartbeat makes a node move if and only if the config epochs are pairwise distinct |
| ClusterCollision.TriggersIffEqual | ctp_trade/redis/src/cluster.c:1055-1070 | a heartbeat makes its receiver move if and only if both have the same configEpoch and the receiver has the smaller ID |
| ClusterCollision.GossipKeeps | ctp_trade/redis/src/cluster.c:1608-1619 | in every reachable state of such a run no view is ahead of the node it is about, every packet reports an epoch its sender has held, and every epoch that a node has left was held by a greater master |
| ClusterCollision.HeldByUpward | ctp_trade/redis/src/cluster.c:1055-1070 | the masters from some ID up have never held more different epochs than they are |
| ClusterCollision.BoundReached | ctp_trade/redis/src/cluster.c:1055-1070 | for every g there is a run of g + 1 masters in which the one with the smallest ID moves g times |
| ClusterSlots.UpdateRebindsExactly | ctp_trade/redis/src/cluster.c:1454-1542 | a config update moves a slot if and only if the slot is claimed, not being imported, not the sender's already, and free or held under a lower epoch; and it moves it to the sender |
| ClusterSlots.PacketRaisesOwnerEpoch | ctp_trade/redis/src/cluster.c:1831-1832 | whatever packet a known node sends, an owned slot that changes hands goes to an owner with a strictly greater recorded epoch |
| ClusterDecisions.VotesIffFair | ctp_trade/redis/src/cluster.c:2483-2567 | a vote is due exactly when the voter serves slots, has not voted in the epoch, the request is not older, the requester replicates a known master that failed or is to be replaced, nobody got a vote for that master within twice the node timeout, and no claimed slot has an owner under a greater epoch |
| ClusterDecisions.VotesAreFair | ctp_trade/redis/src/cluster.c:2474-2574 | over every run: each recorded vote was cast at some step by that voter, for that slave and that epoch, on a request that was fair in the voter's view then |
| ClusterDecisions.FairIsVoted | ctp_trade/redis/src/cluster.c:2474-2574 | and at every step at which a fair request is received the vote is recorded |
| ClusterDecisions.WinnersTakeOver | ctp_trade/redis/src/cluster.c:2855-2875 | over every run: behind each win there is a step at which the winner became a master of nobody's under an epoch not below the one it won, took exactly the slots of its master, and sent the news to every node not in handshake |
| ClusterDecisions.FormerMasterEmpty | ctp_trade/redis/src/cluster.c:2683-2688 | after such a step the former master has no slots left in the winner's view and the winner has them on top of its own |
| ClusterDecisions.UpdateFollowsExactly | ctp_trade/redis/src/cluster.c:1506-1527 | a node follows the new owner exactly when an update takes the last slot of it or of its master: it is a replica, and imports nothing if it was a master, or the process ends because it has slots of its own; otherwise no role and no record changes |
| ClusterDecisions.NewerClaimAdopted | ctp_trade/redis/src/cluster.c:1831-1832 | a master's claim to a slot under a greater epoch than the owner's is adopted through a PING, PONG or MEET, and PING and MEET are answered |
| SlotBitmap.WithBitOf | ctp_trade/redis/src/cluster.c:3321-3341 | setting or clearing a bit changes the set a bitmap stands for by exactly that slot |
| ClusterServer.ClusterState.constructor | ctp_trade/redis/src/cluster.c:413-440 | an empty server, both tables in agreement |
| ClusterServer.ClusterState.AddSlot | ctp_trade/redis/src/cluster.c:3368-3373 | the slot gets an owner if it had none; table, bitmap and numslots stay in agreement |
| ClusterServer.ClusterState.DelSlot | ctp_trade/redis/src/cluster.c:3378-3386 | the slot loses its owner if it had one; table, bitmap and numslots stay in agreement |
| ClusterServer.ClusterState.DelNodeSlots | ctp_trade/redis/src/cluster.c:3389-3397 | exactly the slots of the node become free |
| ClusterServer.ClusterState.DelNode | ctp_trade/redis/src/cluster.c:883-910 | the node is gone from the dictionary, exactly its slots and imports are free, and exactly its slaves have no master any more |
| ClusterServer.ClusterState.UpdateSlotsConfigWith | ctp_trade/redis/src/cluster.c:1454-1542 | on the heap: exactly the claimed slots that are not imported, not the sender's and free or held under a lower epoch point to the sender now; if the server or its master lost its last slot, the server is a replica of the sender, with no imports left if it was a master, or the process has ended; otherwise role, master and imports stay |
| ClusterServer.ClusterState.FollowNewOwner | ctp_trade/redis/src/cluster.c:1515-1541 | what the loss of a slot means: nothing while the loser has slots left, the end of the process without a master or with slots of the server's own, a new master otherwise |
| ClusterServer.ClusterState.SetNodeAsMaster | ctp_trade/redis/src/cluster.c:1430-1445 | the node is a master, and one of nobody's if it was none |
| ClusterServer.ClusterState.SetMaster | ctp_trade/redis/src/cluster.c:3588-3605 | the server becomes a replica of the node and forgets its imports if it was a master; or the process ends on a failed assertion, when it has slots or is the node itself |
| ClusterServer.ClusterState.FailoverReplaceYourMaster | ctp_trade/redis/src/cluster.c:2672-2690 | a slave becomes a master of nobody's, and exactly the slots of its old master point to it; a master stays as it is |
| ClusterServer.ClusterState.WinElection | ctp_trade/redis/src/cluster.c:2855-2875 | the same, the server's epoch is at least that of its attempt, and the PONG that says so goes to every node but itself and those in handshake |
| ClusterServer.ClusterState.BroadcastPongToLocalSlaves | ctp_trade/redis/src/cluster.c:2317-2340 | a PONG to exactly the nodes not in handshake that are slaves of the server or of its master |
| ClusterServer.ClusterState.GetMaxEpoch | ctp_trade/redis/src/cluster.c:946-957 | the greatest epoch in view: none is above it and one reaches it |
| ClusterServer.ClusterState.BumpConfigEpochWithoutConsensus | ctp_trade/redis/src/cluster.c:990-1011 | the next epoch, unless the server has a config epoch and nobody, nor the cluster, has a greater one |
| ClusterServer.ClusterState.HandleConfigEpochCollision | ctp_trade/redis/src/cluster.c:1055-1070 | the next epoch exactly if both are masters of one epoch and the server has the smaller name |
| ClusterServer.ClusterState.BuildMessageHdr | ctp_trade/redis/src/cluster.c:2124-2178 | the header of every packet: a slave speaks with the slots and the epoch of its master, and a request says whether the failover is manual |
| ClusterServer.ClusterState.BroadcastMessage | ctp_trade/redis/src/cluster.c:2103-2120 | the packets have the given kind and go to exactly the nodes but the server itself and those in handshake |
| ClusterServer.ClusterState.DeservesVote | ctp_trade/redis/src/cluster.c:2483-2567 | exactly the conditions of a vote, on the fields of the records |
| ClusterServer.ClusterState.SendFailoverAuthIfNeeded | ctp_trade/redis/src/cluster.c:2474-2574 | an acknowledgement is sent exactly under these conditions, it goes to the requester, and then and only then the epoch is voted in and the time of the vote recorded, for the requester's master alone |
| ClusterServer.ClusterState.ReceiveAck | ctp_trade/redis/src/cluster.c:1934-1946 | the counter goes up by one exactly for a master with slots whose epoch, zero in handshake, is not older than the attempt |
| ClusterServer.ClusterState.ReceiveHeader | ctp_trade/redis/src/cluster.c:1605-1619 | the epochs of server and sender are the greater of what they were and what the packet says, unless the sender is in handshake |
| ClusterServer.ClusterState.ReceiveUpdate | ctp_trade/redis/src/cluster.c:1959-1980 | a known node with an older epoch gets the new one, is no slave any more and gets the slots it claims; any other UPDATE changes nothing |
| ClusterServer.ClusterState.HandleSlaveFailover | ctp_trade/redis/src/cluster.c:2710-2875 | one tick of a slave's failover, on the fields: nothing unless its master failed, has slots and the data is not too old, or it was asked to; counting starts again when the attempt is too old; votes are asked for, under the next epoch, of every node, once per attempt; the slots are taken over exactly with a quorum counted in time |
| ClusterPackets.ProcessPing | ctp_trade/redis/src/cluster.c:1770-1885 | the role switch, the slot update, the UPDATE sent back and the collision test, in this order, make the model's step |
| ClusterPackets.ProcessPacket | ctp_trade/redis/src/cluster.c:1553-1985 | from known and unknown senders: the branches over the heap compute the packet handler that the theorems over whole runs are about, and keep the two slot tables in agreement; a stranger gets at most a PONG and changes nothing |
| ClusterPackets.LearnRole | ctp_trade/redis/src/cluster.c:1770-1805 | the sender is a master of nobody's, or no master, a slave of the known master it names, and without slots if it was a master |
| ClusterPackets.TellSender | ctp_trade/redis/src/cluster.c:1852-1876 | silent exactly when no claimed slot has an owner under a greater epoch; otherwise one UPDATE with the owner of the first such slot, its epoch and all its slots |
| ClusterPackets.ProcessFail | ctp_trade/redis/src/cluster.c:1886-1911 | exactly the named node, unless it is the server, is flagged as failed |
| ClusterPackets.SameBitsSameBytes | ctp_trade/redis/src/cluster.c:1823-1824 | two bitmaps compare equal byte by byte exactly when they stand for the same slots |
| FailReports.AddFailureReport | ctp_trade/redis/src/cluster.c:707-731 | the list becomes the one the lemmas are about; the result says whether the node had no report |
| FailReports.AddRefreshes | ctp_trade/redis/src/cluster.c:707-731 | after a report the list has exactly the sender's report with the new time and the reports of all others, those where they were |
| FailReports.RefreshedIsKept | ctp_trade/redis/src/cluster.c:707-751 | a node that reports again is not dropped by a cleanup within twice the node timeout from then |
| FailReports.CleanupFailureReports | ctp_trade/redis/src/cluster.c:737-751 | exactly the reports that are not too old stay, in order, although nodes are deleted while the list is iterated over |
| FailReports.DelFailureReport | ctp_trade/redis/src/cluster.c:764-782 | the report of the node goes, then the old ones; nothing happens when there was none |
| FailReports.DeletedExactly | ctp_trade/redis/src/cluster.c:764-782 | what is left: if the node had a report, the reports of others that are not too old, else all |
| FailReports.FailureReportsCount | ctp_trade/redis/src/cluster.c:787-790 | the number of different nodes that reported recently |
| FailReports.AddKeepsOneEach | ctp_trade/redis/src/cluster.c:707-731 | no node ever has two reports |
| FailReports.DeleteKeepsOneEach | ctp_trade/redis/src/cluster.c:764-782 | after a deletion no report of the node is left |
| FailReports.KeptExactly | ctp_trade/redis/src/cluster.c:737-751 | cleaning keeps a report if and only if it is at most twice the node timeout old |
| FailReports.KeptInOrder | ctp_trade/redis/src/cluster.c:743-750 | the reports that stay keep their order |
| AofLoad.LoadRecoversWholeCommands | ctp_trade/redis/src/aof.c:641-757 | loading any non-empty byte prefix of a log executes exactly the commands wholly within the prefix; with aof-load-truncated the file is cut back to their total length unless they fill it and no MULTI is open, without it the process ends in that case |
| AofLoad.LogRoundTrip | ctp_trade/redis/src/aof.c:451-474 | loading what was printed executes what was printed, for all commands with binary arguments |
| AofLoad.CommandReadBack | ctp_trade/redis/src/aof.c:655-690 | one printed command, followed by anything, is read back with that rest |
| AofLoad.CommandCutOff | ctp_trade/redis/src/aof.c:727-757 | a printed command cut anywhere is reported as an unexpected end of file and as nothing else |
| AofLoad.WholeIsGreatest | ctp_trade/redis/src/aof.c:711-740 | the recovered commands are the longest list whose encoding fits the prefix |
| AofLoad.CatAppendOnlyGenericCommand | ctp_trade/redis/src/aof.c:451-474 | appends the encoding of the command |
| AofLoad.LoadAppendOnlyFile | ctp_trade/redis/src/aof.c:615-760 | the loop over fgets and fread computes the loader the lemmas are about, exits included |
| AofLoad.ReadArguments | ctp_trade/redis/src/aof.c:670-691 | reads the given number of bulk strings, and tells a short file from a malformed one |
| AofLoad.File.Fgets | ctp_trade/redis/src/aof.c:655-660 | a line as far as it fits the loader's buffer, with the end-of-file flag |
| AofMalformed.LoadMeans | ctp_trade/redis/src/aof.c:641-757 | for every file: the commands executed are the ones it starts with, all known; it is cut back only with the option on, behind the last of them, and only where the rest is a command cut off or a MULTI is open; it is loaded without a cut only if nothing else is in it; a format error means that neither a command nor the beginning of one follows |
| AofMalformed.LoadFromMeans | ctp_trade/redis/src/aof.c:641-761 | the same from any point of the loop, for every way in which it ends |
| AofMalformed.JunkExits | ctp_trade/redis/src/aof.c:661 | behind any log, bytes that do not start with a star end the process with a format error, with aof-load-truncated or without |
| AofMalformed.CountBelowOneExits | ctp_trade/redis/src/aof.c:663-664 | so does a header with a count below one |
| AofMalformed.NoArgumentExits | ctp_trade/redis/src/aof.c:676 | so does an announced argument that does not start with a dollar sign |
| AofMalformed.UnknownCommandExits | ctp_trade/redis/src/aof.c:692-697 | a whole command with an unknown name ends the process |
| AofRewrite.HandOffConserves | ctp_trade/redis/src/aof.c:102-203 | at every step of every run what the child read, what is in the pipe and what the parent holds make up everything fed since the fork; and a file that is renamed is the snapshot followed by all of it |
| AofRewrite.CanStillSucceed | ctp_trade/redis/src/aof.c:1132-1172 | from every point at which the child has not failed and neither its '!' nor the answer was lost, the run can go on to a renamed file |
| AofRewrite.SomeRunSucceeds | ctp_trade/redis/src/aof.c:1414-1446 | there is a run from the fork to a renamed file |
| AofRewrite.PipeOnlyShrinks | ctp_trade/redis/src/aof.c:1156-1159 | once the child holds the answer the pipe only shrinks, so its last read ends |
| AofRewrite.Bangs | ctp_trade/redis/src/aof.c:1204-1227 | both ends of the handshake only ever write '!' |
| AofRewriteBuffer.RewriteBuffer.Append | ctp_trade/redis/src/aof.c:133-177 | the bytes are added behind those held, across any number of blocks |
| AofRewriteBuffer.RewriteBuffer.ChildWriteDiffData | ctp_trade/redis/src/aof.c:102-128 | whatever the pipe takes, bytes move in order and none is lost or doubled; none moves after the child asked to stop; before, all do unless the pipe is full |
| AofRewriteBuffer.RewriteBuffer.ChildPipeReadable | ctp_trade/redis/src/aof.c:1204-1227 | a '!' stops the sending before it is answered, and the answer may be lost |
| AofRewriteBuffer.RewriteBuffer.Size | ctp_trade/redis/src/aof.c:86-97 | the number of bytes held |
| AofRewriteBuffer.RewriteBuffer.Write | ctp_trade/redis/src/aof.c:183-203 | -1, or all bytes held are in the file behind what was there |
| AofRewriteBuffer.RewriteBuffer.RewriteDone | ctp_trade/redis/src/aof.c:1414-1446 | only a file that got the whole buffer is renamed |
| AofRewriteBuffer.ReadDiffFromParent | ctp_trade/redis/src/aof.c:1018-1028 | everything in the pipe moves to the end of the child's diff |
| Demangle.Demangle | ctp_trade/glog/src/demangle.cc:1288-1295 | wherever the recognizer does not get stuck: a name is accepted if and only if it is a mangled name with an allowed suffix and the buffer did not overflow; the buffer has no other say |
| ManglingNames.PrintedIsAccepted | ctp_trade/glog/src/demangle.cc:455-1295 | every term of names, types, arguments and expressions that can be read in one way is accepted as it is printed: alone, with any number of clone suffixes, or with a version, and is read to its end |
| ManglingNames.TypeReads | ctp_trade/glog/src/demangle.cc:886-1065 | every such type is read to its end: builtin, qualified, modified, pack, decltype, vendor, function, class, array, member pointer, template parameter and substitution |
| ManglingNames.NameReads | ctp_trade/glog/src/demangle.cc:494-697 | every such name: nested with qualifiers and arguments, local, templated, substituted, in std or not, with all operators, conversions, constructors and destructors |
| ManglingNames.ArgsRead | ctp_trade/glog/src/demangle.cc:1075-1115 | every list of template arguments: types, literals, expressions and packs |
| ManglingNames.ExprReads | ctp_trade/glog/src/demangle.cc:1117-1207 | every such expression: parameters, integers, floats, addresses, operators of one to three operands, sizeof and scoped names |
| ManglingNames.EntityReads | ctp_trade/glog/src/demangle.cc:478-492 | every such entity: functions and objects, local statics, string literals, tables, guards, thunks, construction tables, temporaries and aliases |
| Demangle.State.ParseMangledName | ctp_trade/glog/src/demangle.cc:474-476 | terminates; on failure only the two characters of the prefix stay consumed |
| Demangle.State.ParseEncoding | ctp_trade/glog/src/demangle.cc:481-492 | terminates; parses what the recognizer says; a failure restores the state; nothing is written with append off |
| Demangle.State.ParseName | ctp_trade/glog/src/demangle.cc:498-515 | the same |
| Demangle.State.ParseUnscopedName | ctp_trade/glog/src/demangle.cc:519-532 | the same |
| Demangle.State.ParseNestedName | ctp_trade/glog/src/demangle.cc:542-555 | the same; the nest level is restored |
| Demangle.State.ParsePrefix | ctp_trade/glog/src/demangle.cc:567-586 | terminates, always succeeds, ends where the recognizer says, leaves append alone and the nest level of a name that is not nested |
| Demangle.State.ParseUnqualifiedName | ctp_trade/glog/src/demangle.cc:592-597 | as ParseEncoding |
| Demangle.State.ParseSourceName | ctp_trade/glog/src/demangle.cc:600-609 | as ParseEncoding; and it ends where the length says |
| Demangle.State.ParseLocalSourceName | ctp_trade/glog/src/demangle.cc:615-623 | as ParseEncoding |
| Demangle.State.ParseNumber | ctp_trade/glog/src/demangle.cc:628-650 | the value of the digits, negative after an n; on failure the n stays consumed |
| Demangle.State.ParseIdentifier | ctp_trade/glog/src/demangle.cc:685-697 | the cursor moves by the length if that many characters are left |
| Demangle.State.ParseOperatorName | ctp_trade/glog/src/demangle.cc:702-746 | as ParseEncoding |
| Demangle.State.ParseStandardSpecialName | ctp_trade/glog/src/demangle.cc:765-793 | as ParseEncoding |
| Demangle.State.ParseGnuSpecialName | ctp_trade/glog/src/demangle.cc:795-824 | as ParseEncoding; append is restored |
| Demangle.State.ParseCallOffset | ctp_trade/glog/src/demangle.cc:828-843 | as ParseEncoding |
| Demangle.State.ParseNVOffset | ctp_trade/glog/src/demangle.cc:846-848 | as ParseNumber |
| Demangle.State.ParseVOffset | ctp_trade/glog/src/demangle.cc:851-859 | as ParseEncoding |
| Demangle.State.ParseCtorDtorName | ctp_trade/glog/src/demangle.cc:863-884 | as ParseEncoding |
| Demangle.State.ParseType | ctp_trade/glog/src/demangle.cc:906-957 | as ParseEncoding |
| Demangle.State.ParseCVQualifiers | ctp_trade/glog/src/demangle.cc:962-968 | as ParseEncoding |
| Demangle.State.ParseBuiltinType | ctp_trade/glog/src/demangle.cc:972-988 | as ParseEncoding |
| Demangle.State.ParseFunctionType | ctp_trade/glog/src/demangle.cc:991-1000 | as ParseEncoding |
| Demangle.State.ParseBareFunctionType | ctp_trade/glog/src/demangle.cc:1003-1013 | as ParseEncoding; append is off meanwhile and restored |
| Demangle.State.ParseClassEnumType | ctp_trade/glog/src/demangle.cc:1016-1018 | as ParseEncoding |
| Demangle.State.ParseArrayType | ctp_trade/glog/src/demangle.cc:1022-1036 | as ParseEncoding |
| Demangle.State.ParsePointerToMemberType | ctp_trade/glog/src/demangle.cc:1039-1047 | as ParseEncoding |
| Demangle.State.ParseTemplateParam | ctp_trade/glog/src/demangle.cc:1051-1065 | as ParseEncoding |
| Demangle.State.ParseTemplateArgs | ctp_trade/glog/src/demangle.cc:1076-1088 | as ParseEncoding; append is off meanwhile and restored |
| Demangle.State.ParseTemplateArg | ctp_trade/glog/src/demangle.cc:1094-1115 | as ParseEncoding |
| Demangle.State.ParseExpression | ctp_trade/glog/src/demangle.cc:1126-1170 | as ParseEncoding |
| Demangle.State.ParseExprPrimary | ctp_trade/glog/src/demangle.cc:1178-1207 | as ParseEncoding |
| Demangle.State.ParseLocalName | ctp_trade/glog/src/demangle.cc:1212-1227 | as ParseEncoding |
| Demangle.State.ParseDiscriminator | ctp_trade/glog/src/demangle.cc:1230-1237 | as ParseEncoding |
| Demangle.State.ParseSubstitution | ctp_trade/glog/src/demangle.cc:1242-1273 | as ParseEncoding |
| Demangle.State.OneOrMoreTypes | ctp_trade/glog/src/demangle.cc:243-250 | the loop ends where no further type parses, and consumed at least one |
| Demangle.State.TemplateArgList | ctp_trade/glog/src/demangle.cc:256-260 | the loop ends where no further argument parses |
| Demangle.State.Append | ctp_trade/glog/src/demangle.cc:265-279 | what fits is written and ended with a NUL; what does not sets the overflow flag |
| Demangle.State.MaybeAppendWithLength | ctp_trade/glog/src/demangle.cc:322-338 | nothing happens with append off; with append on a text is written behind what is there, after a space between two <, if it fits; a text that starts with a letter or _ is remembered as the last name |
| Demangle.State.MaybeIncreaseNestLevel | ctp_trade/glog/src/demangle.cc:374-378 | a level above -1 goes up and wraps like a short |
| Demangle.State.ParseTopLevelMangledName | ctp_trade/glog/src/demangle.cc:1277-1295 | succeeds exactly on mangled names with nothing, a clone suffix or a version suffix behind them |
| Demangle.State.IsCloneSuffix | ctp_trade/glog/src/demangle.cc:298-318 | any number of .<alpha>+.<digit>+ pieces and nothing else |
| Mangling.MangledName | ctp_trade/glog/src/demangle.cc:474-476 | the recognizer consumes at least the prefix and stays inside the name, or it gets stuck, and then at a source name whose length does not move the cursor forward |
| Mangling.Encoding | ctp_trade/glog/src/demangle.cc:478-492 | a parse consumes at least one character and stays inside the name, or stops at such a length; so do all parsers but prefix and the loops |
| Mangling.Prefix | ctp_trade/glog/src/demangle.cc:558-586 | the prefix loop never fails or moves back and stays inside the name, or stops at such a length |
| ManglingGrammar.AcceptedIsDerived | ctp_trade/glog/src/demangle.cc:455-476 | every accepted name has a derivation tree in the mangling grammar, up to its suffix |
| ManglingGrammar.EncodingSound | ctp_trade/glog/src/demangle.cc:478-492 | what is parsed as an encoding derives from <encoding> |
| ManglingGrammar.PrefixSound | ctp_trade/glog/src/demangle.cc:558-586 | each round of the prefix loop extends a derivation from <prefix> |
| ManglingGrammar.TypeSound | ctp_trade/glog/src/demangle.cc:886-957 | what is parsed as a type derives from <type> |
| ManglingGrammar.SourceNameSound | ctp_trade/glog/src/demangle.cc:599-609 | a source name is a length and that many characters, or what a negative length leaves of its own digits |
| ManglingLengths.ComponentStuckIff | ctp_trade/glog/src/demangle.cc:567-586 | a round of the prefix loop gets stuck at its own start if and only if a source name is found there that takes the cursor back to its start or before |
| ManglingLengths.ReturnMeansForever | ctp_trade/glog/src/demangle.cc:567-586 | rounds of the loop that bring the cursor back to where it was can be followed by any number of further rounds |
| ManglingLengths.LoopsForever | ctp_trade/glog/src/demangle.cc:600-609 | parsing _ZNn2E reaches the loop and gets stuck at its position 3, where the rounds of the code go on for ever |
| ManglingLengths.BackwardNeedsSign | ctp_trade/glog/src/demangle.cc:628-633 | a source name fails to move forward only where an n is followed by a digit |
| ManglingLengths.NoSignNeverStuck | ctp_trade/glog/src/demangle.cc:599-609 | a name in which no digit follows an n is never stuck |
| ManglingLengths.MainFooCovered | ctp_trade/glog/src/demangle.cc:599-609 | _ZN4main3fooEv is parsed to its end and accepted: the n before its second length is not met as a sign |
| ManglingLengths.NegativeLiteralCovered | ctp_trade/glog/src/demangle.cc:1178-1207 | _Z1fILin5EEvv is parsed to its end and accepted: the sign of a literal is not met as the start of a source name |
| ManglingLengths.NegativeLengthAccepted | ctp_trade/glog/src/demangle.cc:599-609 | _ZNn003abcE has a length of minus three that still moves the cursor forward, and is accepted |
| BitString.GetBitIsBit | ctp_trade/redis/src/bitops.c:274-282 | GETBIT reads the offset-th bit of the string written out bit by bit, and 0 past its end |
| BitString.SetBit | ctp_trade/redis/src/bitops.c:241-258 | exactly the addressed bit changes, the string grows just far enough, the reply is the old bit |
| BitPos.BitPos | ctp_trade/redis/src/bitops.c:122-200 | for every alignment and word size: the least position whose bit is the one sought, count*8 for an absent 0, -1 exactly when no bit is set and a 1 is sought |
| BitPos.SomeMatch | ctp_trade/redis/src/bitops.c:177-199 | the word at which the skipping stops has a bit of the value sought, so the final panic cannot be reached |
| BitPos.LoadWord | ctp_trade/redis/src/bitops.c:160-168 | the word has the next bytes most significant first, padded with zeros |
| BitPos.NothingLeft | ctp_trade/redis/src/bitops.c:170-175 | a zero word after skipped zeros means that the string has no 1 |
| Popcount.Popcount | ctp_trade/redis/src/bitops.c:61-113 | for every string and alignment: the number of set bits |
| Popcount.TableCounts | ctp_trade/redis/src/bitops.c:65 | each of the 256 table entries is the number of bits of its index |
| Popcount.WordLanes | ctp_trade/redis/src/bitops.c:88-101 | after the three steps each byte of a word holds its own number of set bits |
| Popcount.BlockCounts | ctp_trade/redis/src/bitops.c:74-108 | seven words together: the sum lands in the top byte and no lane overflows |
| Popcount.GatherLanes | ctp_trade/redis/src/bitops.c:102-108 | the multiplication adds up four lanes of at most 56 without carrying into the top byte |
| BitOp.BitOp | ctp_trade/redis/src/bitops.c:288-458 | the reply and the stored bytes for any number and lengths of keys: the operator folded over the zero-padded sources, errors and deletion included |
| BitOp.FastPath | ctp_trade/redis/src/bitops.c:365-418 | four words at a time yield the same bytes as the fold |
| BitOp.SlowPath | ctp_trade/redis/src/bitops.c:420-434 | the remaining bytes |
| BitOp.BitOpBits | ctp_trade/redis/src/bitops.c:420-434 | each bit of the result is the and, the or, the parity or the complement of the same bit of all sources |
| BitOp.ByteOfOp | ctp_trade/redis/src/bitops.c:372-417 | an operation on a machine word is the operation on its bytes |
| BitOp.LookUp | ctp_trade/redis/src/bitops.c:319-348 | missing keys are empty strings, a key of another type is an error, and the shortest length never exceeds a source |
| Crc16.Crc16 | ctp_trade/redis/src/crc16.c:82-88 | the table-driven loop returns the register after all message bits, one at a time |
| Crc16.TableIsSerial | ctp_trade/redis/src/crc16.c:47-80 | each table entry is the register after its index and eight zero bits |
| Crc16.ByteStep | ctp_trade/redis/src/crc16.c:86 | one lookup does the work of eight bits |
| Crc16Polynomial.CrcIsRemainder | ctp_trade/redis/src/crc16.c:33-45 | the CRC is the remainder of the message times x^16 modulo x^16 + x^12 + x^5 + 1, and the only one |
| Crc16Polynomial.CollideIff | ctp_trade/redis/src/crc16.c:82-88 | two messages of one length have the same CRC if and only if their difference times x^16 is a multiple of the polynomial |
| Crc16Polynomial.BurstDetected | ctp_trade/redis/src/crc16.c:82-88 | messages that differ, but only within sixteen consecutive bits, have different CRCs |
| Crc16Polynomial.AdjacentBytesDetected | ctp_trade/redis/src/crc16.c:82-88 | so have equally long messages that differ only in two adjacent bytes |
| AdList.List.AddNodeHead | ctp_trade/redis/src/adlist.c:83-101 | the chain stays well formed, the value is in front of all others |
| AdList.List.AddNodeTail | ctp_trade/redis/src/adlist.c:109-127 | the chain stays well formed, the value is behind all others |
| AdList.List.InsertNode | ctp_trade/redis/src/adlist.c:129-156 | the value is right before or after the given node |
| AdList.List.DelNode | ctp_trade/redis/src/adlist.c:162-174 | exactly that node is gone |
| AdList.List.Index | ctp_trade/redis/src/adlist.c:316-328 | the node at the index, from the tail for negative ones, none outside |
| AdList.List.Rotate | ctp_trade/redis/src/adlist.c:331-344 | the last value is the first, the others keep their order |
| AdList.ListIter.Next | ctp_trade/redis/src/adlist.c:224-235 | returns the node the iteration stands at and has moved past it, so that node may be deleted |
| AdList.Dup | ctp_trade/redis/src/adlist.c:245-277 | a copy value by value, or nothing when the copying of a value fails |
| AdList.SearchKey | ctp_trade/redis/src/adlist.c:288-309 | the first node that matches |
| RWLock.CounterMeansHolders | ctp_trade/cpp_tools/CppReadWriteLock.hpp:10-52 | over all interleavings: the counter is -1 with exactly one writer and no reader, or the number of readers and no writer; a writer is alone |
| RWLock.NoLostWakeup | ctp_trade/cpp_tools/CppReadWriteLock.hpp:10-46 | between critical sections no reader is blocked unless a writer holds the lock, and if anybody waits for a free lock somebody has been notified |
| RWLock.StuckOnlyBehindHolder | ctp_trade/cpp_tools/CppReadWriteLock.hpp:10-46 | when no method can go on, all threads are outside or wait, and who waits does so behind a holder, a reader behind a writer |
| RWLock.StatementsRunOut | ctp_trade/cpp_tools/CppReadWriteLock.hpp:10-46 | without new calls, unlocks and spurious wakeups the methods come to rest |
| RWLock.RunKeeps | ctp_trade/cpp_tools/CppReadWriteLock.hpp:10-46 | the invariant of all of these holds in every reachable state |
| FnMatch.SafeFNMatch | ctp_trade/glog/src/vlog_is_on.cc:69-96 | terminates and computes the matching function the lemmas are about |
| FnMatch.Sound | ctp_trade/glog/src/vlog_is_on.cc:69-96 | a match is a match of the pattern with * for any text and ? for any character |
| FnMatch.MatchesMeant | ctp_trade/glog/src/vlog_is_on.cc:76-92 | on strings without a * the function decides the meant pattern: two or more stars at the end ask for a character |
| FnMatch.CompleteOnPlainStringsIff | ctp_trade/glog/src/vlog_is_on.cc:78 | on those strings it is right for all of them if and only if the pattern does not end in two stars |
| FnMatch.CompleteIff | ctp_trade/glog/src/vlog_is_on.cc:79-83 | it is right on all strings if and only if the pattern has no star |
| FnMatch.EchoMissed | ctp_trade/glog/src/vlog_is_on.cc:79-83 | a * in the string is taken for the star of the pattern: a string that every such pattern misses |
| LineReader.ReadLines | ctp_trade/glog/src/symbolize.cc:396-477 | for every pattern of short reads: the lines returned up to the first failure are the newline-terminated lines in order, up to the first that does not fit the buffer; a prefix of them if reading fails |
| LineReader.LineReader.ReadLine | ctp_trade/glog/src/symbolize.cc:406-440 | one line, exactly when what is left has one that fits; the cursors stay inside the buffer |
| LineReader.ReadPersistent | ctp_trade/glog/src/symbolize.cc:140-158 | as many bytes as asked for or left, however short the reads |
| LineReader.FittingIff | ctp_trade/glog/src/symbolize.cc:412-436 | all lines are returned if and only if each fits |
| LineReader.LinesOfUnlines | ctp_trade/glog/src/symbolize.cc:399-405 | lines can be read off their text, an unterminated rest is dropped |
| LineReader.TextIsLines | ctp_trade/glog/src/symbolize.cc:399-405 | every text is its lines and a rest without newline |

## Left out

- Epochs, counters and lengths are unbounded: overflow of the 64-bit epochs, of `rw_cnt` and of the `int` lengths of the demangler is not modelled.
- Node IDs are numbers; `memcmp` of two names is their order.
- CLUSTER RESET HARD, crashes and restarts with a stale configuration file, during which the code does not guarantee the properties.
- Handshakes in detail, gossip sections, PUBLISH, MFSTART, node addresses, links and their timeouts: which node is known, failed or in handshake changes by actions of the environment.
- Delays, ranks and clocks: every delay and every time is allowed.
- The migrating table, the lists of slaves of a master, and the deletion of keys in slots that were lost.
- ClusterServer.ClusterState.DelNode: the migrating table and the failure reports that the node sent are not in the state.
- ClusterServer.ClusterState.UpdateSlotsConfigWith: the keys in slots that were lost are not deleted, since there are no keys.
- ClusterServer.ClusterState.BuildMessageHdr: without the flags, the cluster state, the replication offset and the mark of a paused master.
- ClusterServer.ClusterState.BroadcastMessage: a node without a link is sent to as well; the packet can be lost.
- ClusterServer.ClusterState.BroadcastPongToLocalSlaves: a node without a link is sent to as well; the packet can be lost.
- ClusterPackets.ProcessPing: gossip sections, changes of address and the end of a handshake are not part of it; nodes enter and leave handshakes by actions of their own.
- A failed assertion or a null pointer read ends the process: the node stops taking part.
- Packets with a wrong signature, version or length, which the handler drops before anything else.
- Replication offsets, ranks and slave migration.
- SELECT, EXPIRE and the SET variants of feedAppendOnlyFile; the database that the executed commands change; fake clients.
- MULTI in the loader is a parameter that says which commands open and close one.
- The arguments of a logged command are shorter than 10^20 bytes, so that a length line fits the loader's buffer.
- fsync, fork, temporary file names, event loop handlers and the Windows branches.
- AofRewriteBuffer.Descriptor.Write: takes any number of bytes or fails; so do reads, within what is there.
- AofRewriteBuffer.RewriteBuffer.ChildPipeReadable: the removal of the event handler, after which it is not called again, is not modelled.
- AofRewriteBuffer.RewriteBuffer.ChildWriteDiffData: the removal of the event handler is not modelled.
- Memory exhaustion everywhere: allocations succeed.
- Demangle.Demangle: asks for names on which the recognizer is not stuck; what the code does after a source-name length that does not move the cursor forward (it may loop for ever, read before the name, or go on and end) is not modelled.
- ClusterEpochs.EpochDomination: the random names of nodes in handshake never equal the ID of a node; `ReceiveKeepsIff` says what would break otherwise.
- ClusterCollision.CollisionMovesBounded: about runs in which all nodes stay masters and only packets change epochs.
- ClusterElection.ElectionSafety: the voters of the epoch come from one set and the quorums computed in it are for the size of that set; the code does not make nodes agree on the voting masters.
- ClusterElection.NoTwoWinners: the same agreement, stated on what each voter of the epoch sees when it votes; and no late acknowledgements.
- The text the demangler writes, beyond what fits, where it ends and that nothing is written with append off; in particular bytes left behind in the buffer by an alternative that failed.
- Demangle.State.CharOf: a read through the remembered name past the end of the buffer, possible after an overflow, gives any character.
- ManglingGrammar.AcceptedIsDerived: one direction only; the parsers are greedy and do not find every derivation.
- ManglingNames.PrintedIsAccepted: about terms that a greedy parser reads in one way; without operators as class types or at the start of a nested name, packs behind types, operands that are operator expressions but the last one, numbered local names within other names, and literals of class types.
- The tables of the demangler list the same codes as the source; what the names in them mean is not part of this model.
- BitPos.BitPos: alignment and word size are parameters; a word is the sequence of its bits.
- BitOp.FastPath: words have 64 bits, as on the platforms with a 64-bit `long`; the four copies of the loop are one with the operation as a parameter.
- Argument parsing, key lookup by name, notifications and replies of the bit commands; BITCOUNT and BITPOS ranges.
- Crc16.Next: the table has the 256 entries of the source in rows of eight.
- listRelease and the `free` method of lists: memory is not given back.
- AdList.SearchKey: the comparison is a parameter.
- FailReports.AddFailureReport: a reporting node is known by its ID.
- RWLock.RunKeeps: callers bracket their calls; the fairness of mutex and scheduler is not modelled, so nothing is said about starvation.
- The cache of --vmodule settings around the glob matcher.
- LineReader.File.Read: the repetition after EINTR is part of the read.
- ae.c, bio.c, the trading client (bars, indicators, order management), logging, signal handling, stack traces and ELF symbol lookup.
