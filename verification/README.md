# A verified model of the messaging core of libzmq

The files here model the parts of the vendored libzmq (`lib/zeromq/src`) in which most can
go wrong, and prove what those parts are for.  `dafny verify dfyconfig.toml` checks everything.

Every component is built the same way.  What the source updates in place is a class with the
fields of the source; each of its methods is proved to do to the object's value what a function
does, or to have the stated effect; and the properties are lemmas about those functions, over
every input, every run or every reachable state.

| files | component |
|---|---|
| `MTrie`, `MTrieShape`, `MTrieSweep` | the multi-trie of subscriptions: nodes with single children or tables, grown, shifted and compacted in place; removal with explicit stacks |
| `YPipe` | the lock-free queue, with its pointers as positions |
| `PipeEnd`, `Pipe`, `PipePair`, `PipeDrain` | one end of a pipe, the class, and the state machine of two ends with queues and commands in flight with its safety; what is left when an end goes |
| `PipeFlow`, `PipeHiccup`, `PipeClose`, `PipeWake`, `PipeLog` | flow control without and with hiccups; closing; that a stalled writer is woken; that what was accepted is read |
| `OwnState`, `Own`, `OwnTree`, `OwnShutdown` | the ownership tree and its shutdown: safety and progress |
| `PipeArray`, `DistZones`, `Dist`, `Ring`, `Fq`, `Lb` | the schedulers over the array with stored indices |
| `PipeRefines`, `PipeInbound` | the two sides of the pipe the schedulers use against those of `PipeEnd` |
| `MsgMemory` | reference counts of messages and of the decoder's shared buffer |
| `Mailbox` | commands between threads with their sleep and signal protocol |
| `Wire`, `Metadata` | numbers on the wire; the properties exchanged at the beginning of a connection |
| `Codec`, `FrameCodec` | the chunked drivers of encoders and decoders for any state machine, and the frames of ZMTP 2.0 |

Threads are interleaved at the atomic steps of the source: one operation of a queue, one locked
region, one handler of a command, one call of a socket.

## Findings

Where the code does not do what one would expect of it, the code was kept and the exact condition proved.

- A `terminate` and a `hiccup` of a delaying peer that pass each other leave both ends of a pipe
  waiting for ever: the delimiter is drained with the old queue, or never written to the new one
  (`PipeClose.ClosesDown`, `LostForever`, `CrossingLoses`).  Two calls are enough (`TwoCallsLose`).
  The pair recovers exactly when the delaying end calls `terminate` or `set_nodelay` before the
  request has arrived, or `terminate` without delay after it (`EscapeFrees`).  Reading in order and
  the guarantee of a delayed reader hold in every run.
- The termination request of a child that arrives before its owner has taken the child over is
  ignored (`OwnShutdown.RequestHonoured`); three steps lead there (`EarlyRequest`).
- A bulk removal from the trie does not update the number of prefixes; the number stays right
  exactly if no prefix became empty (`MTrie.RmAll`, `MTrieSweep.PurgedCount`); one subscription is
  enough (`MTrie.LonePipeGoes`).
- When a pipe other than the current one goes and the current one is the last active, `_current` is
  reset to the first pipe although its own has only moved; the exact condition is
  `Ring.TerminateFollows`, and `Lb.GoneIff` shows that the rest of a message then goes to a pipe
  without its beginning (`Lb.MiddleGoes` for three pipes).
- With the largest `int` as high water mark the low water mark overflows; with wrap-around it is
  negative, no report is ever sent, and after that many messages the writer is refused for ever
  (`PipeFlow.LwmExact`, `NeverReported`, `StallsForGood`).  The overflow is undefined in C++; the
  model has the wrap-around of the usual machines.
- The drain of a hiccup takes one from the counter of the writer for every complete frame, also for a
  routing id, which was never counted.  A routing id that is drained unread leaves the counter at minus
  one, in 64 bits far above any high water mark: with nothing unread and nothing on its way every write
  is refused (`PipeHiccup.RoutingIdStalls`).  The exact condition for all runs is `QuietExact`; without
  drained routing ids no stall is for good (`StalledHasHope`).
- A pipe that stops reading between two parts of a message, as it does when its socket terminates it,
  makes the next read fail although the part is there, and the assertion of `fq_t::recvpipe` with it;
  as long as the pipe reads the assertion holds (`PipeInbound.ReadOnExact`, `StopsInside`).
- In the middle of a message `match` and `reverse_match` can put more pipes into the matching zone
  than are active (`Dist.Match`, `Dist.ReverseMatch`); the sockets call them between messages.
- A subscription or cancellation with a topic of exactly 255 bytes is framed with an eight-byte size
  but without the large flag; all other messages make the round trip (`FrameCodec.RoundTripExact`).
- Of properties told twice the first counts, but for the routing id the last (`Metadata.FirstWins`).
- A metadata input that stops right after a name, or right after a non-zero value length, is accepted
  although it is not one of the grammar of ZMTP (`Metadata.ParseExact`, `CutAccepted`).

## Model

| member | source | states |
|---|---|---|
| MTrie.MTrie.constructor | lib/zeromq/src/generic_mtrie_impl.hpp:19-23 | an empty trie: canonical shape, nothing stored, the prefix counter exact |
| MTrie.MTrie.Add | lib/zeromq/src/generic_mtrie_impl.hpp:40-126 | stores exactly the new pair, returns whether the prefix had no pipe before, keeps the canonical shape and an exact prefix counter |
| MTrie.MTrie.RmKey | lib/zeromq/src/generic_mtrie_impl.hpp:376-521 | removes exactly the pair; the result tells apart a pair that was not there, the last pipe of its prefix, and one of several; shape and prefix counter are kept |
| MTrie.MTrie.RmAll | lib/zeromq/src/generic_mtrie_impl.hpp:130-373 | terminates and removes the pipe from every prefix and nothing else; one callback for every prefix that held it (or that it left empty), each with the right bytes and once; the canonical shape is restored, and an exact prefix counter stays exact if and only if no prefix became empty |
| MTrie.MTrie.Match | lib/zeromq/src/generic_mtrie_impl.hpp:523-561 | visits every subscription to a prefix of the data exactly once, shorter prefixes first |
| MTrie.Node.Extend | lib/zeromq/src/generic_mtrie_impl.hpp:52-99 | after the table has grown and been shifted every byte still leads to the same child and the wanted byte has a slot |
| MTrie.Node.Unlink | lib/zeromq/src/generic_mtrie_impl.hpp:424-515 | after a child was deleted the table is tight again, `_live_nodes` is one lower and every other byte leads to the same child |
| MTrie.Node.Resize | lib/zeromq/src/generic_mtrie_impl.hpp:293-360 | the table cut down to the bounds found by the walk is tight and leads every byte to the same child |
| MTrieShape.CanonicalUnique | lib/zeromq/src/generic_mtrie_impl.hpp:40-521 | two tries of canonical shape that store the same subscriptions have the same nodes and tables, whatever histories of additions and removals led to them |
| MTrieShape.NodesAreKeyPrefixes | lib/zeromq/src/generic_mtrie_impl.hpp:562-566 | a node exists for the root and for the prefixes of stored keys, and for nothing else |
| MTrieShape.AddKid | lib/zeromq/src/generic_mtrie_impl.hpp:52-117 | a new child makes its path the only place where a redundant node is tolerated, and stores nothing |
| MTrieShape.PruneKid | lib/zeromq/src/generic_mtrie_impl.hpp:424-515 | deleting a redundant child moves that exception to its parent and changes nothing stored |
| MTrieShape.SubscribedCount | lib/zeromq/src/generic_mtrie_impl.hpp:117-123 | the number of prefixes grows by one exactly for a new prefix |
| MTrieShape.UnsubscribedCount | lib/zeromq/src/generic_mtrie_impl.hpp:388-400 | the number of prefixes falls by one exactly when the last pipe of one is removed |
| MTrieShape.UnsubscribeUndoes | lib/zeromq/src/generic_mtrie_impl.hpp:376-521 | corollary: a removal undoes the addition that introduced its pair |
| MTrieSweep.PurgedAt | lib/zeromq/src/generic_mtrie_impl.hpp:130-373 | corollary: at every prefix the bulk removal leaves what the removal by key would leave |
| MTrieSweep.PurgedCount | lib/zeromq/src/generic_mtrie_impl.hpp:159-167 | a bulk removal keeps the number of prefixes exactly if the pipe was nowhere alone |
| MTrie.LonePipeGoes | lib/zeromq/src/generic_mtrie_impl.hpp:130-167 | a trie with one subscription whose pipe goes stores nothing and still counts one prefix |
| YPipe.YPipe.constructor | lib/zeromq/src/ypipe.hpp:23-32 | an empty queue whose reader is awake |
| YPipe.YPipe.Write | lib/zeromq/src/ypipe.hpp:47-59 | appends the item; it becomes complete, with all before it, unless it is marked incomplete |
| YPipe.YPipe.Unwrite | lib/zeromq/src/ypipe.hpp:61-71 | takes back the last item if and only if it is incomplete |
| YPipe.YPipe.Flush | lib/zeromq/src/ypipe.hpp:73-98 | publishes exactly the complete items and returns false exactly if the reader was asleep |
| YPipe.YPipe.CheckRead | lib/zeromq/src/ypipe.hpp:100-123 | true exactly if a published item is unread; otherwise the reader is asleep afterwards |
| YPipe.YPipe.Read | lib/zeromq/src/ypipe.hpp:125-138 | takes the published items in order |
| Pipe.Pipe.constructor | lib/zeromq/src/pipe.cpp:75-101 | an end with its two queues, its limits crossed and its low water mark computed in 32 bits |
| Pipe.Pipe.Rollback | lib/zeromq/src/pipe.cpp:236-247 | drops exactly the unfinished message; the assertion on its parts holds |
| Pipe.Pipe.Flush | lib/zeromq/src/pipe.cpp:249-257 | publishes the complete messages and sends `activate_read` exactly if the reader was asleep |
| Pipe.Pipe.ProcessDelimiter | lib/zeromq/src/pipe.cpp:475-487 | the two ways in which a delimiter that was read changes the state |
| Pipe.Pipe.GiveUp | lib/zeromq/src/pipe.cpp:414-419 | the unfinished message is dropped, the queue given up and the acknowledgement sent |
| Pipe.Pipe.CheckRead | lib/zeromq/src/pipe.cpp:144-168 | looks for a message; an empty queue makes the end inactive and a delimiter is processed |
| Pipe.Pipe.ReadPast | lib/zeromq/src/pipe.cpp:180-187 | credentials are passed over |
| Pipe.Pipe.Read | lib/zeromq/src/pipe.cpp:170-205 | returns the next frame, counts complete messages other than routing ids and reports every multiple of the low water mark |
| Pipe.Pipe.CheckWrite | lib/zeromq/src/pipe.cpp:207-220 | refuses exactly at the high water mark, with the 64-bit difference of the source |
| Pipe.Pipe.Write | lib/zeromq/src/pipe.cpp:222-234 | writes the frame if it is allowed and counts complete messages other than routing ids |
| Pipe.Pipe.SetNoDelay | lib/zeromq/src/pipe.cpp:382-385 | the end no longer delays |
| Pipe.Pipe.StopOutbound | lib/zeromq/src/pipe.cpp:432-445 | outbound traffic stops, with the delimiter behind the last whole message |
| Pipe.Pipe.Terminate | lib/zeromq/src/pipe.cpp:387-445 | the effect of `terminate` in each of the six states |
| Pipe.Pipe.ProcessActivateRead | lib/zeromq/src/pipe.cpp:259-265 | an inactive reading end becomes active |
| Pipe.Pipe.ProcessActivateWrite | lib/zeromq/src/pipe.cpp:267-276 | the report is stored and a stalled active end may write again |
| Pipe.Pipe.ProcessPipeTerm | lib/zeromq/src/pipe.cpp:303-339 | the answer to a termination request in each state that can get one |
| Pipe.Pipe.ProcessPipeTermAck | lib/zeromq/src/pipe.cpp:341-375 | the last acknowledgement if one is due, the inbound queue emptied, and the end gone |
| Pipe.Pipe.Drain | lib/zeromq/src/pipe.cpp:357-371 | the loop closes every message that is left |
| Pipe.Pipe.Hiccup | lib/zeromq/src/pipe.cpp:489-509 | an active end replaces its inbound queue and tells its peer; another does nothing |
| Pipe.Pipe.DrainOut | lib/zeromq/src/pipe.cpp:281-292 | the loop takes back from `_msgs_written` what the reader will never read |
| Pipe.Pipe.ProcessHiccup | lib/zeromq/src/pipe.cpp:278-301 | the old outbound queue is flushed, emptied and replaced, and the end may write again |
| PipePair.InitInv | lib/zeromq/src/pipe.cpp:14-50 | a new pair, with the limits crossed between its ends, satisfies the invariant of the protocol |
| PipePair.StepKeeps | lib/zeromq/src/pipe.cpp:259-509 | every call and every delivery at an end keeps that invariant, hiccups included |
| PipePair.CloseSafety | lib/zeromq/src/pipe.cpp:278-509 | in every interleaving: no assertion fails; each end requests and acknowledges termination at most once, the acknowledgement last; when both ends are gone exactly all queues ever created have been freed |
| PipePair.NotFreedInUse | lib/zeromq/src/pipe.cpp:278-375 | a queue is freed only when its writer no longer has it, and no end that lives has had its inbound or outbound queue freed |
| PipeDrain.NothingUnread | lib/zeromq/src/pipe.cpp:357-371 | in every run, when an end is gone no published frame is unread in its queue |
| PipeDrain.LeavesWhole | lib/zeromq/src/pipe.cpp:475-487 | an end that reads the delimiter it waited for leaves no part of a message in its outbound queue |
| PipeDrain.LookIsRead | lib/zeromq/src/pipe.cpp:144-205 | looking at an empty queue or at a delimiter does what reading does |
| PipeFlow.WindowHolds | lib/zeromq/src/pipe.cpp:207-276 | with fixed limits, for every positive high water mark: complete unread messages never exceed it, the 64-bit difference of the counters never wraps, and each counter is the number of complete messages that were written or read, routing ids not among them |
| PipeFlow.RoutingIdWritten | lib/zeromq/src/pipe.cpp:222-234 | a routing id that is written uses up nothing of the window |
| PipeFlow.RoutingIdRead | lib/zeromq/src/pipe.cpp:170-205 | a routing id that is read counts as no message |
| PipeFlow.ReadReports | lib/zeromq/src/pipe.cpp:196-203 | a read sends a report exactly if the count is one to be reported, also for a part or a routing id |
| PipeFlow.NoStallInside | lib/zeromq/src/pipe.cpp:207-234 | a frame behind an accepted first frame is never refused |
| PipeFlow.StalledIsWoken | lib/zeromq/src/pipe.cpp:39-44 | for every high water mark but the largest `int`: a stalled writer has an unread message queued or a report on its way |
| PipeFlow.ReportWakes | lib/zeromq/src/pipe.cpp:267-276 | corollary: the first report that is delivered lets a stalled active writer write again |
| PipeFlow.InitFlow | lib/zeromq/src/pipe.cpp:14-50 | the crossed limits of a new pair give each reader the low water mark that belongs to its writer, and the invariant of flow control holds at the beginning |
| PipeFlow.LwmExact | lib/zeromq/src/pipe.cpp:452-473 | the low water mark is half the high water mark, positive and not above it, exactly unless the high water mark is the largest `int`, where the addition overflows |
| PipeFlow.NeverReported | lib/zeromq/src/pipe.cpp:196-220 | with that high water mark no report is ever sent in any run, and once that many messages were written no frame is accepted any more |
| PipeFlow.StallsForGood | lib/zeromq/src/pipe.cpp:196-220 | such a run exists: everything was read, nothing is on its way, and the writer is stalled |
| PipeHiccup.LastCounts | lib/zeromq/src/pipe.cpp:285-289 | draining takes from the counter of the writer one for every complete message that was not read, and one for every routing id |
| PipeHiccup.HiccupReopens | lib/zeromq/src/pipe.cpp:278-301 | after a hiccup is processed the counter is lower by exactly that, the end is active for writing, and an active end writes on whenever less than its high water mark lies between the counters |
| PipeHiccup.WindowHolds | lib/zeromq/src/pipe.cpp:207-301 | in every run with hiccups: the counter of an active writer is what its reader has read and can still read, less the routing ids drained; what can be read never exceeds the high water mark by more than those |
| PipeHiccup.StalledHasHope | lib/zeromq/src/pipe.cpp:207-301 | in every run with hiccups in which no routing id was drained, a stalled active writer has an unread message, a report on its way, or a hiccup on its way |
| PipeHiccup.QuietExact | lib/zeromq/src/pipe.cpp:207-301 | in every run with hiccups: when all is read and nothing is on its way, an active writer can write if and only if the messages not reported, less the routing ids drained, are below the high water mark in 64 bits |
| PipeHiccup.RoomExact | lib/zeromq/src/pipe.cpp:207-220 | that is so exactly if no more routing ids were drained than messages are unreported |
| PipeHiccup.RoutingIdStalls | lib/zeromq/src/pipe.cpp:278-301 | one end writes a routing id, the other hiccups, the hiccup arrives: nothing is unread or on its way and every write is refused |
| PipeWake.StalledWriterWakes | lib/zeromq/src/pipe.cpp:170-276 | from every reachable state in which the writer has flushed what it wrote, delivering and reading on ends after a bounded number of steps, and then the writer may write again unless its end has begun to close |
| PipeClose.StepStreams | lib/zeromq/src/pipe.cpp:144-509 | every step keeps what a reader has made of its stream, and only a crossing leaves an end waiting for a delimiter that will not come |
| PipeClose.ReadsInOrder | lib/zeromq/src/pipe.cpp:170-205 | in every run a reader has got the frames of its queue in order, each exactly once |
| PipeClose.DelayedReaderReadsAll | lib/zeromq/src/pipe.cpp:303-339 | in every run an end that always delayed and acknowledges has read all that its present queue ever got, in order, up to the delimiter, and never a partial message |
| PipeLog.AcceptedIsRead | lib/zeromq/src/pipe.cpp:170-247 | in every run without hiccups a reader has got, in order and once each, the first of the frames of the messages for which `write` had returned true and that were completed and not rolled back; and all of them if it always delayed and has acknowledged |
| PipeClose.StepLightens | lib/zeromq/src/pipe.cpp:170-205 | delivering a command or reading on lowers a measure of the pair |
| PipeClose.NotStuck | lib/zeromq/src/pipe.cpp:303-445 | a pair in which termination was asked for and no end waits in vain is not stuck before both ends are gone |
| PipeClose.ClosesDown | lib/zeromq/src/pipe.cpp:278-445 | after any run in which an end asked for termination, delivering and reading on ends; both ends and all queues are then deallocated exactly if the last crossing of the run, if any, was followed by an escape; otherwise neither end is |
| PipeClose.LostForever | lib/zeromq/src/pipe.cpp:278-301 | after a crossing neither end is ever deallocated, whatever follows, until the delaying end escapes by `terminate` or `set_nodelay` |
| PipeClose.CrossingLoses | lib/zeromq/src/pipe.cpp:387-445 | every request that a hiccup of a delaying end crosses is lost, whichever of the two was first |
| PipeClose.EscapeFrees | lib/zeromq/src/pipe.cpp:387-430 | after the escape no end waits for a delimiter that will not come |
| PipeClose.TwoCallsLose | lib/zeromq/src/pipe.cpp:489-509 | a new pair loses its termination after two calls: `hiccup` at one end and `terminate` at the other |
| Own.Own.LaunchChild | lib/zeromq/src/own.cpp:54-64 | the child is plugged and the object told to own it, with one sequence number each |
| Own.Own.TakeOwnership | lib/zeromq/src/own.cpp:54-64 | the owner is sent the command that makes it own the child |
| Own.Own.CheckTermAcks | lib/zeromq/src/own.cpp:165-180 | the object acknowledges and is gone exactly if it terminates, has processed every sequenced command and misses no acknowledgement |
| Own.Own.ProcessSeqnum | lib/zeromq/src/own.cpp:45-52 | one more command is processed |
| Own.Own.ProcessTermReq | lib/zeromq/src/own.cpp:71-89 | an owned child is asked to terminate; any other request is ignored |
| Own.Own.ProcessOwn | lib/zeromq/src/own.cpp:91-103 | a child that comes too late is asked to terminate at once |
| Own.Own.SendTerms | lib/zeromq/src/own.cpp:128-140 | the loop asks every owned child, in the order of the set |
| Own.Own.ProcessTerm | lib/zeromq/src/own.cpp:128-144 | all children are asked and owned by nobody from then on |
| Own.Own.ProcessTermAck | lib/zeromq/src/own.cpp:151-163 | one acknowledgement less is missing; the assertion on the counter holds |
| Own.Own.Terminate | lib/zeromq/src/own.cpp:105-121 | the root starts to terminate, any other object asks its owner |
| OwnTree.StepKeeps | lib/zeromq/src/own.cpp:39-183 | every launch, request and delivery at any object keeps the invariant of the tree |
| OwnTree.ShutdownSafety | lib/zeromq/src/own.cpp:39-183 | in every interleaving over a tree of any size: no assertion fails and no command reaches a destroyed object; an object goes after all its descendants and with its box empty; it gets at most one `term`; and it waits for exactly the children with a `term`, a shutdown or an acknowledgement outstanding |
| OwnTree.DescendantsGone | lib/zeromq/src/own.cpp:165-180 | below a destroyed object everything is destroyed |
| OwnShutdown.StepLightens | lib/zeromq/src/own.cpp:91-180 | once launching has stopped every delivery lowers a measure of the tree |
| OwnShutdown.ShutsDown | lib/zeromq/src/own.cpp:128-180 | once the root terminates and launching stops, deliveries end, and when none is left every object has been destroyed |
| OwnShutdown.RequestHonoured | lib/zeromq/src/own.cpp:71-89 | the request of a child is honoured exactly if its owner has already taken it over |
| OwnShutdown.EarlyRequest | lib/zeromq/src/own.cpp:54-89 | a child that terminates between the two commands of `launch_child` makes a request that is ignored |
| PipeArray.PipeArray.PushBack | lib/zeromq/src/array.hpp:62-68 | appends; every stored index is the position |
| PipeArray.PipeArray.EraseAt | lib/zeromq/src/array.hpp:75-84 | the last item takes the place of the erased one; stored indices stay positions |
| PipeArray.PipeArray.Erase | lib/zeromq/src/array.hpp:70-73 | the same for an item found by its stored index |
| PipeArray.PipeArray.Swap | lib/zeromq/src/array.hpp:86-95 | exchanges two items and their indices |
| PipeArray.SwapPart | lib/zeromq/src/array.hpp:86-95 | a swap across a border exchanges the two items between the parts; any other swap leaves the parts as sets |
| Dist.Dist.Attach | lib/zeromq/src/dist.cpp:20-35 | a new pipe is eligible, and active unless a message is being sent |
| Dist.Dist.HasPipe | lib/zeromq/src/dist.cpp:37-47 | exact even for a pipe whose stored index is stale |
| Dist.Dist.Match | lib/zeromq/src/dist.cpp:49-62 | an eligible pipe becomes a matching one; in the middle of a message the zones stay in order exactly if the pipe is active or an active one does not match |
| Dist.Dist.ReverseMatch | lib/zeromq/src/dist.cpp:64-78 | the entries behind the matching ones become the matching ones; in the middle of a message the zones stay in order exactly if they are not more than the active ones |
| Dist.Dist.Unmatch | lib/zeromq/src/dist.cpp:80-83 | nothing matches |
| Dist.Dist.PipeTerminated | lib/zeromq/src/dist.cpp:85-103 | the pipe leaves every zone and the array; all others keep their zones |
| Dist.Dist.Activated | lib/zeromq/src/dist.cpp:105-119 | a passive pipe becomes eligible, and active unless a message is being sent |
| Dist.Dist.Write | lib/zeromq/src/dist.cpp:196-210 | offers the message once; a pipe that does not take it leaves all zones |
| Dist.Dist.Turn | lib/zeromq/src/dist.cpp:176-181 | one pipe is offered the message and no other notices |
| Dist.Dist.OfferAll | lib/zeromq/src/dist.cpp:174-182 | although entries disappear during the loop, every pipe that matched at its start is offered the message exactly once; those that take it stay, each with a copy of its own |
| Dist.Dist.Distribute | lib/zeromq/src/dist.cpp:144-189 | the pipes that did not take the message become passive; a content has one reference for every pipe that took it and is freed if there is none |
| Dist.Dist.SendToMatching | lib/zeromq/src/dist.cpp:127-142 | the same, and at the end of a message the pipes that joined or woke become active |
| Dist.Dist.SendToAll | lib/zeromq/src/dist.cpp:121-125 | the same for all active pipes |
| DistZones.AttachZones | lib/zeromq/src/dist.cpp:20-35 | what attaching means for the four zones as sets |
| DistZones.MatchZones | lib/zeromq/src/dist.cpp:49-62 | exactly an eligible pipe is added to the matching ones, unless it still waits for the end of a message |
| DistZones.ReverseZones | lib/zeromq/src/dist.cpp:64-78 | if all eligible pipes are active, matching becomes eligible minus matching; nothing else changes |
| DistZones.WithdrawZones | lib/zeromq/src/dist.cpp:85-103 | a pipe is taken out of all zones by swaps and no other pipe changes its zone |
| DistZones.ActivateZones | lib/zeromq/src/dist.cpp:105-119 | what activating means for the zones as sets |
| Dist.QuietUntilNext | lib/zeromq/src/dist.cpp:105-142 | over any sequence of joining, waking and sending up to the end of a message: a pipe that joined or woke in its middle gets no part of it and is ready for the next one |
| Dist.JoinsLate | lib/zeromq/src/dist.cpp:20-35 | a pipe that joins or wakes in the middle of a message is eligible and not active |
| Fq.Fq.Attach | lib/zeromq/src/fq.cpp:18-23 | exactly the new pipe joins those that take part in the rotation |
| Fq.Fq.PipeTerminated | lib/zeromq/src/fq.cpp:25-38 | the pipe leaves the array; in the middle of a message the next part is read from the same pipe exactly if that is another one and `_current` stays with its pipe |
| Fq.Fq.Activated | lib/zeromq/src/fq.cpp:40-45 | exactly the woken pipe joins those that take part in the rotation; the array has the same pipes |
| Fq.Fq.RecvPipe | lib/zeromq/src/fq.cpp:52-94 | returns the next frame of the current message, or the first frame of the first readable pipe in turn; the assertion that a begun message can be read on holds; nobody else loses its turn |
| Fq.Fq.HasIn | lib/zeromq/src/fq.cpp:96-118 | true exactly if an active pipe has something to read; in the middle of a message it changes nothing |
| Fq.WholeMessages | lib/zeromq/src/fq.cpp:52-118 | over every run of receiving, looking, waking and arriving: the parts of a message leave in a row from one pipe, and the rest of a begun message is never missing |
| Fq.FifoPerPipe | lib/zeromq/src/fq.cpp:52-94 | for every pipe, what was received and what remains is what there was and what arrived, in order |
| Fq.FairTurn | lib/zeromq/src/fq.cpp:52-118 | an active pipe with something to read waits for at most as many messages of others as its distance says, which is less than the number of pipes |
| Fq.WokenTurn | lib/zeromq/src/fq.cpp:40-94 | the same bound for a passive pipe from the moment it wakes |
| Ring.ActivateZones | lib/zeromq/src/fq.cpp:40-45 | exactly the pipe at the index becomes active, behind the active ones, whose places do not change |
| Ring.AttachZones | lib/zeromq/src/fq.cpp:18-23 | the same for a new pipe |
| Ring.RetireZones | lib/zeromq/src/fq.cpp:82-85 | exactly the pipe at the index becomes passive |
| Ring.TerminateZones | lib/zeromq/src/fq.cpp:25-38 | exactly the pipe at the index leaves the array and the active ones |
| Ring.RetireNearer | lib/zeromq/src/fq.cpp:82-85 | skipping the current pipe brings no other pipe farther from its turn |
| Ring.AdvanceNearer | lib/zeromq/src/fq.cpp:70-73 | a message of the current pipe brings every other pipe one nearer |
| Ring.TerminateFollows | lib/zeromq/src/fq.cpp:25-38 | when another pipe goes, `_current` stays with its pipe exactly if that is not the last active one or takes the first place |
| Lb.Lb.Attach | lib/zeromq/src/lb.cpp:18-22 | exactly the new pipe joins those that take part in the rotation, and its stream is empty |
| Lb.Lb.PipeTerminated | lib/zeromq/src/lb.cpp:24-42 | if the pipe that has the begun message goes, the rest of it is dropped; otherwise the streams stay whole exactly if no message is begun or `_current` stays with its pipe |
| Lb.Lb.Activated | lib/zeromq/src/lb.cpp:44-49 | exactly the woken pipe joins those that take part in the rotation; the array has the same pipes |
| Lb.Lb.SendPipe | lib/zeromq/src/lb.cpp:56-131 | the frame goes to the pipe that has the beginning of its message, or to the first in turn that takes it; or it is refused untouched, and then every active pipe refuses, or dropped with its whole message; a message that lands on a pipe brings every other willing one nearer to its turn |
| Lb.Lb.GiveUp | lib/zeromq/src/lb.cpp:78-101 | what the pipe has of the begun message is rolled back and the rest will be dropped |
| Lb.Lb.HasOut | lib/zeromq/src/lb.cpp:133-153 | true exactly if the next frame belongs to a begun message or an active pipe would take it; false only if all refuse; no willing pipe loses its turn |
| Lb.FlushedWhole | lib/zeromq/src/lb.cpp:56-131 | what is flushed to a pipe is whole messages in the order they were submitted, and what is behind it is nothing or the begun message |
| Lb.FairShare | lib/zeromq/src/lb.cpp:44-131 | over every run of submitting, looking and waking: while an active pipe takes what it is offered and gets no message, at most as many messages land on others as its distance says, which is less than the number of pipes |
| Lb.WokenShare | lib/zeromq/src/lb.cpp:44-131 | the same bound for a passive pipe from the moment it wakes |
| Lb.WrittenStreams | lib/zeromq/src/lb.cpp:72-124 | a write keeps every stream a concatenation of whole messages |
| Lb.RolledBackStreams | lib/zeromq/src/lb.cpp:78-101 | so does a rollback |
| Lb.GoneIff | lib/zeromq/src/lb.cpp:24-42 | when a pipe goes, the streams stay whole if and only if no message is begun, or its own pipe goes, or `_current` stays with its pipe |
| Lb.MiddleGoes | lib/zeromq/src/lb.cpp:24-42 | three pipes, the last of them with the beginning of a message: when the second goes, the rest goes to the first |
| PipeRefines.WriteRefines | lib/zeromq/src/pipe.cpp:222-234 | the outbound side that the schedulers use answers and changes like the end of a pipe pair does: a write |
| PipeRefines.CheckRefines | lib/zeromq/src/pipe.cpp:207-220 | the same for asking whether a write would succeed |
| PipeRefines.CheckThenWrite | lib/zeromq/src/pipe.cpp:207-234 | after a successful check the write succeeds |
| PipeRefines.RollbackRefines | lib/zeromq/src/pipe.cpp:236-247 | the same for a rollback; an end that has given up its queue rolls nothing back |
| PipeRefines.FlushRefines | lib/zeromq/src/pipe.cpp:249-257 | the same for a flush; an end that has given up its queue or acknowledged does not flush |
| PipeInbound.ReadRefines | lib/zeromq/src/pipe.cpp:170-205 | a read on the inbound side returns the first unread frame that is no credential and leaves the rest; it fails exactly if there is none |
| PipeInbound.CheckReadRefines | lib/zeromq/src/pipe.cpp:144-168 | a look changes nothing to read and is true exactly if there is something, credentials aside |
| PipeInbound.FlushArrives | lib/zeromq/src/pipe.cpp:249-257 | a flush adds what it publishes behind what can be read |
| PipeInbound.ArrivalsWhole | lib/zeromq/src/pipe.cpp:222-257 | in every run what can be read, and what the next flush adds, ends with the end of a message |
| PipeInbound.ReadOnExact | lib/zeromq/src/fq.cpp:60-80 | in every run, when the first part of a message was read the next read succeeds, and so the assertion of `recvpipe` holds, if and only if the end still reads |
| PipeInbound.StopsInside | lib/zeromq/src/socket_base.cpp:1189-1194 | a pipe terminated by its socket between two parts that it has received: the second part cannot be read |
| MsgMemory.Memory.Init | lib/zeromq/src/msg.cpp:50-60 | a message without a content; no reference changes |
| MsgMemory.Memory.InitSize | lib/zeromq/src/msg.cpp:62-95 | a content of its own, unshared and with one owner |
| MsgMemory.Memory.Close | lib/zeromq/src/msg.cpp:242-303 | the content loses this reference and is freed exactly if it was the last |
| MsgMemory.Memory.Move | lib/zeromq/src/msg.cpp:305-324 | the content changes hands and the old content of the target loses a reference; a message moved to itself loses its content |
| MsgMemory.Memory.Copy | lib/zeromq/src/msg.cpp:326-362 | both messages own the content, which is shared from then on; a message copied to itself is closed |
| MsgMemory.Memory.AddRefs | lib/zeromq/src/msg.cpp:561-582 | the content has as many more references |
| MsgMemory.Memory.RmRefs | lib/zeromq/src/msg.cpp:584-626 | as many references are given back; the content is freed with the last one |
| MsgMemory.ContentLifetime | lib/zeromq/src/msg.cpp:242-362 | a content is freed exactly when it has no reference left; a shared one counts them exactly and an unshared one has one |
| MsgMemory.Memory.CallDecRef | lib/zeromq/src/decoder_allocators.cpp:103-114 | a message over the buffer is closed: the buffer is freed with its last use |
| MsgMemory.Memory.Allocate | lib/zeromq/src/decoder_allocators.cpp:33-72 | the buffer is reused exactly if no message uses it, and otherwise left to its messages |
| MsgMemory.Memory.Deallocate | lib/zeromq/src/decoder_allocators.cpp:74-82 | the allocator lets go; the buffer is freed exactly if no message uses it |
| MsgMemory.Memory.InitInBuffer | lib/zeromq/src/v2_decoder.cpp:94-111 | disjoint messages over the buffer never run out of counters; small ones are copied |
| MsgMemory.BufferLifetime | lib/zeromq/src/decoder_allocators.cpp:8-114 | a buffer counts its live contents and the allocator, and is freed exactly when neither is left, so never under a message |
| Mailbox.Mailbox.constructor | lib/zeromq/src/mailbox.cpp:7-15 | an empty queue whose receiver is asleep; the assertion holds |
| Mailbox.Mailbox.Post | lib/zeromq/src/mailbox.cpp:32-38 | the locked part of `send`: the command is published, and the signal is due exactly if the receiver was asleep |
| Mailbox.Mailbox.Recv | lib/zeromq/src/mailbox.cpp:42-74 | undisturbed, `recv` returns the next command unless there is none, its signal is not sent yet, or the wait is cut short; the assertion after the wait holds |
| Mailbox.MailboxSafety | lib/zeromq/src/mailbox.cpp:32-74 | in every interleaving with any number of senders: the read after a wake-up finds a command, at most one signal is out and then a command is published and unread, and commands are received in the order of the lock, each once |
| Mailbox.NoLostWakeUp | lib/zeromq/src/mailbox.cpp:32-74 | while a command is unread the receiver is active or a wake-up is under way |
| Mailbox.DrainsAll | lib/zeromq/src/mailbox.cpp:32-74 | if no more is sent and no wait is cut short, the receiver comes to its last wait after a bounded number of steps with every command received |
| Metadata.AddProperty | lib/zeromq/src/mechanism.cpp:111-131 | writes exactly the bytes of the property into the buffer and returns their number |
| Metadata.AddBasicProperties | lib/zeromq/src/mechanism.cpp:141-170 | writes exactly the bytes of the basic properties, in order, and nothing else |
| Metadata.BasicPropertiesLen | lib/zeromq/src/mechanism.cpp:172-191 | the number of bytes that `add_basic_properties` writes |
| Metadata.Mechanism.ParseMetadata | lib/zeromq/src/mechanism.cpp:210-263 | takes the properties found up to the first that is rejected, and otherwise returns 0 exactly for the inputs of `ParseExact` |
| Metadata.Mechanism.NextProperty | lib/zeromq/src/mechanism.cpp:216-238 | where one round of the loop stops |
| Metadata.Mechanism.TakeProperty | lib/zeromq/src/mechanism.cpp:240-260 | the routing id, the check of the socket type, or the callback, and the entry of the first duplicate |
| Metadata.Mechanism.IsPartner | lib/zeromq/src/mechanism.cpp:283-342 | the table of partners |
| Metadata.ParseExact | lib/zeromq/src/mechanism.cpp:210-263 | an input is accepted exactly if it is a list of complete properties, possibly followed by one cut right after its name or right after a non-zero value length; and it is that in one way only |
| Metadata.CutAccepted | lib/zeromq/src/mechanism.cpp:216-263 | the two bytes of a name without anything behind it are accepted and are no list of properties |
| Metadata.RoundTrip | lib/zeromq/src/mechanism.cpp:141-263 | what one side writes the other reads back: exactly those properties |
| Metadata.FirstWins | lib/zeromq/src/mechanism.cpp:240-260 | of duplicates the first one counts for the properties and the last one for the routing id |
| Metadata.AcceptedExact | lib/zeromq/src/mechanism.cpp:240-260 | all properties are taken if and only if each is the identity asked for, the type of a partner, or let through by the mechanism; otherwise exactly those before the first that is not |
| Metadata.Handshake | lib/zeromq/src/mechanism.cpp:141-263 | the basic properties of a peer are accepted exactly if its socket type is a partner |
| Metadata.TypesAgree | lib/zeromq/src/mechanism.cpp:283-342 | two sockets that tell each other their types both agree or both refuse |
| Metadata.PartnersPaired | lib/zeromq/src/mechanism.cpp:283-342 | the table of partners is that of the pairs of sockets that talk to each other |
| Metadata.IdentityForRouters | lib/zeromq/src/mechanism.cpp:152-156 | exactly the sockets that can talk to a router tell their identity |
| Metadata.DealerTells | lib/zeromq/src/mechanism.cpp:141-170 | the bytes of the properties of a dealer |
| Wire.GetPut | lib/zeromq/src/wire.hpp:35-49 | a 32-bit number is read back as it was written |
| Wire.GetPut64 | lib/zeromq/src/wire.hpp:51-75 | a 64-bit number is read back as it was written |
| Wire.PutIsBigEndian | lib/zeromq/src/wire.hpp:35-42 | the four bytes stand for the number, the most significant first |
| Wire.Put64IsBigEndian | lib/zeromq/src/wire.hpp:51-62 | the eight bytes stand for the number, the most significant first |
| Codec.Decoder.GetBuffer | lib/zeromq/src/decoder.hpp:42-63 | zero-copy exactly if at least a buffer of data is missing |
| Codec.Decoder.Decode | lib/zeromq/src/decoder.hpp:70-118 | copied or not, the beginning of the data has the effect of its bytes one at a time, up to the first complete message, or to a failure |
| Codec.Decoder.Receive | lib/zeromq/src/stream_engine_base.cpp:281-291 | the loop over a chunk has the effect of feeding its bytes one at a time |
| Codec.Decoder.ReceiveArrived | lib/zeromq/src/stream_engine_base.cpp:253-291 | what has arrived is read where the decoder wants it, copied or not, in as many rounds as it takes, with the effect of its bytes one at a time |
| Codec.Decoder.ReceiveAll | lib/zeromq/src/stream_engine_base.cpp:253-291 | however the stream is cut into chunks, and whichever of its parts are zero-copy, the decoder has the messages and the state of the bytes one at a time |
| Codec.Encoder.LoadMsg | lib/zeromq/src/encoder.hpp:102-107 | from then on exactly the bytes of the message are due |
| Codec.Encoder.Encode | lib/zeromq/src/encoder.hpp:47-100 | returns the next of the bytes that are due, at least one if there is room, in one piece out of the message or copied; with room left the message is done |
| Codec.Encoder.OutEvent | lib/zeromq/src/stream_engine_base.cpp:322-342 | a batch of messages: each is loaded when none is in progress and gives some bytes, so neither assertion fails; the bytes are those of the messages in order |
| Codec.RawStream | lib/zeromq/src/raw_encoder.cpp:19-23 | the bytes of a raw stream are the bodies one after the other |
| FrameCodec.FrameDecodes | lib/zeromq/src/v2_decoder.cpp:35-140 | a frame is decoded to its message and leaves the decoder ready for the next if and only if the message is not above the size limit; otherwise the decoder fails and nothing comes out |
| FrameCodec.StreamDecodes | lib/zeromq/src/v2_encoder.cpp:23-69 | of the frames of any sequence of messages exactly those before the first that is above the size limit are decoded; there the decoder fails |
| FrameCodec.PartDecodes | lib/zeromq/src/v2_decoder.cpp:35-140 | any beginning of a stream is decoded to some of the messages before the first that is above the size limit, and fails only there |
| FrameCodec.Carry | lib/zeromq/src/stream_engine_base.cpp:253-342 | an encoder and a decoder with buffers of any sizes and a size limit, called in any order and with any number of bytes on the way: what has been decoded is the first of the messages sent, in order, and all that were taken when nothing is left on the way, but none from the first too long one on |
| FrameCodec.Layout | lib/zeromq/src/v2_encoder.cpp:23-69 | the bits of the first byte, the size in network byte order in one or eight bytes, and the body |
| FrameCodec.SomeFrames | lib/zeromq/src/v2_encoder.cpp:23-69 | the bytes of three small frames |
| FrameCodec.LargeFrame | lib/zeromq/src/v2_encoder.cpp:23-69 | the bytes of the header of a command of 256 bytes |
| FrameCodec.RoundTripExact | lib/zeromq/src/v2_encoder.cpp:26-59 | a message comes out as it went in exactly if it is not a subscription or cancellation with a topic of 255 bytes |
| FrameCodec.MisframedDecodes | lib/zeromq/src/v2_encoder.cpp:26-59 | the frame of such a topic is taken for an empty message and something behind it |

## Left out

- Trie tables are sequences in a field, not raw memory; allocation is taken to succeed; node destruction is not modelled.
- Pipes are numbers in the trie, in the order of their addresses; the callbacks of `rm` and `match` are lists of calls.
- Pollers, listeners, connecters, sessions, sockets, security mechanisms, PGM, NORM and the example program are no part of the model.
- Queues, counters and flags shared by threads change atomically; the memory ordering of the processor is not modelled.
- `ypipe_conflate_t` and the conflating pipes are not modelled.
- Live changes of the high water marks, their exchange with the peer and `set_hwms_boost`.
- Pipe statistics, endpoints, event sinks, `send_disconnect_msg` and `send_hiccup_msg`.
- PipeFlow.WindowHolds: for runs without hiccups, which `PipeHiccup` has, without credentials, which the source counts when they are written only, and without calls that set limits.
- PipeFlow.StalledIsWoken: likewise; a high water mark of zero or less means that there is none.
- PipeLog.AcceptedIsRead: for runs without hiccups, which drain frames of the old queue.
- Pipe.Pipe.ProcessActivateRead: the call of the event sink is left out.
- Pipe.Pipe.ProcessActivateWrite: likewise.
- Pipe.Pipe.ProcessPipeTermAck: likewise.
- Pipe.Pipe.ProcessHiccup: likewise.
- Pipe.Pipe.Hiccup: for the queue that is not conflating.
- Counters of pipes and objects are unbounded, except that the high water mark is checked on the 64-bit difference; the 32-bit sent counter of `own_t` is not bounded.
- Own.Own.ProcessTermReq: the linger period sent with the `term` is left out; it decides nothing in the protocol.
- Own.Own.ProcessOwn: likewise.
- Own.Own.SendTerms: likewise.
- Own.Own.ProcessTerm: likewise, and without `register_term_acks` for other asynchronous work.
- Commands of one object to itself and from I/O threads other than `plug`, `own`, `bind`, `term_req`, `term` and `term_ack` are one sequenced command `Bind` or none.
- Dist.Dist.Deactivate: the swaps of `write` test nothing; that the pipe is in all zones is proved.
- Dist.Dist.Write: whether a pipe takes a message is read from a list of answers in the pipe; `PipeRefines` relates them to `check_write`.
- Fq.Fq.RecvPipe: the inbound side of a pipe is its unread frames, which a read never refuses; `PipeInbound` shows that this is so as long as the end reads, and that it is not otherwise.
- Fq.Fq.HasIn: likewise.
- Fq.WholeMessages: likewise; that arrivals are whole messages is `PipeInbound.ArrivalsWhole`; terminations are not events of the runs.
- Fq.FairTurn: for a fixed set of pipes; attaching and terminating are not events of the runs.
- Lb.FairShare: likewise; whether a pipe takes what it is offered is read from its list of answers.
- Lb.Lb.Place: the flush at the end of a message stands next to the write.
- MsgMemory.Memory.Close: metadata objects and long group names, which have counters of their own, are left out.
- MsgMemory.Memory.Move: likewise.
- MsgMemory.Memory.Copy: likewise.
- Metadata objects of messages and long group names, whose references `add_refs` does not count.
- MsgMemory.Memory.InitInBuffer: the place of the bytes is not modelled, only that messages are disjoint and lie in the buffer.
- Mailbox.Mailbox.Recv: without interference; the lemmas about runs cover all interleavings.
- The event file descriptor of the signaler is a count; forked processes are not modelled.
- Draft socket types; the table of partners has the others.
- Metadata.Mechanism.ParseMetadata: the callback is a function of name and value.
- Codec.Decoder.Decode: an action sees the bytes it asked for and not where they lie, so that a machine which builds messages in place behaves like one that copies.
- Codec.Encoder.Encode: buffers are sequences of bytes.
- The decoders and encoders of ZMTP 1.0 and 3.1 and of WebSocket are not instances here.
