# Verified models of the RDMA, libfabric and libevent examples

This project models the hand-written protocols of the repository and proves what they rely on.
`dafny verify dfyconfig.toml` checks all of it.

Protocols are step systems: any enabled step of any host, thread, network card or socket may come next, so a
statement about every reachable state or every run covers every interleaving (`Runs.dfy` holds the induction
principles).  Code that updates fields or buffers in place is written as classes and loops, and each method is
proved to do exactly the corresponding step of the protocol.

| part | files | source |
|---|---|---|
| ping-pong of two hosts over shared receive queues, for any number of queue pairs | `PingPong*.dfy`, `QueuePairs.dfy` | `RDMA/examples/srq_pingpong.c` |
| the same with one queue pair, and its timestamps | `RcPingPong.dfy`, `RcTimestamps.dfy` | `RDMA/examples/rc_pingpong.c` |
| XRC server and N clients | `Xrc*.dfy` | `RDMA/examples/xsrq_pingpong.c` |
| neighbour discovery | `Neighbours.dfy`, `HelloCost.dfy`, `ConnectionServer.dfy` | `RDMA/udp1/udp_server.cpp` |
| reader threads and completion-queue thread | `Fabric*.dfy` | `Libfabric/test2.c` |
| buffered rot13 server | `Echo.dfy`, `EchoServer.dfy` | `LibEvent/try1_server.cpp` |
| address records over TCP | `Dest*.dfy` | `RDMA/examples/srq_pingpong.c`, `RDMA/examples/pingpong.c` |
| SEND, READ and WRITE ordered by one-byte syncs | `Rdma*.dfy` | `RDMA/rdma1.cpp` |
| acquisition and release of resources | `Provider.dfy`, `ContextLadder.dfy`, `RdmaResources.dfy` | `RDMA/examples/srq_pingpong.c`, `RDMA/rdma1.cpp` |

## What was found

- The ping-pong needs at least one receive per queue pair, exactly as the command-line check demands
  (`ReceiveQueueNeverEmptyIff`); with `num_qp == 0` and `iters > 0` both hosts poll for ever (`ExchangeCompletes`).
- With two or more queue pairs a host may destroy them while a message to it is in flight; with one it may not,
  unless iters is 0 (`NothingLateIff`, `LateMessage`).  The sender of such a message may fail for it: both hosts
  finish in all runs exactly if there is one queue pair or iters is 0 (`BothFinishIff`, `ClientFails`).
- `rc_pingpong` accepts `rx_depth == 0`, with which the first message finds no receive, and `iters == 0`, with
  which the client sends one message all the same (`RcNeedsAReceive`, `RcIsExactIff`).
- The address exchange of client and server returns a partly filled table when a read fails, and the caller
  cannot tell: the table is right exactly if all 256 records have come (`TableIsCompleteIff`, `OneByteShort`).
- `wire_gid_to_gid` depends on its uninitialised variable exactly if the first group of a GID holds no number
  (`GidIsDeterminedIff`, `NoDigits`).  A record with a short GID text, or none, takes the rest of its GID from the
  record before it (`OnlyTheTextCountsIff`, `NoGid`).
- A node that answers a first hello keeps the initiator in `pending_hello`.  The next initiation by the same
  side therefore costs one hello, not two (`InitiationCost`).
- With loss, neighbours need not be mutual (`NeighboursAreMutualIff`); without, a node knows exactly those it was
  introduced to (`NeighboursAreTheIntroduced`).
- The smallest timestamp difference starts at `0xffffffff`, so it is right only if some difference is at most
  that (`MinIsExactIff`, `WrongMin`); a difference is right only if less than one turn of the clock has passed
  (`DeltaIsExactIff`).
- After the echo buffer is reset to 1 instead of 0, byte 0 is not used again; no byte is lost, duplicated or
  reordered by that (`OutputIsRot13OfInput`), the buffer only holds one byte less
  (`ByteZeroIsUsedOnce`).
- A newline that finds the echo buffer full is dropped but still arms the write event, so a line goes out without
  its end (`NewlineAtMarkIff`, `DroppedNewline`).
- `find_qp` of the XRC server attributes an unknown queue pair number to client 0 (`FoundIffKnown`); the numbers
  of the clients themselves are attributed rightly exactly if they are distinct (`AttributionIsRightIff`).
- `xsrq_pingpong` accepts `num_tests == 0`, with which no client ever closes (`WorksIff`, `NobodyCloses`).
- When `fi_cq_sread` reports an error the completion-queue thread ends and the readers, and the main thread that
  joins them, may wait for ever (`CanWorkIff`, `NoDeadlockIff`).
- `resources_destroy` frees the buffer under its live registration exactly if the registration was made and its
  release is refused (`FreedUnderRegistrationIff`, `RefusedRegistration`).
- `sock_sync_data` reads to the start of its buffer every time, and a whole `xfer_size` each.  It is right for
  every stream exactly if one read was enough (`RightIffOneRead`), and for every way of cutting exactly if one
  byte is transferred, as for the syncs (`AlwaysRightIffOneByte`).  The connection data, 34 bytes, can be
  corrupted and can swallow the sync that follows (`CutConnectionData`).  After a short write nothing is read, and
  `connect_qp` takes that for success (`NegativeTestIsRightIff`, `ShortWrite`).

## Assumptions

- Completion statuses are success where a protocol as a whole is concerned (the handlers also prove the error
  cases); queue pairs have distinct numbers; a reliable connection delivers each message once.
- A host that has left its polling loop still takes part through its network card until it closes, which only
  `PingPongClosing.dfy` lets it do; a message that has been delivered is acknowledged all the same.
- The threads of `Libfabric/test2.c` are sequentially consistent.
- The strings of `rdma1.cpp` are written and read as a whole; polling for a completion does not time out.
- A socket read brings at least one byte or fails; how much each read finds and each write takes is arbitrary.  The counters of the echo server start at 0.
- `sscanf` is that of the C standard (a `0x` without a digit is no number), with `strtoul` saturating at 64 bits.
- The release calls on the failure path of `pp_init_ctx` and `resources_create`, whose results the source does
  not look at, succeed.

## Model

| member | source | states |
|---|---|---|
| PingPongTheorems.NothingEverFails | RDMA/examples/srq_pingpong.c:892-1000 | in every run, for any number of queue pairs up to rx_depth and any interleaving, no message finds the receive queue empty, no completion or send queue overflows and no post fails |
| PingPongTheorems.CreditsInEveryRun | RDMA/examples/srq_pingpong.c:968-977 | posted receives plus unprocessed receive completions equal `routs`, which stays between num_qp and rx_depth; completions fit the queue and the wc array |
| PingPongCredits.CreditsAreExact | RDMA/examples/srq_pingpong.c:968-980 | in every run `routs` is rx_depth less the receives counted modulo rx_depth - num_qp (rx_depth itself if the two are equal), so the queue is refilled exactly when num_qp credits would be left; the receives posted follow from it |
| PingPongTheorems.OneTokenInEveryRun | RDMA/examples/srq_pingpong.c:892-906 | on every queue pair the client's posts exceed the server's by 0 or 1; exactly one message is in flight, queued or unanswered, and where it is tells who is ahead; the SEND bit stands for exactly one unprocessed send, and an idle queue pair means the host's send goal is met |
| PingPongTheorems.SendOvershoot | RDMA/examples/srq_pingpong.c:988-996 | a host posts at most iters + num_qp - 1 messages in any run |
| PingPongTheorems.StuckIsFinished | RDMA/examples/srq_pingpong.c:914-1000 | a state in which nothing can happen is one in which both hosts have met both goals, although each stops sending on its own global count |
| PingPongTheorems.EveryRunIsBounded | RDMA/examples/srq_pingpong.c:914-1000 | no run takes more than 12 * (iters + num_qp - 1) + num_qp steps (with iters 0 counted as 1) |
| PingPongTheorems.ExchangeCompletes | RDMA/examples/srq_pingpong.c:914-1000 | every run that cannot continue has finished on both sides if and only if there is a queue pair or nothing to do |
| PingPongTheorems.CanAlwaysComplete | RDMA/examples/srq_pingpong.c:914-1000 | from every reachable state the exchange can still finish |
| PingPongTheorems.SingleQpIsExact | RDMA/examples/rc_pingpong.c:1047-1073 | with one queue pair both sides end with exactly iters sends and iters receives |
| PingPongTheorems.ReceiveQueueNeverEmptyIff | RDMA/examples/srq_pingpong.c:780-785 | the receive queues never run empty in any run if and only if num_qp <= rx_depth |
| PingPongClose.NothingLateIff | RDMA/examples/srq_pingpong.c:914-1028 | in no run is a message on its way to a host that has left its loop and goes on to pp_close_ctx, if and only if there is one queue pair and iters > 0, or no queue pair |
| PingPongClose.LateMessage | RDMA/examples/srq_pingpong.c:914-1028 | for two or more queue pairs and any iters, a reachable state in which the server has left with a message to it still in flight; unless iters is 0 the client has processed everything and is not done |
| PingPongClosing.BothFinishIff | RDMA/examples/srq_pingpong.c:914-1028 | when hosts that have left close, and messages to a closed host end in an error at their sender: nobody fails and a run that cannot go on has closed both hosts, if and only if there is one queue pair or iters is 0 |
| PingPongClosing.ClientFails | RDMA/examples/srq_pingpong.c:948-955 | for two or more queue pairs and iters > 0, a run in which the server closes and the client returns with an error |
| PingPongClosing.FailsAfterTheOthers | RDMA/examples/srq_pingpong.c:914-955 | a host fails for an undeliverable message only after it has polled exactly the completions that were queued before the error |
| PingPongClosing.EveryClosingIsBounded | RDMA/examples/srq_pingpong.c:914-1028 | a run with its closing takes at most six steps more than the bound for the exchange |
| PingPongSafety.RoomToDeliver | RDMA/examples/srq_pingpong.c:420-451 | a message in flight finds a posted receive and room for its completion at the other host |
| PingPongSafety.PostRoom | RDMA/examples/srq_pingpong.c:448-451 | when the mask says that a queue pair is idle, its only send slot is free |
| PingPongSafety.StepInv | RDMA/examples/srq_pingpong.c:892-1000 | the invariant that links both hosts, the wire, the completion queues and the batches is kept by every step |
| PingPongHost.MaskBits | RDMA/examples/srq_pingpong.c:988-989 | clearing a bit of the integer mask clears that work only, and the mask is 0 exactly when no work is pending |
| PingPongHost.BatchIsProcessSteps | RDMA/examples/srq_pingpong.c:948-998 | a batch handled without failure does what as many single steps of the protocol do |
| PingPongHost.ProcessAllStops | RDMA/examples/srq_pingpong.c:948-998 | after a failure the rest of the batch is not looked at |
| PingPongHost.PingPongContext.PostRecv | RDMA/examples/srq_pingpong.c:569-589 | posts until the queue is full or `n` are posted, and returns how many were |
| PingPongHost.PingPongContext.PostSendTo | RDMA/examples/srq_pingpong.c:591-608 | fails exactly when the slot of that queue pair is in use, and otherwise puts one message on the wire |
| PingPongHost.PingPongContext.FindQp | RDMA/examples/srq_pingpong.c:610-619 | the first index with that number, or -1 exactly if there is none |
| PingPongHost.PingPongContext.TakeReceiveCredit | RDMA/examples/srq_pingpong.c:968-980 | while more than num_qp credits are left nothing is posted; then the queue is filled up to rx_depth; failing when it cannot be |
| PingPongHost.PingPongContext.HandleCompletion | RDMA/examples/srq_pingpong.c:948-997 | the protocol's Process step for a recognised completion; for a bad status, number or work id the state is unchanged and the right error is reported |
| PingPongHost.PingPongContext.SettleQp | RDMA/examples/srq_pingpong.c:988-996 | clears the finished work and answers when nothing is pending and sends are due |
| PingPongHost.PingPongContext.Answer | RDMA/examples/srq_pingpong.c:989-996 | posts a send and sets both bits, or fails |
| PingPongHost.PingPongContext.StartNext | RDMA/examples/srq_pingpong.c:897-903 | one turn of the loop that starts the client's queue pairs |
| PingPongHost.PingPongContext.HandleBatch | RDMA/examples/srq_pingpong.c:948-998 | the loop over wc does what the protocol does with the completions before the first that has a bad status, number or work id, and reports that one; it stops at the first failure |
| QueuePairs.FindsTheQp | RDMA/examples/srq_pingpong.c:610-619 | with distinct numbers the search finds the queue pair that the completion belongs to |
| RcTimestamps.DeltaIsElapsed | RDMA/examples/rc_pingpong.c:726-731 | the computed difference of two readings of a clock with mask + 1 ticks is the elapsed time up to whole turns, across a wrap and in 64-bit arithmetic |
| RcTimestamps.DeltaIsExactIff | RDMA/examples/rc_pingpong.c:726-731 | it is the elapsed time exactly if less than one turn has passed |
| RcTimestamps.TotalIsElapsedTime | RDMA/examples/rc_pingpong.c:722-743 | over a whole run the total is last minus first time modulo 2^64, and the count is one less than the receives modulo 2^32 |
| RcTimestamps.TotalIsExactIff | RDMA/examples/rc_pingpong.c:735-736 | the total is the true elapsed time if and only if that fits in 64 bits |
| RcTimestamps.MinAndMax | RDMA/examples/rc_pingpong.c:733-734 | the maximum is the largest gap; the minimum is below every gap and is one of them or 0xffffffff |
| RcTimestamps.MinIsExactIff | RDMA/examples/rc_pingpong.c:950-957 | the minimum is a gap if and only if some gap is at most 0xffffffff |
| RcTimestamps.WrongMin | RDMA/examples/rc_pingpong.c:950-957 | with two receives 2^32 ticks apart the minimum is 0xffffffff |
| RcTimestamps.PrintedAverageInRange | RDMA/examples/rc_pingpong.c:733-736 | count * min <= total <= count * max |
| RcPingPong.RcExchange | RDMA/examples/rc_pingpong.c:1047-1156 | with one queue pair and at least one receive nothing fails, at most rx_depth + 1 completions are queued, at most max(iters, 1) messages are posted, a run that cannot go on has finished on both sides, and then, unless iters is 0, both have sent and received exactly iters messages |
| RcPingPong.RcNeedsAReceive | RDMA/examples/rc_pingpong.c:880-885 | the receive queues never run empty if and only if rx_depth is not 0, which the command line accepts |
| RcPingPong.RcIsExactIff | RDMA/examples/rc_pingpong.c:886-888 | finished hosts have sent and received exactly iters messages in all runs if and only if iters is not 0, which the command line accepts |
| RcPingPong.RcContext.RecordTimestamp | RDMA/examples/rc_pingpong.c:722-743 | the update of ts_params, with and without timestamps |
| RcPingPong.RcContext.OneLessThanReceives | RDMA/examples/rc_pingpong.c:1173-1180 | whenever main looks, one difference less than receives has been counted, modulo 2^32 |
| RcPingPong.RcContext.CountAtExit | RDMA/examples/rc_pingpong.c:1073-1180 | at the end of any run of the exchange the divisor of the printed average is iters - 1 modulo 2^32 |
| RcPingPong.RcContext.TotalOfTheRun | RDMA/examples/rc_pingpong.c:1173-1180 | at exit the total is the time from the first to the last receive modulo 2^64 |
| RcPingPong.RcContext.ParseSingleWc | RDMA/examples/rc_pingpong.c:692-764 | the protocol's Process step for one queue pair, the timestamp recorded exactly on successful receives, and the error cases; the timestamps are those of the counted receives |
| XrcTheorems.NothingEverFails | RDMA/examples/xsrq_pingpong.c:988-1025 | for any number of clients and tests no receive queue is empty when a message arrives, no completion queue or send queue of the server overflows, and every message finds its target queue pair open |
| XrcSafety.SendHasSlot | RDMA/examples/xsrq_pingpong.c:173-173 | every message that the server posts finds a free entry in its send queue of num_clients * num_tests, although unsignalled sends never give theirs back |
| XrcTheorems.TerminationBarrier | RDMA/examples/xsrq_pingpong.c:376-401 | once any client has closed, every client has received all its messages and nothing is in flight |
| XrcTheorems.ExactCounts | RDMA/examples/xsrq_pingpong.c:988-1017 | the server's count lands exactly on num_clients * num_tests, with num_tests messages each way for every client |
| XrcTheorems.OneCompletionPerClient | RDMA/examples/xsrq_pingpong.c:796-801 | exactly one signalled send per client and direction; its completion exists exactly once when the exchange with that client is over |
| XrcTheorems.DrainedExactly | RDMA/examples/xsrq_pingpong.c:1019-1025 | past its drain loop the server has drained exactly one completion for every client, and none is left or to come; so has every client that has sent its END |
| XrcTheorems.QueuesFit | RDMA/examples/xsrq_pingpong.c:293-314 | receives posted and completed add up to the size of the receive queue on each side; send completions queued and drained never exceed num_clients, or 1 on a client |
| XrcTheorems.BalancedSendQps | RDMA/examples/xsrq_pingpong.c:775-801 | no send queue pair carries more than num_tests messages, and each has carried exactly num_tests when the server leaves its loop |
| XrcBalance.OnePerRound | RDMA/examples/xsrq_pingpong.c:796-796 | in each round exactly one client uses a given send queue pair |
| XrcBalance.RoundRobinIsBalanced | RDMA/examples/xsrq_pingpong.c:796-796 | num_tests full rounds put exactly num_tests messages on every send queue pair |
| XrcTheorems.EveryRunIsBounded | RDMA/examples/xsrq_pingpong.c:988-1044 | no run takes more than n * (8t + 3) + 3n + 4 steps |
| XrcTheorems.StuckMeansAllClosed | RDMA/examples/xsrq_pingpong.c:988-1044 | a run that cannot continue has the server and all clients closed |
| XrcTheorems.CanAlwaysClose | RDMA/examples/xsrq_pingpong.c:1036-1044 | from every reachable state everybody can still close |
| XrcTheorems.WorksIff | RDMA/examples/xsrq_pingpong.c:935-1044 | nothing fails and everybody closes in every run that cannot go on, if and only if num_tests is not 0, which the command line accepts |
| XrcTheorems.NobodyCloses | RDMA/examples/xsrq_pingpong.c:1019-1025 | with num_tests 0 no client ever gets past draining its send queue in any run |
| XrcHost.HandleIsTheStep | RDMA/examples/xsrq_pingpong.c:1011-1015 | the protocol's step runs the server's loop once, and what that posts is what the client gets |
| XrcHost.RightClient | RDMA/examples/xsrq_pingpong.c:803-817 | with distinct numbers a completion is attributed to the client that sent the message |
| XrcHost.AttributionIsRightIff | RDMA/examples/xsrq_pingpong.c:803-817 | every client's completions are attributed to that client if and only if the numbers are distinct |
| XrcHost.FoundIffKnown | RDMA/examples/xsrq_pingpong.c:803-817 | the client found has the number asked for if and only if some client has it; otherwise it is client 0 |
| XrcHost.XrcContext.PostRecv | RDMA/examples/xsrq_pingpong.c:752-773 | posts until the first failure, and fails exactly when the queue has no room for all |
| XrcHost.XrcContext.PostSend | RDMA/examples/xsrq_pingpong.c:779-801 | the next message to that client goes round robin, signalled exactly from the last test on, and fails exactly when that send queue is full |
| XrcHost.XrcContext.FindQp | RDMA/examples/xsrq_pingpong.c:803-817 | client 0 without a search when there is one client, and for an unknown number |
| XrcHost.XrcContext.HandleOne | RDMA/examples/xsrq_pingpong.c:1011-1015 | one completion: receive reposted, answer posted while tests are left, counted |
| XrcHost.XrcContext.DrainReceives | RDMA/examples/xsrq_pingpong.c:997-1016 | the inner loop does what a sequence of arrivals and protocol steps does, for messages arriving before and between the polls; it ends when nothing is left, or at a completion with a bad status, which it takes and does not handle |
| Neighbours.NeighboursAreMutualIff | RDMA/udp1/udp_server.cpp:61-130 | for two or more nodes, with initiations at any time, deliveries in any order and duplicates: whenever no hello is in flight neighbourhood is mutual, if and only if the network loses nothing |
| Neighbours.NeighboursAreTheIntroduced | RDMA/udp1/udp_server.cpp:61-130 | without loss and with nothing in flight, a node knows another if and only if one of the two ever initiated to the other |
| Neighbours.EntriesAreHeard | RDMA/udp1/udp_server.cpp:61-112 | in every run a node knows exactly those it has heard from, with the time of the last hello delivered and the destination of the first |
| Neighbours.LostAnswer | RDMA/udp1/udp_server.cpp:114-130 | one lost answer leaves a reachable quiet state in which only one side knows the other |
| UdpServer.NeighbourEntriesAreRight | RDMA/udp1/udp_server.cpp:61-79 | what a node has parsed out of a hello and stored about a neighbour is what that neighbour announces, in every run and for machines of any byte order |
| UdpServer.HelloIsRead | RDMA/udp1/udp_server.cpp:208-213 | the text of a hello read on any machine, whatever the variables held, gives the destination it was printed from |
| HelloCost.DeliveryCostsOne | RDMA/udp1/udp_server.cpp:114-130 | every delivery, answered or absorbed, lowers twice the hellos in flight plus the pairs not pending by exactly one |
| HelloCost.Conservation | RDMA/udp1/udp_server.cpp:114-130 | over a whole run deliveries plus twice the losses are exactly paid for by the initiations and the duplicates |
| HelloCost.HellosDieOut | RDMA/udp1/udp_server.cpp:114-130 | after the last initiation at most 2 * inflight + n * n hellos are delivered or lost, and two more for each duplicate |
| HelloCost.SettledIsQuiet | RDMA/udp1/udp_server.cpp:195-216 | when nobody initiates, a network that cannot go on has no hello in flight |
| HelloCost.InitiationCost | RDMA/udp1/udp_server.cpp:232-248 | an initiation on a quiet network costs exactly two hellos, or one if the peer still has the initiator pending, and what is pending afterwards |
| HelloCost.CrossingCost | RDMA/udp1/udp_server.cpp:232-248 | two crossing initiations cost exactly two hellos in either order and leave nothing pending |
| UdpServer.ConnectionServer.SendFirstHello | RDMA/udp1/udp_server.cpp:232-248 | the address becomes pending and one hello with the own destination is sent |
| UdpServer.ConnectionServer.CheckSendingHello | RDMA/udp1/udp_server.cpp:114-130 | an address that is not pending becomes pending and is answered; a pending one is absorbed |
| UdpServer.ConnectionServer.AddNeighbor | RDMA/udp1/udp_server.cpp:61-112 | the protocol's reception of a hello: a known address keeps its destination and gets the new time, a new one gets both, all others stay; then the hello check |
| UdpServer.ConnectionServer.ServerReceiveEvent | RDMA/udp1/udp_server.cpp:195-216 | a datagram is parsed and heard as the protocol says; an empty or failed read changes nothing |
| FabricTheorems.NoLostCompletion | Libfabric/test2.c:252-284 | for each of n readers, reads at the card, in the queue, in hand or announced equal posted minus consumed, which is 0 or 1 |
| FabricTheorems.NoLostWakeup | Libfabric/test2.c:365-386 | a waiting reader's completion is still coming, or announced with the signal about to be given under its lock |
| FabricTheorems.ShutdownDiscardsNothing | Libfabric/test2.c:411-426 | after `run` is cleared no completion is queued or in hand, and every reader without an error has consumed exactly `count` |
| FabricTheorems.NoReadAfterStop | Libfabric/test2.c:262-265 | once `run` is cleared the completion-queue thread begins no further read |
| FabricTheorems.CanWorkIff | Libfabric/test2.c:252-284 | until the program ends some step other than a spurious wakeup or an idle timeout is possible, unless the completion-queue thread has given up, all readers that have not ended wait and the main thread joins one of them |
| FabricTheorems.NoDeadlockIff | Libfabric/test2.c:252-284 | there is no deadlock in any run if and only if fi_cq_sread cannot report an error, or there is nothing to read |
| FabricTheorems.EveryRunIsBounded | Libfabric/test2.c:252-426 | apart from those, a run has at most n * (17 * count + 1) + n + 5 steps, and each of those adds at most three |
| Echo.Rot13Twice | LibEvent/try1_server.cpp:23-33 | applying rot13 twice gives the text back |
| Echo.Rot13IsRotation | LibEvent/try1_server.cpp:23-33 | a letter becomes the one 13 places further in the circle of its alphabet, capitals likewise, every other character stays |
| Echo.OutputIsRot13OfInput | LibEvent/try1_server.cpp:77-137 | in every reachable state the counters are ordered, and what was sent followed by what is buffered is the accepted input, byte by byte, with every letter moved 13 places |
| Echo.ByteZeroIsUsedOnce | LibEvent/try1_server.cpp:133-134 | the buffer is empty from its first byte on only as long as nothing was accepted; after everything is sent it starts at 1 |
| Echo.DisarmedMeansFlushed | LibEvent/try1_server.cpp:93-97 | output is pending only while the write event is armed; no accepted newline comes after the mark; when the event is not armed, exactly the bytes up to the mark have been sent |
| Echo.MarkAfterLastNewline | LibEvent/try1_server.cpp:90-98 | unless bytes were dropped, the mark is just after the last newline received, or at the start if there was none |
| Echo.NewlineAtMarkIff | LibEvent/try1_server.cpp:90-98 | after a newline is read the byte before the mark is a newline if and only if there was room for it or the last byte that found room was one |
| Echo.DroppedNewline | LibEvent/try1_server.cpp:90-98 | a reachable state in which the newline was dropped and the event is armed for a line without end |
| Echo.MarkIsLastNewline | LibEvent/try1_server.cpp:90-98 | bytes without a newline neither arm the event nor move the mark; otherwise the event is armed and the mark is after what was taken of the bytes up to their last newline, wherever it is |
| Echo.DropsOnlyWhenFull | LibEvent/try1_server.cpp:90-92 | exactly the bytes that fit the room left are accepted |
| EchoServer.FdState.TakeByte | LibEvent/try1_server.cpp:91-97 | one byte read: it is stored 13 places further if there is room, nothing else in the buffer changes, and a newline arms the event and sets the limit even when the buffer is full |
| EchoServer.FdState.DoRead | LibEvent/try1_server.cpp:77-111 | do_read is a run of the protocol, and closes unless recv would block |
| EchoServer.FdState.DoWrite | LibEvent/try1_server.cpp:114-137 | for any results of send, do_write makes exactly the sends that these allow, a run of the protocol, and completes, blocks or fails accordingly; the event is disarmed when it completes |
| EchoServer.CompleteIff | LibEvent/try1_server.cpp:118-131 | do_write completes if and only if send takes as much as there is to send |
| EchoServer.CompleteWriteSendsAll | LibEvent/try1_server.cpp:118-131 | a complete do_write puts out exactly the bytes up to the last newline, however the sends are cut |
| DestFormat.PrintHexWidth | RDMA/examples/srq_pingpong.c:193-196 | a number printed with at least w digits takes exactly w characters if and only if it is below 16^w |
| DestFormat.RecordSize | RDMA/examples/srq_pingpong.c:193-196 | a record is exactly 51 characters and a terminator when the numbers fit 16, 24 and 24 bits, and only then |
| DestText.RecordText | RDMA/examples/srq_pingpong.c:193-196 | what is on the wire, from the table 0123456789abcdef: 4, 6 and 6 digits with colons, two digits for each byte of the GID in order, a terminator |
| DestText.DigitTable | RDMA/examples/srq_pingpong.c:193-221 | the sixteen digits printed, and the 22 read, with their values |
| DestFormat.ScanPrinted | RDMA/examples/srq_pingpong.c:220-221 | reading back a printed number that something follows which is not taken for a part of it, with a scan that skips white space and takes signs and prefixes |
| DestText.ScanHexIff | RDMA/examples/srq_pingpong.c:220-221 | %x gives a number and a rest if and only if the text is white space, a sign, a prefix, digits and that rest, and the number is what these digits mean with that sign in 32 bits |
| DestText.ValueOfDigits | RDMA/examples/srq_pingpong.c:220-221 | digits of either case stand for the sum of their values times powers of 16 |
| DestFormat.ScanRecord | RDMA/examples/srq_pingpong.c:220-221 | parsing a record gives back what was printed, whatever was in the variables before and whatever follows |
| DestText.StopsEarly | RDMA/examples/srq_pingpong.c:220-221 | a text that goes wrong after none, one or two numbers stores exactly those |
| DestText.ThreeNumbers | RDMA/examples/srq_pingpong.c:220-221 | after three numbers the GID text is what follows up to white space or the end, or nothing |
| DestFormat.RecordRoundTrip | RDMA/examples/srq_pingpong.c:193-222 | sprintf, sscanf and both GID loops together: a record printed on one machine and parsed on another is the destination, whatever the variables held |
| DestFormat.WireWordIsRaw | RDMA/examples/pingpong.c:72-80 | a printed word of a GID is its four bytes in memory order on a machine of either byte order |
| DestFormat.WordRoundTrip | RDMA/examples/pingpong.c:57-80 | a word printed on one machine and read on another of any byte order gives the same bytes |
| DestFormat.GidRoundTrip | RDMA/examples/pingpong.c:57-80 | a whole printed GID, read with the loop of any machine, is that GID, whatever the uninitialised variable held |
| DestExchange.GidToWireGid | RDMA/examples/pingpong.c:72-80 | the loop fills the buffer with two lower-case digits for each byte in memory order and one terminator |
| DestExchange.WireGidToGid | RDMA/examples/pingpong.c:57-70 | the loop stores what the four groups of eight characters stand for; a group without a number repeats the one before, and the first the uninitialised variable |
| DestLeftovers.GidIsDeterminedIff | RDMA/examples/pingpong.c:57-70 | the GID does not depend on what the uninitialised variable held, if and only if the first eight characters hold a number |
| DestLeftovers.NoDigits | RDMA/examples/pingpong.c:57-70 | a text without digits gives four copies of what the variable held |
| DestLeftovers.OnlyTheTextCountsIff | RDMA/examples/srq_pingpong.c:220-222 | the destination parsed from a text depends on nothing that the table, the GID buffer and the variable held, if and only if a GID text of at least 24 characters is found whose first eight hold a number |
| DestLeftovers.NoGid | RDMA/examples/srq_pingpong.c:220-222 | the record 1:2:3: is accepted and gets the GID of the record before it |
| DestExchange.ReadRecord | RDMA/examples/srq_pingpong.c:208-218 | the read loop succeeds exactly when 52 bytes arrive, in pieces of any sizes, and takes exactly those |
| DestExchange.ParseRecord | RDMA/examples/srq_pingpong.c:220-222 | the destination and the buffer after sscanf and wire_gid_to_gid, for any terminated text: the conversions before the first that fails are stored, the others keep what was there |
| DestExchange.ReceiveAll | RDMA/examples/srq_pingpong.c:207-223 | for any stream and any chunking exactly the records that arrive whole are parsed into the table; the rest stays as allocated |
| DestExchange.ReceivedFromPeer | RDMA/examples/srq_pingpong.c:207-223 | from a peer's stream, cut off anywhere, the whole records give the destinations that were sent and the rest of the table is untouched |
| DestExchange.TableIsCompleteIff | RDMA/examples/srq_pingpong.c:207-223 | the table is what the peer sent, whatever was in it, if and only if at least 256 records have arrived |
| DestExchange.OneByteShort | RDMA/examples/srq_pingpong.c:212-218 | when only the last byte is missing the caller gets 255 right entries and one as allocated |
| DestExchange.SendRecord | RDMA/examples/srq_pingpong.c:194-200 | one write of one record; it succeeds exactly if the socket takes all 52 bytes, and otherwise what it takes is on the wire |
| DestExchange.SendAll | RDMA/examples/srq_pingpong.c:193-201 | succeeds exactly if the socket takes each of the 256 records whole; on the wire is the stream up to the first byte not taken |
| RdmaTheorems.AllIsRight | RDMA/rdma1.cpp:938-1020 | in every interleaving no request fails and nothing but the right contents is printed |
| RdmaTheorems.SendFindsReceive | RDMA/rdma1.cpp:741-773 | while the server's SEND is queued the client is ready, has a receive posted and room for the completion |
| RdmaTheorems.SyncsInStep | RDMA/rdma1.cpp:185-206 | the processes are within one sync of each other, and the sockets hold exactly the bytes in between |
| RdmaTheorems.NoRaces | RDMA/rdma1.cpp:949-1020 | no process reads or writes its buffer while a network card may |
| RdmaTheorems.StuckMeansDone | RDMA/rdma1.cpp:854-1036 | nothing can happen if and only if both processes are done, and then the three messages were printed and the sockets are empty |
| RdmaTheorems.CompleteRuns | RDMA/rdma1.cpp:854-1036 | a run is complete if and only if it has exactly 41 steps |
| RdmaSyncs.WithoutQ | RDMA/rdma1.cpp:768-773 | without the sync Q the SEND can meet a queue pair that is not ready and has no receive |
| RdmaSyncs.WithoutR | RDMA/rdma1.cpp:962-968 | without R the client can read the first message again |
| RdmaSyncs.WithoutW | RDMA/rdma1.cpp:1010-1020 | without W the server can print its buffer before the client has written it |
| RdmaSyncs.EverySyncIsNeeded | RDMA/rdma1.cpp:679-1020 | the program is right in all runs if and only if none of the three syncs is left out |
| RdmaSocket.SockSyncData | RDMA/rdma1.cpp:185-206 | one write, then reads until enough has come: the result, the buffer and both sides of the socket are determined by what the socket takes and by how much each read finds |
| RdmaSocket.OneWay | RDMA/rdma1.cpp:197-204 | for given arrivals there is only one way the reads can go |
| RdmaSocket.NegativeTestIsRightIff | RDMA/rdma1.cpp:706-706 | the test that connect_qp makes is right whatever is read, if and only if write took everything or failed |
| RdmaSocket.ZeroTestIsRightIff | RDMA/rdma1.cpp:769-769 | the test of the syncs is right whatever is read, if and only if write did not return 0 |
| RdmaSocket.ShortWrite | RDMA/rdma1.cpp:190-206 | 10 of 34 bytes are written: the result is not negative, nothing was read and the buffer is as it was |
| RdmaSocket.RightIffOneRead | RDMA/rdma1.cpp:197-204 | for given sizes of the reads, the buffer is right and nothing too much is taken for every stream, if and only if there was one read |
| RdmaSocket.AlwaysRightIffOneByte | RDMA/rdma1.cpp:185-206 | a transfer of n bytes is right for every stream and every way of cutting it if and only if n is 1 |
| RdmaSocket.CutConnectionData | RDMA/rdma1.cpp:706-706 | the 34 bytes of connection data cut after 20: the end overwrites the start, and the sync that follows is swallowed |
| ContextLadder.CreateQps | RDMA/examples/srq_pingpong.c:442-491 | all queue pairs in INIT, or after the failure of any of them none |
| ContextLadder.InitCtx | RDMA/examples/srq_pingpong.c:350-518 | everything exactly if no call fails; after a failure at any point nothing is live, each handle having been released once and before what it was created on |
| ContextLadder.CloseCtx | RDMA/examples/srq_pingpong.c:520-567 | returns 0 exactly if nothing is refused, and then nothing is live; otherwise exactly the handles before the first refused one are gone, and everything that the rest needs is still live |
| ContextLadder.LeftIff | RDMA/examples/srq_pingpong.c:520-567 | a handle is left if and only if it, or one that is released before it, is refused |
| ContextLadder.InitThenClose | RDMA/examples/srq_pingpong.c:350-567 | initialising and closing leaves nothing behind, whatever fails, unless a release is refused |
| RdmaResources.Resources.Undo | RDMA/rdma1.cpp:541-587 | the common exit releases exactly what is set, in a legal order, and sets every field to null |
| RdmaResources.Resources.CreateAll | RDMA/rdma1.cpp:365-589 | everything exactly if no call fails, otherwise nothing and every field null |
| RdmaResources.Resources.DestroyAll | RDMA/rdma1.cpp:780-822 | goes on after a refusal; exactly the refused handles and what they were created on stay live, never the buffer |
| RdmaResources.Resources.FreedUnderRegistrationIff | RDMA/rdma1.cpp:780-822 | after it the buffer is gone under a live registration if and only if the registration existed and was refused; otherwise everything that the rest needs is live |
| RdmaResources.RefusedRegistration | RDMA/rdma1.cpp:780-790 | one refused call after a complete creation leaves the registration live without its buffer |
| RdmaResources.CreateAndDestroy | RDMA/rdma1.cpp:925-1028 | resources_destroy after a failed resources_create has nothing to release, so nothing is released twice |

## Left out

- Integer widths: the counters of main, the credits and the message counts are unbounded; only the timestamp totals wrap.
- The real verbs and libfabric semantics: a network card is a set of steps on posted receives, messages and completions; completions with an error end the modelled protocol.
- The step systems of the threads and hosts work on values; the classes beside them cover the code of one host, not shared memory between threads.
- Completion events (`use_event`), ODP, device memory, MTU and GRH attributes, buffer validation.
- Socket and epoll set-up, `getopt`, printing, throughput.
- The resource ladders of `rc_pingpong.c` and `xsrq_pingpong.c`, which follow the same pattern.
- The END/END messages of the XRC termination are single steps; their read loop is the one of the address records.
- UdpServer.GetDest: the destination is cleared as a whole before it is parsed; the source allocates and clears only as many bytes as a pointer has.
- DestExchange.ParseRecord: takes terminated texts whose last field fits the 33 bytes of its buffer, as do ReceiveAll and ServerReceiveEvent; C does not define the others.
- RcPingPong.RcExchange: takes rx_depth of at least 1; RcNeedsAReceive says what happens with 0.
- XrcTheorems.WorksIff: takes num_clients of at least 1; with 0 the completion queues would have no entries.
- PingPongClosing.BothFinishIff: an error completion is seen only after everything queued before it was handled; one polled in the same batch makes main fail as well.
- XrcTheorems.NothingEverFails: a client's send queue is not a fault of its own; it has at least num_tests entries, and every post of a client is behind the test on its count.
- The end of a stream: a read of 0 bytes keeps the source's loops going for ever; the model treats a broken stream as a failing read.
- The "done" message after the address exchange.
- `uc_pingpong.c` and `ud_pingpong.c`: the same loop over unreliable transports, where progress does not hold.
- `devinfo.c`, `asyncwatch.c`, `device_list.c`, the other RDMA, Libfabric, MPI, Netlink, Socket, ORT and tutorial programs.
