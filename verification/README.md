# RTEMS tests, lwIP glue and OMK build rules: a verified model

A Dafny model of three parts of the repository, with proofs of what they promise. Nothing here
executes the original programs; every claim is a theorem about the model.

**1. The four-task priority-inheritance scenario** (`rtems-tests/prioinh_check`,
`rtems-tests/prioinh_posix`). THI, TMID, Task_1 and TLO loop forever over two priority-inheritance
mutexes (SHI, SLO) and three release semaphores. `Scenario.dfy` is one step system for both
programs: a program table (`OpAt`, `After`), a kernel state and a step relation, run under an
arbitrary interleaving (`Any`), under strict priority on one CPU with wakeups at any moment
(`Strict`), and under strict priority where a sleep ends only when no task is ready (`Patient`).
`PriorityInheritance.dfy` is the kernel contract, generic in tasks and mutexes: an obtain raises
priorities along the chain of owners, a release hands the mutex to a most urgent waiter and
recomputes one priority. The RTEMS flavour has binary semaphores that saturate at 1 and priority
readback; the POSIX flavour has counting semaphores, `PTHREAD_PRIO_INHERIT` mutexes
(`pthread_mutexattr_getprotocol` in IEEE Std 1003.1) and `SCHED_FIFO` (section 2.8.4 of its System
Interfaces volume). A smaller number is more urgent, so POSIX priorities are negated.
`LostToken.dfy` says when a release is lost and builds a run that loses one, and `Recurrence.dfy` counts
the statements of the four tasks exactly and bounds those between their turns. `Board.dfy` is the same
system as one object updated in place, with the loops of the kernel and of `block_delay` written out,
proved to take only steps of the relation.

**2. The RTEMS-to-lwIP descriptor layer** (`rtems-omk-template/applwiptest`). `Types.dfy` has `Option`
and the errno values. `Libio.dfy` has the descriptor table and the lookups, as functions and as a class over an array. `SocketLayer.dfy` is a
step machine of any number of tasks in any number of calls, each call split where the recursive mutex
is taken and dropped, with libio serving other files from the same table and the echo server and its
tasks as further clients. lwIP's contract: it hands out a socket number that is not in use, and a
close removes it. `SocketMutex.dfy`, `SocketClosing.dfy` and `SocketOwnership.dfy` prove the mutex
discipline, the life of a close and the ownership of sockets over all runs, `EchoClients.dfy` follows the
echo server's clients, `EchoServer.dfy` what the server and its tasks did before each statement,
`SocketLookups.dfy` the sockets that calls have looked up, and `SocketScripts.dfy` has two concrete
runs. `Glue.dfy` is the same code as one task executes it, statement by statement on a table, a mutex
depth, errno and the caller's address buffer; each of its primitives is proved to be a step of the machine, and its `Valid()` says
that what has happened so far is a run. `SockAddr.dfy` translates addresses between two byte layouts,
`Echo.dfy` is the receive and send loop of an echo task.

**3. OMK pass scheduling and config headers** (`rtems-omk-template/Makefile.rules`).
`OmkPasses.dfy` has the targets of the pass templates for any tree of SUBDIRS, the make processes that
recipes run, and every order of starts and ends that these makes admit, parallel ones included; each make
keeps count of its own targets only. `ConfigHeader.dfy` has the text pipeline that prints make variables
as a header, from make's second expansion and the shell's quotes to the two sed programs.

`dafny verify dfyconfig.toml` checks the whole project.

Results where the code and a promise differ:
- A release token for RLO can be lost: `LostToken.LosesToken` is a strict-priority run that does, with
  sleeps that end at once. A post is lost exactly if nothing was taken since the previous one
  (`LostToken.LostIffNotTaken`), and never if sleeps end only when no task is ready
  (`PatientScheduler.LoReleasesNotLost`). For RHI and RMID no such assumption is needed.
- The echo server treats client socket 0 as a failed accept, so that socket stays open without an owner
  (`SocketScripts.ClientZeroLost`). An open socket without an owner exists exactly if some accept has
  answered 0 (`EchoClients.UnownedIff`), which it can only while socket 0 is closed; so never once a server listens on socket 0 itself (`EchoClients.NoLossIfListeningOnZero`).
- A call that drops the mutex after its lookup may act on a socket that was closed and handed out again
  (`SocketScripts.StaleSocket`). The socket is its descriptor's exactly until a close of that descriptor
  is admitted (`SocketLookups.SocketUntilClosed`), and open, so not handed out again, exactly until a
  statement closes it (`SocketLookups.OpenUntilClosed`).
- `recvfrom` with a name buffer takes the byte count for a socket and so keeps the ownership of sockets
  exactly when lwIP reports an error, or the count is the number of a lost socket
  (`SocketOwnership.RecvfromBreaks`).
- `accept` does not look at the length it is passed: with a buffer of six bytes it writes beyond its end
  (`SockAddr.Overrun`). Whatever lwIP reports it stays inside exactly if the buffer is as long as both lwIP
  structures and holds the RTEMS fields of both families (`SockAddr.InsideIff`; for peers of one family,
  `SockAddr.InsideForFamily`).
- The unsigned comparison in the descriptor lookup rejects negative descriptors exactly as long as the
  table has at most 2^31 entries (`Libio.NegativeRejected`).
- An odd single quote, as in the value `it's`, ends the recipe with a syntax error (`ConfigHeader.QuoteFails`). An
  option is sure to be printed faithfully exactly if its name has no dot and its text no dollar, quote,
  backslash or line end; one that is off only has to be echoed (`ConfigHeader.FaithfulIff`). Where the
  model knows what is echoed, quotes and doubled dollars included, it is faithful exactly then
  (`ConfigHeader.FaithfulWhereKnown`). It does not know what a reference (any other dollar), a line end, a
  backslash or a special character outside the quotes leads to.
- An option listed with an empty default is never printed (`ConfigHeader.EmptyDefaultLost`).

## Model

| member | source | states |
|---|---|---|
| PriorityInheritance.ObtainConsistent | rtems-tests/prioinh_check/prio_inherit_test.c:114-126 | RTEMS_INHERIT_PRIORITY on obtain: blocking on an owned mutex and raising the chain of owners leaves every effective priority equal to the best of its base and of the tasks it blocks, for any tasks, mutexes and acyclic waiting graph |
| PriorityInheritance.ReleaseConsistent | rtems-tests/prioinh_check/prio_inherit_test.c:218-230 | releasing one of several held mutexes, with handover to a most urgent waiter, keeps the same for all tasks, the releaser included |
| PriorityInheritance.EffectiveIsInherited | rtems-tests/prioinh_check/prio_inherit_test.c:114-126 | the incrementally kept priority is the most urgent base priority among the task and all that wait for it over any number of owners |
| PriorityInheritance.ConsistentUnique | rtems-tests/prioinh_check/prio_inherit_test.c:114-126 | no other assignment of priorities satisfies the local equations |
| PriorityInheritance.ReleaseExists | rtems-tests/prioinh_check/prio_inherit_test.c:218-230 | the owner of a mutex can always release it |
| PriorityInheritance.RankedNoCycle | rtems-tests/prioinh_posix/prio_inherit_test.c:174-205 | an order on tasks that every waiting edge respects excludes a task waiting for itself |
| AnyScheduler.ControlStep | rtems-tests/prioinh_check/prio_inherit_test.c:32-243 | every statement and wakeup keeps the invariant tying program counters, owners, waiters, tokens and priorities together, and misuses no mutex |
| AnyScheduler.ControlRun | rtems-tests/prioinh_check/prio_inherit_test.c:32-243 | the invariant holds in every state of every run of either program under every scheduler |
| AnyScheduler.SectionOwned | rtems-tests/prioinh_check/prio_inherit_test.c:44-51 | a task is between its obtain and its release of a mutex exactly when it owns it |
| AnyScheduler.MutualExclusion | rtems-tests/prioinh_check/prio_inherit_test.c:189-230 | in every interleaving two tasks in sections of the same mutex are the same task, its owner |
| AnyScheduler.ReleaseHandsOver | rtems-tests/prioinh_check/prio_inherit_test.c:87-96 | a task releases only what it owns; if anyone waits, one of the waiters is in its section right after, else the mutex is free |
| AnyScheduler.InheritanceHolds | rtems-tests/prioinh_check/prio_inherit_test.c:189-230 | in every reachable state under every scheduler each task's effective priority is its inherited one, across the nested obtain and release order |
| AnyScheduler.NoDeadlock | rtems-tests/prioinh_posix/prio_inherit_test.c:172-213 | in every reachable state no task waits for itself over any chain, some task is ready unless Task_1 sleeps, and a step exists |
| AnyScheduler.Progress | rtems-tests/prioinh_posix/prio_inherit_test.c:172-213 | under each scheduler a state satisfying the invariant has a next step |
| AnyScheduler.TokensConserved | rtems-tests/prioinh_posix/prio_inherit_test.c:133-140 | posts = takes + value + lost in every reachable state; nothing is lost by counting semaphores, binary ones stay at most 1 |
| Priorities.PriorityTable | rtems-tests/prioinh_check/app_def.h:34-38 | in every state of the invariant THI and TMID run at their own priority, Task_1 at THI's exactly while THI waits for it, TLO at Task_1's exactly while Task_1 waits for it |
| Priorities.UrgentDispatch | rtems-tests/prioinh_check/app_def.h:34-38 | a ready task is a most urgent one if and only if the dispatching rule read off pcs and waiters names it |
| Turns.TurnsRun | rtems-tests/prioinh_check/prio_inherit_test.c:186-242 | in every run takes count the turns of THI, TMID and TLO, and posts the iterations of Task_1, up to the turn in progress |
| StrictScheduler.StrictRun | rtems-tests/prioinh_check/prio_inherit_test.c:186-242 | the invariant of strict-priority runs, including where THI and TMID stand at each statement of Task_1 |
| StrictScheduler.NoInversion | rtems-tests/prioinh_check/prio_inherit_test.c:201-219 | in every strict-priority run, whatever the wakeups, TMID takes no step while THI waits for SHI, and TLO only while Task_1 sleeps |
| StrictScheduler.ReadsAre405050 | rtems-tests/prioinh_check/prio_inherit_test.c:208-235 | the priorities read are 40, 50, 50 in every iteration: inheritance is undone when SHI is released, with SLO still held |
| StrictScheduler.LockHiNeverBlocks | rtems-tests/prioinh_check/prio_inherit_test.c:197-199 | Task_1 finds SHI free at each of its obtains |
| StrictScheduler.BlockingEdges | rtems-tests/prioinh_check/prio_inherit_test.c:87-94 | only THI on Task_1 by SHI, TLO on Task_1 by SLO and Task_1 on TLO by SLO ever wait, the last with TLO at Task_1's priority |
| StrictScheduler.ReleasesNotLost | rtems-tests/prioinh_check/prio_inherit_test.c:201-214 | each post to RHI and RMID finds value 0, is taken at once, and follows exactly one completed turn of THI or TMID per earlier iteration |
| StrictScheduler.OneTurnPerIteration | rtems-tests/prioinh_check/prio_inherit_test.c:186-242 | at its loop head Task_1 has iterated as often as THI and TMID have completed turns, and both wait for their release |
| StrictScheduler.BlockedFor | rtems-tests/prioinh_check/prio_inherit_test.c:205-219 | while THI waits and Task_1 is past its nap, each step of any scheduler decision decreases the steps to the SHI release by exactly one, nested loops included |
| StrictScheduler.BoundedBlocking | rtems-tests/prioinh_check/prio_inherit_test.c:205-219 | all those steps are Task_1's, and after the last THI owns SHI and is ready |
| StrictScheduler.HiServedInTime | rtems-tests/prioinh_check/prio_inherit_test.c:21-29 | in every run THI owns SHI exactly that many steps later, never more than one whole block_delay and four steps |
| PatientScheduler.LoReleasesNotLost | rtems-tests/prioinh_check/prio_inherit_test.c:193-195 | if sleeps end only when no task is ready, each post to RLO finds value 0 and TLO has completed one turn per earlier iteration |
| PatientScheduler.AllParkedAtHead | rtems-tests/prioinh_posix/prio_inherit_test.c:164-172 | if sleeps end only when no task is ready, THI, TMID and TLO all wait for their release whenever Task_1 is at the head of its loop: in the POSIX program from the first time on, because of its sleep before the loop, in the RTEMS program from the second |
| Recurrence.TurnsExact | rtems-tests/prioinh_check/prio_inherit_test.c:21-29 | in every run, whatever the interleaving and the timers, a turn of THI or TLO is exactly 10000204 statements and loop tests, one of TMID 10000202, and an iteration of Task_1 30000617 with its reads and 30000614 without, the ends of its sleeps counted with it |
| Recurrence.StatementBudget | rtems-tests/prioinh_check/prio_inherit_test.c:186-242 | under every scheduler, fair or not, in both programs: between any two points of a run the tasks execute at most 6 * 10000201 + 21 statements and loop tests (+ 18 in POSIX) for each iteration Task_1 finishes, two iterations' worth more, and one turn for each token counted at the first point |
| Recurrence.IterationsGoOn | rtems-tests/prioinh_check/prio_inherit_test.c:186-242 | so no run, however scheduled, keeps Task_1 from its next iteration: after (k + 1) times that many steps it has finished k |
| Recurrence.UrgentTurnsRecur | rtems-tests/prioinh_check/prio_inherit_test.c:186-242 | in the RTEMS test Task_1, THI and TMID each finish a turn within any 4 times that many steps of a strict-priority run, whenever the timers fire |
| Recurrence.AllTurnsRecur | rtems-tests/prioinh_posix/prio_inherit_test.c:172-213 | in both tests, if sleeps end only when no task is ready, so do all four tasks |
| LostToken.LostIffNotTaken | rtems-tests/prioinh_check/prio_inherit_test.c:128-147 | under every scheduler, of two successive posts to a simple binary semaphore the second is lost if and only if nothing was taken from it in between; for RLO, TLO has not taken the previous iteration's token |
| LostToken.FirstNotLost | rtems-tests/prioinh_check/prio_inherit_test.c:193-195 | the first post is never lost |
| LostToken.LosesToken | rtems-tests/prioinh_check/prio_inherit_test.c:193-195 | there is a strict-priority run of the RTEMS test whose second post to RLO is lost |
| Equivalence.PrioritiesCorrespond | rtems-tests/prioinh_posix/app_def.h:21-25 | in similar states effective priorities correspond under 40, 45, 50, 60 to 13, 12, 11, 10 above the FIFO minimum |
| Equivalence.RtemsRunIsPosixRun | rtems-tests/prioinh_posix/prio_inherit_test.c:172-213 | every RTEMS run from the loop heads that posts no semaphore standing at 1 has a POSIX run with the same trace without the reads, ending in a similar state, under each scheduler |
| Equivalence.PosixRunIsRtemsTrace | rtems-tests/prioinh_check/prio_inherit_test.c:186-242 | conversely every such POSIX run is the trace of an RTEMS run |
| Board.BlockDelay | rtems-tests/prioinh_check/prio_inherit_test.c:21-29 | the nested loops evaluate their conditions delay * (100000 + 2) + 1 times |
| Board.Machine.Obtain | rtems-tests/prioinh_check/prio_inherit_test.c:44-45 | the obtain loop, in place, is the contract's Obtain |
| Board.Machine.Release | rtems-tests/prioinh_check/prio_inherit_test.c:51-52 | the release loops, in place, are the contract's Released |
| Board.Machine.Execute | rtems-tests/prioinh_check/prio_inherit_test.c:32-243 | executing the statement a ready task stands at is a step of the relation and keeps the invariant |
| Board.Machine.Tick | rtems-tests/prioinh_check/app_def.h:34-38 | choosing a most urgent ready task, or else the timer, is a step under strict priority |
| Libio.LookupAfterMake | rtems-omk-template/applwiptest/rtems_lwip_io.c:113-132 | a made descriptor leads back to its lwIP socket, was not a socket before, and every other int looks up as before |
| Libio.LookupMeaning | rtems-omk-template/applwiptest/rtems_lwip_io.c:72-108 | a lookup succeeds exactly for socket descriptors; EBADF exactly for ints outside the table, ENOTSOCK exactly for other entries, else -1 |
| Libio.NegativeRejected | rtems-omk-template/applwiptest/rtems_lwip_io.c:99-108 | the unsigned comparison rejects all negative ints if and only if the table has at most 2^31 entries |
| Libio.Descriptors.LookupIop | rtems-omk-template/applwiptest/rtems_lwip_io.c:72-94 | the lookup in memory agrees with its specification, errno included, and leaves the table alone |
| Libio.Descriptors.Lookup | rtems-omk-template/applwiptest/rtems_lwip_io.c:99-108 | likewise for descriptors, with the cast to uint32_t |
| Libio.Descriptors.Make | rtems-omk-template/applwiptest/rtems_lwip_io.c:113-132 | takes a free entry and stores the socket, or fails with ENFILE exactly when the table is full and changes nothing |
| SocketMutex.ProgramDepth | rtems-omk-template/applwiptest/rtems_lwip_io.c:330-405 | along every path of every call the depth changes by what the statement does |
| SocketMutex.MutexRun | rtems-omk-template/applwiptest/rtems_lwip_io.c:59-70 | in every run the recursive mutex is as deep as its holder's statement and entry depth say, and free of the others |
| SocketMutex.CallRestoresDepth | rtems-omk-template/applwiptest/rtems_lwip_io.c:1067-1136 | whatever the other tasks do, the mutex is as deep when a call returns as when it was entered |
| SocketMutex.DepthInLwip | rtems-omk-template/applwiptest/rtems_lwip_io.c:411-476 | the lwIP calls of accept, shutdown, recv, send, sendto, close, read and write are made at the caller's entry depth, those of socket, bind, connect and listen one deeper |
| SocketMutex.OneInTable | rtems-omk-template/applwiptest/rtems_lwip_io.c:391-400 | no two tasks look up or make descriptors at once |
| SocketClosing.ClosingRun | rtems-omk-template/applwiptest/rtems_lwip_io.c:1067-1086 | in every run each descriptor being closed keeps its socket entry and has exactly one task closing it |
| SocketOwnership.OwnRun | rtems-omk-template/applwiptest/rtems_lwip_io.c:330-405 | the ownership invariant holds in every state of every run |
| SocketOwnership.OneOwner | rtems-omk-template/applwiptest/rtems_lwip_io.c:170-186 | every open lwIP socket has exactly one owner (a live descriptor, one call in progress, or nobody for a client 0 the echo server dropped), and no socket was ever closed twice |
| SocketOwnership.DescriptorsInjective | rtems-omk-template/applwiptest/rtems_lwip_io.c:72-132 | live descriptors look up to open sockets, and different ones to different sockets |
| SocketOwnership.OnlyOwnerCloses | rtems-omk-template/applwiptest/rtems_lwip_io.c:1067-1086 | a socket leaves lwIP's table only by a step of the task that owns it |
| SocketOwnership.MakeKeeps | rtems-omk-template/applwiptest/rtems_lwip_io.c:391-392 | making a descriptor passes the socket from the call to that descriptor, and every other socket stays where it was |
| SocketOwnership.CloseBeginKeeps | rtems-omk-template/applwiptest/rtems_lwip_io.c:1067-1080 | admitting a close passes the socket from the descriptor to the call, and every other socket stays where it was |
| EchoClients.AllAccounted | rtems-omk-template/applwiptest/rtems_lwip_io.c:346-400 | at any time in any run, with servers and echo tasks at work, an open socket that is not a lost client has a live descriptor or a call in progress that has to deal with it |
| EchoClients.NoLeak | rtems-omk-template/applwiptest/rtems_lwip_io.c:170-186 | once every call has returned, every open socket has a live descriptor, no client was lost and no close is left half done, whatever failed on the way |
| EchoClients.UnownedIff | rtems-omk-template/applwiptest/task_1.c:83-88 | in any state of any run an open socket without an owner exists if and only if some server's lwip_accept has answered 0, and it is socket 0 |
| EchoClients.NoLossWhileZeroOpen | rtems-omk-template/applwiptest/task_1.c:83-88 | no client is lost while socket 0 stays open |
| EchoClients.NoLossIfListeningOnZero | rtems-omk-template/applwiptest/task_1.c:52-88 | from the moment a server listens on socket 0 no client is ever lost |
| EchoClients.ServerSettles | rtems-omk-template/applwiptest/task_1.c:88-110 | the server's next statement keeps the client open, closes it, or hands it to a new echo task |
| EchoClients.ClientKept | rtems-omk-template/applwiptest/task_1.c:76-111 | over any run and any number of clients, an accepted client above 0 is open and in the server's or an echo task's hands until a statement closes it |
| EchoClients.OneClosePerOpening | rtems-omk-template/applwiptest/task_1.c:76-111 | over any run, between two closes of a socket number lwIP has handed it out again: each acceptance is closed at most once |
| EchoClients.EchoClosesOnce | rtems-omk-template/applwiptest/task_1.c:27-45 | an echo task's socket is open as long as the task lives and closed by its last step |
| EchoServer.AcceptsWhenListening | rtems-omk-template/applwiptest/task_1.c:63-86 | over any run, a server in its accept loop has before executed lwip_bind with a result of at least 0 and then lwip_listen with result 0, and has been in the loop since |
| EchoServer.GivesUpAfterFailure | rtems-omk-template/applwiptest/task_1.c:63-74 | it gives up its socket only after a bind below 0 or a listen other than 0 |
| EchoServer.LaunchesWhenCreated | rtems-omk-template/applwiptest/task_1.c:83-104 | it starts an echo task only for a client above 0 that its last accept returned and whose task was created |
| EchoServer.DropsAfterFailure | rtems-omk-template/applwiptest/task_1.c:94-110 | it closes a client itself only after its task could not be created or started |
| EchoServer.ClosesAtTheEnd | rtems-omk-template/applwiptest/task_1.c:35-43 | an echo task closes its socket only after a recv of at most 0 |
| EchoServer.SendsBetween | rtems-omk-template/applwiptest/task_1.c:35-40 | between two of its recvs an echo task has executed a send |
| EchoServer.SendsWhatCame | rtems-omk-template/applwiptest/task_1.c:35-40 | it sends only after a recv above 0 |
| SocketScripts.ClientZeroLost | rtems-omk-template/applwiptest/task_1.c:83-110 | a run in which the server's first client gets socket 0 and nobody owns it |
| SocketLookups.SocketUntilClosed | rtems-omk-template/applwiptest/rtems_lwip_io.c:444-447 | from a call's lookup on, the socket is owned by the descriptor if and only if no close of the descriptor is admitted |
| SocketLookups.OpenUntilClosed | rtems-omk-template/applwiptest/rtems_lwip_io.c:444-447 | over any stretch of a run a socket stays open if and only if no statement of the stretch closes it |
| SocketLookups.UseIsItsOwn | rtems-omk-template/applwiptest/rtems_lwip_io.c:444-447 | so without a close the later lwIP call acts on an open socket that is that descriptor's alone |
| SocketScripts.StaleSocket | rtems-omk-template/applwiptest/rtems_lwip_io.c:444-447 | a run in which a call that has dropped the mutex is about to use a socket that by now belongs to another descriptor |
| SocketOwnership.RecvfromBreaks | rtems-omk-template/applwiptest/rtems_lwip_io.c:500-556 | as written, the rest of recvfrom keeps the ownership of sockets if and only if lwip_recvfrom failed or the byte count is the number of a lost socket |
| Glue.Glue.Socket | rtems-omk-template/applwiptest/rtems_lwip_io.c:139-187 | a run of the machine; PF_UNSPEC, PF_INET and PF_INET6, and SOCK_STREAM and SOCK_DGRAM, are passed to lwIP as its own constants of that name, with protocol 0, and any other domain or type is refused with EINVAL without a call; returns a descriptor for the new socket exactly if lwIP answers and the table is not full; else table and sockets are as before, with ENFILE for a full table |
| Glue.Glue.OpenSocket | rtems-omk-template/applwiptest/rtems_lwip_io.c:172-182 | the socket becomes a descriptor, or is closed again when the table is full |
| Glue.Glue.Accept | rtems-omk-template/applwiptest/rtems_lwip_io.c:330-405 | a run of the machine; returns a descriptor for the peer's socket, with the peer's address and its length in the caller's buffer, exactly if the descriptor is a socket, lwIP answers, the family is known and the table is not full; else table and sockets are as before, with EBADF or ENOTSOCK for a descriptor that is no open socket, EINVAL for an unknown family (name and length untouched) and ENFILE for a full table |
| Glue.Glue.AcceptDescriptor | rtems-omk-template/applwiptest/rtems_lwip_io.c:391-400 | on exhaustion the accepted socket is closed outside the mutex |
| Glue.Glue.CloseHandler | rtems-omk-template/applwiptest/rtems_lwip_io.c:1067-1086 | closes the descriptor's socket once, outside the mutex |
| Glue.Glue.Close | rtems-omk-template/applwiptest/rtems_lwip_io.c:1067-1086 | closing a live descriptor frees its entry and closes its socket, which is open because the history is a run |
| Glue.Glue.HoldSocket | rtems-omk-template/applwiptest/rtems_lwip_io.c:311-328 | listen, and the second half of bind and connect: lwIP's answer, or -1 with EBADF for a descriptor that is not open and ENOTSOCK for one that is no socket |
| Glue.Glue.UseSocket | rtems-omk-template/applwiptest/rtems_lwip_io.c:411-476 | shutdown, recv, send, read and write: lwIP's answer, given outside the mutex, or -1 with EBADF or ENOTSOCK likewise |
| Glue.Glue.Bind | rtems-omk-template/applwiptest/rtems_lwip_io.c:189-309 | lwIP gets the address the caller named and the size of its own structure for that family, or the call fails with EINVAL exactly for a name of unknown family or too short; a lookup that fails after that leaves EBADF or ENOTSOCK |
| Glue.Glue.SendTo | rtems-omk-template/applwiptest/rtems_lwip_io.c:578-625 | likewise for sendto |
| SockAddr.WriteHolds | rtems-omk-template/applwiptest/rtems_lwip_sysdefs.c:91-159 | the setters leave each field in place and the length of the structure, for every layout with disjoint fields and every buffer that has the fields |
| SockAddr.WriteKeeps | rtems-omk-template/applwiptest/rtems_lwip_sysdefs.c:91-159 | the setters leave every byte outside these fields as it was |
| SockAddr.ReadWrite | rtems-omk-template/applwiptest/rtems_lwip_sysdefs.c:24-159 | what the setters write into a whole structure the getters read |
| SockAddr.InsideIff | rtems-omk-template/applwiptest/rtems_lwip_io.c:360-389 | before the call: accept reads and writes only inside the caller's buffer, whatever lwIP reports into it, if and only if the buffer is as long as both lwIP structures and holds the RTEMS fields of both families |
| SockAddr.InsideForFamily | rtems-omk-template/applwiptest/rtems_lwip_io.c:360-389 | the same for the reports of one family, by that family's structure and fields alone |
| SockAddr.Overrun | rtems-omk-template/applwiptest/rtems_lwip_io.c:360-372 | with a buffer of six bytes and a report of six, the setter of the address writes beyond the end |
| SockAddr.RoundTrip | rtems-omk-template/applwiptest/rtems_lwip_io.c:206-237 | an address sent out and reported back by lwIP has the same family, port, address, flow information and scope, for any two layouts and family numberings (IPv6 fields as in section 3.4 of RFC 3493) |
| SockAddr.CopyNeeded | rtems-omk-template/applwiptest/rtems_lwip_io.c:360-383 | without accept's copy of the lwIP form some pair of layouts garbles the address |
| SockAddr.TranslateOut | rtems-omk-template/applwiptest/rtems_lwip_io.c:206-237 | builds a local structure lwIP reads as the caller's address, with the size of lwIP's structure for that family as its length field and as the length passed, or EINVAL |
| SockAddr.TranslateIn | rtems-omk-template/applwiptest/rtems_lwip_io.c:360-389 | rewrites the caller's buffer in place to the translated address, or leaves it when the family is unknown |
| Echo.EchoTask | rtems-omk-template/applwiptest/task_1.c:27-45 | the loop sends back those prefixes, no stale byte of its reused buffer, and closes the connection |
| Echo.EchoedPrefixes | rtems-omk-template/applwiptest/task_1.c:35-40 | what the client gets is the concatenation, in order, of a prefix of each chunk up to the end of the connection, each exactly as long as the result of its send: none for a failed send, the whole chunk for a full one; no send ends the echo |
| Echo.EchoesAll | rtems-omk-template/applwiptest/task_1.c:35-40 | the bytes sent are the bytes received, in order, if and only if every send took its whole chunk |
| OmkPasses.PassesInOrder | rtems-omk-template/Makefile.rules:447-454 | for every tree and schedule, when a local rule starts in the library or binary pass, the local rules of all directories with headers have ended in the include pass, and when it starts in the binary pass, those of all directories with libraries in the library pass |
| OmkPasses.DescendantsFirst | rtems-omk-template/Makefile.rules:293-299 | within a pass a directory's local rules start when those of all enabled directories below have ended |
| OmkPasses.ExtraRulesFirst | rtems-omk-template/Makefile.rules:767-772 | the extra rules of a directory and of those above it have ended before its include-pass local rules start |
| OmkPasses.OneMake | rtems-omk-template/Makefile.rules:249-299 | though makes know nothing of each other's targets, no two make processes of a build ever work in the same directory for the same goal |
| OmkPasses.RunsOnce | rtems-omk-template/Makefile.rules:249-299 | so a directory's local rules run at most once per pass in the whole build, as does every other target of a directory |
| OmkPasses.DefaultBuildsAll | rtems-omk-template/Makefile.rules:765 | when `default` has ended, the local rules of exactly the directories with headers have run in the include pass, with libraries in the library pass and with programs in the binary pass, and the extra rules in every directory |
| OmkPasses.NeverStuck | rtems-omk-template/Makefile.rules:280-304 | as long as `default` has not ended some make can start a target, run a make or end a target, after any partial parallel schedule |
| OmkPasses.BuildBounded | rtems-omk-template/Makefile.rules:249-304 | no schedule has more than 26 events for each directory of the tree, however many makes run in parallel |
| OmkPasses.Completes | rtems-omk-template/Makefile.rules:765 | any partial schedule can be continued to one in which `default` has ended, within that bound |
| OmkPasses.OverIffDone | rtems-omk-template/Makefile.rules:249-304 | nothing more can happen if and only if `default` has ended: no make is left behind at work |
| ConfigHeader.PlainIff | rtems-omk-template/Makefile.rules:826-827 | make's second expansion and the shell echo a text unchanged if and only if it has no dollar, quote, backslash or line end |
| ConfigHeader.EchoedInTwoPasses | rtems-omk-template/Makefile.rules:826-827 | the single pass over the recipe that the other results use gives what make's expansion and then the shell's quoting give, for every text |
| ConfigHeader.WordsExactly | rtems-omk-template/Makefile.rules:826 | the words of the option list are exactly its longest stretches without a space, tab or line end |
| ConfigHeader.NamesExactly | rtems-omk-template/Makefile.rules:826 | the names printed are exactly those words, cut before the first equals sign if something follows it, and not empty |
| ConfigHeader.HeaderFaithful | rtems-omk-template/Makefile.rules:824-831 | if those names have no dot and their texts no such character, the generated header reads back for each of them as 1 for y and m, nothing for n or empty, else the exact value; otherwise it defines just its guard, which encloses it |
| ConfigHeader.FaithfulIff | rtems-omk-template/Makefile.rules:826-829 | for every name and value: the header of one option is faithful whatever references, line ends, backslashes and unquoted special characters lead to, if and only if the name has no dot and, if the option is on, its text has no dollar, quote, backslash or line end, or, if it is off, a line is known to come out |
| ConfigHeader.FaithfulWhereKnown | rtems-omk-template/Makefile.rules:826-829 | where the echo's outcome is known, a syntax error included, the header is faithful if and only if the same holds |
| ConfigHeader.QuoteFails | rtems-omk-template/Makefile.rules:827 | the value `it's` ends the recipe with a syntax error |
| ConfigHeader.DefaultStripped | rtems-omk-template/Makefile.rules:826 | the default after an option name is stripped if and only if it is not empty |
| ConfigHeader.EmptyDefaultLost | rtems-omk-template/Makefile.rules:826 | an option listed with an empty default defines nothing, whatever its value |

## Left out

- RTEMS, pthread and lwIP internals: they appear as contracts (obtain, release, inherit, post, take; open, accept, close) and nothing is proved about their implementation. Where the kernel may choose among equally urgent tasks the model allows each choice.
- Startup of the priority tests: semaphores and tasks are assumed created; a wait interrupted by a signal, a timeout and other error returns of the kernel calls end the original tests and are not modelled.
- Printing, error reporting and the exit on a failed status.
- Recurrence.UrgentTurnsRecur: says nothing of TLO, whose releases may be lost when timers fire early, nor of the POSIX test, where TLO may have any number of counted releases to work off first (Recurrence.StatementBudget has that number).
- PatientScheduler.LoReleasesNotLost: assumes that a sleep ends only when no task is ready; without that a post can be lost, exactly as LostToken.LostIffNotTaken says.
- Equivalence.RtemsRunIsPosixRun: starts from the loop heads with all tasks started, since the POSIX program sleeps once more at startup.
- Board.Machine.Execute: executes one statement at a time, because the task loops never end; loop tests of block_delay are single steps.
- Glue.Glue.Accept: a null name, or a buffer without room for what the code touches while there is a peer (SockAddr.InsideIff), is undefined behaviour in C and has no result here.
- SockAddr.TranslateIn: likewise.
- Glue.Glue: one task without the steps of others; those are in SocketLayer. Results of lwIP calls are parameters.
- SocketMutex.OneInTable: covers the lookups and updates of the glue; libio's own are atomic steps under locks that are not part of this model.
- SocketOwnership.RecvfromBreaks: covers recvfrom as written after lwip_recvfrom returns; the call is not among the calls of SocketLayer, and recvfrom without a name buffer is recv.
- EchoClients.NoLeak: lwip_close is taken to close the socket whatever it returns; libio is assumed to admit one close per descriptor and to clear an entry it takes back.
- Descriptor tables of more than 2^31 entries (beyond Libio.NegativeRejected), dup and flag words of libio entries, and the reference counts of mount entries.
- The payload of send and recv in the glue, and the lengths passed with it.
- Family numbers that do not fit the one byte of sa_family, and builds of lwIP without IPv6.
- sendmsg, recvmsg, getsockopt, getpeername, sysctl, ioctl and fcntl bodies, which are compiled out, and setsockopt and other stubs.
- Echo.EchoTask: one connection whose results of recv and send are given; the interleaving of many connections is in SocketLayer.
- Failing recipes of make, directories listed twice in SUBDIRS, the contents of the compile, link and install rules, and passes other than the three of `default`. The build inside an extra-rules directory is one job.
- ConfigHeader.FaithfulIff: what make makes of a reference or a line end in the text of an option, and the shell of a backslash, or of a special character after a quote, is not modelled: any lines may come out, or none (World), and the condition is for all of these at once.
- ConfigHeader.HeaderFaithful: quotes and backslashes in the list of options itself are not modelled (Listed). Replacing the old header only when the text differs is left out.
- Shell, monitor, telnet, dynamic loading, network setup, tool configuration scripts and the demonstration libraries: no state worth proving.
