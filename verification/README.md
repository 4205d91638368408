# Verified models of the generic Linux test programs

Each module models one of the small C programs as steps over an abstract kernel and proves what the
program keeps in every interleaving, for every value of its parameters. `dafny verify dfyconfig.toml`
checks the project.

| module | program | subject |
|---|---|---|
| `Semaphore` | `semaphore.c` | producer and consumer over two semaphores and one shared buffer, byte by byte |
| `FutexLock` | `threadlockfail.c` | a futex lock for any number of threads, and recovery after its owner died |
| `ForkTree` | `forktree_and_pthread.c` | the tree of forked processes, its threads and its waits |
| `MultiForkExec` | `multiforkexec.c` | the fork, exec and wait loop, with children that fall through |
| `ProcessesGalore` | `processesgalore.c` | threads that fork children and wait for the last one |
| `SerialFork` | `serialfork.c` | one child at a time, each with its own copy of the variables |
| `PollServer` | `socketforkserver.c` | the poll loop over sockets that stay in the poll set once closed |
| `Pipe` | `controlthreads.c` | messages through a pipe, read a buffer at a time |
| `UserNs` | `mkuidns.c` | the id map lines, and the handshake before the child goes on |
| `Dirents` | `call64.c` | the walk over directory records |
| `Iovec` | `iovec_demo.c` | gather and scatter |
| `Clock` | `clock.c` | the printed time and the dynamic clock id |
| `FillBuffer` | `shmtest.c` | the filler character |
| `Runs`, `Sums`, `Decimal`, `Basics` | | runs of a step relation, sums over a table, decimal numerals, shared definitions |

A concurrent program is a state machine: a `State`, an `Action` for each atomic step of each process or
thread, `Enabled` for whether the step can be taken without blocking, and `Apply` for what it does.
`Step` relates two states when some action leads from one to the other; a run is a sequence of states
(`Runs.IsRun`), and what holds for every run holds under every schedule. Beside the machine stands a
class whose fields the methods update in place, one method a step, each proved to do to the fields what
`Apply` does to the state; `RunBoth`, `RunTree`, `RunAll` and `Lock.Run` are schedulers that pick any
process that can move.
The sequential programs are loops and in-place array methods proved against functions.

## What the kernel is assumed to do

- `semop` blocks until the value can be taken, and fails once the semaphore is removed.
- A store or load of a byte of shared memory is one step, and so is an operation on the futex word.
- A weak compare-exchange may fail for no reason, and a futex wait may return for no reason.
- When a lock holder whose list entry is in place ends, the kernel may set the owner-died bit or leave the
  word alone. The source does not guarantee that it sets it: `futex_offset` (threadlockfail.c:23) is the
  offset of the word in its structure, not the distance from the list entry to the word.
- `fork`, `clone` and `pthread_create` succeed. `waitpid` blocks until a child it may report has ended and
  fails only when there is no such child.
- `poll` reports a closed descriptor as invalid on every call, and an open one only for input that was
  asked for or for an error or hang-up.
- A write to the pipe of one message is not split, which holds up to PIPE_BUF bytes.
- A read of the socket pair returns only when there is data in it.

## What differs from what the source says of itself

- `waitchildren` prints that all children have exited. It returns after the first terminated one, so the
  message is right in every run exactly when there is at most one child (`ForkTree.WaitsForAllExactly`).
- The comment at socketforkserver.c:171 suspects that closed sockets are found over and over; they
  are, and the loop can spin on them for ever exactly while the number of closed clients is neither 0 nor
  3 (`PollServer.SpinsExactly`), which can come about with two clients or more
  (`PollServer.SpinReachableExactly`). With three clients its condition `num_open > 0` never ends it
  (`PollServer.DrainsExactly`).
- The wait in `lock_acquire` passes 0, so a thread sleeps only on a lock that is free
  (`FutexLock.SleepsOnlyWhenFree`).
- The died bit in the word does not by itself let the lock be recovered: a recoverer that looked before the
  owner died never looks again (`FutexLock.LookedTooEarly`). The model lets the two threads run at the same
  time; in the program main joins the first thread before it creates the second
  (threadlockfail.c:102-104), so that the look comes after the death (`FutexLock.RecoveryBeforeLook`).
- processesgalore.c sizes its arrays for five threads before it reads how many to create; asked for more
  it writes outside them (`ProcessesGalore.ArraysLargeEnough`). The counts are those of the loops, for any
  number of threads.
- `multisem_op` indexes its array by semaphore number rather than by offset; its only call is out of
  bounds (`Semaphore.MultisemOffsets`). The scratch semaphores it meant to raise are not modelled.
- `displayClock` cuts `tv_sec` to an int before taking the seconds (`Clock.RecombinesExactly`).
- The map line is padded to six digits and cut at 11 bytes; a seven-digit id loses only its newline, a
  longer one its meaning (`UserNs.MapLineExactly`).

## Model

| member | source | states |
|---|---|---|
| Semaphore.InOrderDelivery | semaphore.c:70-102 | In every state of every run one token is shared by `empty`, `full` and the two critical sections, and what the consumer has read is "Message 1 from Producer", "Message 2 from Producer", ..., whole and in order, at most numtrans of them |
| Semaphore.CleanupAfterProducer | semaphore.c:104-112 | In every run the segment is detached, then removed, and then the semaphores are, only after the producer has exited and every message has been read; no semop ever fails |
| Semaphore.NeverStuck | semaphore.c:78-112 | A state that keeps the invariant and is not finished has a process that can move |
| Semaphore.EveryRunCompletes | semaphore.c:78-112 | Every run is bounded by a measure of its first state; it is stuck exactly when both processes have finished, and then empty is 1, full is 0, all messages have been read in order and both resources are removed |
| Semaphore.MessageInjective | semaphore.c:83 | Two transfers carry the same text exactly when they have the same number |
| Semaphore.MessageFits | semaphore.c:83 | For every int the text fits the segment, so snprintf cuts nothing off |
| Semaphore.MultisemOffsets | semaphore.c:26-38 | The indices stay in the array exactly when the range is empty or starts at 0; the call for semaphores 2 to 5 does not |
| Semaphore.Transfer.StepProducer | semaphore.c:80-91 | One step of the producer on the mutable fields and the shared array is the producer's step of the machine |
| Semaphore.Transfer.StepConsumer | semaphore.c:94-109 | The same for the consumer |
| Semaphore.Transfer.RunBoth | semaphore.c:78-112 | Any schedule of the two loops over the shared array terminates with every message delivered |
| FutexLock.ExclusionExactly | threadlockfail.c:46-62 | For any number of threads, no schedule lets two hold the lock if and only if there is at most one thread, or no truncated id is 0, no recoverer faces another thread whose id has the owner-died bit, and, among three threads or more, at most one runs the recovery |
| FutexLock.ZeroIdBreaksExclusion | threadlockfail.c:48-50 | A thread whose truncated id is 0 can hold the lock together with another |
| FutexLock.DiedBitInIdBreaksExclusion | threadlockfail.c:82-88 | A live owner whose id has the bit can lose the lock to the recovery code |
| FutexLock.TwoRecoverersBreakExclusion | threadlockfail.c:78-93 | With two recoverers and a third thread that dies, both recoverers can hold the lock |
| FutexLock.WordTellsTheTruth | threadlockfail.c:44-62 | In every reachable state at most one thread holds the lock, the word is not 0 exactly when the lock is held or was abandoned, never both, and a holder's id is the word |
| FutexLock.UnmarkedStays | threadlockfail.c:64-76 | An abandoned lock whose word has no died bit keeps its word and is never held again, in any run |
| FutexLock.RecoveryExactly | threadlockfail.c:78-93 | In every reachable state an abandoned lock can be held again if and only if a recoverer has yet to look at a word with the died bit, or has seen that bit and not yet cleared the word |
| FutexLock.RecoveryBeforeLook | threadlockfail.c:78-105 | While a recoverer has yet to look, an abandoned lock can be held again if and only if its word has the died bit |
| FutexLock.LookedTooEarly | threadlockfail.c:78-93 | A recoverer that looks before the owner dies can leave the lock marked, abandoned and never held again by any schedule |
| FutexLock.SleepsOnlyWhenFree | threadlockfail.c:50-53 | The step in which a thread falls asleep finds the lock neither held nor abandoned |
| FutexLock.SpinsWhileHeld | threadlockfail.c:50-53 | While the word is not 0 there are runs of every length in which a waiter goes between its compare-exchange and its wait, never sleeps, and nothing else changes |
| FutexLock.ReleaseHandsOver | threadlockfail.c:59-62 | From any reachable state in which the lock is held and a thread sleeps, the store of 0, the wake and that thread's compare-exchange pass the lock to it, with no return for no reason and no step of anyone else |
| FutexLock.WakeWakesOne | threadlockfail.c:61 | A wake takes exactly one sleeping thread back to its compare-exchange, none if nobody sleeps, and changes nothing else |
| FutexLock.OnlyWakesWake | threadlockfail.c:50-61 | But for returns for no reason a sleeping thread stays asleep in every step of another that is not a wake of it |
| FutexLock.ReturnsForNoReason | threadlockfail.c:50-53 | A wait that returns for no reason leads back to the compare-exchange, which can take a free lock |
| FutexLock.DeathBeforeListing | threadlockfail.c:54-57 | A holder that ends before its entry is on the robust list leaves a lock that is never held again, unless its own id has the died bit |
| FutexLock.DeadStaysDead | threadlockfail.c:64-76 | A thread that has ended, at whatever point, takes no further step in any run |
| FutexLock.WordOfThread | threadlockfail.c:50-84 | The word is pthread_self modulo 2^32, and the died bit is its bit 30 |
| FutexLock.AllAsleepOnFreeLock | threadlockfail.c:46-57 | For any number of threads a state is reachable in which all are asleep and the lock is free, and from which nobody ever holds it unless a wait returns for no reason |
| FutexLock.Lock.TryAcquire | threadlockfail.c:47-50 | The compare-exchange on the mutable word does the machine's step and says whether the lock was taken |
| FutexLock.Lock.WaitOnZero | threadlockfail.c:52 | The wait on the mutable state does the machine's step |
| FutexLock.Lock.Release | threadlockfail.c:60 | The store of 0 does the machine's step |
| FutexLock.Lock.Wake | threadlockfail.c:61 | The wake moves exactly one sleeper of the mutable table back to its compare-exchange, and none only if nobody sleeps |
| FutexLock.Lock.Recover | threadlockfail.c:82-88 | The load, the test of the bit and the store of 0 do the machine's steps on the mutable word |
| FutexLock.Lock.Run | threadlockfail.c:46-97 | Whatever the scheduler, spurious failures and deaths, the mutable lock goes through reachable states only, with at most one holder and a word that tells the truth |
| ForkTree.Conservation | forktree_and_pthread.c:84-140 | In every state of every run, what has been made and what is pending add up to the total fixed at the start, for processes, leaves, threads and reaped children; steps taken and steps pending add up to the length of a complete run |
| ForkTree.EveryRunCompletes | forktree_and_pthread.c:84-140 | All complete runs have the same length, no run is longer, a run is stuck exactly when every process has exited, and then every count has reached its total, whatever the schedule |
| ForkTree.ExactCounts | forktree_and_pthread.c:56-115 | For n >= 1 forks on L levels every complete run has the geometric sum of processes, n^L leaves, n^L * (20 if n > 20, else n) threads created, and n^L - 1 forked processes never reaped by their parent |
| ForkTree.ThreadsOfLeaf | forktree_and_pthread.c:56-82 | In every state of every run only leaves have created threads; a leaf joins none before it has created all min(n, 20), and once it has returned it has created and joined exactly those |
| ForkTree.ReapsExactlyOne | forktree_and_pthread.c:117-140 | With n >= 1 forks, in every state of every run a process past its wait has reaped exactly one child of its own, and any other process none |
| ForkTree.FindEnabled | forktree_and_pthread.c:117-140 | For every live process a step can be taken now by it or by one of its descendants, so no wait deadlocks |
| ForkTree.WaitsForAllExactly | forktree_and_pthread.c:117-140 | Whenever a parent has gone past its wait all its children have exited, in every run, if and only if numforks <= 1 or there is no level above 0 |
| ForkTree.ProcessTable.Fork | forktree_and_pthread.c:90-112 | The fork on the mutable table is the machine's fork and returns the new pid |
| ForkTree.ProcessTable.WaitPid | forktree_and_pthread.c:122-136 | The wait reaps a terminated child of the caller, and returns -1 only when it has no unreaped child |
| ForkTree.ProcessTable.RunTree | forktree_and_pthread.c:84-140 | Any schedule over the mutable table terminates with every process exited and every count at its total |
| MultiForkExec.OneAtATime | multiforkexec.c:41-87 | In every state of every run exactly one process is neither blocked in its wait nor reaped |
| MultiForkExec.EveryRunCompletes | multiforkexec.c:41-87 | Every run is bounded; it is stuck exactly when the first process has exited; then every forked process has been reaped and there are between numforks + 1 and 2^numforks processes, the upper bound if exec always fails or no command is given, the lower if it always succeeds |
| MultiForkExec.LoopFrom | multiforkexec.c:41-87 | The loop of one process and the children that fall through forks the same numbers of processes, for any outcome of each exec |
| ProcessesGalore.EveryRunCompletes | processesgalore.c:20-45 | All complete runs with T threads have the same length; then T(T+3)/2 processes have been forked, exactly T have been waited for, each the last of its thread, and the joins have returned 0 to T-1 |
| ProcessesGalore.EachWaitsForLast | processesgalore.c:48-71 | In every state of every run a thread that has ended has reaped the child it forked last |
| ProcessesGalore.ArraysLargeEnough | processesgalore.c:75-97 | main stays inside its two arrays in every run if and only if it creates at most five threads |
| ProcessesGalore.FindEnabled | processesgalore.c:48-68 | Until all threads are joined and all children have ended, some step can be taken |
| ProcessesGalore.Table.ForkPass | processesgalore.c:23-45 | One pass of a thread's fork loop on the mutable table is the machine's step |
| ProcessesGalore.Table.WaitLast | processesgalore.c:48-71 | The wait reaps the child forked last and the thread ends with its own index |
| ProcessesGalore.Table.RunAll | processesgalore.c:20-115 | Any schedule over the mutable table terminates with those counts and those joined values |
| SerialFork.OneChildAtATime | serialfork.c:37-77 | In every state of every run at most one process other than main is live, the one forked last, and until it is reaped main is in its wait for it |
| SerialFork.SeparateCopies | serialfork.c:30-54 | In every state of every run main's variables hold 01/11/21/31 or, from the first on, 03/13/23/33 and nothing a child wrote; every child but the first starts from 03/13/23/33; a child that exits has written all four, one that is killed any number of them |
| SerialFork.ReportsInForkOrder | serialfork.c:57-77 | In every state of every run the terminal reports are those of children 0, 1, 2, ... in fork order; a report of an exit gives forkno modulo 256 and comes for a child that was sent no fatal signal, a report of a signal gives the one that was sent |
| SerialFork.StoppedStaysPut | serialfork.c:62-77 | A stopped child stores nothing and does not exit until it is continued, in any run; it can only be killed |
| SerialFork.BlockedExactly | serialfork.c:62-77 | Before its end the program waits for the outside exactly while the child is stopped and has been reported so |
| SerialFork.EveryRunCompletes | serialfork.c:37-87 | A run is bounded by the number of forks and of stop signals; it is stuck exactly when main is done, and then all children have been forked, reaped and reported in order |
| SerialFork.Program.AwaitEnd | serialfork.c:62-77 | The loop over waitpid ends with the first terminal report, that of the child waited for, whatever the child does and whichever signals it gets meanwhile; main's variables and all earlier children stay as they were |
| SerialFork.Program.ForkLoop | serialfork.c:37-86 | The loop of main over mutable state ends with every child reported in order and main's variables at 03/13/23/33 |
| PollServer.OpenCount | socketforkserver.c:137-182 | In every state of every run num_open is the number of clients not yet closed, and no client is closed twice |
| PollServer.OneReplyPerRead | socketforkserver.c:155-164 | In every state of every run the replies sent are as many as the reads that have returned data, and a client once closed is never read from again |
| PollServer.NoTimeoutAfterClose | socketforkserver.c:142-152 | Once a client has been closed, the timeout count never changes again |
| PollServer.HistoryExactly | socketforkserver.c:139-178 | In every state of every run a client is closed if and only if a read from it has returned 0, is no longer asked about if and only if it has been reported without input, has been answered once for each read with data, and `timeouts` is the number of polls that returned 0, at most 3 |
| PollServer.ErrorMutes | socketforkserver.c:170-176 | An open client reported without input stays open, is never asked about, read from or answered again, and the loop never ends for want of open clients |
| PollServer.MutedStaysMuted | socketforkserver.c:170-176 | The same from any state in which an open client is not asked about |
| PollServer.EndsExactly | socketforkserver.c:139-181 | A pass ends the loop exactly when every client is closed, three polls have timed out, poll fails, or the poll reports three sockets, in this order |
| PollServer.DrainsExactly | socketforkserver.c:139-181 | For n clients the loop can end because none is open if and only if n is not 3 |
| PollServer.HowTheLoopEnds | socketforkserver.c:139-181 | With three clients a run that has left the loop did so on a poll error, or on three timeouts with no client ever closed, or after a poll that reported all three |
| PollServer.SpinsExactly | socketforkserver.c:139-182 | In every reachable state in which the loop goes on, it can go round any number of times on polls that report no open client, without a timeout, if and only if the number of closed clients is neither 0 nor 3 |
| PollServer.SpinReachableExactly | socketforkserver.c:139-182 | Such a state can be reached if and only if there are two clients or more |
| PollServer.PassSpendsOrIdles | socketforkserver.c:139-182 | A pass that goes on polling either lowers a budget of timeouts, closes and mutes, or changes nothing but what has been read and replied |
| PollServer.Server.HandleAll | socketforkserver.c:154-177 | The loop over the mutable poll set does to it what the specification says for every entry |
| PollServer.Server.PollOnce | socketforkserver.c:139-181 | One pass of the loop on the mutable state is one step of the machine |
| Pipe.DeliversExactly | controlthreads.c:142-167 | In every schedule as many reads as there are messages return the whole stream if and only if no message is longer than the read buffer |
| Pipe.StreamInOrder | controlthreads.c:142-167 | In every reachable state what has been read, followed by what is in the pipe, is a prefix of the messages in order |
| Pipe.NeverStuck | controlthreads.c:142-169 | With messages that fit, one of the two threads can move until both have closed |
| Pipe.EveryRunCompletes | controlthreads.c:142-169 | A run has at most a write and a read for each message and two closes; it is stuck exactly when both threads are through, and then, if every message fits, the whole stream has been read |
| Pipe.ThreeReadsSuffice | controlthreads.c:136-167 | For every thread id, in every schedule three reads of 100 bytes return chunks that concatenate to "From id: 1st message", "From id: 2nd message" and "From id: last message", each with its NUL; one chunk may hold several messages |
| Pipe.Fifo.Read | controlthreads.c:163 | A read moves the front of the pipe to the front of the buffer and leaves the rest of both |
| UserNs.CutParsesExactly | mkuidns.c:124-125 | For any width w >= 1 and any number, the first w + 5 bytes of the line parse to (0, id, 1) if the number is not negative and below 10^(w+1), and are refused otherwise |
| UserNs.CutIsWholeExactly | mkuidns.c:124-125 | They are the whole line if and only if the number, with its sign, has at most w characters |
| UserNs.MapLineExactly | mkuidns.c:124-125 | The 11 bytes written parse to (0, id, 1) if and only if id < 10^7, over all 32-bit ids |
| UserNs.WholeLineExactly | mkuidns.c:124-125 | Those 11 bytes are the whole line if and only if id < 10^6 or id >= 2^32 - 99999, where the printed int is negative and short, over all 32-bit ids |
| UserNs.WriteMap | mkuidns.c:149-150 | The write through the reused buffer gets the first 11 bytes of its own line, whatever was there before |
| UserNs.MapsBeforeCalls | mkuidns.c:36-174 | In every run the log is a prefix of uid map, setgroups, gid map, go, and then of the child's eight calls in order; the child makes none before go, and never makes any if a file could not be opened; the parent's wait returns only when the child is over |
| UserNs.FailureStopsChild | mkuidns.c:43-85 | In every run a failed call other than the mount of proc is the child's last and it has exited with 11, 12, 22, 66 or -2 accordingly; after the mount of proc, failed or not, it goes on to chroot; it runs the command only if all other calls succeeded |
| UserNs.HandshakeCompletes | mkuidns.c:36-174 | Every run has at most 19 steps and is stuck only when the parent has seen the child's end, or has given up and killed it |
| Dirents.RecordLayout | call64.c:42-48 | An encoded record has the inode in bytes 0-7, the offset in 8-15, the length in 16-17, the type in 18, the name from 19 on and a NUL behind it, numbers with the lowest byte first |
| Dirents.RecordRoundTrip | call64.c:42-48 | Whatever follows it, an encoded record reads back as its entry, and its length field as its length |
| Dirents.Walk | call64.c:182-188 | Over any encoded records the walk finds as many entries as records, entry i that of record i, and ends at nread |
| Iovec.Readv | iovec_demo.c:64-70 | Byte k of window i becomes byte k of the stream behind the room of windows 0 to i-1 if there is one and stays as it was if not; nothing outside the windows changes; the result is the smaller of the two totals |
| Iovec.GatherAt | iovec_demo.c:51-60 | Byte k of segment i is in the stream at k plus the lengths of segments 0 to i-1 |
| Iovec.WritevReadv | iovec_demo.c:51-72 | For any segments gathered and scattered over consecutive windows of one buffer, byte k of segment i is in the buffer at k plus the lengths of the segments before it, up to the smaller total; the rest of the buffer is unchanged |
| Iovec.PartsMakeUpTheStream | iovec_demo.c:64-70 | The parts given to the windows are the stream, cut at the smaller total |
| Iovec.EarlierWindowsFull | iovec_demo.c:97-108 | A window receives bytes only if all windows before it are full |
| Iovec.ReceivesExactly | iovec_demo.c:97-108 | A window receives bytes if and only if it has room and the windows before it do not take all the data |
| Clock.WholeMinutes | clock.c:30-36 | For every time not before the epoch days, hours and minutes make up the whole minutes, with hours below 24 and minutes below 60 |
| Clock.RecombinesExactly | clock.c:30-37 | For t = high * 2^32 + low not before the epoch, the seconds are those of low, and the printed parts add up to t if and only if high is a multiple of 15 and low is non-negative or a multiple of 60 |
| Clock.RecombinesUntil2038 | clock.c:30-37 | They add up for every t below 2^31, with seconds from 0 to 59, and not at 2^31 |
| Clock.ClockIdExactly | clock.c:68-69 | The low three bits of the id are 3; the descriptor comes back if and only if the shift does not overflow, and the id is then -8 fd - 5 |
| Clock.ClockIdsDiffer | clock.c:68-69 | Usable descriptors have distinct negative ids; a failed open gives the static id 3 |
| FillBuffer.LetterCycle | shmtest.c:32-43 | Call k uses 65 for k = 0 and 66 + (k-1) mod 26 after |
| FillBuffer.Filler.Fill | shmtest.c:25-45 | The call fills size - 1 bytes with that letter, ends them with NUL, returns size - 1 and leaves the rest of the buffer |

## Left out

- Printing, flushing, sleeping, argument parsing and `perror`: no effect on the state modelled. `numtrans`, `numforks` and the like are parameters; a loop count that is not positive means no iterations.
- Failure of `fork`, `clone`, `pthread_create` and `send`, and signals that kill a process from outside, except in `SerialFork`, where a child may be killed.
- Stop and continue reports of `waitpid`, except in `SerialFork`: a parent that receives one goes back to waiting, which is no step of the other models.
- A negative `numlevels` in `forktree_and_pthread.c`: it never reaches the level that ends the recursion.
- Iovec.WritevReadv: does not model the capacity of the pipe, which neither demonstration reaches.
- Pipe.DeliversExactly: does not model a pipe that is full, since the program's messages take up 100 bytes at most.
- The text that `pipereader` prints, which stops at the first NUL of a chunk, and its exit value.
- Semaphore.Transfer: `SEM_UNDO`, the scratch semaphores and their initial values.
- FutexLock.Lock: what `set_robust_list` registers and the list links themselves; the kernel's use of them is the assumption on the died bit.
- PollServer: the contents of the messages, and the client threads.
- UserNs: `mkdir`, whose result the program ignores, and the results of the map writes, which it ignores too.
- The other parts of `call64.c`, `iovec_demo.c`, `controlthreads.c` and `shmtest.c`: straight-line system calls, or in `shmtest.c` a reader without synchronisation about which nothing can be promised.
- `socket.c`, `fork.c`, `forkmulti.c`, `parallelfork.c`, `forkexec.c` and the other programs: the same loops in weaker form, or probes of single system calls.
