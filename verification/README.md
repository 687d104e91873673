# A verified model of the system-call specification

The repository's C programs under `test_program/` drive a POSIX-like kernel and check what each
call must do, and `run_all_tests.sh` runs them on the target and counts the results.  There is no
kernel in it: the checks are the specification.  This project models

* the kernel objects those checks pin down: processes, descriptor tables, open file descriptions,
  pipes, files, flock and record locks, signals, mappings, children, names;
* the programs' own loops and parent/child protocols, as step systems over that kernel, in every
  interleaving, with every split of reads and for every size, not just the literal constants;
* the runner's counting loop and the host's reading of the line it prints.

Calls behave as the checks require and, where no check says, as POSIX.1-2017 (XSH, system
interfaces) and, for Linux-only calls, their manual pages say.  Sleeps are steps that may happen at any time: no result
rests on how long one takes.  What the kernel is free to choose (how much a read returns, which
address mmap picks, which zombie wait reaps, which process runs) is universally quantified, as a
parameter or as a nondeterministic choice.

How the modules build on each other:

* `Basics`, `Intervals` (sorted segment lists and their meaning `At`), `FlatFile` (a file as a flat
  byte sequence).
* `KernelState`, `Kernel`: the state, its invariant `Inv` (every kept count is exact) and the calls.
  `Kernel.Apply` is one call, `Kernel.Run` any interleaving of calls of any processes.
  `KernelProps` (exact counts), `KernelFrame` (what a call leaves alone), `KernelRuns` (bytes of
  pipes), `KernelOwnership`, `Descriptors`, `Survival` (who can take a descriptor or a lock away,
  and what a closed number answers), `FlockModes` (readers and writers), `Enclosure` (a pipe within
  one process) and `KernelFiles` (files): what holds of all runs.
* `ForkPipe`, `PipeLoops`: the programs of `test_pipe2.c` on that kernel.
* `RecordLocks`, `LockProtocol`; `Signals`, `Wakeup`; `AddressSpace`, `SpaceRuns`; `Lifecycle`,
  `StopContinue`; `Files`, `FileRuns`, `Pwrite`; `Names`; `Tcp`; `Results`, `Runner`: one group for
  each remaining component.

Code that changes state in place is a class or a method with loops (`LockTable`, `Machine`,
`Process`, `Space`, `Family`, `SparseFile`, `Description`, the test loops), proved against functions
whose own properties are the lemmas.  The kernel of the descriptor layer is the environment of the
programs and is a function from state to state, so that its runs can be quantified over; the programs
act on it through `PipeLoops.Machine`, which changes it in place.

## Where the code promises less than it seems

* The child's close of its own write end (`test_pipe2.c:104`) is what ends its read loop:
  `ForkPipe.Exchange` shows that without it every run with a payload below 256 bytes ends with the
  child blocked in read for ever, and only those.
* The capacity test (`test_pipe2.c:200-231`) terminates exactly when the pipe holds the whole buffer,
  and its drain loop ends only because its last request is for no bytes.
* The `alarm`/`pause` pair (`test_signal.c:265-275`) can miss the signal; the `sigsuspend` protocol
  cannot, and the block before fork is what it needs.
* The `WIFCONTINUED` check (`test_fork_v2.c:164-167`) holds exactly in schedules where that wait
  comes before the child's exit.  In the others the exit is reported there, and the final
  `WIFEXITED` check still passes, on the status left over from it.
* ELOOP is exactly a cycle only while there are at most 40 links.
* The script's exit status is zero although the phase reported failure exactly when no test binary
  was executable, and any test that prints a RESULTS line of its own makes the host's counts
  unreadable.

## Model

| member | source | states |
|---|---|---|
| KernelProps.CountsExact | test_program/test_pipe2.c:71-86 | after any run of pipe2, open, fork, CLONE_FILES, dup, dup3, F_DUPFD, close, exec, exit, read, write, lseek and flock calls of any processes, each pipe's kept reader and writer counts are the numbers of descriptions of its ends that live processes can reach |
| Kernel.ApplyInv | test_program/test_fork_v2.c:241-261 | every call of every process keeps every count of the state exact (table users, description references, pipe ends), buffers within capacity and flock locks compatible |
| KernelProps.ReadOutcome | test_program/test_pipe2.c:137-143 | a read of n > 0 bytes from a pipe returns 0 exactly when the pipe is empty and no live process holds a write end; empty with a writer it waits or fails with EAGAIN; otherwise it returns a non-empty prefix of the buffer |
| KernelProps.WriteBroken | test_program/test_pipe2.c:151-159 | a non-empty write fails with EPIPE exactly when no live process holds the read end |
| KernelRuns.StepConserves | test_program/test_pipe2.c:43-52 | one call of any kind: buffered bytes followed by the bytes it puts in equal the bytes it takes out followed by what is buffered then |
| KernelRuns.FifoConservation | test_program/test_pipe2.c:43-52 | in every run with any readers and writers, bytes read so far followed by bytes buffered are the bytes accepted so far, in order, and the buffer is within capacity |
| Kernel.CopyBelowSpec | test_program/test_fork_v2.c:91-107 | copying a table for fork gives the child the parent's descriptors, leading to the same descriptions, and nothing else changes but reference counts |
| Kernel.CloseBelowSpec | test_program/test_openat.c:155-180 | closing a table's descriptors (exit: all, exec: the marked ones) closes exactly those, keeps every other descriptor, and what survives of descriptions and pipes keeps its contents |
| Descriptors.DupShares | test_program/test_dup_v2.c:124-152 | F_DUPFD returns the lowest unused number not below the argument, leading to the same description, with the asked close-on-exec mark; EMFILE exactly when all are taken |
| Descriptors.DupIsDupFd | test_program/test_dup_v2.c:59-61 | dup is F_DUPFD from 0 without the mark, so the row above is about both |
| Descriptors.NumbersBeyondTable | test_program/test_dup_v2.c:124-126 | a number beyond the table is EINVAL for F_DUPFD and EBADF for dup3, and nothing changes |
| Descriptors.Dup3Shares | test_program/test_dup_v2.c:95-116 | dup3 makes newfd lead to fd's description whatever it was before, changes no other descriptor, fails with EINVAL exactly when the numbers are equal, and afterwards a description exists exactly if a live process reaches it |
| Descriptors.Pipe2NeedsTwo | test_program/test_pipe2.c:33-37 | pipe2 succeeds exactly when two descriptor numbers are free; otherwise EMFILE and nothing changes |
| Descriptors.CloseLeavesCopies | test_program/test_dup_v2.c:76-89 | closing one descriptor leaves any other descriptor of the same description, in any process, with the same description, offset, flags, lock and pipe |
| Descriptors.ForkShares | test_program/test_fork_v2.c:91-125 | after fork every descriptor of the child leads to the very description of the parent's; nobody else's changes; the child's table is its own |
| Descriptors.CloneFilesShares | test_program/test_fork_v2.c:241-261 | after a clone with CLONE_FILES parent and child see the same descriptors after any run in which neither execs or exits |
| Descriptors.ExecClosesMarked | test_program/test_openat.c:155-180 | exec closes exactly the caller's descriptors marked close-on-exec; other processes, even ones that shared its table, keep theirs |
| Descriptors.OffsetBelongsToDescription | test_program/test_basic_io.c:281-297 | read, write and lseek on a file move the offset of the description used and change nothing else of it, nor any other; append writes land at the end of the file; a call that fails changes nothing |
| Descriptors.ReadsWhatIsThere | test_program/test_basic_io.c:103-115 | a read of a file hands out the bytes from the offset, as many as asked for or as there are left, and none exactly if none was asked for or the offset is at or past the end |
| KernelFrame.CalmStep | test_program/test_dup_v2.c:76-89 | a call that works on no description changes no offset, flag, lock, buffer or file, but the file it opens |
| KernelFrame.UsedStep | test_program/test_basic_io.c:281-297 | a call that works on a description changes no descriptor, no other description and no file but the one it writes |
| KernelFiles.StepMirrors | test_program/test_fork_v2.c:91-107 | one call of any process does to a file and to the offsets and flags of its descriptions what its projection does to the flat reference |
| KernelFiles.FileRefinesFlat | test_program/test_basic_io.c:281-301 | over every run of any processes, with opens, dups, forks, clones and execs, the contents of a file, the offsets and append flags of its descriptions and the bytes its reads return are those of the flat reference, with one index for each description and all its copies |
| KernelFiles.FileBytesLastWritten | test_program/test_basic_io.c:153-178 | so in every run every byte of every file is the one last written there since the last truncation, zero if none was |
| Descriptors.OpenSeparate | test_program/test_basic_io.c:281-297 | open makes a new description with offset 0 that no other descriptor leads to, empties the file exactly if it truncates or creates, and fails exactly for a missing file without O_CREAT or a full table |
| Descriptors.StatusFlagsShared | test_program/test_dup_v2.c:171-190 | what F_SETFL sets shows through every descriptor of the description in every process and through no other; no close-on-exec mark, offset or lock moves |
| Descriptors.MarkIsPrivate | test_program/test_dup_v2.c:159-165 | F_SETFD moves the mark of the one descriptor and of no copy of it, and no status flag |
| Descriptors.FlockOutcome | test_program/test_dup_v2.c:279-292 | flock succeeds exactly when no other description of the file is exclusive (asking to share) or locked at all (asking to exclude); otherwise it waits or fails with EWOULDBLOCK (EAGAIN) and what the description held is given up; nothing else changes |
| FlockModes.FlockOnFile | test_program/test_dup_v2.c:258-309 | on a regular file LOCK_UN always succeeds, LOCK_SH exactly when no other description of that file is exclusive, LOCK_EX exactly when all others of that file are unlocked |
| FlockModes.TwoReaders | test_program/test_dup_v2.c:258-273 | two descriptions of a file nobody excludes both get LOCK_SH, and hold it together |
| FlockModes.TwoReadersReachable | test_program/test_dup_v2.c:258-273 | a state with two shared holders of one file is reachable |
| Descriptors.ExitReleases | test_program/test_fork_v2.c:241-261 | exit closes the process's descriptors unless its table is shared, takes nobody else's, and a description goes exactly if no live process reaches it any more |
| KernelOwnership.OthersLeaveDescriptors | test_program/test_fork_v2.c:109-125 | a process that shares its table with nobody keeps every descriptor through any run of calls of other processes |
| KernelOwnership.LockChangesByFlock | test_program/test_dup_v2.c:258-309 | no call but flock through one of its own descriptors changes a description's lock |
| KernelOwnership.LockKeptUntilLastClose | test_program/test_dup_v2.c:316-332 | over any run without a flock through the description itself, its lock stays and lives exactly as long as some live process has a descriptor of it |
| KernelOwnership.LockSurvivesOthers | test_program/test_dup_v2.c:318-330 | with a table of its own, a process keeps its descriptor and the lock behind it through any run of calls of other processes |
| KernelOwnership.StepSpreads | test_program/test_fork_v2.c:91-107 | new descriptors lead to something new or where the caller's own table already led, and of that table a call other than exec and exit takes away only what it names |
| Survival.DescriptorSurvives | test_program/test_fork_v2.c:109-125 | a descriptor keeps leading to its description over any run of calls of any processes, its owner included, with no close of it, no dup3 over it by a process sharing the table, no exit of the owner and no exec while it is marked |
| Survival.LockSurvives | test_program/test_dup_v2.c:316-332 | so does the flock lock, as long as no flock goes through the description itself |
| Survival.ForkKeepsSole | test_program/test_dup_v2.c:316-319 | after a fork the parent's table and the child's are each used by one process only |
| Survival.LockSurvivesFork | test_program/test_dup_v2.c:316-332 | a lock taken before the owner forks survives the fork and whatever child and others do then, the child's exit included |
| Survival.EndangeredIsLost | test_program/test_dup_v2.c:98-107 | and each of those calls, when it succeeds, does take the descriptor away |
| Survival.CloseAnswers | test_program/test_basic_io.c:352-361 | close of an open descriptor answers 0, the last of its description included; the number is free then, and no other |
| Survival.NotOpenIsBad | test_program/test_basic_io.c:352-361 | every call through a number that is not open answers EBADF and changes nothing |
| Survival.ClosedStaysBad | test_program/test_basic_io.c:475-481 | after a close every call through that number, a second close included, answers EBADF over any run that does not open the number again |
| KernelOwnership.FlockExclusion | test_program/test_dup_v2.c:279-292 | in every reachable state a file has one exclusive holder and no other, or only shared holders |
| ForkPipe.NextKeepsGood | test_program/test_pipe2.c:98-130 | every call of parent or child keeps the protocol's invariant and uses up one of finitely many steps |
| ForkPipe.WhoIsLeft | test_program/test_pipe2.c:98-130 | in every state of the exchange the pipe's counts are what the two program counters say |
| ForkPipe.StuckStates | test_program/test_pipe2.c:98-130 | a state of the exchange from which nobody can move is the finished one if the child closed its write end or the payload has at least 256 bytes, and the blocked one otherwise |
| ForkPipe.Exchange | test_program/test_pipe2.c:98-130 | for every payload a write takes atomically, every interleaving and every split into reads: no deadlock, at most payload + 8 calls, the child ends with the payload and exit code 0 exactly when it fits its 256 bytes; without the close at line 104 every shorter payload ends in a deadlock and no other does |
| ForkPipe.StartExists | test_program/test_pipe2.c:98-102 | the exchange starts from every kernel state with two free descriptors and a new child number |
| ForkPipe.CanGetStuck | test_program/test_pipe2.c:98-130 | every state of the exchange leads by some schedule to one where nobody can move |
| PipeLoops.WriteToPipe | test_program/test_pipe2.c:177-190 | all outcomes of a write to a pipe with a reader: whole, refused or waiting with nothing written, or in part, the last never for a write of at most PIPE_BUF bytes |
| PipeLoops.ReadFromPipe | test_program/test_pipe2.c:166-174 | all outcomes of a read from a pipe, with the state after it |
| PipeLoops.AnySplit | test_program/test_pipe2.c:110-113 | a read may hand out any number of the buffered bytes up to what is asked for, so that every split is among the runs |
| PipeLoops.AnyPart | test_program/test_pipe2.c:216-217 | a large write may be taken in any part that there is room for |
| PipeLoops.EndsAreOneWay | test_program/test_basic_io.c:483-494 | lseek on a pipe is ESPIPE; a read of the write end and a write to the read end are EBADF; nothing changes |
| PipeLoops.EofTest | test_program/test_pipe2.c:136-144 | with the only write end closed a read returns 0 |
| PipeLoops.BrokenPipeTest | test_program/test_pipe2.c:150-160 | with the only read end closed a write fails with EPIPE |
| PipeLoops.FillUntilFull | test_program/test_pipe2.c:178-190 | for every capacity the loop ends with EAGAIN, sees no partial write, and total is the largest multiple of 4096 not above the capacity, all of it in the pipe |
| PipeLoops.NonblockTest | test_program/test_pipe2.c:166-193 | a read of the empty non-blocking pipe fails with EAGAIN, and the fill loop then runs as above |
| PipeLoops.WriteAll | test_program/test_pipe2.c:216-217 | a blocking write of any size completes exactly when the pipe holds it, with every byte in the pipe in order; otherwise it waits for ever with the pipe full |
| PipeLoops.Drain | test_program/test_pipe2.c:222-227 | for every split into reads the loop returns all buffered bytes in order and stops at a request for zero bytes, the write end still open |
| PipeLoops.CapacityTest | test_program/test_pipe2.c:200-231 | for every capacity and size the test finishes, with total_read equal to written and equal contents, exactly when the pipe can hold the buffer; otherwise it is blocked in write with the pipe full and, with a table of its own, for ever, whatever other processes do |
| Enclosure.StepKeepsEnclosed | test_program/test_pipe2.c:200-217 | no call of another process gets an end of the pipe, touches its bytes or takes its reader away |
| Enclosure.EnclosedWaits | test_program/test_pipe2.c:216-217 | the write still waits after any run of calls of other processes |
| RecordLocks.SetLkBytes | test_program/test_dup_v2.c:341-367 | F_SETLK from the numbers in the request: it changes the caller's lock on exactly the bytes l_start and l_len name (positive, zero and negative length), EINVAL and EOVERFLOW exactly when they leave the offsets there are, EAGAIN exactly when another process writes one of them or holds one the caller wants to write |
| RecordLocks.SetLkRefines | test_program/test_dup_v2.c:341-367 | the algorithm on sorted segment lists refines the per-byte owner map, over the range of the request |
| RecordLocks.RangeIs | test_program/test_dup_v2.c:343-348 | that range, for every sign of l_len |
| RecordLocks.ReadersCoexist | test_program/test_dup_v2.c:341-367 | two processes can read-lock the same bytes, and then nobody can write-lock any of them |
| RecordLocks.BlockedIsByteBlocked | test_program/test_dup_v2.c:388-393 | the conflict search over segments finds a conflict exactly when some byte is locked in a clashing mode by another process |
| RecordLocks.SetLkKeepsExclusion | test_program/test_dup_v2.c:373-405 | F_SETLK never makes two processes hold clashing locks |
| RecordLocks.ReleaseSpec | test_program/test_dup_v2.c:396-409 | closing or exiting drops all locks of that process and no others |
| RecordLocks.RunKeepsExclusion | test_program/test_dup_v2.c:373-409 | in every run of lock, unlock, close and exit by any processes the lists stay sorted and disjoint and two processes lock one byte only if both lock it for reading |
| RecordLocks.InitiallyExclusive | test_program/test_dup_v2.c:373-409 | so no state reachable from a file without locks has two processes with clashing locks |
| RecordLocks.LockTable.Set | test_program/test_dup_v2.c:341-350 | F_SETLK in place: its four answers and its whole effect on every byte of every process, from the numbers in the request |
| RecordLocks.LockTable.Get | test_program/test_dup_v2.c:352-363 | F_GETLK answers F_UNLCK exactly when the same F_SETLK would succeed; otherwise it reports a lock another process really holds that clashes and overlaps |
| RecordLocks.LockTable.ReleaseAll | test_program/test_dup_v2.c:396-409 | a process's locks go, all others stay |
| LockProtocol.EveryScheduleFinishes | test_program/test_dup_v2.c:415-451 | every schedule of the F_SETLKW protocol keeps mutual exclusion; one that cannot be extended has six steps and ends with both processes finished and nothing locked |
| LockProtocol.StuckIsFinal | test_program/test_dup_v2.c:415-451 | nobody can move exactly when both have finished |
| LockProtocol.ParentReleasedBeforeFork | test_program/test_dup_v2.c:407-416 | the parent's lock and unlock before fork leave no byte locked |
| LockProtocol.ConflictAcrossFork | test_program/test_dup_v2.c:373-405 | while the parent holds the range the child's F_SETLK is refused and changes nothing |
| Signals.PendingExact | test_program/test_signal.c:146-177 | in every run of kills, deliveries and mask changes a signal is pending exactly when it was sent since it was last delivered, and the global holds the last one delivered |
| Signals.BlockedUntilUnblocked | test_program/test_signal.c:146-177 | a blocked signal stays pending through any number of kills, is not delivered, and is caught once when unblocked |
| Signals.KillByDisposition | test_program/test_signal.c:105-136 | an unblocked kill runs the handler once, leaves no trace when ignored, and kills the process under the default action |
| Signals.KilledIsFinal | test_program/test_signal.c:133-135 | nothing reaches a killed process |
| Signals.IgnoredLeavesNoTrace | test_program/test_signal.c:105-114 | over any run in which all signals are ignored, whatever the masks, the process runs on and the handlers' global keeps its value |
| Signals.SuspendGivesMaskBack | test_program/test_signal.c:328-333 | a signal that ends sigsuspend is caught once under its mask and the old mask is back |
| Signals.Process.DeliverAll | test_program/test_signal.c:173-177 | every unblocked pending signal is delivered, in any order, every blocked one stays pending |
| Signals.Process.Kill | test_program/test_signal.c:153-157 | a kill of oneself runs the handler if the signal is not blocked and leaves it pending otherwise |
| Signals.Process.MaskTest | test_program/test_signal.c:146-177 | the block, send, look, unblock sequence: quiet while blocked, pending, caught after unblocking |
| Wakeup.NoLostWakeup | test_program/test_signal.c:315-342 | with the signal blocked before fork, every schedule that cannot go on has the child exited 0 and reaped; without the block such a schedule has succeeded exactly when the delivery came after the child entered sigsuspend |
| Wakeup.LostWithoutBlock | test_program/test_signal.c:320-342 | without the block a run exists in which the child never returns |
| Wakeup.AlarmPauseCanMiss | test_program/test_signal.c:265-275 | no run has more than five steps; one that cannot go on has returned from pause exactly when the signal is not blocked and was delivered after pause was entered; otherwise pause never returns, and a blocked signal stays pending |
| Wakeup.AlarmOutcomes | test_program/test_signal.c:265-275 | both outcomes occur |
| AddressSpace.PutLoads | test_program/test_mmap.c:188-203 | placing a mapping over a range replaces what every load in it sees by the source and changes no other load |
| AddressSpace.CarveLoads | test_program/test_mmap.c:235-254 | removing a range, splitting mappings it cuts, makes exactly its pages fault |
| AddressSpace.Choose | test_program/test_mmap.c:414-442 | a request without address gets a gap if there is one and ENOMEM otherwise; MAP_FIXED_NOREPLACE is refused with EEXIST exactly on overlap |
| AddressSpace.Space.Map | test_program/test_mmap.c:188-203 | mmap with each placement: EINVAL exactly for length 0 or an unaligned address or offset, ENOMEM exactly without room, EEXIST exactly when MAP_FIXED_NOREPLACE overlaps; otherwise it succeeds, at the address asked for, and exactly the pages of the range show zeros or the bytes of the file |
| AddressSpace.Space.Unmap | test_program/test_mmap.c:221-254 | munmap removes exactly the pages of its range, keeps every other byte, and changes nothing on an already empty range |
| AddressSpace.Space.Store | test_program/test_mmap.c:119-138 | a store is read back; through a shared file mapping it changes the one byte of the file, otherwise no file and no other byte |
| AddressSpace.Space.FileMapTest | test_program/test_mmap.c:97-163 | a file mapped from any page offset shows its bytes; a store changes the file, at offset plus distance into the mapping, exactly if the mapping is shared |
| AddressSpace.Space.PartialUnmapTest | test_program/test_mmap.c:221-254 | touch n pages, unmap any middle part twice: the rest still holds what was stored, the part is gone, the second munmap succeeds |
| SpaceRuns.PerformAll | test_program/test_mmap.c:188-254 | over any sequence of mmap and munmap calls the sorted list of ranges shows exactly the pages of a plain page map, and every answer is one that page map allows |
| SpaceRuns.MapIsLegal | test_program/test_mmap.c:414-427 | the answers computed on the list are those of the page map: EEXIST exactly on overlap, ENOMEM exactly without room |
| SpaceRuns.MappingsStay | test_program/test_mmap.c:414-427 | a mapped page keeps its mapping through any calls that neither unmap it nor cover it with MAP_FIXED; MAP_FIXED_NOREPLACE and plain mmap never replace |
| Intervals.CarveSpec | test_program/test_mmap.c:235-254 | cutting a range out of a sorted list keeps it sorted and disjoint and removes exactly the positions of the range |
| Intervals.PutSpec | test_program/test_mmap.c:188-203 | replacing a range keeps the list sorted and disjoint and changes exactly the positions of the range |
| Lifecycle.ReapedExactlyOnce | test_program/test_fork_v2.c:194-232 | in every run of exits and waits the reaped pids are distinct children, exactly the others are left, and after as many waits as children none is left |
| Lifecycle.Family.ReapAll | test_program/test_fork_v2.c:204-232 | whatever the order of exits, n waits reap n children and the matching loop stores each child's own code in its slot |
| Lifecycle.Family.Match | test_program/test_fork_v2.c:212-217 | the inner loop writes the code into the one slot of that pid and leaves all others |
| Lifecycle.Family.ForkAndReap | test_program/test_fork_v2.c:361-376 | fork n, reap n: n distinct pids, n successes, every code right, and the next wait has no child |
| StopContinue.ReportsInOrder | test_program/test_fork_v2.c:147-171 | in every schedule the waits report stopped, optionally continued, exited, the exit once; no wait blocks for ever; WIFCONTINUED holds exactly when the second wait precedes the exit |
| StopContinue.ToldOnce | test_program/test_fork_v2.c:154-171 | a stop or a continue is told to one wait only, and only to one that asks for it; an exit to any, once |
| StopContinue.BothOrders | test_program/test_fork_v2.c:164-171 | a schedule in which the exit is reported by the second wait, so that the continue check fails, and one in which it is not |
| Files.SparseFile.WriteAt | test_program/test_basic_io.c:153-178 | writing into a block map with holes is overwriting in the flat sequence, zeros in a gap; only blocks the data touches are stored |
| Files.SparseFile.ReadAt | test_program/test_basic_io.c:243-269 | reading a block map gives min(n, what is left) bytes of the contents from the position, byte by byte, none at or past the end |
| Files.PatchBytes | test_program/test_basic_io.c:190-200 | storing part of a block changes exactly those bytes |
| Files.Description.Write | test_program/test_openat.c:94-109 | a write lands at the offset, or at the end in append mode, and leaves the offset behind it |
| Files.Description.Read | test_program/test_basic_io.c:243-252 | a read returns min(n, what is left) bytes from the offset and moves the offset by as many |
| Files.Description.Lseek | test_program/test_basic_io.c:121-141 | the new offset relative to start, current offset or end; EINVAL and no move if it would be negative |
| Files.AppendChunks | test_program/test_openat.c:94-109 | n appended chunks, with the offset moved back before each, end as their concatenation after what was there and read back so |
| Files.WriteLoop | test_program/test_basic_io.c:408-426 | repeated writes of a chunk leave its repetition, size times its length, offset at the end |
| Files.HoleTest | test_program/test_basic_io.c:153-178 | head and tail read back intact around a gap of any length that reads as zeros |
| Basics.FillPattern | test_program/test_basic_io.c:25-30 | the buffer holds (i + seed) mod 256 at every i |
| FileRuns.PerformAll | test_program/test_basic_io.c:281-301 | any sequence of opens (appending, truncating), reads, writes and seeks through any number of descriptions on the block file gives the outputs, contents and offsets of the flat reference |
| FileRuns.OthersStay | test_program/test_basic_io.c:281-297 | a call on one description leaves where every other stands |
| FileRuns.BytesAreLastWritten | test_program/test_basic_io.c:153-178 | after any run every byte is the one last written there since the last truncation, zero if none was |
| FileRuns.AppendsConcatenate | test_program/test_dup_v2.c:203-208 | through any number of appending descriptions, reads and seeks in between, the file is what it held followed by everything written in order |
| FlatFile.OverwriteBytes | test_program/test_basic_io.c:190-200 | overwriting sets exactly the bytes of its range and the length to the maximum of the old one and its end |
| Pwrite.EveryInterleaving | test_program/test_fork_v2.c:382-415 | positional writes by any number of processes to disjoint ranges, interleaved in pieces down to single bytes: every complete schedule gives the file of the whole writes, each message reads back, every other byte is as before, zero where there was none |
| Pwrite.TurnAdvances | test_program/test_fork_v2.c:389-396 | a turn of n > 0 bytes takes its writer on by n bytes or all it has left, and no other writer |
| Pwrite.CanFinish | test_program/test_fork_v2.c:389-398 | every schedule so far can be completed, and then the file is that of the whole writes |
| Pwrite.ParentAndChild | test_program/test_fork_v2.c:382-415 | for any two messages at positions that leave them apart, every complete schedule on a new file leaves both intact and zeros everywhere else |
| Pwrite.AdvanceKeepsShape | test_program/test_fork_v2.c:389-396 | one piece of one writer extends its own bytes and disturbs nobody else's |
| Pwrite.Commute | test_program/test_fork_v2.c:389-396 | two disjoint positional writes commute |
| Files.Description.Pwrite | test_program/test_fork_v2.c:389-396 | pwrite changes the file at the position and not the shared offset |
| Names.FollowSpec | test_program/test_stat.c:159-173 | resolution with a budget of links answers by the name where that many links lead |
| Names.StatFollows | test_program/test_stat.c:159-190 | stat of a link is stat of its target and never a link; a dangling link is ENOENT; stat and lstat agree exactly on names that are not links |
| Names.StatDirect | test_program/test_stat.c:252-265 | on a name that is no link stat and lstat both report it; a link to an object shows the object |
| Names.LstatIsTheLink | test_program/test_stat.c:176-190 | lstat of a link succeeds and reports the link's own inode as a link, wherever it leads; it fails exactly for a missing name |
| Names.LinkAndTargetDiffer | test_program/test_stat.c:186-189 | on every link that resolves stat and lstat report different inodes, if no object shares an inode with a link |
| Names.EloopExactly | test_program/test_stat.c:298-309 | ELOOP exactly when the first 41 names of the chain are links; always on a cycle |
| Names.EloopIsCycle | test_program/test_stat.c:298-309 | with at most 40 links in all, ELOOP exactly on a cycle |
| Names.TwoLinkLoop | test_program/test_stat.c:298-309 | two links to each other are ELOOP from both |
| Names.StraightChain | test_program/test_stat.c:298-309 | a straight chain of n links resolves exactly when n is at most 40 |
| Names.StraightDoesNotCycle | test_program/test_stat.c:298-309 | a straight chain never cycles, so with more than 40 links ELOOP does not mean a cycle |
| Tcp.ExchangeFinishes | test_program/test_accept4.c:146-222 | with unsplit messages every interleaving finishes in eleven steps with no cyclic wait; the client exits 0, the server has the request, and its recv after SHUT_WR returns 0, only after the client closed |
| Tcp.NextKeepsInv | test_program/test_accept4.c:146-222 | every step keeps what the two program counters say about both byte streams and moves one of them on by one |
| Results.DecimalValue | run_all_tests.sh:575 | every natural reads back from its decimal rendering |
| Results.NoLeadingZero | run_all_tests.sh:697 | a rendered count other than zero has no leading zero, so shell arithmetic does not read it as octal |
| Results.TextFound | run_all_tests.sh:685 | a RESULTS text is matched whatever follows it |
| Results.TextsAreTexts | run_all_tests.sh:685 | the pattern matches RESULTS texts and nothing else |
| Results.FieldsOfText | run_all_tests.sh:691-693 | each look-ahead pattern takes exactly its own count from a RESULTS text |
| Runner.RunAll | run_all_tests.sh:537-575 | the loop keeps PASSED + FAILED = TOTAL; TOTAL counts the executable tests, PASSED those that succeed; the line printed shows these numbers |
| Runner.ParseExactly | run_all_tests.sh:685-697 | a log with the printed line yields the printed counts exactly when no other line holds a RESULTS text; otherwise no number comes out |
| Runner.Accounting | run_all_tests.sh:685-697 | pass, fail and skip parsed from the log are what happened, skip the number of tests not executable, and they add up to the number of discovered tests |
| Runner.VerdictsDiffer | run_all_tests.sh:699-703 | with only the StarryOS phase run (lines 784-794), the exit status is zero exactly when every executed test succeeded; it differs from the phase's verdict exactly when nothing was executable |
| Runner.SecondLineGarbles | run_all_tests.sh:685-693 | a log with a second RESULTS line yields no number, whatever the runner printed |
| Runner.VerdictExamples | run_all_tests.sh:699-703 | one test that is not executable: the phase fails, the script exits zero; one that succeeds and one that fails, where the two agree |

## Left out

- ForkPipe.Exchange: payloads above PIPE_BUF bytes, which the parent's write may hand over in several pieces; the program sends eleven bytes and its buffer holds 256.
- Tcp.ExchangeFinishes: messages split by the network and the 127-byte limit of one recv; the program itself expects one recv per message.
- RecordLocks.SetLkRefines: l_whence other than SEEK_SET, and merging of adjacent segments, which no byte can tell.
- LockProtocol.EveryScheduleFinishes: EDEADLK, which needs two locks held crosswise.
- Names.FollowSpec: paths of several components, directory search permission and ENAMETOOLONG; a name is one component.
- Lifecycle.Family.Fork: which pid is chosen beyond being unused, and EAGAIN from fork.
- Files.SparseFile.WriteAt: a full disk, a maximum file size and the block count stat reports.
- Runner.ParseExactly: a `\d` that matches digits outside ASCII, and the fallback that looks for single test markers, whose grep patterns begin with dashes and are taken as options.
- AddressSpace.Space.Map: protection bits, EACCES, EBADF, ENODEV, and the fault past the end of a mapped file; loads there read zero. Which free address is chosen stays open.
- Kernel.ApplyInv: errors settled by one test (bad flags, null buffers), descriptor limits other than 1024, O_EXCL, O_NOFOLLOW, mode bits and umask.
- Signals.PendingExact: real-time queues, siginfo fields, tgkill to single threads, sigaltstack and SIGSEGV, and delivery of SIGPIPE; the EPIPE half is modelled.
- The WNOHANG check at test_fork_v2.c:173-188, whose outcome rests on the length of a sleep.
- Copy-on-write memory across fork, clone3, sessions and process groups, directories, FIFOs, sockets other than the one TCP connection.
- The 8192-byte write from a 4096-byte array at test_basic_io.c:226-227: it reads outside the array.
- brk, and the read, write and open programs that repeat parts of the modelled ones.
- Building, mounting, QEMU, log colours and per-architecture counters of run_all_tests.sh.
