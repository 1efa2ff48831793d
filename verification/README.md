# Verified models of the UnixDev components

This project models seven stateful components of the UnixDev repository in Dafny and proves what they keep
over every run. Each component has one file with its specification functions and, where the original updates
state in place, a class whose methods are proved equal to those functions; further files hold the theorems.

| component | files | what is proved |
|---|---|---|
| HTTP worker pool | `WorkerPool`, `WorkerPoolProofs`, `WorkerPoolTheorems` | for any number of producers and workers and every interleaving of single statements: exact token accounts, no lost wake-up, refinement of an atomic bounded FIFO, every accepted request processed exactly once, no deadlock, bounded draining |
| shell if-blocks | `Shell`, `ShellTrees`, `ShellGrammar`, `ShellReading` | the line machine computes the meaning of script trees; lines determine the tree; the error-free inputs are exactly the prefixes of sentences; what misplaced conditions do; exactly when it recovers from an error |
| shared string | `SharedText`, `SharedTextLocks`, `SharedTextReads`, `SharedTextProgress`, `SharedTextRounds` | semaphore and undo accounts under crashes at any step; reads are whole texts; what is read after a torn copy; no deadlock; every run ends, with sixty texts published and every client served |
| connection dispatch | `RoundRobin` | the scan finds the first live child; shares of surviving children differ by at most one; bounded waiting |
| CGI request reader | `CgiScanner` | any splitting of the stream gives the answer of one look at the whole stream; which streams are answered, and how |
| login records | `Utmp`, `UtmpProofs`, `UtmpLogout` | the sixteen-record cache agrees with a walk of the file; logging out changes exactly one record |
| path printer | `Pwd`, `PwdProofs` | printing a path and resolving one undo each other in every directory tree |

`Counting` holds the sums over threads and processes that the accounts need, `CStrings` the strings that end at a
NUL, `Options` the optional value. `dafny verify dfyconfig.toml`
checks everything.

## How the components are modelled

* **Worker pool.** Every lock, size test, push, unlock, post, wait, emptiness test, front, pop, null test and
  `process()` is its own event. The semaphore starts at 0. `run` ignores the result of its wait, so a wait may
  also return without a token; the accounts hold with such waits, and the exact form is proved without them.
  Lists of what was called, accepted, dequeued and processed, and the number of nulls skipped, are records that no
  step reads.
* **Shell.** A line is its argument list. `builtin_command` and `execute` together are one parameter, an
  arbitrary function from a world and a command to the next world and a status. The trees follow the line-based
  subset of the `if` construct (section 2.9.4 of POSIX.1-2017 XCU) that the machine accepts: words after `then`,
  `else` and `fi` are ignored, blank lines may precede `then`, a condition may be empty, a command or another
  `if`, and blocks do not nest. `RunScript` is the loop of main (MySh/mysh.c, lines 31-37).
* **Shared string.** `semop` works on the arrays of operations that the programs build, with the kernel's rule
  that all operations succeed or none, the limit SEMVMX, and one adjustment per process and semaphore, applied
  at exit or crash. The server's copy and the client's read take one byte per
  step; the segment has 100 bytes and the server 60 rounds. The accounts and the snapshot theorem allow any number of
  servers; the whole-text theorem is for the one server that the exclusive creation of the set admits.
* **Dispatch.** The death of a child is an event of the environment that sets its slot to -1.
* **Request reader.** The socket holds a list of pieces, pauses, a reset or an end; `recv` may take part of a
  piece, and with no room left it returns 0.
* **Login records.** The file is a sequence of whole records and a fragment of fewer than 384 bytes.
* **Path printer.** Directories are lists of entries in `readdir` order, with `.` and `..` anywhere among them.

## Where the code differs from what it says or what one would expect

* The comments of `Http/threadpool.h` (lines 13 and 28) call `m_max_requests` the most requests that may wait.
  The test is `>`, so the queue reaches one more (`FillsOnePastLimit`), and never two more (`PoolIsBoundedFifo`).
* A syntax error inside a condition (`if then`) does not reset the shell: it waits for `then`
  (`RecoversIffRejected`, `ErrorInConditionDoesNotRecover`), and the block then runs its else part; `if if then`
  counts as success and runs the body (`MisplacedConditionRunsElse`). `WANT_ELSE` is never entered.
* The user listing also shows the last record of every block of sixteen, and of the file, whatever its type
  (`OnlyUsersIff`, `StrangerIsListed`).
* `logout_tty` takes the offset 0 for a failed seek, so the first record of the file is never updated, and it
  updates the first record on the line even when a later one is the live login (`LineIsFreeIff`,
  `FirstRecordStaysLoggedIn`, `StaleRecordTakesUpdate`).
* A client is refused its lock, and prints nothing, when 32767 others hold it (`EveryClientPrintsIff`).
* A client that reads after the server died in the middle of a copy sees a mixture (`ReadsAfterTear`,
  `TornReadIsNeither`, `TearIsVisible`), since the undo releases the lock.
* At the root the path printer prints nothing, and the empty path does not resolve (`PrintedPathResolvesIff`).

## Model

| member | source | states |
|---|---|---|
| WorkerPool.ThreadPool.Create | Http/threadpool.h:43-65 | a pool exists exactly for positive sizes with every thread created and detached; it starts empty, with no tokens, all workers waiting |
| WorkerPool.ThreadPool.AppendStep | Http/threadpool.h:76-88 | the whole new state after any one statement of append |
| WorkerPool.ThreadPool.RunStep | Http/threadpool.h:100-119 | the whole new state after any one statement of the worker loop |
| WorkerPool.ThreadPool.Append | Http/threadpool.h:76-88 | undisturbed, append accepts exactly up to the limit, adds at the end and posts once, otherwise only records the refusal; the limit is kept exactly when there was room below it |
| WorkerPoolProofs.StepProtects | Http/threadpool.h:78-85 | every statement keeps mutual exclusion and what a thread inside has learnt: room before a push, fullness before a refusal, a request before front and pop, no null in process() |
| WorkerPoolProofs.StepBalances | Http/threadpool.h:86-113 | every statement keeps queue length + pops without token = tokens + holders + pending posts + tokens spent on an empty queue |
| WorkerPoolProofs.StepConservesCalls | Http/threadpool.h:76-88 | each call is inside, accepted or refused, exactly once |
| WorkerPoolProofs.StepConservesPops | Http/threadpool.h:112-117 | each popped request is with one worker or processed, exactly once; nulls are counted as skipped and never processed |
| WorkerPoolTheorems.ReachableInv | Http/threadpool.h:76-119 | all of these hold in every state of every interleaving, failed waits included, with the threads and the limit that the pool was created with |
| WorkerPoolTheorems.QueueIsCovered | Http/threadpool.h:105-113 | even with failed waits the queue is never longer than tokens + holders + pending posts |
| WorkerPoolTheorems.TokenAccount | Http/threadpool.h:76-118 | when waits take tokens, queue length equals tokens + holders + pending posts and the empty branch is never taken |
| WorkerPoolTheorems.FailedWaitReachesEmptyBranch | Http/threadpool.h:105-111 | wherever the queue is empty and the mutex free, one failed wait sends a waiting worker to the empty branch |
| WorkerPoolTheorems.StepRefinesFifo | Http/threadpool.h:78-114 | each statement is one atomic put, get or refusal at length max + 1, or invisible |
| WorkerPoolTheorems.PoolIsBoundedFifo | Http/threadpool.h:78-114 | every run is a run of the atomic queue; accepted = dequeued followed by the queue; length at most max + 1 |
| WorkerPoolTheorems.FillsOnePastLimit | Http/threadpool.h:79-84 | from any state with a free mutex the queue can be filled to max + 1 |
| WorkerPoolTheorems.Progress | Http/threadpool.h:102-118 | unless everything is drained, some thread can execute its next statement |
| WorkerPoolTheorems.QuiescentIffDrained | Http/threadpool.h:102-118 | nothing can move exactly when the queue is empty, no token is left, the mutex is free, workers wait and producers are idle |
| WorkerPoolTheorems.WaitingRequestHasWorker | Http/threadpool.h:105-113 | with producers idle a waiting request always finds a worker that can move, whatever waits failed before |
| WorkerPoolTheorems.StepLowersMeasure | Http/threadpool.h:76-118 | every statement other than a new call or a failed wait lowers one global measure |
| WorkerPoolTheorems.RunIsBounded | Http/threadpool.h:76-118 | no run is longer than the measure of its start and fourteen events for each new call or failed wait |
| WorkerPoolTheorems.WorkingRunIsShort | Http/threadpool.h:76-118 | hence without new calls and failed waits no run is longer than the measure |
| WorkerPoolTheorems.CanDrain | Http/threadpool.h:102-118 | from every such state the threads can reach the drained state |
| WorkerPoolTheorems.RunRecordsCalls | Http/threadpool.h:76 | the record of calls is the list of arguments of the calls in the run |
| WorkerPoolTheorems.ProcessedByProcessOnly | Http/threadpool.h:115-117 | a request that is not null goes to process() and is processed when that returns; only null is skipped |
| WorkerPoolTheorems.PoppedIsProcessedOnce | Http/threadpool.h:112-117 | in every run a dequeued request that is not null is processed or with a worker, exactly once; null is skipped or with a worker, never processed |
| WorkerPoolTheorems.QuietMeansServed | Http/threadpool.h:76-118 | when nothing can move, accepted requests were dequeued in order, process() was done once for each that is not null, each null was skipped, and every call was accepted or refused |
| Shell.Interpreter.ControlLine | MySh/controlflow.c:47-86 | the status and the whole new state for each control word, with the recursion on conditions |
| Shell.Interpreter.ProcessLine | MySh/process.c:9-19 | the status and the whole new state for blank, control and command lines |
| ShellTrees.CondMeaning | MySh/controlflow.c:53-57 | a condition line runs the condition of its tree and returns its status, without error |
| ShellTrees.BodyMeaning | MySh/controlflow.c:34-37 | the lines of a body run all its commands if its branch is taken, and none otherwise |
| ShellTrees.IfMeaning | MySh/controlflow.c:47-79 | the lines of an if-block do what its tree means and end in NEUTRAL |
| ShellTrees.ScriptMeaning | MySh/process.c:9-19 | feeding a script's lines runs exactly the commands of its tree, in order, to the same world, without error, ending in NEUTRAL |
| ShellTrees.BlockMeaning | MySh/controlflow.c:60-79 | after any condition line the rest of the block runs the body or the else part as if_result says and ends in NEUTRAL |
| ShellTrees.ConditionFailsIff | MySh/controlflow.c:53-57 | an `if` line fails exactly for `then`, `fi` or `else` behind it or a command with status other than 0; a chained `if` never fails |
| ShellTrees.AnyBlockMeaning | MySh/controlflow.c:47-79 | with any condition, well formed or not, the block runs its body or its else part accordingly |
| ShellTrees.MisplacedConditionRunsElse | MySh/controlflow.c:53-61 | after `if then`, `if fi` or `if else` only the else part is run, after `if if then` only the body |
| ShellReading.Unambiguous | MySh/controlflow.c:47-86 | the lines determine the tree: two scripts with the same lines are the same script |
| ShellReading.SameTextSameMeaning | MySh/process.c:9-19 | hence the lines alone fix the meaning |
| ShellGrammar.Parse | MySh/controlflow.c:47-86 | every run without errors has read a script followed by an open block that matches the if-state |
| ShellGrammar.NoErrorIffPrefix | MySh/controlflow.c:22-39 | no error is reported exactly on the prefixes of sentences, whatever the commands do |
| ShellGrammar.NeutralIffSentence | MySh/controlflow.c:47-79 | such an input ends in NEUTRAL exactly when it is a whole sentence |
| ShellGrammar.WantElseUnreachable | MySh/controlflow.c:4-10 | WANT_ELSE is never entered |
| ShellGrammar.AtMostOneError | MySh/controlflow.c:22-26 | one line reports at most one error, however its conditions are chained |
| ShellGrammar.AlikeFeed | MySh/controlflow.c:16-18 | outside blocks, if_result and last_state have no influence on what follows |
| ShellGrammar.RecoversIffRejected | MySh/controlflow.c:47-79 | after an error the rest behaves as from the initial state in the same world exactly when the outermost command reported it |
| ShellGrammar.ErrorInConditionDoesNotRecover | MySh/controlflow.c:53-57 | after `if then` the next command is refused, from the initial state it is executed |
| SharedText.Machine.ServerStep | ShmTServ/shm_tserv.c:78-90 | the whole new state after a lock, a copied byte, a release or the exit of a server |
| SharedText.Machine.ClientStep | ShmTClnt/shm_tclnt.c:69-73 | the whole new state after a lock, a byte read, a release or the exit of a client |
| SharedTextLocks.CrashKeepsLocks | ShmTServ/shm_tserv.c:37-41 | a crash at any step gives back exactly what was held; the cut-off at zero is never used |
| SharedTextLocks.SemaphoreAccounts | ShmTServ/shm_tserv.c:32-56 | in every run with the given servers and clients each semaphore counts its holders, both are never positive, and each value plus all adjustments is 0 |
| SharedTextReads.ReadsAreSnapshots | ShmTClnt/shm_tclnt.c:69-73 | for any number of servers and any crashes a completed read is the string that stood in memory at its lock |
| SharedTextReads.ReadsAreWholeTexts | ShmTServ/shm_tserv.c:83-87 | with one server and no death in mid-copy every completed read is exactly the text of the last copy finished before its lock |
| SharedTextReads.ReadsAfterTear | ShmTServ/shm_tserv.c:83-87 | after a death with k bytes copied every later read is those k bytes and then the old memory |
| SharedTextReads.TornReadIsWholeIff | ShmTServ/shm_tserv.c:85 | exactly when such a read is still the old text or already the new one |
| SharedTextReads.TornReadIsNeither | ShmTServ/shm_tserv.c:85 | one byte of "cd" over "ab" reads as "cb", which is neither |
| SharedTextReads.TearIsVisible | ShmTClnt/shm_tclnt.c:69-73 | a waiting client can take the lock after that death and print the mixture |
| SharedTextReads.MidCopyIsReachable | ShmTServ/shm_tserv.c:83-85 | two steps into every run the server is in mid-copy |
| SharedTextProgress.HolderMoves | ShmTServ/shm_tserv.c:48-56 | a lock holder can always go on; in particular its release never blocks |
| SharedTextProgress.NoDeadlock | ShmTServ/shm_tserv.c:34-54 | while a process is left some process has a next step |
| SharedTextProgress.RunsAreFinite | ShmTServ/shm_tserv.c:78-90 | no run, with or without crashes, is longer than the measure of its start |
| SharedTextProgress.StuckMeansDone | ShmTClnt/shm_tclnt.c:34-54 | a run that cannot go on has let every process go and both semaphores are 0 |
| SharedTextRounds.ServerPublishesAll | ShmTServ/shm_tserv.c:78-90 | unless the one server crashes, a run that cannot go on has finished sixty copies and memory holds the sixtieth text, whatever the clients do |
| SharedTextRounds.EveryClientPrints | ShmTClnt/shm_tclnt.c:69-73 | with at most 32767 clients, none crashing, such a run has as many completed reads as clients, whatever the servers do |
| SharedTextRounds.EveryClientPrintsIff | ShmTClnt/shm_tclnt.c:44-45 | every such run serves all clients exactly when there are at most 32767 of them |
| SharedTextRounds.AllCanBeServed | ShmTServ/shm_tserv.c:78-90 | a run without crashes exists that publishes sixty texts and serves every client |
| RoundRobin.Parent.DispatchConnection | CGIserv/processpool.h:201-216 | one dispatch chooses the first slot from the counter on, around the end, that is not -1, moves the counter behind it, and stops the parent exactly when all are -1 |
| RoundRobin.Parent.ChildDied | CGIserv/processpool.h:232-233 | the event of the environment that the comment intends: one slot is marked dead and nothing else changes; the loop below the comment does not do this |
| RoundRobin.Next | CGIserv/processpool.h:215 | every event keeps the counter within the table and the table's size |
| RoundRobin.PickIsFirstLive | CGIserv/processpool.h:202-214 | the choice is the first live slot at or cyclically after the counter, none exactly when none lives |
| RoundRobin.ShareLaw | CGIserv/processpool.h:201-216 | in every window the shares of two children alive throughout differ by the change of their order in line |
| RoundRobin.FairShares | CGIserv/processpool.h:201-216 | hence by at most one |
| RoundRobin.ServedAfterLine | CGIserv/processpool.h:201-216 | a surviving child is chosen once there were more dispatches than live children before it in line |
| RoundRobin.ServedEveryRound | CGIserv/processpool.h:201-216 | hence in any n dispatches |
| CgiScanner.Connection.Init | CGIserv/CGIserv.cpp:12-19 | a reused object has an empty, zeroed buffer |
| CgiScanner.Connection.Store | CGIserv/CGIserv.cpp:44 | the received bytes follow the earlier ones |
| CgiScanner.Connection.ScanFrom | CGIserv/CGIserv.cpp:47-51 | the first line end that is completed by the new bytes, or the end of the data |
| CgiScanner.Connection.CutLine | CGIserv/CGIserv.cpp:54-55 | the name is the text before the CR, up to an earlier NUL |
| CgiScanner.Connection.ReceiveOnce | CGIserv/CGIserv.cpp:26-61 | the body of the receive loop either ends the call as specified or leaves the rest of the call to do |
| CgiScanner.Connection.Process | CGIserv/CGIserv.cpp:20-83 | one call: its outcome, the buffer and what the socket still has |
| CgiScanner.Connection.HandleConnection | CGIserv/processpool.h:324-361 | over all calls for a connection the outcome is that of one look at the whole stream |
| CgiScanner.SessionIsOneShot | CGIserv/CGIserv.cpp:20-55 | from any unfinished line, splitting and pauses do not change the outcome |
| CgiScanner.PiecesDoNotMatter | CGIserv/CGIserv.cpp:20-55 | two ways of delivering the same stream have the same outcome |
| CgiScanner.RequestedIff | CGIserv/CGIserv.cpp:47-55 | a program is requested exactly when a line ends within the first 1023 bytes, and its name is the text before the first line end up to a NUL |
| CgiScanner.LineIsAnswered | CGIserv/CGIserv.cpp:47-55 | a line of at most 1021 bytes ended by CR LF is answered with its text, up to a NUL |
| CgiScanner.NoLineNoRequest | CGIserv/CGIserv.cpp:27-50 | a stream without CR LF in its first 1023 bytes is never answered: it is closed at its end or at 1023 bytes, and waits otherwise |
| CgiScanner.EndCloses | CGIserv/CGIserv.cpp:28-40 | a reset or the peer's end before a line end closes the connection |
| CgiScanner.PauseIsHarmless | CGIserv/CGIserv.cpp:28-34 | having nothing to read for a while changes nothing |
| CgiScanner.WaitingHasRoom | CGIserv/CGIserv.cpp:27-40 | a full buffer without a line end is closed, never left waiting |
| Utmp.Reader.Open | MyWho/utmplib.c:14-18 | opening forgets the cache and starts at the first record |
| Utmp.Reader.Reload | MyWho/utmplib.c:20-26 | a reload caches the next block of the file and is empty exactly at the end |
| Utmp.Reader.NextUser | MyWho/utmplib.c:39-40 | the next record that is a user's or the last of its block |
| Utmp.Reader.NextAny | MyWho/utmplib.c:41-44 | the next record, whatever its type |
| Utmp.Reader.Next | MyWho/utmplib.c:33-47 | the next record delivered by a walk of the file, none at its end |
| Utmp.Reader.ShowAll | MyWho/mywho.cpp:27-28 | repeated calls give the walk of the whole file |
| UtmpProofs.EverythingIsTheFile | MyWho/utmplib.c:41-44 | utmp_next(1) gives exactly the whole records in order |
| UtmpProofs.NoUserIsLost | MyWho/utmplib.c:39-40 | utmp_next(0) loses, repeats and reorders no user |
| UtmpProofs.OnlyUsersIff | MyWho/utmplib.c:39-45 | it gives only users exactly when every sixteenth record and the last one have type 7 |
| UtmpProofs.StrangerIsListed | MyWho/utmplib.c:39-45 | a file with one record that is not a user's: it is listed among the users |
| UtmpLogout.StrnEqualMeans | MyWho/utmplib.c:57 | the comparison holds exactly when the texts of the two fields are the same |
| UtmpLogout.OnLineMeans | MyWho/utmplib.c:57 | a record is on a line exactly when the first 32 characters of the names agree, whatever stands behind a NUL |
| UtmpLogout.FirstOnLine | MyWho/utmplib.c:55-64 | the first record on the line, none before it |
| UtmpLogout.LogoutTty | MyWho/utmplib.c:48-70 | only the first match changes, to type 8 and the current time with line, user and host kept, and only at an index above 0 with all calls succeeding; 0 is returned exactly then and when close succeeds; with time and write succeeding the file becomes AfterLogout of the old one |
| UtmpLogout.LogoutRemovesOneUser | MyWho/utmplib.c:55-64 | exactly the first match leaves the list of users |
| UtmpLogout.LineIsFreeIff | MyWho/utmplib.c:57-63 | nobody is on the line afterwards exactly when no record after the first match has a user on it and the first match is not a user's record at index 0 |
| UtmpLogout.FirstRecordStaysLoggedIn | MyWho/utmplib.c:60 | a user in the first record of the file stays logged in |
| UtmpLogout.StaleRecordTakesUpdate | MyWho/utmplib.c:57-63 | an older record on the line takes the update and the user in the later one stays logged in |
| Pwd.Process.GetInode | MyPwd/mypwd.c:50-58 | the inode number of the first entry of the current directory with that name; the error exit exactly when there is none |
| Pwd.Process.InumToName | MyPwd/mypwd.c:29-47 | the name of the first entry with the inode number, or the error exit |
| Pwd.Process.PrintPathTo | MyPwd/mypwd.c:17-27 | the climb ends at the root without error and prints the names from the root down |
| Pwd.Process.PrintWorkingDirectory | MyPwd/mypwd.c:11-15 | the program prints the path of the directory it was started in and a newline |
| PwdProofs.FirstMatchIsChild | MyPwd/mypwd.c:39-44 | the first match in the parent is the true child, never a dot entry, and leads back to it |
| PwdProofs.PathLeadsBack | MyPwd/mypwd.c:17-27 | the printed names lead from the root to the start; there are as many as its depth |
| PwdProofs.PrintedPathResolvesIff | MyPwd/mypwd.c:20-25 | the printed path resolves to the start exactly when that is not the root |
| PwdProofs.ResolvedPathIsPrinted | MyPwd/mypwd.c:17-27 | a path of ordinary names to a directory is the one printed there |

## Left out

- The pool's destructor and m_stop: the running pool is modelled; shutdown does not wake blocked workers.
- WorkerPool.ThreadPool.Create: does not model a failing initialisation of the mutex or semaphore, failing allocation, or the threads already started when a later one fails.
- Http/http.cpp, Http/http_conn.h and the timers: http_conn.cpp and http_time_minheap.h are not part of this model.
- Shell.Interpreter.ProcessLine: does not model builtin_command, execute and their exits; any effect on any world is allowed instead.
- Reading and splitting of command lines in MySh/mysh.c, and variables: not needed for the if-blocks.
- Start and end of the shared-memory server: clients begin after both semaphores are set and the set is not removed. The segment's last byte is zero at the start: the kernel zeroes a new segment, and every text is shorter than the segment.
- Child reaping and signals in CGIserv/processpool.h: line 235 stores the result of a comparison in pid; a death is an event instead.
- CgiScanner.Connection.ReceiveOnce: does not model the results of access and fork, which both end the connection in the parent.
- CgiScanner.Connection.Process: does not model access, fork and execl; the outcome Requested stands for the lookup of the name.
- Utmp.Reader.Reload: does not model a failing read.
- Utmp.Reader.Next: does not model read errors, short reads before the end of the file, or isAll other than 0 and 1.
- UtmpLogout.LogoutTty: does not model a failing seek, a partial write, or the fragment after the last whole record.
- Pwd.Process.PrintPathTo: does not model mount points, names of BUFSIZ or more characters, permissions, or renames during the climb.
- The ticket server and client, the file copier, the pager and the other programs: plumbing or single simple loops.
