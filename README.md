# kvs_server: a Dafny model of the command interpreter and the server loops

kvs_server is a TCP key-value server with two listening ports:

- a DATA port, which serves COUNT, EXISTS, GET, PUT and DELETE on a store shared by all clients;
- a CONTROL port, which serves COUNT and SHUTDOWN.

Each port has a listener that turns accepted connections into jobs on one shared queue. A pool of workers takes jobs from the queue. For each job, a worker greets the client and then hands every line it reads to the command interpreter, until the session ends. A SHUTDOWN on the control port wakes the main thread, which calls `pthread_join` twice on its own handle, counts each call as one server stopped, and returns.

This project models the following, in five modules.

- `Wrappers`: the option type.
- `Decimal`: what `sprintf("%d\n")` prints, plus an independent parser that reads it back.
- `Kv`: the store interface of `kv.h` and the store mutex `mutex_kvs`, as a class `Store`. The store is an abstract map. Whether `createItem` or `deleteItem` accepts a request is the store's own decision, passed in as a `StorePolicy`. A ghost flag and a ghost trace of lock and call events record the mutex discipline.
- `ProtocolManager`: `run_command` and the two protocol handlers. The pure functions `DataStep`, `ControlStep` and `RunCommandStep` state what a handler decides. The methods of the same names perform that decision on a `Store`, and each is proved to agree with its function and to make its store call only between a lock and an unlock.
- `Server`: the job queue, the accept loop of `server_listen`, the session and job loops of `worker`, and the shutdown wait loop of `initiate_server`.
  - The environment is passed in as sequences: the accept results, the reads of each session, and the values the coordinator sees when it wakes.
  - An exhausted sequence stands for a call that blocks forever.
  - Each loop is a method proved equal to a recursive function (`AcceptedJobs`, `Dialogue`, `Serve`, `Coordinate`). The lemmas are proved about those functions.
  - `Dialogue` and `Serve` take the command interpreter as a function argument. The methods pass `CommandInterpreter`, which is `run_command`. The session lemmas hold for any interpreter; those that need a fact about `run_command` (shutdown only on CONTROL jobs) state it as a precondition, proved for `CommandInterpreter`.

Where the comments in the C code and its behaviour differ, the model follows the code:

- A successful PUT replies `Success.`, even though the doc comment of `parse_message_with_data_protocol` promises `Stored key successfully.`.
- Whether PUT on an existing key overwrites it is decided by `createItem`; the comment at `source/protocol_manager.c:161` says it fails. The model therefore does not assume overwriting. `PutThenGet` holds for any store decision.
- An invalid DATA command replies `Error, command not found.` (line 198). Only values of the command enum that fall outside every named case reply `Command not found.`.
- After a shutdown, the coordinator calls `pthread_join` twice on its own handle (`source/server.c:42`), counts each call as one server stopped, and returns. The code never tells the listeners to stop.

## Model

| member | source | states |
|---|---|---|
| Decimal.Digits | source/protocol_manager.c:57 | the decimal digits of a natural number: at least one digit, and no leading zero unless the number is 0 |
| Decimal.FormatInt | source/protocol_manager.c:127 | what `%d` prints: a leading minus sign exactly for negative numbers, otherwise a digit first |
| Decimal.DigitsRoundTrip | source/protocol_manager.c:137 | reading back the digits of n gives n |
| Decimal.FormatIntRoundTrip | source/protocol_manager.c:127 | reading back what `%d` printed gives the printed integer |
| Decimal.FormatIntInjective | source/protocol_manager.c:57 | different integers are printed differently |
| Kv.BracketKeepsLockFree | source/protocol_manager.c:123-125 | a lock, one store call and an unlock leave a free mutex free and the lock discipline intact |
| Kv.CallsHappenUnderLock | source/protocol_manager.c:143-145 | in a trace that keeps the discipline, every store call happens while the mutex is held |
| Kv.LockStateAppend | source/protocol_manager.c:162-164 | unfolding lemma: replaying a trace one event longer is one more step of the mutex state |
| Kv.Store.Lock | source/protocol_manager.c:177 | takes the free mutex, records the acquire event and leaves the store as it was |
| Kv.Store.Unlock | source/protocol_manager.c:179 | releases the held mutex, records the release event and leaves the store as it was |
| Kv.Store.CountItems | source/protocol_manager.c:124 | under the lock: the number of stored keys, with the store unchanged |
| Kv.Store.ItemExists | source/protocol_manager.c:134 | under the lock: 1 if the key is stored and 0 if not, with the store unchanged |
| Kv.Store.FindValue | source/protocol_manager.c:144 | under the lock: the stored value, or none when the key is absent |
| Kv.Store.CreateItem | source/protocol_manager.c:163 | under the lock: status 0 binds the key to the text; any other status leaves the store unchanged |
| Kv.Store.DeleteItem | source/protocol_manager.c:178 | under the lock: status 0 removes the key; any other status leaves the store unchanged |
| ProtocolManager.ParseMessageWithControlProtocol | source/protocol_manager.c:26-65 | reply, return code and store equal `ControlStep` of the parsed command; the store is unchanged; the store is locked and called only for COUNT |
| ProtocolManager.ParseMessageWithDataProtocol | source/protocol_manager.c:107-211 | reply, return code and store equal `DataStep` of the parsed command; exactly one guarded store call for COUNT, EXISTS, GET, PUT and DELETE, and none otherwise |
| ProtocolManager.RunCommand | source/protocol_manager.c:219-229 | DATA jobs get the data protocol and CONTROL jobs the control protocol; any other type returns R_ERROR with the buffer, the store and the mutex untouched |
| ProtocolManager.ReturnCodes | source/protocol_manager.c:32-50 | R_SHUTDOWN exactly for CONTROL SHUTDOWN; R_DEATH exactly for DATA end-of-session or an empty CONTROL line, always with "Goodbye."; R_ERROR exactly for an unknown job type |
| ProtocolManager.OnlyAcceptedWritesChangeStore | source/protocol_manager.c:155-186 | only a DATA PUT or DELETE changes the store, and only by that one key when the store returned 0 |
| ProtocolManager.CountReplyReadsBack | source/protocol_manager.c:53-58 | a COUNT reply on either port is a newline-terminated number that reads back as the number of stored keys |
| ProtocolManager.CountAgreesAcrossPorts | source/protocol_manager.c:120-127 | COUNT gives the same line on the DATA port as on the CONTROL port |
| ProtocolManager.ExistsReplyReadsBack | source/protocol_manager.c:130-137 | the EXISTS reply reads back as 1 exactly when the key is stored and as 0 exactly when it is not |
| ProtocolManager.GetReply | source/protocol_manager.c:140-152 | GET replies the stored value followed by a newline, or "No such key." when the key is absent |
| ProtocolManager.PutThenGet | source/protocol_manager.c:155-171 | PUT replies "Success." exactly when createItem returned 0, and then a GET reads the text and EXISTS reads 1; otherwise it replies "Error storing key." with the store unchanged |
| ProtocolManager.DeleteThenAbsent | source/protocol_manager.c:174-186 | DELETE replies "Success." exactly when deleteItem returned 0, and then GET says "No such key." and EXISTS reads 0; otherwise it replies "Error, no key found." with the store unchanged |
| ProtocolManager.DataErrorReplies | source/protocol_manager.c:194-208 | each parse error has its own reply line, and none is a success, a goodbye, a closed session or a store change |
| ProtocolManager.RepliesAreLines | source/protocol_manager.c:60-62 | every reply ends in a newline, except where the buffer is handed back untouched: an unknown job type, or a CONTROL command outside the three known ones |
| Server.JobQueue.Push | source/server.c:180 | appends the job at the tail |
| Server.JobQueue.Pop | source/server.c:103 | removes and returns the head job |
| Server.ServerListen | source/server.c:165-181 | the queue grows by exactly `AcceptedJobs` of the accept results: one job per successful accept, in order |
| Server.SuccessesAppend | source/server.c:172-176 | helper lemma: a failed accept adds no connection and a successful accept adds its own |
| Server.ListenerPushesOnePerAccept | source/server.c:170-180 | one job per successful accept, in accept order, each carrying the connection and the listener's port and type |
| Server.ListenerJobsCarryConfig | source/server.c:179 | every job a listener pushes carries that listener's port and type |
| Server.RunSession | source/server.c:115-148 | the read loop's replies, closes, store and ending equal `Dialogue` of the reads |
| Server.SessionReads | source/server.c:119-124 | a session reads in order and stops at the first zero-length read or at a line that ends it; while it keeps going, every read was a line |
| Server.SessionEvents | source/server.c:126-140 | a session only appends events, all on its own socket and never a greeting; a Close comes last, exactly when the session ended by R_DEATH or R_SHUTDOWN |
| Server.SessionReplyCount | source/server.c:126-132 | one reply per line read, plus a Close for R_DEATH and R_SHUTDOWN; a zero-length read sends nothing |
| Server.CommandInterpreterShutsDownOnlyOnControl | source/protocol_manager.c:219-228 | whatever the parser and the store decide, run_command returns R_SHUTDOWN only on a CONTROL job |
| Server.ShutdownOnlyFromControl | source/server.c:138-142 | a session ends in a shutdown request only on a CONTROL job |
| Server.Serve | source/server.c:101-149 | the number of jobs popped never exceeds the number of jobs queued |
| Server.Worker | source/server.c:100-149 | socket events, store, shutdown port and what remains on the queue equal `Serve` of the queued jobs and the sessions' reads |
| Server.SessionEndDecidesWorker | source/server.c:134-146 | unfolding lemma: after a zero-length read or R_DEATH the worker pops the next job; R_SHUTDOWN stops the worker and records the job's port |
| Server.WorkerShutdownRecordsJobPort | source/server.c:138-146 | a worker stops only after a CONTROL job's shutdown, and then records that job's port; otherwise the shutdown port is unchanged; a worker waiting for a job has popped every job |
| Server.SessionAfterGreeting | source/server.c:106-111 | a session opened with a greeting adds that greeting and no other |
| Server.GreetsOfExtension | source/server.c:108-111 | helper lemma: the greetings in an extended event sequence are those before the extension plus those in it |
| Server.WorkerGreetsFirst | source/server.c:103-111 | a worker only appends events, and its first event is the greeting of the first job it pops |
| Server.OneGreetingPerJob | source/server.c:105-111 | the worker sends exactly one greeting per popped job |
| Server.ListenersOnlyQueueTheirJobs | source/server.c:44-49 | whatever the interleaving of the two listeners' pushes, every queued job is a DATA job on dport or a CONTROL job on cport |
| Server.InitiateServer | source/server.c:41-59 | configures DATA on dport and CONTROL on cport, then waits as `Coordinate` from two live servers |
| Server.AwaitShutdown | source/server.c:63-88 | the wait loop's live count, shutdown port and outcome equal `Coordinate` of the wake-ups |
| Server.CoordinatorFromStart | source/server.c:64-80 | the first wake decides: the control port finishes with both joins counted (none alive) and the port reset; any other value, 0 included, exits; a request stored before the wait skips the loop |
| Server.CoordinatorNeedsOneWakePerPair | source/server.c:63-88 | from an even live count, the loop finishes exactly when the next alive/2 wakes all see the control port, and then none is alive and the port is reset; an exit leaves a port other than the control port |
| Server.ShutdownCommandNeverAborts | source/server.c:142 | with jobs from the two listeners, a stopped worker has recorded cport, and the coordinator woken with it finishes instead of calling exit(1) |

## Left out

- Threads, `pthread_cond_wait`/`pthread_cond_signal` and the scheduler: each loop is modelled for one thread, with the environment's inputs given as sequences. Interleavings of several workers are not modelled beyond the store's lock trace.
- The wake-up handshake in `initiate_server`: no wake-up can be lost. A worker stores the port and signals only while it holds `mutex_kill`. The main thread holds `mutex_kill` from `source/server.c:63` until `pthread_cond_wait` releases it. A port stored before the wait is caught by the check at the loop head, which the model follows, and a later store wakes the waiter. The interleaving itself is not modelled.
- `pthread_join` on `data_thread` and `control_thread`: in the code both are the main thread's own handle. The model counts the two joins as decrements and does not model any blocking or failure in them.
- The listeners after a shutdown: nothing in the code stops them. `ServerListen` models the accept loop for a finite run of accept results.
- The queue's fixed capacity and its blocking push and pop: `Server.JobQueue` is an unbounded FIFO, and an empty queue stands for a pop that blocks forever.
- The parser (`parse_c`, `parse_d` in parser.h): it is not part of this model and is given as two total functions. The model also assumes `parse_c` leaves the buffer unchanged.
- The store's internals (kv.c is not part of this model), including its capacity and whether PUT overwrites: the store's verdicts are the `StorePolicy` functions.
- Kv.Store.ItemExists: the result of `itemExists` is taken to be exactly 1 or 0, as the doc comment at `source/protocol_manager.c:95-99` says; kv.h is not part of this model, and lines 134-137 print whatever int it returns.
- Server.AwaitShutdown and Server.CoordinatorNeedsOneWakePerPair: their cases with more than two live servers describe no reachable state. `initiate_server` starts the count at 2, and the first accepted request ends the loop. A second round would also wait with `mutex_kill` already released at line 81.
- Kv.Store.FindValue: returns the stored value itself. Aliasing of the returned C pointer, and the store keeping the heap copy of the text, are not modelled.
- Socket setup, `accept`, `read_message`, `send_message` and the greeting text (socket_helper.c and message_manager.c): the greeting is an event that carries the job type and the worker number.
- Send failures passed to `error_handler`: the model treats every send as succeeding.
- Failed reads: only `read_size == 0` ends the read loop (`source/server.c:121`). A read that fails with a negative size goes on to `run_command` with the buffer that `memset` cleared at line 117. The model has no separate case for it: such a read is a `Line` whose text is that buffer's content.
- C strings: line texts, keys and values stand for C strings up to their terminating NUL, that is, text without NUL characters. `|message| == 0` in `ControlStep` models `strlen` only for such text. The `%s` of GET copies the whole stored value as for such text. A line whose first byte is NUL, which C reads as empty, is not modelled.
- C memory: the 512-byte and MAX_MESSAGE_SIZE buffers, `memset` of 256 bytes, a `sprintf` longer than the buffer, and the leaked `malloc` of `text` are not modelled. Lines, keys and values are unbounded strings.
- Logging (`DEBUG_PRINT`, `printf`, `perro`) and `init_worker_pool`: these have no effect the model can observe.
