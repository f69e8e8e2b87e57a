/**
 * The sequential skeleton of source/server.c, with threads, condition
 * variables and sockets abstracted away:
 *
 *  - `ServerListen`: a listener turns each accepted connection into a job
 *    tagged with its own port and protocol type and pushes it on the queue;
 *  - `Worker` and `RunSession`: a worker pops jobs, greets the client, and
 *    feeds each line it reads to the command interpreter until the client
 *    disconnects, ends the session, or asks for shutdown;
 *  - `InitiateServer`: the coordinator's wait for a shutdown request.
 *
 * What the environment supplies (the results of accept, of each read on a
 * session's socket, and the values the coordinator sees when it wakes up)
 * is passed in as sequences.  An exhausted sequence stands for a call that
 * blocks forever.
 */
module Server {
  import opened Wrappers
  import opened Kv
  import opened ProtocolManager

  /** struct server_config: the port a listener serves and its protocol. */
  datatype ServerConfig = ServerConfig(port: int, kind: SocketType)

  /** queue_item: an accepted connection, the port it came in on and its protocol. */
  datatype Job = Job(sock: int, port: int, kind: SocketType)

  /**
   * What read_message delivers: a zero-length read (the peer closed), or a
   * line.  Only a size of 0 ends the read loop; a failed read with a negative
   * size goes on to run_command with the buffer memset cleared, which is a
   * Line holding that buffer's content.
   */
  datatype ReadResult = Disconnected | Line(text: string)

  /** What a worker does to its sockets, in order: the greeting, a reply line, closing. */
  datatype Wire = Greet(sock: int, kind: SocketType, worker: int) | Reply(sock: int, text: string) | Close(sock: int)

  /** The shared job queue as an unbounded FIFO; its capacity and blocking are not modelled. */
  class JobQueue {
    var items: seq<Job>

    constructor ()
      ensures items == []
    {
      items := [];
    }

    /** queue_push */
    method Push(job: Job)
      modifies this
      ensures items == old(items) + [job]
    {
      items := items + [job];
    }

    /** queue_pop, on a queue that holds a job */
    method Pop() returns (job: Job)
      requires items != []
      modifies this
      ensures job == old(items)[0] && items == old(items)[1..]
    {
      job := items[0];
      items := items[1..];
    }
  }

  /** The global `server_port_that_wants_to_die`, guarded by `mutex_kill`; 0 means nobody. */
  class ShutdownState {
    var portThatWantsToDie: int

    constructor ()
      ensures portThatWantsToDie == 0
    {
      portThatWantsToDie := 0;
    }
  }

  // ---------------------------------------------------------------------
  // Listener
  // ---------------------------------------------------------------------

  /** The jobs a listener pushes for a run of accept results, -1 being a failed accept. */
  function AcceptedJobs(settings: ServerConfig, accepts: seq<int>): seq<Job>
    decreases |accepts|
  {
    if accepts == [] then []
    else
      var connection := accepts[|accepts| - 1];
      AcceptedJobs(settings, accepts[..|accepts| - 1])
        + (if connection == -1 then [] else [Job(connection, settings.port, settings.kind)])
  }

  /** The connections among the accept results, in order. */
  function Successes(accepts: seq<int>): seq<int>
    decreases |accepts|
  {
    if accepts == [] then []
    else (if accepts[0] == -1 then [] else [accepts[0]]) + Successes(accepts[1..])
  }

  /** server_listen's accept loop over the given accept results. */
  method ServerListen(settings: ServerConfig, accepts: seq<int>, queue: JobQueue)
    modifies queue
    ensures queue.items == old(queue.items) + AcceptedJobs(settings, accepts)
  {
    var i := 0;
    while i < |accepts|
      invariant i <= |accepts|
      invariant queue.items == old(queue.items) + AcceptedJobs(settings, accepts[..i])
    {
      var connection := accepts[i];
      assert accepts[..i + 1][..i] == accepts[..i];
      i := i + 1;
      if connection == -1 {
        continue;
      }
      queue.Push(Job(connection, settings.port, settings.kind));
    }
    assert accepts[..i] == accepts;
  }

  lemma {:induction false} SuccessesAppend(accepts: seq<int>, connection: int)
    ensures Successes(accepts + [connection]) == Successes(accepts) + (if connection == -1 then [] else [connection])
    decreases |accepts|
  {
    if accepts != [] {
      assert (accepts + [connection])[1..] == accepts[1..] + [connection];
      SuccessesAppend(accepts[1..], connection);
    } else {
      assert ([] + [connection])[1..] == [];
    }
  }

  /**
   * Each successful accept pushes exactly one job, in accept order, carrying
   * the listener's own port and type; a failed accept pushes nothing.
   */
  lemma {:induction false} ListenerPushesOnePerAccept(settings: ServerConfig, accepts: seq<int>)
    ensures |AcceptedJobs(settings, accepts)| == |Successes(accepts)|
    ensures forall i :: 0 <= i < |Successes(accepts)| ==>
      AcceptedJobs(settings, accepts)[i] == Job(Successes(accepts)[i], settings.port, settings.kind)
    decreases |accepts|
  {
    if accepts != [] {
      var front, connection := accepts[..|accepts| - 1], accepts[|accepts| - 1];
      assert accepts == front + [connection];
      ListenerPushesOnePerAccept(settings, front);
      SuccessesAppend(front, connection);
    }
  }

  /** Every job a listener pushes has the listener's port and type. */
  lemma ListenerJobsCarryConfig(settings: ServerConfig, accepts: seq<int>)
    ensures forall j :: j in AcceptedJobs(settings, accepts) ==> j.port == settings.port && j.kind == settings.kind
  {
    ListenerPushesOnePerAccept(settings, accepts);
    forall j | j in AcceptedJobs(settings, accepts)
      ensures j.port == settings.port && j.kind == settings.kind
    {
      var i :| 0 <= i < |AcceptedJobs(settings, accepts)| && AcceptedJobs(settings, accepts)[i] == j;
    }
  }

  // ---------------------------------------------------------------------
  // One session: the inner read loop of worker
  // ---------------------------------------------------------------------

  /** How a session ended; StillReading: the worker is blocked reading the next line. */
  datatype SessionEnd = PeerClosed | Died | ShutdownAsked | StillReading

  /** The socket events so far, the store, how the session ended and how many reads it consumed. */
  datatype Session = Session(wire: seq<Wire>, items: map<string, string>, end: SessionEnd, consumed: nat)

  /** What a session does with one line: the job type, the line and the store give the reply step. */
  type Interpreter = (SocketType, string, map<string, string>) -> Step

  /** run_command with the given parser and store decisions. */
  function CommandInterpreter(parser: Parser, policy: StorePolicy): Interpreter {
    (kind, message, items) => RunCommandStep(kind, message, parser, items, policy)
  }

  /** The session loop from read number i on, after `wire` has been sent. */
  function Dialogue(job: Job, script: seq<ReadResult>, i: nat, interp: Interpreter,
                    items: map<string, string>, wire: seq<Wire>): Session
    requires i <= |script|
    decreases |script| - i
  {
    if i == |script| then Session(wire, items, StillReading, i)
    else match script[i]
      case Disconnected => Session(wire, items, PeerClosed, i + 1)
      case Line(text) =>
        var s := interp(job.kind, text, items);
        var sent := wire + [Reply(job.sock, s.message)];
        if s.rc == RDeath then Session(sent + [Close(job.sock)], s.items, Died, i + 1)
        else if s.rc == RShutdown then Session(sent + [Close(job.sock)], s.items, ShutdownAsked, i + 1)
        else Dialogue(job, script, i + 1, interp, s.items, sent)
  }

  method RunSession(job: Job, script: seq<ReadResult>, parser: Parser, store: Store, wire0: seq<Wire>)
    returns (wire: seq<Wire>, end: SessionEnd)
    requires store.Valid() && !store.locked
    modifies store
    ensures store.Valid() && !store.locked
    ensures var s := Dialogue(job, script, 0, CommandInterpreter(parser, store.policy), old(store.items), wire0);
      wire == s.wire && end == s.end && store.items == s.items
  {
    wire := wire0;
    var i := 0;
    while true
      invariant i <= |script|
      invariant store.Valid() && !store.locked
      invariant Dialogue(job, script, 0, CommandInterpreter(parser, store.policy), old(store.items), wire0)
             == Dialogue(job, script, i, CommandInterpreter(parser, store.policy), store.items, wire)
      decreases |script| - i
    {
      if i == |script| {
        // read_message never returns: the session stays open
        end := StillReading;
        return;
      }
      var read := script[i];
      i := i + 1;
      if read.Disconnected? {
        end := PeerClosed;
        return;
      }
      var reply, isSuccess := RunCommand(store, parser, job.kind, read.text);
      wire := wire + [Reply(job.sock, reply)];
      if isSuccess == RDeath {
        wire := wire + [Close(job.sock)];
        end := Died;
        return;
      } else if isSuccess == RShutdown {
        wire := wire + [Close(job.sock)];
        end := ShutdownAsked;
        return;
      }
    }
  }

  // ---------------------------------------------------------------------
  // The worker: the outer job loop of worker
  // ---------------------------------------------------------------------

  /** WaitingForJob: blocked in queue_pop; BlockedReading: blocked in a session's read; Stopped: running is false. */
  datatype WorkerStatus = WaitingForJob | BlockedReading | Stopped

  /** The socket events, the store, the number of jobs popped, the shutdown port and the status. */
  datatype WorkerRun = WorkerRun(wire: seq<Wire>, items: map<string, string>, popped: nat, port: int, status: WorkerStatus)

  /** The script the k-th popped job's client delivers. */
  function Script(scripts: seq<seq<ReadResult>>, k: nat): seq<ReadResult> {
    if k < |scripts| then scripts[k] else []
  }

  /** The worker loop from the k-th job on. */
  function Serve(jobs: seq<Job>, scripts: seq<seq<ReadResult>>, k: nat, workerNumber: int, interp: Interpreter,
                 items: map<string, string>, wire: seq<Wire>, port: int): (r: WorkerRun)
    requires k <= |jobs|
    ensures k <= r.popped <= |jobs|
    decreases |jobs| - k
  {
    if k == |jobs| then WorkerRun(wire, items, k, port, WaitingForJob)
    else
      var job := jobs[k];
      var s := Dialogue(job, Script(scripts, k), 0, interp, items,
                        wire + [Greet(job.sock, job.kind, workerNumber)]);
      match s.end
      case StillReading => WorkerRun(s.wire, s.items, k + 1, port, BlockedReading)
      case ShutdownAsked => WorkerRun(s.wire, s.items, k + 1, job.port, Stopped)
      case _ => Serve(jobs, scripts, k + 1, workerNumber, interp, s.items, s.wire, port)
  }

  method Worker(workerNumber: int, queue: JobQueue, store: Store, kill: ShutdownState,
                parser: Parser, scripts: seq<seq<ReadResult>>)
    returns (wire: seq<Wire>, status: WorkerStatus)
    requires store.Valid() && !store.locked
    modifies queue, store, kill
    ensures store.Valid() && !store.locked
    ensures var r := Serve(old(queue.items), scripts, 0, workerNumber, CommandInterpreter(parser, store.policy), old(store.items),
                           [], old(kill.portThatWantsToDie));
      && wire == r.wire && status == r.status && store.items == r.items
      && kill.portThatWantsToDie == r.port && queue.items == old(queue.items)[r.popped..]
  {
    ghost var jobs := queue.items;
    ghost var start := Serve(jobs, scripts, 0, workerNumber, CommandInterpreter(parser, store.policy), store.items,
                             [], kill.portThatWantsToDie);
    var popped := 0;
    wire := [];
    status := WaitingForJob;
    var running := true;
    while running
      invariant popped <= |jobs| && queue.items == jobs[popped..]
      invariant store.Valid() && !store.locked
      invariant running ==>
        start == Serve(jobs, scripts, popped, workerNumber, CommandInterpreter(parser, store.policy), store.items, wire, kill.portThatWantsToDie)
      invariant !running ==>
        start == WorkerRun(wire, store.items, popped, kill.portThatWantsToDie, Stopped) && status == Stopped
      decreases |jobs| - popped
    {
      if |queue.items| == 0 {
        // queue_pop never returns
        status := WaitingForJob;
        return;
      }
      var job := queue.Pop();
      assert jobs[popped..][1..] == jobs[popped + 1..];
      var script := Script(scripts, popped);
      popped := popped + 1;
      wire := wire + [Greet(job.sock, job.kind, workerNumber)];
      var end;
      wire, end := RunSession(job, script, parser, store, wire);
      if end == StillReading {
        status := BlockedReading;
        return;
      }
      if end == ShutdownAsked {
        kill.portThatWantsToDie := job.port;  // then pthread_cond_signal(&cond_kill)
        running := false;
        status := Stopped;
      }
    }
  }

  // ---------------------------------------------------------------------
  // The coordinator: the wait loop of initiate_server
  // ---------------------------------------------------------------------

  /** Finished: the loop is left and 0 returned; Aborted: exit(1); Waiting: blocked in pthread_cond_wait. */
  datatype Verdict = Finished | Aborted | Waiting

  /** number_of_servers_alive, server_port_that_wants_to_die and the verdict. */
  datatype Coordination = Coordination(alive: int, port: int, verdict: Verdict)

  /** The wait loop from the i-th wake-up on; each wake-up sees the value a worker stored. */
  function Coordinate(cport: int, wakes: seq<int>, i: nat, alive: int, port: int): Coordination
    requires i <= |wakes|
    decreases |wakes| - i
  {
    if port != 0 then Coordination(alive, port, Finished)
    else if i == |wakes| then Coordination(alive, port, Waiting)
    else if wakes[i] == cport then
      if alive - 2 == 0 then Coordination(0, 0, Finished)
      else Coordinate(cport, wakes, i + 1, alive - 2, 0)
    else Coordination(alive, wakes[i], Aborted)
  }

  /** initiate_server: the two listener configurations, then the wait for shutdown with two servers alive. */
  method InitiateServer(cport: int, dport: int, kill: ShutdownState, wakes: seq<int>)
    returns (dataInfo: ServerConfig, controlInfo: ServerConfig, outcome: Coordination)
    modifies kill
    ensures dataInfo == ServerConfig(dport, Data) && controlInfo == ServerConfig(cport, Control)
    ensures outcome == Coordinate(cport, wakes, 0, 2, old(kill.portThatWantsToDie))
    ensures kill.portThatWantsToDie == outcome.port
  {
    dataInfo := ServerConfig(dport, Data);
    controlInfo := ServerConfig(cport, Control);
    var numberOfServersAlive := 2;
    outcome := AwaitShutdown(cport, kill, wakes, numberOfServersAlive);
  }

  /**
   * The wait loop of initiate_server, from `alive` live servers: each
   * wake-up either accepts a request from the control port (two joins are
   * counted and the port is reset) or aborts the process.  initiate_server
   * calls it with 2, so the first accepted request ends the loop; larger
   * counts describe no state the C code reaches.
   */
  method AwaitShutdown(cport: int, kill: ShutdownState, wakes: seq<int>, alive: int)
    returns (outcome: Coordination)
    modifies kill
    ensures outcome == Coordinate(cport, wakes, 0, alive, old(kill.portThatWantsToDie))
    ensures kill.portThatWantsToDie == outcome.port
  {
    var numberOfServersAlive := alive;
    var i := 0;
    while kill.portThatWantsToDie == 0
      invariant i <= |wakes|
      invariant Coordinate(cport, wakes, 0, alive, old(kill.portThatWantsToDie))
             == Coordinate(cport, wakes, i, numberOfServersAlive, kill.portThatWantsToDie)
      decreases |wakes| - i
    {
      if i == |wakes| {
        // pthread_cond_wait never returns
        outcome := Coordination(numberOfServersAlive, kill.portThatWantsToDie, Waiting);
        return;
      }
      kill.portThatWantsToDie := wakes[i];
      i := i + 1;
      if kill.portThatWantsToDie == cport {
        numberOfServersAlive := numberOfServersAlive - 1;  // first pthread_join
        numberOfServersAlive := numberOfServersAlive - 1;  // second pthread_join
        kill.portThatWantsToDie := 0;
      } else {
        outcome := Coordination(numberOfServersAlive, kill.portThatWantsToDie, Aborted);
        return;
      }
      if numberOfServersAlive == 0 {
        break;
      }
    }
    outcome := Coordination(numberOfServersAlive, kill.portThatWantsToDie, Finished);
  }

  // ---------------------------------------------------------------------
  // Properties of the session loop, the worker and the coordinator
  // ---------------------------------------------------------------------

  /** The number of lines (non-empty reads) in a run of reads. */
  function Lines(script: seq<ReadResult>): nat
    decreases |script|
  {
    if script == [] then 0 else (if script[0].Line? then 1 else 0) + Lines(script[1..])
  }

  /** The number of greetings among socket events. */
  function Greets(wire: seq<Wire>): nat
    decreases |wire|
  {
    if wire == [] then 0 else (if wire[0].Greet? then 1 else 0) + Greets(wire[1..])
  }

  /** The session ends that close the socket. */
  predicate Closes(end: SessionEnd) {
    end == Died || end == ShutdownAsked
  }

  /**
   * A session reads in order and stops reading at the first zero-length
   * read or at the line that ends the session; it only keeps reading while
   * lines keep coming.
   */
  lemma {:induction false} SessionReads(job: Job, script: seq<ReadResult>, i: nat, interp: Interpreter,
                                        items: map<string, string>, wire: seq<Wire>)
    requires i <= |script|
    ensures var s := Dialogue(job, script, i, interp, items, wire);
      && i <= s.consumed <= |script|
      && (s.end == StillReading ==> s.consumed == |script|)
      && (s.end != StillReading ==> i < s.consumed && (script[s.consumed - 1] == Disconnected <==> s.end == PeerClosed))
      && (forall j :: i <= j < s.consumed ==> script[j].Line? || (s.end == PeerClosed && j == s.consumed - 1))
    decreases |script| - i
  {
    if i < |script| && script[i].Line? {
      var step := interp(job.kind, script[i].text, items);
      if step.rc != RDeath && step.rc != RShutdown {
        SessionReads(job, script, i + 1, interp, step.items, wire + [Reply(job.sock, step.message)]);
      }
    }
  }

  /**
   * What a session sends goes after the events before it, all on the job's
   * socket, never a greeting, and a Close only as the very last event,
   * exactly when the session ended by R_DEATH or R_SHUTDOWN.
   */
  lemma {:induction false} SessionEvents(job: Job, script: seq<ReadResult>, i: nat, interp: Interpreter,
                                         items: map<string, string>, wire: seq<Wire>)
    requires i <= |script|
    ensures var s := Dialogue(job, script, i, interp, items, wire);
      && |wire| <= |s.wire| && s.wire[..|wire|] == wire
      && (Closes(s.end) ==> |wire| < |s.wire|)
      && (forall m :: |wire| <= m < |s.wire| ==> s.wire[m].sock == job.sock && !s.wire[m].Greet?)
      && (forall m :: |wire| <= m < |s.wire| ==> (s.wire[m].Close? <==> m == |s.wire| - 1 && Closes(s.end)))
    decreases |script| - i
  {
    if i < |script| && script[i].Line? {
      var step := interp(job.kind, script[i].text, items);
      var sent := wire + [Reply(job.sock, step.message)];
      if step.rc != RDeath && step.rc != RShutdown {
        SessionEvents(job, script, i + 1, interp, step.items, sent);
        var s := Dialogue(job, script, i + 1, interp, step.items, sent);
        assert s.wire[..|wire|] == s.wire[..|sent|][..|wire|];
        assert s.wire[|wire|] == sent[|wire|];
      }
    }
  }

  /**
   * A session sends exactly one reply per line it read, plus the Close when
   * it ended by R_DEATH or R_SHUTDOWN; a zero-length read sends nothing.
   */
  lemma {:induction false} SessionReplyCount(job: Job, script: seq<ReadResult>, i: nat, interp: Interpreter,
                                             items: map<string, string>, wire: seq<Wire>)
    requires i <= |script|
    ensures var s := Dialogue(job, script, i, interp, items, wire);
      && i <= s.consumed <= |script|
      && |s.wire| == |wire| + Lines(script[i..s.consumed]) + (if Closes(s.end) then 1 else 0)
    decreases |script| - i
  {
    if i == |script| {
      assert script[i..i] == [];
    } else {
      LinesFirst(script, i, i + 1);
      assert script[i + 1..i + 1] == [];
      if script[i].Line? {
        var step := interp(job.kind, script[i].text, items);
        var sent := wire + [Reply(job.sock, step.message)];
        if step.rc != RDeath && step.rc != RShutdown {
          SessionReplyCount(job, script, i + 1, interp, step.items, sent);
          var s := Dialogue(job, script, i + 1, interp, step.items, sent);
          LinesFirst(script, i, s.consumed);
        }
      }
    }
  }

  lemma LinesFirst(script: seq<ReadResult>, i: nat, j: nat)
    requires i < j <= |script|
    ensures Lines(script[i..j]) == (if script[i].Line? then 1 else 0) + Lines(script[i + 1..j])
  {
    assert script[i..j][1..] == script[i + 1..j];
  }

  /** The interpreter asks for shutdown only on CONTROL jobs. */
  ghost predicate ShutsDownOnlyOnControl(interp: Interpreter) {
    forall kind, message, items :: interp(kind, message, items).rc == RShutdown ==> kind == Control
  }

  /** run_command returns R_SHUTDOWN only on a CONTROL job, whatever the parser and the store decide. */
  lemma CommandInterpreterShutsDownOnlyOnControl(parser: Parser, policy: StorePolicy)
    ensures ShutsDownOnlyOnControl(CommandInterpreter(parser, policy))
  {
    forall kind, message, items
      ensures CommandInterpreter(parser, policy)(kind, message, items).rc == RShutdown ==> kind == Control
    {
      ReturnCodes(kind, message, parser, items, policy);
    }
  }

  /** Only a CONTROL job's session can end in a shutdown request. */
  lemma {:induction false} ShutdownOnlyFromControl(job: Job, script: seq<ReadResult>, i: nat, interp: Interpreter,
                                                   items: map<string, string>, wire: seq<Wire>)
    requires i <= |script| && ShutsDownOnlyOnControl(interp)
    ensures Dialogue(job, script, i, interp, items, wire).end == ShutdownAsked ==> job.kind == Control
    decreases |script| - i
  {
    if i < |script| && script[i].Line? {
      var step := interp(job.kind, script[i].text, items);
      if step.rc != RDeath && step.rc != RShutdown {
        ShutdownOnlyFromControl(job, script, i + 1, interp, step.items, wire + [Reply(job.sock, step.message)]);
      }
    }
  }

  /**
   * A zero-length read or an R_DEATH ends the session but not the worker,
   * which goes on with the next job; R_SHUTDOWN stops the worker and records
   * the job's port.
   */
  lemma SessionEndDecidesWorker(jobs: seq<Job>, scripts: seq<seq<ReadResult>>, k: nat, workerNumber: int,
                                interp: Interpreter, items: map<string, string>,
                                wire: seq<Wire>, port: int)
    requires k < |jobs|
    ensures var job := jobs[k];
      var s := Dialogue(job, Script(scripts, k), 0, interp, items,
                        wire + [Greet(job.sock, job.kind, workerNumber)]);
      var r := Serve(jobs, scripts, k, workerNumber, interp, items, wire, port);
      && (s.end == PeerClosed || s.end == Died ==>
            r == Serve(jobs, scripts, k + 1, workerNumber, interp, s.items, s.wire, port))
      && (s.end == ShutdownAsked ==> r == WorkerRun(s.wire, s.items, k + 1, job.port, Stopped))
      && (s.end == StillReading ==> r == WorkerRun(s.wire, s.items, k + 1, port, BlockedReading))
  {
  }

  /**
   * A worker stops only after a CONTROL job's session asked for shutdown,
   * and then the shutdown port is that job's port; otherwise the port is
   * left as it was.  A worker waiting for a job has popped every job.
   */
  lemma {:induction false} WorkerShutdownRecordsJobPort(jobs: seq<Job>, scripts: seq<seq<ReadResult>>, k: nat,
                                                        workerNumber: int, interp: Interpreter,
                                                        items: map<string, string>,
                                                        wire: seq<Wire>, port: int)
    requires k <= |jobs| && ShutsDownOnlyOnControl(interp)
    ensures var r := Serve(jobs, scripts, k, workerNumber, interp, items, wire, port);
      && (r.status == Stopped ==> k < r.popped && jobs[r.popped - 1].kind == Control && r.port == jobs[r.popped - 1].port)
      && (r.status != Stopped ==> r.port == port)
      && (r.status == WaitingForJob ==> r.popped == |jobs|)
    decreases |jobs| - k
  {
    if k < |jobs| {
      var job := jobs[k];
      var s := Dialogue(job, Script(scripts, k), 0, interp, items,
                        wire + [Greet(job.sock, job.kind, workerNumber)]);
      ShutdownOnlyFromControl(job, Script(scripts, k), 0, interp, items,
                              wire + [Greet(job.sock, job.kind, workerNumber)]);
      if s.end == PeerClosed || s.end == Died {
        WorkerShutdownRecordsJobPort(jobs, scripts, k + 1, workerNumber, interp, s.items, s.wire, port);
      }
    }
  }

  lemma {:induction false} GreetsAppend(a: seq<Wire>, b: seq<Wire>)
    ensures Greets(a + b) == Greets(a) + Greets(b)
    decreases |a|
  {
    if a != [] {
      assert (a + b)[1..] == a[1..] + b;
      GreetsAppend(a[1..], b);
    } else {
      assert a + b == b;
    }
  }

  lemma {:induction false} NoGreets(w: seq<Wire>)
    requires forall m :: 0 <= m < |w| ==> !w[m].Greet?
    ensures Greets(w) == 0
    decreases |w|
  {
    if w != [] {
      NoGreets(w[1..]);
    }
  }

  /** A session opened with a greeting adds that greeting and no other. */
  lemma SessionAfterGreeting(job: Job, script: seq<ReadResult>, interp: Interpreter, items: map<string, string>, wire: seq<Wire>, greet: Wire)
    requires greet.Greet?
    ensures var s := Dialogue(job, script, 0, interp, items, wire + [greet]);
      && |wire| < |s.wire| && s.wire[..|wire|] == wire && s.wire[|wire|] == greet
      && Greets(s.wire[|wire|..]) == 1
  {
    var g := wire + [greet];
    var s := Dialogue(job, script, 0, interp, items, g);
    SessionEvents(job, script, 0, interp, items, g);
    var tail := s.wire[|g|..];
    NoGreets(tail);
    assert s.wire == g + tail;
    assert s.wire[|wire|..] == [greet] + tail;
    GreetsAppend([greet], tail);
  }

  /** Greetings in an extension of a sequence of events: those before the extension plus those in it. */
  lemma GreetsOfExtension(a: seq<Wire>, b: seq<Wire>, n: nat)
    requires n <= |a| <= |b| && b[..|a|] == a
    ensures Greets(b[n..]) == Greets(a[n..]) + Greets(b[|a|..])
  {
    assert b == a + b[|a|..];
    assert b[n..] == a[n..] + b[|a|..];
    GreetsAppend(a[n..], b[|a|..]);
  }

  /**
   * A worker only appends to what was sent before, and its first event is
   * the greeting of the first job it pops.
   */
  lemma {:induction false} WorkerGreetsFirst(jobs: seq<Job>, scripts: seq<seq<ReadResult>>, k: nat,
                                             workerNumber: int, interp: Interpreter,
                                             items: map<string, string>,
                                             wire: seq<Wire>, port: int)
    requires k <= |jobs|
    ensures var r := Serve(jobs, scripts, k, workerNumber, interp, items, wire, port);
      && |wire| <= |r.wire| && r.wire[..|wire|] == wire
      && (r.popped > k ==> |wire| < |r.wire| && r.wire[|wire|] == Greet(jobs[k].sock, jobs[k].kind, workerNumber))
    decreases |jobs| - k
  {
    if k < |jobs| {
      var job := jobs[k];
      var greet := Greet(job.sock, job.kind, workerNumber);
      var s := Dialogue(job, Script(scripts, k), 0, interp, items, wire + [greet]);
      SessionAfterGreeting(job, Script(scripts, k), interp, items, wire, greet);
      if s.end == PeerClosed || s.end == Died {
        WorkerGreetsFirst(jobs, scripts, k + 1, workerNumber, interp, s.items, s.wire, port);
        var r := Serve(jobs, scripts, k + 1, workerNumber, interp, s.items, s.wire, port);
        assert r.wire[..|wire|] == r.wire[..|s.wire|][..|wire|];
      }
    }
  }

  /** Every popped job gets exactly one greeting: the worker sends one greeting per popped job. */
  lemma {:induction false} OneGreetingPerJob(jobs: seq<Job>, scripts: seq<seq<ReadResult>>, k: nat,
                                             workerNumber: int, interp: Interpreter,
                                             items: map<string, string>,
                                             wire: seq<Wire>, port: int)
    requires k <= |jobs|
    ensures var r := Serve(jobs, scripts, k, workerNumber, interp, items, wire, port);
      |wire| <= |r.wire| && Greets(r.wire[|wire|..]) == r.popped - k
    decreases |jobs| - k
  {
    var r := Serve(jobs, scripts, k, workerNumber, interp, items, wire, port);
    if k == |jobs| {
      assert r.wire[|wire|..] == [];
    } else {
      var job := jobs[k];
      var greet := Greet(job.sock, job.kind, workerNumber);
      var s := Dialogue(job, Script(scripts, k), 0, interp, items, wire + [greet]);
      SessionAfterGreeting(job, Script(scripts, k), interp, items, wire, greet);
      if s.end == PeerClosed || s.end == Died {
        var r' := Serve(jobs, scripts, k + 1, workerNumber, interp, s.items, s.wire, port);
        SessionEndDecidesWorker(jobs, scripts, k, workerNumber, interp, items, wire, port);
        OneGreetingPerJob(jobs, scripts, k + 1, workerNumber, interp, s.items, s.wire, port);
        WorkerGreetsFirst(jobs, scripts, k + 1, workerNumber, interp, s.items, s.wire, port);
        GreetsOfExtension(s.wire, r'.wire, |wire|);
      }
    }
  }

  /** The jobs the two listeners of initiate_server can put on the queue. */
  predicate FromListeners(job: Job, cport: int, dport: int) {
    (job.kind == Data && job.port == dport) || (job.kind == Control && job.port == cport)
  }

  /** Whatever interleaving of the two listeners' pushes the queue holds, each job is one of theirs. */
  lemma ListenersOnlyQueueTheirJobs(cport: int, dport: int, dataAccepts: seq<int>, controlAccepts: seq<int>,
                                    jobs: seq<Job>)
    requires forall j :: j in jobs ==>
      j in AcceptedJobs(ServerConfig(dport, Data), dataAccepts)
      || j in AcceptedJobs(ServerConfig(cport, Control), controlAccepts)
    ensures forall j :: j in jobs ==> FromListeners(j, cport, dport)
  {
    ListenerJobsCarryConfig(ServerConfig(dport, Data), dataAccepts);
    ListenerJobsCarryConfig(ServerConfig(cport, Control), controlAccepts);
  }

  /**
   * The first wake-up decides: the control port finishes with both joins
   * counted (none alive) and the port reset, any other value (0 included)
   * aborts, and a
   * request stored before the wait begins skips the loop with both servers
   * still counted alive.
   */
  lemma CoordinatorFromStart(cport: int, wakes: seq<int>, port0: int)
    ensures Coordinate(cport, wakes, 0, 2, port0) ==
      if port0 != 0 then Coordination(2, port0, Finished)
      else if |wakes| == 0 then Coordination(2, 0, Waiting)
      else if wakes[0] == cport then Coordination(0, 0, Finished)
      else Coordination(2, wakes[0], Aborted)
  {
  }

  /**
   * From an even number of live servers the wait loop finishes exactly when
   * the next alive/2 wake-ups all see the control port, and then nobody is
   * alive and the port is reset; an abort leaves the offending value.
   * Only alive == 2 is reachable from initiate_server: a second round would
   * also wait on cond_kill after mutex_kill was released, which the C code
   * never does.
   */
  lemma {:induction false} CoordinatorNeedsOneWakePerPair(cport: int, wakes: seq<int>, i: nat, alive: int)
    requires i <= |wakes| && alive > 0 && alive % 2 == 0
    ensures var c := Coordinate(cport, wakes, i, alive, 0);
      && (c.verdict == Finished <==>
            i + alive / 2 <= |wakes| && forall j :: i <= j < i + alive / 2 ==> wakes[j] == cport)
      && (c.verdict == Finished ==> c.alive == 0 && c.port == 0)
      && (c.verdict == Aborted ==> c.port != cport)
    decreases alive
  {
    if i < |wakes| && wakes[i] == cport && alive != 2 {
      CoordinatorNeedsOneWakePerPair(cport, wakes, i + 1, alive - 2);
    }
  }

  /**
   * Across both files: a SHUTDOWN command can only come in on a CONTROL job,
   * CONTROL jobs carry cport, so the port a stopped worker records is cport
   * and the coordinator, woken with it, finishes instead of calling exit(1).
   */
  lemma ShutdownCommandNeverAborts(cport: int, dport: int, jobs: seq<Job>, scripts: seq<seq<ReadResult>>,
                                   workerNumber: int, parser: Parser, policy: StorePolicy,
                                   items: map<string, string>, port0: int)
    requires forall j :: j in jobs ==> FromListeners(j, cport, dport)
    ensures var r := Serve(jobs, scripts, 0, workerNumber, CommandInterpreter(parser, policy), items, [], port0);
      r.status == Stopped ==> r.port == cport && Coordinate(cport, [r.port], 0, 2, 0) == Coordination(0, 0, Finished)
  {
    var interp := CommandInterpreter(parser, policy);
    var r := Serve(jobs, scripts, 0, workerNumber, interp, items, [], port0);
    CommandInterpreterShutsDownOnlyOnControl(parser, policy);
    WorkerShutdownRecordsJobPort(jobs, scripts, 0, workerNumber, interp, items, [], port0);
    if r.status == Stopped {
      assert jobs[r.popped - 1] in jobs;
      CoordinatorFromStart(cport, [r.port], 0);
    }
  }
}
