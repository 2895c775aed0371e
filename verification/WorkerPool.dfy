/** Exclusive execution, task and CDP leases over worker processes that may do anything. */
module WorkerPool {
  import opened Wrappers
  import opened Heartbeat

  datatype Assignment = Assignment(executionId: string, taskId: string, cdpUrl: string)

  datatype Handle = Handle(executionId: string, taskId: string, cdpUrl: string, pid: int)

  datatype ExitReceipt = ExitReceipt(executionId: string, taskId: string, pid: int, exitCode: int)

  datatype PoolError =
    | LeaseConflict
    | StartFailed
    | UnknownWorker
    | InvalidTimeout
    | NotEnded
    | HeartbeatFailed(why: HeartbeatError)
    | MessageError   // what reading an unreadable message raised
    | Lifecycle(unresponsive: seq<string>)

  /** What the parent has asked of a process. */
  datatype Request = Terminating | Killing | Joining(timeout: Option<real>)

  /** A spawned child process. It runs on its own: each time the parent looks, it may have ended. */
  class Process {
    const pid: int
    var alive: bool
    var exitCode: Option<int>
    ghost var asked: seq<Request>

    ghost predicate Plausible()
      reads this
    {
      alive <==> exitCode == None
    }

    constructor (pid: int)
      ensures Plausible() && this.pid == pid && alive && asked == []
    {
      this.pid, alive, exitCode, asked := pid, true, None, [];
    }

    /** What running on may change: it can only end. */
    twostate predicate RanOn()
      reads this
    {
      (alive ==> old(alive)) && Plausible()
    }

    /** It was asked everything that could stop it, and is running. */
    twostate predicate Withstood()
      reads this
    {
      alive && asked == old(asked) + STOPPING
    }

    method RunOn()
      requires Plausible()
      modifies this
      ensures RanOn() && asked == old(asked)
    {
      if * {
        alive := false;
        if exitCode == None {
          var code: int := *;
          exitCode := Some(code);
        }
      }
    }

    method IsAlive() returns (r: bool)
      requires Plausible()
      modifies this
      ensures RanOn() && r == alive && asked == old(asked)
    {
      RunOn();
      r := alive;
    }

    /** `join(timeout)`; without a timeout it returns only when the process has ended. */
    method Join(timeout: Option<real>)
      requires Plausible()
      modifies this
      ensures RanOn() && (timeout == None ==> !alive) && asked == old(asked) + [Joining(timeout)]
    {
      RunOn();
      asked := asked + [Joining(timeout)];
      if timeout == None && alive {
        var code: int := *;
        alive, exitCode := false, Some(code);
      }
    }

    /** `terminate()` and `kill()`: the process may or may not end, and the call may raise. */
    method Signal(request: Request) returns (ok: bool)
      requires Plausible()
      modifies this
      ensures RanOn() && asked == old(asked) + [request]
    {
      RunOn();
      asked := asked + [request];
      ok := *;
    }
  }

  /** The multiprocessing context and the model of a handle: what a start asks of them may fail, which is counted. */
  class Context {
    ghost var faults: nat
    ghost var started: set<Process>   // every process that it ever spawned

    constructor ()
      ensures faults == 0 && started == {}
    {
      faults, started := 0, {};
    }

    /** `Queue()` */
    method MakeQueue() returns (queue: Option<seq<Message>>)
      modifies this
      ensures started == old(started) && faults == old(faults) + (if queue == None then 1 else 0)
    {
      var messages: seq<Message> := *;
      queue := Some(messages);
      if * {
        queue, faults := None, faults + 1;
      }
    }

    /** `Process(...)` and `start()`: they may spawn and return, spawn and raise, raise without spawning, or
        return with no process behind them. None stands for a process object without a pid. */
    method SpawnProcess() returns (process: Option<Process>, raised: bool)
      modifies this
      ensures process.Some? ==> fresh(process.value) && process.value.Plausible() && process.value.pid > 0
      ensures process.Some? ==> process.value.asked == []
      ensures faults == old(faults) + (if raised || process == None then 1 else 0)
      ensures started == old(started) + (if process.Some? then {process.value} else {})
    {
      raised := *;
      process := None;
      var pid: int := *;
      if pid > 0 {
        var p := new Process(pid);
        process, started := Some(p), started + {p};
      }
      if raised || process == None { faults := faults + 1; }
    }

    /** `WorkerHandle(...)` */
    method MakeHandle(a: Assignment, pid: int) returns (handle: Option<Handle>)
      modifies this
      ensures started == old(started) && faults == old(faults) + (if handle == None then 1 else 0)
      ensures handle.Some? ==> handle.value == Handle(a.executionId, a.taskId, a.cdpUrl, pid)
    {
      handle := Some(Handle(a.executionId, a.taskId, a.cdpUrl, pid));
      if * {
        handle, faults := None, faults + 1;
      }
    }
  }

  /** `queue` is what the worker's queue will yet hand out, now or later: a drain takes some of it, until the queue
      reports that it is empty, closed or broken. */
  datatype Slot = Slot(
    assignment: Assignment,
    process: Process,
    queue: seq<Message>,
    heartbeatError: Option<HeartbeatError>)

  /** A heartbeat of this execution and this process. */
  predicate Addressed(message: Message, e: string, pid: int) {
    message.Beat? && message.heartbeat.executionId == e && message.heartbeat.pid == pid
  }

  /** The last of `messages` is taken, if the lifecycle was active before them: nothing is after an end mark. */
  predicate TakesLast(messages: seq<Message>, e: string, pid: int, active: bool)
    requires messages != []
  {
    var n := |messages| - 1;
    active && Addressed(messages[n], e, pid) && EndMark !in messages[..n]
  }

  /** The heartbeats among `messages` that are taken, in order. */
  function Accepted(messages: seq<Message>, e: string, pid: int, active: bool): seq<WorkerHeartbeat> {
    if messages == [] then []
    else Accepted(messages[..|messages| - 1], e, pid, active)
         + if TakesLast(messages, e, pid, active) then [messages[|messages| - 1].heartbeat] else []
  }

  /** The last heartbeat taken from a worker, once `taken` are. */
  function Latest(before: Record, taken: seq<WorkerHeartbeat>): Option<WorkerHeartbeat> {
    if taken == [] then before.latest else Some(taken[|taken| - 1])
  }

  /** One of `messages` is refused. */
  predicate Flawed(messages: seq<Message>, e: string, pid: int, active: bool) {
    messages != []
    && (Flawed(messages[..|messages| - 1], e, pid, active)
        || (!TakesLast(messages, e, pid, active) && !messages[|messages| - 1].EndMark?))
  }

  lemma OneMoreMessage(messages: seq<Message>, m: Message, e: string, pid: int, active: bool)
    ensures var takes := active && EndMark !in messages && Addressed(m, e, pid);
            && Accepted(messages + [m], e, pid, active)
               == Accepted(messages, e, pid, active) + (if takes then [m.heartbeat] else [])
            && (Flawed(messages + [m], e, pid, active)
                <==> Flawed(messages, e, pid, active) || (!takes && !m.EndMark?))
  {
    var more := messages + [m];
    assert more[..|more| - 1] == messages && more[|more| - 1] == m;
  }

  /** What a drain has taken from a queue. */
  function Taken(before: Slot, after: Slot): seq<Message> {
    if |after.queue| <= |before.queue| then before.queue[..|before.queue| - |after.queue|] else []
  }

  /** At most the slot of `e` is changed: some of its queue was taken, and an error may have been noted if there was
      none. */
  predicate DrainedTo(e: string, before: map<string, Slot>, after: map<string, Slot>) {
    && e in before && e in after
    && after == before[e := before[e].(heartbeatError := after[e].heartbeatError, queue := after[e].queue)]
    && |after[e].queue| <= |before[e].queue|
    && after[e].queue == before[e].queue[|before[e].queue| - |after[e].queue|..]
    && (before[e].heartbeatError.Some? ==> after[e].heartbeatError == before[e].heartbeatError)
  }

  /** The error a drain leaves in the slot. */
  function Noted(before: Slot, taken: seq<Message>, e: string, listening: bool): Option<HeartbeatError> {
    if before.heartbeatError.Some? then before.heartbeatError
    else if Flawed(taken, e, before.process.pid, listening) then Some(ProtocolError)
    else None
  }

  lemma NothingTaken(e: string, slots: map<string, Slot>, listening: bool)
    requires e in slots
    ensures DrainedTo(e, slots, slots) && Taken(slots[e], slots[e]) == []
    ensures Noted(slots[e], [], e, listening) == slots[e].heartbeatError
  {
  }

  lemma OneTaken(e: string, before: map<string, Slot>, after: map<string, Slot>)
    requires e in before && before[e].queue != []
    ensures forall error ::
              (before[e].heartbeatError.Some? ==> error == before[e].heartbeatError) ==>
                after != before[e := before[e].(queue := before[e].queue[1..], heartbeatError := error)]
                || DrainedTo(e, before, after)
  {
  }

  lemma OneMoreNoted(before: Slot, taken: seq<Message>, m: Message, e: string, listening: bool)
    ensures var takes := listening && EndMark !in taken && Addressed(m, e, before.process.pid);
            Noted(before, taken + [m], e, listening) ==
            if Noted(before, taken, e, listening) == None && !takes && !m.EndMark? then Some(ProtocolError)
            else Noted(before, taken, e, listening)
  {
    OneMoreMessage(taken, m, e, before.process.pid, listening);
  }

  lemma DrainedMore(e: string, before: map<string, Slot>, middle: map<string, Slot>, after: map<string, Slot>)
    requires DrainedTo(e, before, middle) && DrainedTo(e, middle, after)
    requires |middle[e].queue| == |after[e].queue| + 1
    ensures DrainedTo(e, before, after)
    ensures Taken(before[e], after[e]) == Taken(before[e], middle[e]) + [middle[e].queue[0]]
  {
    assert before[e].queue[|before[e].queue| - |middle[e].queue|] == middle[e].queue[0];
  }

  const TERMINATE_GRACE_S := 1.0

  /** What can be seen of a process. */
  datatype View = View(alive: bool, exitCode: Option<int>, asked: seq<Request>)

  /** What a process that would not stop has been asked. */
  const STOPPING := [Terminating, Joining(Some(TERMINATE_GRACE_S)), Killing, Joining(Some(TERMINATE_GRACE_S))]

  /** `_terminate_and_join`: a process that has not ended is asked to, is killed after a grace, and is given up only
      after another. */
  method TerminateAndJoin(process: Process) returns (stopped: bool)
    requires process.Plausible()
    modifies process
    ensures process.RanOn() && stopped == !process.alive
    ensures !stopped ==> process.Withstood()
    ensures || process.asked == old(process.asked) + [Joining(None)]
            || process.asked == old(process.asked) + STOPPING[..2]
            || process.asked == old(process.asked) + STOPPING
  {
    var alive := process.IsAlive();
    if !alive {
      process.Join(None);
      return true;
    }
    var _ := process.Signal(Terminating);
    process.Join(Some(TERMINATE_GRACE_S));
    alive := process.IsAlive();
    if alive {
      var _ := process.Signal(Killing);
      process.Join(Some(TERMINATE_GRACE_S));
    }
    alive := process.IsAlive();
    return !alive;
  }

  function TasksOf(slots: map<string, Slot>): set<string> {
    set e | e in slots :: slots[e].assignment.taskId
  }

  function CdpsOf(slots: map<string, Slot>): set<string> {
    set e | e in slots :: slots[e].assignment.cdpUrl
  }

  function ProcessesOf(slots: map<string, Slot>): set<Process> {
    set e | e in slots :: slots[e].process
  }

  /** Slots are filed under their execution, and no two share a task, a CDP URL or a process. */
  ghost predicate Exclusive(slots: map<string, Slot>) {
    && (forall e <- slots :: slots[e].assignment.executionId == e)
    && (forall e, f | e in slots && f in slots && e != f ::
          && slots[e].assignment.taskId != slots[f].assignment.taskId
          && slots[e].assignment.cdpUrl != slots[f].assignment.cdpUrl
          && slots[e].process != slots[f].process)
  }

  class SpawnWorkerPool {
    const monitor: HeartbeatMonitor
    const context: Context
    var slots: map<string, Slot>
    var taskLeases: set<string>
    var cdpLeases: set<string>
    ghost var spawned: set<Process>   // every process this pool has taken charge of

    /** The lease sets are the images of the slots. */
    ghost predicate Leased()
      reads this
    {
      Exclusive(slots) && taskLeases == TasksOf(slots) && cdpLeases == CdpsOf(slots)
    }

    /** Every process that may be running is held by a slot. */
    ghost predicate NoneLost()
      reads this, spawned
    {
      && ProcessesOf(slots) <= spawned
      && (forall p <- spawned :: p.Plausible() && (p.alive ==> p in ProcessesOf(slots)))
    }

    /** Every slot has a heartbeat record with its pid, and every active record has a slot. */
    ghost predicate Watched()
      reads this, monitor
    {
      && (forall e <- slots :: e in monitor.records && slots[e].process.pid == monitor.records[e].pid)
      && (forall e <- monitor.records :: !monitor.records[e].exited ==> e in slots)
    }

    /** What holds of the pool whatever the monitor knows. */
    ghost predicate Held()
      reads this, spawned
    {
      Leased() && NoneLost()
    }

    ghost predicate Valid()
      reads this, monitor, spawned
    {
      Held() && Watched()
    }

    /** Every process that the context spawned is one the pool has taken charge of, and no other is. */
    ghost predicate Accounted()
      reads this, context
    {
      spawned == context.started
    }

    constructor (staleAfter: real, startupGrace: real, clock: nat -> real)
      ensures Valid() && Accounted() && slots == map[] && spawned == {} && fresh(monitor) && fresh(context)
    {
      slots, taskLeases, cdpLeases, spawned := map[], {}, {}, {};
      context := new Context();
      monitor := new HeartbeatMonitor(staleAfter, startupGrace, clock);
    }

    /** No call brings a process back, and a process that may be running keeps its slot and its leases. */
    twostate predicate Kept()
      reads this, spawned
    {
      old(spawned) <= spawned && Aged() && KeepsLive(old(slots))
    }

    /** Of the slots `before`, those whose process may be running are still there. */
    ghost predicate KeepsLive(before: map<string, Slot>)
      reads this, spawned
    {
      forall e <- before :: before[e].process in spawned && before[e].process.alive ==>
        e in slots && slots[e].process == before[e].process && slots[e].assignment == before[e].assignment
    }

    /** No process has come back to life. */
    twostate predicate Aged()
      reads this, spawned
    {
      forall p | p in old(spawned) && p in spawned :: p.alive ==> old(p.alive)
    }

    /** A process of the pool running on, or ending, breaks nothing. */
    twostate lemma StillValid(p: Process)
      requires old(Valid()) && p in spawned && old(spawned) == spawned
      requires unchanged(this) && unchanged(monitor) && p.RanOn()
      requires forall q <- spawned :: q != p ==> unchanged(q)
      ensures Valid() && Kept()
    {
    }

    /** `_reserve` */
    method Reserve(a: Assignment) returns (ok: bool)
      requires Valid()
      modifies this`taskLeases, this`cdpLeases
      ensures ok <==> a.executionId !in slots && a.taskId !in TasksOf(slots) && a.cdpUrl !in CdpsOf(slots)
      ensures taskLeases == old(taskLeases) + (if ok then {a.taskId} else {})
      ensures cdpLeases == old(cdpLeases) + (if ok then {a.cdpUrl} else {})
    {
      if a.executionId in slots || a.taskId in taskLeases || a.cdpUrl in cdpLeases { return false; }
      taskLeases, cdpLeases := taskLeases + {a.taskId}, cdpLeases + {a.cdpUrl};
      return true;
    }

    method NoteError(e: string, error: HeartbeatError)
      requires Held() && e in slots && slots[e].heartbeatError == None
      modifies this`slots
      ensures Held() && (old(Watched()) ==> Watched())
      ensures slots == old(slots)[e := old(slots)[e].(heartbeatError := Some(error))]
    {
      slots := slots[e := slots[e].(heartbeatError := Some(error))];
      SameLeases(old(slots), slots);
    }

    /** Of the slots, at most that of `e` has changed, by a drain. */
    twostate predicate Drained(e: string)
      reads this
    {
      DrainedTo(e, old(slots), slots)
    }

    /** What was taken. */
    twostate function TakenFrom(e: string): seq<Message>
      requires e in old(slots) && e in slots
      reads this
    {
      Taken(old(slots)[e], slots[e])
    }

    /** The last message taken was unreadable. */
    twostate predicate SawUnreadable(e: string)
      requires e in old(slots) && e in slots
      reads this
    {
      TakenFrom(e) != [] && TakenFrom(e)[|TakenFrom(e)| - 1].Unreadable?
    }

    /** The monitor would take a heartbeat for the slot of `e`. */
    predicate Listening(e: string)
      requires e in slots
      reads this, monitor
    {
      monitor.Active(e) && monitor.records[e].pid == slots[e].process.pid
    }

    /** The monitor has learned of no other worker than that of `e`. */
    twostate predicate OnlyRecordOf(e: string)
      reads monitor
    {
      monitor.records.Keys == old(monitor.records.Keys) && OthersRemain(e)
    }

    /** It has not come to know another either. */
    twostate predicate OthersRemain(e: string)
      reads monitor
    {
      forall f | f != e && (f in monitor.records || f in old(monitor.records)) ::
        f in monitor.records && f in old(monitor.records) && monitor.records[f] == old(monitor.records)[f]
    }

    /** One message of a worker's queue. It raises exactly when it cannot be read, or when it gets as far as looking for
        a heartbeat record that is not there; a heartbeat that is refused for another reason is noted in the slot. */
    method HandleMessage(e: string, message: Message) returns (r: Result<Option<WorkerHeartbeat>, HeartbeatError>)
      requires Held() && e in slots
      modifies this`slots, monitor
      ensures Held() && e in slots && (old(Watched()) ==> Watched())
      ensures OnlyRecordOf(e)
      ensures r.Ok? && e in monitor.records ==>
                monitor.records[e].latest == if r.value.Some? then r.value else old(monitor.records)[e].latest
      ensures r.Err? <==> message.Unreadable?
                          || ((message.EndMark? || Addressed(message, e, old(slots)[e].process.pid))
                              && e !in old(monitor.records))
      ensures r.Err? ==> r.error == (if message.Unreadable? then Escaped else NotFound) && slots == old(slots)
      ensures r.Ok? ==>
                r.value == if Addressed(message, e, old(slots)[e].process.pid) && old(Listening(e))
                           then Some(message.heartbeat) else None
      ensures Listening(e) <==> old(Listening(e)) && !message.EndMark?
      ensures r.Ok? && message.EndMark? ==> !monitor.Active(e)
      ensures slots == if r == Ok(None) && !message.EndMark? && old(slots)[e].heartbeatError == None
                       then old(slots)[e := old(slots)[e].(heartbeatError := Some(ProtocolError))] else old(slots)
    {
      var slot := slots[e];
      if message.EndMark? {
        var error := monitor.MarkExited(e);
        return if error == None then Ok(None) else Err(error.value);
      }
      var recorded := monitor.RecordPayload(message, e, slot.process.pid);
      if recorded.Ok? { return Ok(Some(recorded.value)); }
      if recorded.error != ProtocolError { return Err(recorded.error); }
      if slot.heartbeatError == None {
        NoteError(e, recorded.error);
      }
      return Ok(None);
    }

    /** `get_nowait`, when it does not raise. */
    method TakeMessage(e: string) returns (message: Message)
      requires Held() && e in slots && slots[e].queue != []
      modifies this`slots
      ensures Held() && e in slots && (old(Watched()) ==> Watched())
      ensures message == old(slots)[e].queue[0] && (Listening(e) <==> old(Listening(e)))
      ensures slots == old(slots)[e := old(slots)[e].(queue := old(slots)[e].queue[1..])]
    {
      message := slots[e].queue[0];
      slots := slots[e := slots[e].(queue := slots[e].queue[1..])];
      SameLeases(old(slots), slots);
    }

    /** One turn of the loop of a drain. */
    method DrainOne(e: string) returns (message: Message, r: Result<Option<WorkerHeartbeat>, HeartbeatError>)
      requires Held() && e in slots && slots[e].queue != []
      modifies this`slots, monitor
      ensures Held() && e in slots && (old(Watched()) ==> Watched())
      ensures OnlyRecordOf(e)
      ensures r.Ok? && e in monitor.records ==>
                monitor.records[e].latest == if r.value.Some? then r.value else old(monitor.records)[e].latest
      ensures message == old(slots)[e].queue[0]
      ensures r.Err? ==> r.error == (if message.Unreadable? then Escaped else NotFound)
      ensures r == Err(NotFound) ==> e !in old(monitor.records)
      ensures message.Unreadable? ==> r.Err?
      ensures r.Ok? ==>
                r.value == if Addressed(message, e, old(slots)[e].process.pid) && old(Listening(e))
                           then Some(message.heartbeat) else None
      ensures Listening(e) <==> old(Listening(e)) && !message.EndMark?
      ensures Drained(e)
      ensures slots == old(slots)[e := old(slots)[e].(
                queue := old(slots)[e].queue[1..],
                heartbeatError := if r == Ok(None) && !message.EndMark? && old(slots)[e].heartbeatError == None
                                  then Some(ProtocolError) else old(slots)[e].heartbeatError)]
    {
      hide Held, Watched, Listening, Addressed, DrainedTo;
      ghost var before := slots;
      message := TakeMessage(e);
      r := HandleMessage(e, message);
      OneTaken(e, before, slots);
    }

    /** `_drain_heartbeats`: whatever the queue holds, it returns the heartbeats that were for this worker, in order,
        and notes whether any message was refused. It can raise only without a heartbeat record, or on a message that
        cannot be read; what it had taken until then is gone. */
    method DrainSlot(e: string) returns (r: Result<seq<WorkerHeartbeat>, HeartbeatError>)
      requires Held() && e in slots
      modifies this`slots, monitor
      ensures Held() && e in slots && Drained(e) && (old(Watched()) ==> Watched())
      ensures OnlyRecordOf(e)
      ensures r.Ok? && e in monitor.records ==>
                monitor.records[e].latest == Latest(old(monitor.records)[e], r.value)
      ensures r.Err? ==> (r.error == NotFound && e !in old(monitor.records)) || (r.error == Escaped && SawUnreadable(e))
      ensures r.Ok? ==>
                var before, listening := old(slots)[e], old(Listening(e));
                && Unreadable !in TakenFrom(e)
                && r.value == Accepted(TakenFrom(e), e, before.process.pid, listening)
                && slots[e].heartbeatError == Noted(before, TakenFrom(e), e, listening)
                && (Listening(e) <==> listening && EndMark !in TakenFrom(e))
    {
      hide Held, Watched, Listening, Addressed, DrainedTo, Taken, Noted;
      ghost var start, listening := slots, Listening(e);
      NothingTaken(e, start, listening);
      var drained: seq<WorkerHeartbeat> := [];
      var more: bool := *;
      while more && slots[e].queue != []
        invariant Held() && e in slots && (old(Watched()) ==> Watched())
        invariant OnlyRecordOf(e)
        invariant e in monitor.records ==> monitor.records[e].latest == Latest(old(monitor.records)[e], drained)
        invariant DrainedTo(e, start, slots) && Unreadable !in Taken(start[e], slots[e])
        invariant Listening(e) <==> listening && EndMark !in Taken(start[e], slots[e])
        invariant drained == Accepted(Taken(start[e], slots[e]), e, start[e].process.pid, listening)
        invariant slots[e].heartbeatError == Noted(start[e], Taken(start[e], slots[e]), e, listening)
        invariant slots[e].process == start[e].process
        decreases |slots[e].queue|
      {
        ghost var middle := slots;
        var message, handled := DrainOne(e);
        DrainedMore(e, start, middle, slots);
        OneMoreNoted(start[e], Taken(start[e], middle[e]), message, e, listening);
        OneMoreMessage(Taken(start[e], middle[e]), message, e, start[e].process.pid, listening);
        if handled.Err? { return Err(handled.error); }
        if handled.value.Some? { drained := drained + [handled.value.value]; }
        more := *;
      }
      return Ok(drained);
    }

    /** The part of `_finalize_slot` that can raise. */
    method EndLifecycle(e: string) returns (error: Option<HeartbeatError>)
      requires Held() && e in slots
      modifies this`slots, monitor
      ensures Held() && e in slots && Drained(e) && (old(Watched()) ==> Watched())
      ensures OnlyRecordOf(e)
      ensures error == None ==> e in old(monitor.records) && !monitor.Active(e)
      ensures error.Some? ==> (error.value == NotFound && e !in old(monitor.records))
                              || (error.value == Escaped && SawUnreadable(e))
    {
      var drained := DrainSlot(e);
      if drained.Err? { return Some(drained.error); }
      error := monitor.MarkExited(e);
    }

    /** `_release_assignment`, with the slot: for an ended worker only. */
    method Release(e: string)
      requires Held() && e in slots && !slots[e].process.alive
      modifies this`slots, this`taskLeases, this`cdpLeases
      ensures Held() && slots == old(slots) - {e}
      ensures old(Watched()) && !monitor.Active(e) ==> Watched()
    {
      var slot := slots[e];
      ReleaseOne(slots, e);
      slots := slots - {e};
      taskLeases, cdpLeases := taskLeases - {slot.assignment.taskId}, cdpLeases - {slot.assignment.cdpUrl};
      assert forall f <- slots :: f in old(slots) && slots[f] == old(slots)[f];
    }

    lemma WatchedSlot(e: string)
      requires Watched() && e in slots
      ensures e in monitor.records
    {
    }

    lemma HeldSlot(e: string)
      requires Held() && e in slots
      ensures slots[e].process in spawned && slots[e].process.Plausible()
    {
      assert slots[e].process in ProcessesOf(slots);
    }

    /** `_finalize_slot`: it fails exactly if the process has not ended, has no heartbeat record, or its queue hands out
        a message that cannot be read; and then it keeps the slot and the leases. */
    method FinalizeSlot(e: string) returns (r: Result<ExitReceipt, PoolError>)
      requires Held() && e in slots
      modifies this`slots, this`taskLeases, this`cdpLeases, monitor
      ensures Held() && Kept() && (old(Watched()) ==> Watched())
      ensures OnlyRecordOf(e)
      ensures r.Ok? ==> !old(slots)[e].process.alive && e in old(monitor.records)
      ensures r.Ok? ==>
                && slots == old(slots) - {e}
                && var slot := old(slots)[e];
                   slot.process.exitCode.Some? && r.value == ExitReceipt(e, slot.assignment.taskId,
                                                               slot.process.pid, slot.process.exitCode.value)
      ensures r.Err? ==> e in slots && Drained(e)
      ensures r.Err? ==> old(slots)[e].process.alive || e !in old(monitor.records)
                         || (r.error == MessageError && SawUnreadable(e))
    {
      hide Held, Watched, TakenFrom, Listening;
      HeldSlot(e);
      var slot := slots[e];
      if slot.process.exitCode == None { return Err(NotEnded); }
      var receipt := ExitReceipt(e, slot.assignment.taskId, slot.process.pid, slot.process.exitCode.value);
      var error := EndLifecycle(e);
      if error.Some? { return Err(if error.value == Escaped then MessageError else HeartbeatFailed(error.value)); }
      Release(e);
      assert slots == old(slots) - {e};
      return Ok(receipt);
    }

    /** Between reserving the leases of `a` and filling or abandoning its slot. */
    ghost predicate Reserved(a: Assignment)
      reads this, monitor, spawned
    {
      && Exclusive(slots) && a.executionId !in slots && a.taskId !in TasksOf(slots) && a.cdpUrl !in CdpsOf(slots)
      && taskLeases == TasksOf(slots) + {a.taskId} && cdpLeases == CdpsOf(slots) + {a.cdpUrl}
      && NoneLost()
      && (forall e <- slots :: e in monitor.records && slots[e].process.pid == monitor.records[e].pid)
      && (forall e <- monitor.records :: !monitor.records[e].exited ==> e in slots || e == a.executionId)
    }

    method Occupy(a: Assignment, process: Process, queue: seq<Message>)
      requires Reserved(a) && process !in spawned && process.Plausible() && a.executionId in monitor.records
      requires process.pid == monitor.records[a.executionId].pid
      modifies this`slots, this`spawned
      ensures Valid() && spawned == old(spawned) + {process}
      ensures slots == old(slots)[a.executionId := Slot(a, process, queue, None)]
    {
      var slot := Slot(a, process, queue, None);
      HoldOne(slots, slot);
      slots, spawned := slots[a.executionId := slot], spawned + {process};
      assert forall e <- slots :: e != a.executionId ==> e in old(slots) && slots[e] == old(slots)[e];
      assert Leased() && NoneLost();
    }

    /** Undo a reservation: the worker never ran, or has ended. */
    method GiveUp(a: Assignment, ghost process: Option<Process>)
      requires Reserved(a)
      requires process.Some? ==> process.value !in spawned && process.value.Plausible() && !process.value.alive
      modifies this`taskLeases, this`cdpLeases, this`spawned, monitor
      ensures OthersRemain(a.executionId)
      ensures Valid() && Kept() && slots == old(slots) && taskLeases == TasksOf(slots) && cdpLeases == CdpsOf(slots)
      ensures spawned == old(spawned) + (if process.Some? then {process.value} else {})
    {
      monitor.Unregister(a.executionId);
      taskLeases, cdpLeases := taskLeases - {a.taskId}, cdpLeases - {a.cdpUrl};
      spawned := spawned + (if process.Some? then {process.value} else {});
      assert Leased() && NoneLost();
    }

    /** The failing part of `start`: stop what was spawned, or keep owning it. */
    method Abandon(a: Assignment, process: Process, queue: seq<Message>) returns (error: PoolError)
      requires Reserved(a) && process !in spawned && process.Plausible() && process.pid > 0 && a.executionId != ""
      requires !monitor.Active(a.executionId)
      modifies this, monitor, process
      ensures Valid() && Kept() && error == StartFailed && process.RanOn() && spawned == old(spawned) + {process}
      ensures slots == if process.alive then old(slots)[a.executionId := Slot(a, process, queue, None)] else old(slots)
      ensures process.alive ==> process.Withstood()
      ensures OthersRemain(a.executionId)
    {
      hide Exclusive, KeepsLive, Watched;
      var stopped := TerminateAndJoin(process);
      if stopped {
        GiveUp(a, Some(process));
      } else {
        Adopt(a, process, queue);
      }
      return StartFailed;
    }

    /** The `try` of `start` and its `except`. */
    method Spawn(a: Assignment) returns (r: Result<Handle, PoolError>)
      requires Reserved(a) && Accounted() && a.executionId != "" && !monitor.Active(a.executionId)
      modifies this, monitor, context
      ensures Valid() && Accounted() && old(spawned) <= spawned && fresh(spawned - old(spawned))
      ensures Kept() && OthersRemain(a.executionId)
      ensures if context.faults == old(context.faults) then r.Ok? else r == Err(StartFailed)
      ensures slots == old(slots) || Holds(a, old(slots), old(spawned))
      ensures r.Ok? ==> Holds(a, old(slots), old(spawned))
                        && r.value == Handle(a.executionId, a.taskId, a.cdpUrl, slots[a.executionId].process.pid)
      ensures r.Err? && slots != old(slots) ==> NotStopped(slots[a.executionId].process)
    {
      hide Leased, NoneLost, Watched, Held, Exclusive, KeepsLive, Reserved;
      var queue := context.MakeQueue();
      if queue == None {
        GiveUp(a, None);
        return Err(StartFailed);
      }
      var spawning, raised := context.SpawnProcess();
      if spawning == None {
        GiveUp(a, None);
        return Err(StartFailed);
      }
      var process := spawning.value;
      var handle: Option<Handle> := None;
      if !raised { handle := context.MakeHandle(a, process.pid); }
      if handle == None {
        var error := Abandon(a, process, queue.value);
        return Err(error);
      }
      Adopt(a, process, queue.value);
      return Ok(handle.value);
    }

    /** It is still running after everything was done to stop it. */
    ghost predicate NotStopped(process: Process)
      reads process
    {
      process.alive && process.asked == STOPPING
    }

    /** Watch a process that has started, and give it its slot: the monitor cannot refuse. */
    method Adopt(a: Assignment, process: Process, queue: seq<Message>)
      requires Reserved(a) && process !in spawned && process.Plausible() && process.pid > 0 && a.executionId != ""
      requires !monitor.Active(a.executionId)
      modifies this`slots, this`spawned, monitor
      ensures Valid() && Kept() && spawned == old(spawned) + {process} && OthersRemain(a.executionId)
      ensures slots == old(slots)[a.executionId := Slot(a, process, queue, None)]
    {
      hide Exclusive, KeepsLive, Leased;
      var refused := monitor.Register(a.executionId, process.pid);
      assert refused == None;
      Occupy(a, process, queue);
      AddedKeeps(old(slots), a.executionId);
    }

    lemma AddedKeeps(before: map<string, Slot>, e: string)
      requires e !in before && e in slots && slots == before[e := slots[e]]
      ensures KeepsLive(before)
    {
    }

    /** The one change to `before` is a slot for `a` with a process that is not among `known`. */
    ghost predicate Holds(a: Assignment, before: map<string, Slot>, known: set<Process>)
      reads this
    {
      && a.executionId in slots && slots == before[a.executionId := slots[a.executionId]]
      && slots[a.executionId].assignment == a && slots[a.executionId].process in spawned - known
    }

    /** Start one worker under exclusive leases. It starts exactly if they were free and no step failed. Every way it
        can fail either changes nothing the pool holds, or leaves the process it could not stop in a slot with its
        leases and its heartbeat lifecycle. */
    method Start(a: Assignment) returns (r: Result<Handle, PoolError>)
      requires Valid() && Accounted() && a.executionId != ""
      modifies this, monitor, context
      ensures Valid() && Accounted() && Kept() && fresh(spawned - old(spawned)) && OthersRemain(a.executionId)
      ensures if old(a.executionId in slots || a.taskId in TasksOf(slots) || a.cdpUrl in CdpsOf(slots))
              then r == Err(LeaseConflict)
              else if context.faults != old(context.faults) then r == Err(StartFailed)
              else r.Ok?
      ensures r.Ok? ==> Holds(a, old(slots), old(spawned))
                        && r.value == Handle(a.executionId, a.taskId, a.cdpUrl, slots[a.executionId].process.pid)
      ensures r.Ok? ==> slots[a.executionId].process in context.started - old(context.started)
      ensures slots == old(slots) || Holds(a, old(slots), old(spawned))
      ensures r == Err(LeaseConflict) ==> slots == old(slots) && context.started == old(context.started)
      ensures r == Err(StartFailed) && slots != old(slots) ==> NotStopped(slots[a.executionId].process)
    {
      var reserved := Reserve(a);
      if !reserved { return Err(LeaseConflict); }
      r := Spawn(a);
    }

    /** Drain with errors raised. */
    method DrainHeartbeats(e: string) returns (r: Result<seq<WorkerHeartbeat>, PoolError>)
      requires Valid()
      modifies this`slots, monitor
      ensures Valid() && Kept()
      ensures e !in old(slots) ==> r == Err(UnknownWorker) && slots == old(slots)
      ensures OnlyRecordOf(e) && slots.Keys == old(slots).Keys
      ensures e in old(slots) ==> e in slots && Drained(e) && e in monitor.records
      ensures e in old(slots) && r != Err(MessageError) ==>
                monitor.records[e].latest
                == Latest(old(monitor.records)[e],
                          Accepted(TakenFrom(e), e, old(slots)[e].process.pid, old(Listening(e))))
      ensures r == Err(MessageError) <==> e in old(slots) && SawUnreadable(e)
      ensures e in old(slots) && r != Err(MessageError) ==>
                (monitor.Active(e) <==> old(monitor.Active(e)) && EndMark !in TakenFrom(e))
      ensures e in old(slots) && r != Err(MessageError) ==>
                if slots[e].heartbeatError.Some? then r == Err(HeartbeatFailed(slots[e].heartbeatError.value))
                else r == Ok(Accepted(TakenFrom(e), e, old(slots)[e].process.pid, old(Listening(e))))
                     && !Flawed(TakenFrom(e), e, old(slots)[e].process.pid, old(Listening(e)))
    {
      if e !in slots { return Err(UnknownWorker); }
      var drained := DrainSlot(e);
      if drained.Err? {
        assert drained == Err(Escaped);
        return Err(MessageError);
      }
      if slots[e].heartbeatError.Some? { return Err(HeartbeatFailed(slots[e].heartbeatError.value)); }
      return Ok(drained.value);
    }

    method LatestHeartbeat(e: string) returns (r: Result<Option<WorkerHeartbeat>, PoolError>)
      requires Valid()
      modifies this`slots, monitor
      ensures Valid() && Kept() && slots.Keys == old(slots).Keys && OnlyRecordOf(e)
      ensures e !in old(slots) ==>
                r == if e in old(monitor.records) then Ok(old(monitor.records)[e].latest)
                     else Err(HeartbeatFailed(NotFound))
      ensures e in old(slots) ==>
                && Drained(e) && e in old(monitor.records)
                && if SawUnreadable(e) then r == Err(MessageError)
                   else if slots[e].heartbeatError.Some? then r == Err(HeartbeatFailed(slots[e].heartbeatError.value))
                   else r == Ok(Latest(old(monitor.records)[e],
                                       Accepted(TakenFrom(e), e, old(slots)[e].process.pid, old(Listening(e)))))
    {
      hide Held, Watched, DrainedTo, Taken, Accepted, Latest;
      if e in slots {
        var drained := DrainHeartbeats(e);
        if drained.Err? { return Err(drained.error); }
      }
      if e !in monitor.records { return Err(HeartbeatFailed(NotFound)); }
      return Ok(monitor.records[e].latest);
    }

    /** A worker without a slot, or whose process has ended, has exited, and stays exited; for any other the monitor
        decides, by its record and the clock. A message that was refused, now or before, is the error; nothing else but
        its end mark ends a lifecycle that was active. */
    method WorkerStatus(e: string) returns (r: Result<HeartbeatStatus, PoolError>)
      requires Valid()
      modifies this`slots, monitor, spawned
      ensures Valid() && Kept() && slots.Keys == old(slots).Keys && OnlyRecordOf(e)
      ensures e !in old(slots) ==>
                r == if e in old(monitor.records) then Ok(Exited) else Err(HeartbeatFailed(NotFound))
      ensures e in old(slots) ==>
                && Drained(e)
                && if SawUnreadable(e) then r == Err(MessageError)
                   else if slots[e].heartbeatError.Some? then r == Err(HeartbeatFailed(slots[e].heartbeatError.value))
                   else && monitor.ticks > 0 && r == Judged(e, monitor.clock(monitor.ticks - 1))
                        && (monitor.Active(e) <==> old(monitor.Active(e)) && EndMark !in TakenFrom(e)
                                                   && slots[e].process.alive)
    {
      hide Held, Watched, Taken;
      if e !in slots {
        r := Classify(e, true);
        return;
      }
      WatchedSlot(e);
      var drained := DrainHeartbeats(e);
      if drained.Err? { return Err(drained.error); }
      var exited := LookAt(e);
      r := Classify(e, exited);
    }

    /** What the monitor says of a worker it knows, at `now`. */
    function Judged(e: string, now: real): Result<HeartbeatStatus, PoolError>
      requires e in monitor.records
      reads monitor
    {
      var status := monitor.Judge(monitor.records[e], now);
      if status.Ok? then Ok(status.value) else Err(HeartbeatFailed(status.error))
    }

    /** Not a call of the pool: time passes for the process of a slot. */
    method RunOn(e: string)
      requires Valid()
      modifies spawned
      ensures Valid() && Kept()
    {
      if e in slots {
        var process := slots[e].process;
        process.RunOn();
        StillValid(process);
      }
    }

    method LookAt(e: string) returns (exited: bool)
      requires Valid() && e in slots
      modifies spawned
      ensures Valid() && Aged() && exited == !slots[e].process.alive
    {
      var process := slots[e].process;
      var alive := process.IsAlive();
      StillValid(process);
      exited := !alive;
    }

    method Classify(e: string, processExited: bool) returns (r: Result<HeartbeatStatus, PoolError>)
      requires Valid() && (e !in slots ==> processExited)
      modifies monitor
      ensures Valid() && OnlyRecordOf(e)
      ensures e !in monitor.records ==> r == Err(HeartbeatFailed(NotFound))
      ensures e in monitor.records && e !in slots ==> r == Ok(Exited)
      ensures e in monitor.records ==> monitor.records[e].latest == old(monitor.records)[e].latest
      ensures e in monitor.records ==> monitor.ticks > 0 && r == Judged(e, monitor.clock(monitor.ticks - 1))
      ensures monitor.Active(e) <==> old(monitor.Active(e)) && !processExited
    {
      var status := monitor.Status(e, processExited);
      return if status.Ok? then Ok(status.value) else Err(HeartbeatFailed(status.error));
    }

    /** `join` and `is_alive`. */
    method JoinOne(e: string, timeout: Option<real>) returns (alive: bool)
      requires Valid() && e in slots
      modifies spawned
      ensures Valid() && Kept() && alive == slots[e].process.alive && (timeout == None ==> !alive)
      ensures slots[e].process.asked == old(slots[e].process.asked) + [Joining(timeout)]
    {
      var process := slots[e].process;
      process.Join(timeout);
      alive := process.IsAlive();
      StillValid(process);
    }

    /** Join one worker, and release its leases only once it has ended. */
    method Reap(e: string, timeout: Option<real>) returns (r: Result<Option<ExitReceipt>, PoolError>)
      requires Valid()
      modifies this, monitor, spawned
      ensures Valid() && Kept() && spawned == old(spawned) && OnlyRecordOf(e)
      ensures timeout.Some? && timeout.value < 0.0 ==> r == Err(InvalidTimeout)
      ensures !(timeout.Some? && timeout.value < 0.0) ==> (r == Err(UnknownWorker) <==> e !in old(slots))
      ensures r.Ok? && r.value == None ==> slots == old(slots) && slots[e].process.alive && timeout.Some?
      ensures r.Ok? && r.value.Some? ==>
                && slots == old(slots) - {e} && !old(slots)[e].process.alive
                && r.value.value.executionId == e && ReceiptFor(r.value.value, old(slots)[e], Views())
      ensures r in {Err(InvalidTimeout), Err(UnknownWorker)} ==> slots == old(slots)
      ensures r !in {Err(InvalidTimeout), Err(UnknownWorker)} ==>
                e in old(slots) && old(slots)[e].process.asked == old(slots[e].process.asked) + [Joining(timeout)]
      ensures r.Err? && r !in {Err(InvalidTimeout), Err(UnknownWorker)} ==>
                && r.error == MessageError && e in old(slots) && e in slots
                && Drained(e) && SawUnreadable(e) && !slots[e].process.alive
    {
      hide Held, Watched;
      if timeout.Some? && timeout.value < 0.0 { return Err(InvalidTimeout); }
      if e !in slots { return Err(UnknownWorker); }
      var alive := JoinOne(e, timeout);
      WatchedSlot(e);
      if alive { return Ok(None); }
      var receipt := FinalizeSlot(e);
      return if receipt.Ok? then Ok(Some(receipt.value)) else Err(receipt.error);
    }

    method StopProcess(e: string) returns (alive: bool)
      requires Valid() && e in slots
      modifies spawned
      ensures Valid() && Kept() && slots[e].process in spawned && alive == slots[e].process.alive
      ensures OneSeen(slots[e].process)
      ensures alive ==> Withstands(slots[e].process, old(Views()), Views())
    {
      var stopped := TerminateAndJoin(slots[e].process);
      StillValid(slots[e].process);
      alive := !stopped;
    }

    ghost function Views(): map<Process, View>
      reads this`spawned, spawned
    {
      map p | p in spawned :: View(p.alive, p.exitCode, p.asked)
    }

    lemma Seen(p: Process)
      requires p in spawned
      ensures p in Views() && Views()[p] == View(p.alive, p.exitCode, p.asked)
    {
    }

    /** No process of the pool but `p` has changed. */
    twostate predicate OneSeen(p: Process)
      reads this`spawned, spawned
    {
      SameBut(p, old(Views()), Views())
    }

    /** One worker of a shutdown: None if it cannot be stopped. */
    method StopOne(e: string) returns (r: Result<Option<ExitReceipt>, PoolError>)
      requires Valid() && e in slots
      modifies this, monitor, spawned
      ensures Valid() && Kept() && spawned == old(spawned)
      ensures Within(slots, old(slots))
      ensures r.Err? ==> r.error == MessageError && e in slots && Unreadable in old(slots)[e].queue
      ensures r.Ok? ==> slots == if r.value.Some? then old(slots) - {e} else old(slots)
      ensures r.Ok? ==> slots.Keys == if r.value.Some? then old(slots).Keys - {e} else old(slots).Keys
      ensures r.Ok? ==> |slots| == |old(slots)| - (if r.value.Some? then 1 else 0)
      ensures OneSeen(old(slots)[e].process) && Stopped(e, r, old(slots)[e], old(Views()), Views())
    {
      hide Held, Watched, KeepsLive, Views, OnlyRecordOf, OthersRemain;
      HeldSlot(e);
      var alive := StopProcess(e);
      Seen(slots[e].process);
      WatchedSlot(e);
      if alive { return Ok(None); }
      RemoveOne(slots, e);
      var finalized := FinalizeSlot(e);
      return if finalized.Ok? then Ok(Some(finalized.value)) else Err(finalized.error);
    }

    /** Stop and reap every worker; the ones that cannot be stopped keep their slots and leases. A message that cannot
        be read ends it there: its worker, and those that come after it, keep theirs. */
    method Shutdown() returns (r: Result<seq<ExitReceipt>, PoolError>)
      requires Valid()
      modifies this, monitor, spawned
      ensures Valid() && Kept() && spawned == old(spawned) && Within(slots, old(slots))
      ensures r.Ok? <==> slots == map[]
      ensures r.Ok? ==>
                && |r.value| == |old(slots)| && Reaped(r.value) == old(slots).Keys
                && forall x <- r.value ::
                     x.executionId in old(slots) && ReceiptFor(x, old(slots)[x.executionId], Views())
      ensures r.Err? ==>
                || (r.error.Lifecycle? && (forall e :: e in r.error.unresponsive <==> e in slots)
                    && forall e <- slots ::
                         e in old(slots) && Withstands(old(slots)[e].process, old(Views()), Views()))
                || (r.error == MessageError && exists e <- slots :: Unreadable in old(slots)[e].queue)
    {
      var error, receipts, unresponsive := StopAll();
      if error.Some? { return Err(error.value); }
      if unresponsive != [] {
        assert unresponsive[0] in slots;
        return Err(Lifecycle(unresponsive));
      }
      return Ok(receipts);
    }

    method StopAll() returns (error: Option<PoolError>, receipts: seq<ExitReceipt>, unresponsive: seq<string>)
      requires Valid()
      modifies this, monitor, spawned
      ensures Valid() && Kept() && spawned == old(spawned) && Within(slots, old(slots))
      ensures error.Some? ==>
                error.value == MessageError && exists e <- slots :: Unreadable in old(slots)[e].queue
      ensures error == None ==> forall e :: e in unresponsive <==> e in slots
      ensures error == None ==>
                && |receipts| + |slots| == |old(slots)| && Reaped(receipts) == old(slots).Keys - slots.Keys
                && (forall x <- receipts ::
                      x.executionId in old(slots) && ReceiptFor(x, old(slots)[x.executionId], Views()))
                && forall e <- slots :: e in old(slots) && Withstands(old(slots)[e].process, old(Views()), Views())
    {
      hide Held, Watched, Exclusive, Within, Parted, StillAsked, AllReaped, Stopped, Views;
      error, receipts, unresponsive := None, [], [];
      ghost var held, first := slots, Views();
      ghost var stuck: set<string> := {};
      var todo := slots.Keys;
      NoneStopped();
      while todo != {}
        invariant Valid() && Aged() && spawned == old(spawned)
        invariant Underway(held, slots, first, Views(), todo, stuck, receipts)
        invariant forall e :: e in stuck <==> e in unresponsive
        decreases todo
      {
        var e :| e in todo;
        ghost var before, now := slots, Views();
        PartedOneMore(held, slots, todo, stuck, e);
        var stopped := StopOne(e);
        if stopped.Err? {
          LiveAreKept(held, before, first, now, todo, stuck, receipts, e);
          return Some(stopped.error), receipts, unresponsive;
        }
        OneMoreStopped(held, before, first, now, todo, stuck, receipts, e, stopped, slots, Views());
        todo := todo - {e};
        if stopped.value.Some? {
          receipts := receipts + [stopped.value.value];
        } else {
          unresponsive, stuck := unresponsive + [e], stuck + {e};
        }
      }
      AllStopped(held, first, stuck, receipts);
    }

    lemma NoneStopped()
      requires Held()
      ensures Underway(slots, slots, Views(), Views(), slots.Keys, {}, [])
    {
      assert forall e <- slots :: slots[e].process in ProcessesOf(slots);
    }

    lemma LiveAreKept(
        held: map<string, Slot>, before: map<string, Slot>, first: map<Process, View>, now: map<Process, View>,
        todo: set<string>, stuck: set<string>, receipts: seq<ExitReceipt>, e: string)
      requires Underway(held, before, first, now, todo, stuck, receipts) && e in before
      requires SameBut(before[e].process, now, Views())
      requires KeepsLive(before) && Within(slots, before)
      ensures KeepsLive(held) && Within(slots, held)
    {
      forall f <- held | held[f].process in spawned && held[f].process.alive ensures f in before {
        assert held[f].process in Views();
      }
    }

    lemma AllStopped(held: map<string, Slot>, first: map<Process, View>, stuck: set<string>,
                     receipts: seq<ExitReceipt>)
      requires Underway(held, slots, first, Views(), {}, stuck, receipts)
      ensures KeepsLive(held) && Within(slots, held) && slots.Keys == stuck
      ensures |receipts| + |slots| == |held| && Reaped(receipts) == held.Keys - slots.Keys
      ensures forall x <- receipts :: x.executionId in held && ReceiptFor(x, held[x.executionId], Views())
      ensures forall e <- slots :: e in held && Withstands(held[e].process, first, Views())
    {
      forall f <- held | held[f].process in spawned && held[f].process.alive ensures f in slots {
        assert held[f].process in Views();
      }
    }
  }

  /** The receipt is for the worker of its slot, and says what its process is seen to have exited with. */
  predicate ReceiptFor(x: ExitReceipt, slot: Slot, now: map<Process, View>) {
    && x.taskId == slot.assignment.taskId && x.pid == slot.process.pid
    && slot.process in now && now[slot.process].exitCode == Some(x.exitCode)
  }

  /** It was asked everything that could stop it, and is running. */
  predicate Withstands(p: Process, first: map<Process, View>, now: map<Process, View>) {
    p in first && p in now && now[p].alive && now[p].asked == first[p].asked + STOPPING
  }

  /** What stopping the worker of `slot` came to. */
  predicate Stopped(e: string, r: Result<Option<ExitReceipt>, PoolError>, slot: Slot,
                    first: map<Process, View>, now: map<Process, View>) {
    && (r == Ok(None) ==> Withstands(slot.process, first, now))
    && (r.Ok? && r.value.Some? ==>
          r.value.value.executionId == e && ReceiptFor(r.value.value, slot, now) && !now[slot.process].alive)
  }

  function Reaped(receipts: seq<ExitReceipt>): set<string> {
    set x | x in receipts :: x.executionId
  }

  /** A shutdown of the workers in `held` has got past all but `todo`: those in `stuck` would not stop, and the others
      have their receipts. `first` is what was seen of their processes at the start. */
  ghost predicate Underway(
      held: map<string, Slot>, slots: map<string, Slot>, first: map<Process, View>, now: map<Process, View>,
      todo: set<string>, stuck: set<string>, receipts: seq<ExitReceipt>)
  {
    && Exclusive(held) && Parted(held, slots, todo, stuck)
    && (forall e <- held :: held[e].process in first && held[e].process in now)
    && StillAsked(held, first, now, todo, stuck) && AllReaped(held, slots, now, receipts)
  }

  predicate Parted(held: map<string, Slot>, slots: map<string, Slot>, todo: set<string>, stuck: set<string>) {
    Subset(slots, held) && slots.Keys == todo + stuck && todo !! stuck
  }

  lemma PartedOneMore(held: map<string, Slot>, slots: map<string, Slot>, todo: set<string>, stuck: set<string>,
                      e: string)
    requires Parted(held, slots, todo, stuck) && e in todo
    ensures e in slots && e in held && slots[e] == held[e] && todo !! stuck
    ensures Parted(held, slots - {e}, todo - {e}, stuck) && Parted(held, slots, todo - {e}, stuck + {e})
  {
    assert (slots - {e}).Keys == slots.Keys - {e};
  }

  /** No worker in `todo` has been asked anything yet, and those in `stuck` withstood everything. */
  predicate StillAsked(held: map<string, Slot>, first: map<Process, View>, now: map<Process, View>,
                       todo: set<string>, stuck: set<string>) {
    && (forall e <- todo :: e in held && Untold(held[e].process, first, now))
    && (forall e <- stuck :: e in held && Withstands(held[e].process, first, now))
  }

  predicate Untold(p: Process, first: map<Process, View>, now: map<Process, View>) {
    p in first && p in now && now[p].asked == first[p].asked
  }

  /** Every worker in `held` that has no slot in `slots` has ended, and has its receipt. */
  predicate AllReaped(held: map<string, Slot>, slots: map<string, Slot>, now: map<Process, View>,
                      receipts: seq<ExitReceipt>) {
    && |receipts| + |slots| == |held| && Reaped(receipts) == held.Keys - slots.Keys
    && (forall e <- held :: e !in slots ==> held[e].process in now && !now[held[e].process].alive)
    && (forall x <- receipts :: x.executionId in held && ReceiptFor(x, held[x.executionId], now))
  }

  /** Nothing else than `p` looks different. */
  predicate SameBut(p: Process, now: map<Process, View>, then': map<Process, View>) {
    now.Keys == then'.Keys && p in now && forall q <- now :: q != p ==> then'[q] == now[q]
  }

  lemma OneMoreStopped(
      held: map<string, Slot>, before: map<string, Slot>, first: map<Process, View>, now: map<Process, View>,
      todo: set<string>, stuck: set<string>, receipts: seq<ExitReceipt>, e: string,
      r: Result<Option<ExitReceipt>, PoolError>, after: map<string, Slot>, then': map<Process, View>)
    requires Underway(held, before, first, now, todo, stuck, receipts) && e in todo && e in before && r.Ok?
    requires SameBut(before[e].process, now, then') && Stopped(e, r, before[e], now, then')
    requires after == if r.value.Some? then before - {e} else before
    requires |after| == |before| - (if r.value.Some? then 1 else 0)
    ensures Underway(held, after, first, then', todo - {e}, if r.value.Some? then stuck else stuck + {e},
                     if r.value.Some? then receipts + [r.value.value] else receipts)
  {
    hide StillAsked, AllReaped, Withstands, ReceiptFor, Parted;
    PartedOneMore(held, before, todo, stuck, e);
    assert forall f <- held :: f != e ==> held[f].process != held[e].process;
    AskedOneMore(held, first, now, then', todo, stuck, e);
    if r.value.Some? {
      ReapedOneMore(held, before, now, then', receipts, e, r.value.value);
    } else {
      ReapedAsBefore(held, before, now, then', receipts, e);
    }
  }

  lemma AskedOneMore(held: map<string, Slot>, first: map<Process, View>, now: map<Process, View>,
                     then': map<Process, View>, todo: set<string>, stuck: set<string>, e: string)
    requires StillAsked(held, first, now, todo, stuck) && e in todo && todo !! stuck
    requires e in held && SameBut(held[e].process, now, then')
    requires forall f <- held :: f != e ==> held[f].process != held[e].process
    ensures StillAsked(held, first, then', todo - {e}, stuck)
    ensures Withstands(held[e].process, now, then') ==> StillAsked(held, first, then', todo - {e}, stuck + {e})
  {
  }

  lemma ReapedAsBefore(held: map<string, Slot>, slots: map<string, Slot>, now: map<Process, View>,
                       then': map<Process, View>, receipts: seq<ExitReceipt>, e: string)
    requires AllReaped(held, slots, now, receipts) && e in held && e in slots && SameBut(held[e].process, now, then')
    requires forall f <- held :: f != e ==> held[f].process != held[e].process
    ensures AllReaped(held, slots, then', receipts)
  {
    assert forall x <- receipts :: x.executionId in Reaped(receipts);
  }

  lemma ReapedOneMore(held: map<string, Slot>, slots: map<string, Slot>, now: map<Process, View>,
                      then': map<Process, View>, receipts: seq<ExitReceipt>, e: string, x: ExitReceipt)
    requires AllReaped(held, slots, now, receipts) && e in held && e in slots && SameBut(held[e].process, now, then')
    requires forall f <- held :: f != e ==> held[f].process != held[e].process
    requires x.executionId == e && ReceiptFor(x, held[e], then') && !then'[held[e].process].alive
    requires |slots - {e}| == |slots| - 1
    ensures AllReaped(held, slots - {e}, then', receipts + [x])
  {
    ReapedAsBefore(held, slots, now, then', receipts, e);
    assert Reaped(receipts + [x]) == Reaped(receipts) + {e};
  }

  /** The workers that have a slot in `after` have the one they had in `before`. */
  predicate Within(after: map<string, Slot>, before: map<string, Slot>) {
    forall e <- after ::
      e in before && after[e].assignment == before[e].assignment && after[e].process == before[e].process
  }

  predicate Subset(after: map<string, Slot>, before: map<string, Slot>) {
    forall e <- after :: e in before && after[e] == before[e]
  }

  lemma RemoveOne(slots: map<string, Slot>, e: string)
    requires e in slots
    ensures (slots - {e}).Keys == slots.Keys - {e} && |slots - {e}| == |slots| - 1
  {
    assert slots.Keys == (slots - {e}).Keys + {e};
  }

  lemma SameLeases(slots: map<string, Slot>, slots': map<string, Slot>)
    requires slots.Keys == slots'.Keys
    requires forall e <- slots :: slots[e].assignment == slots'[e].assignment && slots[e].process == slots'[e].process
    ensures TasksOf(slots) == TasksOf(slots') && CdpsOf(slots) == CdpsOf(slots')
    ensures ProcessesOf(slots) == ProcessesOf(slots')
    ensures Exclusive(slots) ==> Exclusive(slots')
  {
  }

  lemma ReleaseOne(slots: map<string, Slot>, e: string)
    requires Exclusive(slots) && e in slots
    ensures Exclusive(slots - {e})
    ensures TasksOf(slots - {e}) == TasksOf(slots) - {slots[e].assignment.taskId}
    ensures CdpsOf(slots - {e}) == CdpsOf(slots) - {slots[e].assignment.cdpUrl}
    ensures ProcessesOf(slots - {e}) == ProcessesOf(slots) - {slots[e].process}
  {
    var less := slots - {e};
    assert forall f <- slots :: f != e ==> f in less && less[f] == slots[f];
  }

  lemma HoldOne(slots: map<string, Slot>, slot: Slot)
    requires Exclusive(slots) && slot.assignment.executionId !in slots && slot.process !in ProcessesOf(slots)
    requires slot.assignment.taskId !in TasksOf(slots) && slot.assignment.cdpUrl !in CdpsOf(slots)
    ensures var more := slots[slot.assignment.executionId := slot];
            && Exclusive(more)
            && TasksOf(more) == TasksOf(slots) + {slot.assignment.taskId}
            && CdpsOf(more) == CdpsOf(slots) + {slot.assignment.cdpUrl}
            && ProcessesOf(more) == ProcessesOf(slots) + {slot.process}
  {
    OneMoreImage(slots, slot);
    var more := slots[slot.assignment.executionId := slot];
    forall f <- slots
      ensures slots[f].assignment.taskId != slot.assignment.taskId
      ensures slots[f].assignment.cdpUrl != slot.assignment.cdpUrl && slots[f].process != slot.process
    {
      assert slots[f].assignment.taskId in TasksOf(slots) && slots[f].assignment.cdpUrl in CdpsOf(slots);
      assert slots[f].process in ProcessesOf(slots);
    }
  }

  lemma OneMoreImage(slots: map<string, Slot>, slot: Slot)
    requires slot.assignment.executionId !in slots
    ensures var more := slots[slot.assignment.executionId := slot];
            && TasksOf(more) == TasksOf(slots) + {slot.assignment.taskId}
            && CdpsOf(more) == CdpsOf(slots) + {slot.assignment.cdpUrl}
            && ProcessesOf(more) == ProcessesOf(slots) + {slot.process}
  {
    var more := slots[slot.assignment.executionId := slot];
    assert forall f <- slots :: f in more && more[f] == slots[f];
    assert more[slot.assignment.executionId] == slot;
  }

  datatype Call =
    | StartCall(a: Assignment)
    | ReapCall(executionId: string, timeout: Option<real>)
    | DrainCall(executionId: string)
    | LatestCall(executionId: string)
    | StatusCall(executionId: string)
    | Elapse(executionId: string)   // a worker runs on, or ends, between calls of the pool
    | ShutdownCall

  /** Any calls in any order, with any outcome of every process, queue and clock read. */
  method AnyRun(pool: SpawnWorkerPool, calls: seq<Call>)
    requires pool.Valid() && pool.Accounted() && forall c <- calls :: c.StartCall? ==> c.a.executionId != ""
    modifies pool, pool.monitor, pool.context, pool.spawned
    ensures pool.Valid() && pool.Accounted() && pool.Kept() && fresh(pool.spawned - old(pool.spawned))
  {
    for i := 0 to |calls|
      invariant pool.Valid() && pool.Accounted() && pool.Kept() && fresh(pool.spawned - old(pool.spawned))
    {
      match calls[i] {
        case StartCall(a) => assert calls[i] in calls; var _ := pool.Start(a);
        case ReapCall(e, timeout) => var _ := pool.Reap(e, timeout);
        case DrainCall(e) => var _ := pool.DrainHeartbeats(e);
        case LatestCall(e) => var _ := pool.LatestHeartbeat(e);
        case StatusCall(e) => var _ := pool.WorkerStatus(e);
        case Elapse(e) => pool.RunOn(e);
        case ShutdownCall => var _ := pool.Shutdown();
      }
    }
  }

  /** No two processes that may be running share an execution, a task, a CDP URL or a slot. */
  lemma NoTwoLiveShare(pool: SpawnWorkerPool, p: Process, q: Process) returns (e: string, f: string)
    requires pool.Valid() && pool.Accounted() && p in pool.context.started && q in pool.context.started
    requires p.alive && q.alive && p != q
    ensures e in pool.slots && f in pool.slots && pool.slots[e].process == p && pool.slots[f].process == q
    ensures pool.slots[e].assignment.executionId != pool.slots[f].assignment.executionId
    ensures pool.slots[e].assignment.taskId != pool.slots[f].assignment.taskId
    ensures pool.slots[e].assignment.cdpUrl != pool.slots[f].assignment.cdpUrl
  {
    assert p in ProcessesOf(pool.slots) && q in ProcessesOf(pool.slots);
    e :| e in pool.slots && pool.slots[e].process == p;
    f :| f in pool.slots && pool.slots[f].process == q;
  }
}
