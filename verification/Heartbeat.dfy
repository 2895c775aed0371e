/** The parent's view of worker liveness: one heartbeat lifecycle per execution. */
module Heartbeat {
  import opened Wrappers

  datatype WorkerHeartbeat = WorkerHeartbeat(executionId: string, pid: int, lastIteration: nat, lastOfficialStep: nat)

  /** What a worker's queue may hold: the end mark, a payload that is no heartbeat, a heartbeat, or a payload that
      cannot even be taken apart: unpickling it, or encoding it again, raises some other error. */
  datatype Message = EndMark | Garbage | Beat(heartbeat: WorkerHeartbeat) | Unreadable

  datatype HeartbeatStatus = Alive | Expired | Exited

  /** Escaped: the other error that an unreadable payload raises. */
  datatype HeartbeatError = InvalidArgument | ProtocolError | NotFound | Escaped

  datatype Record = Record(
    pid: int,
    startedAt: real,
    lastReceivedAt: Option<real>,
    latest: Option<WorkerHeartbeat>,
    exited: bool)

  class HeartbeatMonitor {
    const staleAfter: real
    const startupGrace: real
    const clock: nat -> real     // what the clock says each time it is read; it may run backwards
    var ticks: nat
    var records: map<string, Record>

    constructor (staleAfter: real, startupGrace: real, clock: nat -> real)
      ensures this.staleAfter == staleAfter && this.startupGrace == startupGrace && this.clock == clock
      ensures records == map[] && ticks == 0
    {
      this.staleAfter, this.startupGrace, this.clock := staleAfter, startupGrace, clock;
      ticks, records := 0, map[];
    }

    /** `ClockPort.monotonic()`, when it returns a finite float. */
    method Monotonic() returns (now: real)
      modifies this`ticks
      ensures ticks == old(ticks) + 1 && now == clock(old(ticks))
    {
      now := clock(ticks);
      ticks := ticks + 1;
    }

    predicate Active(executionId: string)
      reads this
    {
      executionId in records && !records[executionId].exited
    }

    /** A lifecycle that has exited may be replaced; an active one may not. */
    method Register(executionId: string, pid: int) returns (error: Option<HeartbeatError>)
      modifies this
      ensures error == if executionId == "" || pid <= 0 then Some(InvalidArgument)
                       else if old(Active(executionId)) then Some(ProtocolError)
                       else None
      ensures error.Some? ==> records == old(records)
      ensures error == None ==>
                && executionId in records && records == old(records)[executionId := records[executionId]]
                && records[executionId] == Record(pid, clock(old(ticks)), None, None, false)
    {
      if executionId == "" || pid <= 0 { return Some(InvalidArgument); }
      var now := Monotonic();
      if executionId in records && !records[executionId].exited { return Some(ProtocolError); }
      records := records[executionId := Record(pid, now, None, None, false)];
      return None;
    }

    method Unregister(executionId: string)
      modifies this
      ensures records == old(records) - {executionId}
    {
      records := records - {executionId};
    }

    /** A heartbeat is taken only from the registered process of an active lifecycle. */
    method RecordPayload(payload: Message, executionId: string, pid: int)
      returns (r: Result<WorkerHeartbeat, HeartbeatError>)
      modifies this
      ensures r.Ok? <==> payload.Beat? && payload.heartbeat.executionId == executionId && payload.heartbeat.pid == pid
                         && old(Active(executionId)) && old(records[executionId].pid) == pid
      ensures r.Ok? ==>
                && r.value == payload.heartbeat && executionId in old(records) && executionId in records
                && records == old(records)[executionId := records[executionId]]
                && records[executionId] == old(records[executionId]).(latest := Some(r.value),
                                             lastReceivedAt := Some(clock(old(ticks))))
      ensures r.Err? ==> records == old(records) && r.error in {ProtocolError, NotFound, Escaped}
      ensures r == Err(Escaped) <==> payload.Unreadable?
      ensures r == Err(NotFound) <==>
                payload.Beat? && payload.heartbeat.executionId == executionId && payload.heartbeat.pid == pid
                && executionId !in old(records)
    {
      if payload.Unreadable? { return Err(Escaped); }
      if !payload.Beat? { return Err(ProtocolError); }
      var heartbeat := payload.heartbeat;
      if heartbeat.executionId != executionId || heartbeat.pid != pid { return Err(ProtocolError); }
      var now := Monotonic();
      if executionId !in records { return Err(NotFound); }
      var record := records[executionId];
      if record.pid != pid || record.exited { return Err(ProtocolError); }
      records := records[executionId := record.(latest := Some(heartbeat), lastReceivedAt := Some(now))];
      return Ok(heartbeat);
    }

    method MarkExited(executionId: string) returns (error: Option<HeartbeatError>)
      modifies this
      ensures error == if executionId in old(records) then None else Some(NotFound)
      ensures records == if executionId in old(records)
                         then old(records)[executionId := old(records)[executionId].(exited := true)]
                         else old(records)
    {
      if executionId !in records { return Some(NotFound); }
      records := records[executionId := records[executionId].(exited := true)];
      return None;
    }

    /** What `record` says of a worker at `now`. Once exited, a lifecycle is never alive or expired again; the age that
        decides between those two counts from the last heartbeat, or from the registration before the first one. */
    function Judge(record: Record, now: real): Result<HeartbeatStatus, HeartbeatError> {
      var since := if record.lastReceivedAt.Some? then record.lastReceivedAt.value else record.startedAt;
      var limit := if record.lastReceivedAt.Some? then staleAfter else startupGrace;
      if record.exited then Ok(Exited)
      else if now < since then Err(ProtocolError)
      else Ok(if now - since <= limit then Alive else Expired)
    }

    method Status(executionId: string, processExited: bool) returns (r: Result<HeartbeatStatus, HeartbeatError>)
      modifies this
      ensures ticks == old(ticks) + 1
      ensures executionId !in old(records) ==> r == Err(NotFound) && records == old(records)
      ensures executionId in old(records) ==>
                var before := old(records)[executionId];
                && executionId in records
                && records == old(records)[executionId := before.(exited := before.exited || processExited)]
                && r == Judge(records[executionId], clock(old(ticks)))
    {
      var now := Monotonic();
      if executionId !in records { return Err(NotFound); }
      if processExited { records := records[executionId := records[executionId].(exited := true)]; }
      var record := records[executionId];
      assert records == old(records)[executionId := record];
      if record.exited { return Ok(Exited); }
      match record.lastReceivedAt {
        case None =>
          if now < record.startedAt { return Err(ProtocolError); }
          return Ok(if now - record.startedAt <= startupGrace then Alive else Expired);
        case Some(last) =>
          if now < last { return Err(ProtocolError); }
          return Ok(if now - last <= staleAfter then Alive else Expired);
      }
    }
  }
}
