// The machine as the guard sees it: processes appear, die and reuse pids between any two observations,
// and any file write may fail. Every observation and every signal is recorded in a ghost trace.
module GuardEnvironment {
  import opened Options
  import opened GuardIdentity
  import opened GuardDescendants

  datatype Signal = Term | Kill

  datatype Event =
    | Snapshotted(pid: int, snapshot: Option<Identity>)
    | Existed(pid: int, alive: bool)
    | Listed(listing: Option<seq<Row>>)
    | PortProbed(port: int, busy: bool)
    | ListenerFound(port: int, listener: Option<int>)
    | Signalled(pid: int, signal: Signal, delivered: bool)
    | Saved(ok: bool)
    | Erased(ok: bool)
    | Spawned(pid: int)

  datatype Status = Started | StatusVerified | StatusUnverified | StatusIncomplete

  datatype TermError = SignalFailed | StillAlive

  datatype Reason =
    | NoMetadata
    | CannotRead
    | GoneButDescendants(pids: seq<int>)
    | GoneAndClean
    | Refused(why: Mismatch)
    | TerminationFailed(error: Option<TermError>)
    | DescendantsAlive(pids: seq<int>)
    | PortReleased(port: int)
    | PortBusy(port: int)
    | ShutdownVerified

  datatype Metadata = Metadata(
    runId: string,
    pid: int,
    createTime: real,
    executable: Option<string>,
    parentPid: Option<int>,
    port: Option<int>,
    status: Status,
    terminateError: Option<TermError>,
    survivors: seq<int>,
    notes: seq<Reason>)

  // The metadata file; Unreadable is present but cannot be parsed.
  datatype MetaFile = Missing | Unreadable | Readable(m: Metadata)

  class Environment {
    var file: MetaFile
    ghost var trace: seq<Event>

    // A live snapshot carries the pid asked for, a create time and no token.
    method Snapshot(pid: int) returns (s: Option<Identity>, ghost t: seq<Event>)
      modifies this`trace
      ensures t == [Snapshotted(pid, s)] && trace == old(trace) + t
      ensures s.Some? ==> s.value.pid == pid && s.value.createTime.Some? && s.value.token.None?
    {
      var readable: bool := *;
      if readable {
        var createTime: real := *;
        var executable: Option<string> := *;
        var parentPid: Option<int> := *;
        s := Some(Identity(pid, Some(createTime), executable, parentPid, None));
      } else {
        s := None;
      }
      t := [Snapshotted(pid, s)];
      trace := trace + t;
    }

    method Exists(pid: int) returns (alive: bool, ghost t: seq<Event>)
      modifies this`trace
      ensures t == [Existed(pid, alive)] && trace == old(trace) + t
    {
      alive := *;
      t := [Existed(pid, alive)];
      trace := trace + t;
    }

    method Listing() returns (listing: Option<seq<Row>>, ghost t: seq<Event>)
      modifies this`trace
      ensures t == [Listed(listing)] && trace == old(trace) + t
    {
      listing := *;
      t := [Listed(listing)];
      trace := trace + t;
    }

    method PortInUse(port: int) returns (busy: bool, ghost t: seq<Event>)
      modifies this`trace
      ensures t == [PortProbed(port, busy)] && trace == old(trace) + t
    {
      busy := *;
      t := [PortProbed(port, busy)];
      trace := trace + t;
    }

    method FindListener(port: int) returns (listener: Option<int>, ghost t: seq<Event>)
      modifies this`trace
      ensures t == [ListenerFound(port, listener)] && trace == old(trace) + t
    {
      listener := *;
      t := [ListenerFound(port, listener)];
      trace := trace + t;
    }

    // delivered is false when the system refuses the signal.
    method SendSignal(pid: int, signal: Signal) returns (delivered: bool, ghost t: seq<Event>)
      modifies this`trace
      ensures t == [Signalled(pid, signal, delivered)] && trace == old(trace) + t
    {
      delivered := *;
      t := [Signalled(pid, signal, delivered)];
      trace := trace + t;
    }

    // How many polls fit before a deadline.
    method Polls() returns (n: nat)
    {
      n := *;
    }

    // The pid of a new process is positive.
    method Spawn() returns (pid: Option<int>, ghost t: seq<Event>)
      modifies this`trace
      ensures pid.Some? ==> pid.value > 0
      ensures t == (if pid.Some? then [Spawned(pid.value)] else []) && trace == old(trace) + t
    {
      pid := *;
      if pid.Some? && pid.value <= 0 {
        pid := None;
      }
      t := if pid.Some? then [Spawned(pid.value)] else [];
      trace := trace + t;
    }

    // An atomic replacement: either the whole new contents or, on an I/O error, the old ones.
    method Save(m: Metadata) returns (ok: bool, ghost t: seq<Event>)
      modifies this
      ensures t == [Saved(ok)] && trace == old(trace) + t
      ensures file == if ok then Readable(m) else old(file)
    {
      ok := *;
      if ok {
        file := Readable(m);
      }
      t := [Saved(ok)];
      trace := trace + t;
    }

    method Erase() returns (ok: bool, ghost t: seq<Event>)
      modifies this
      ensures t == [Erased(ok)] && trace == old(trace) + t
      ensures file == if ok then Missing else old(file)
    {
      ok := *;
      if ok {
        file := Missing;
      }
      t := [Erased(ok)];
      trace := trace + t;
    }
  }
}
