// Termination and the safe shutdown of the process named in the metadata file.
module GuardShutdown {
  import opened Options
  import opened Ordering
  import opened GuardIdentity
  import opened GuardDescendants
  import opened GuardEnvironment

  // ---------------------------------------------------------------- what a trace says

  ghost predicate OnlySignals(t: seq<Event>, pid: int)
  {
    forall e :: e in t && e.Signalled? ==> e.pid == pid
  }

  ghost predicate NoSignals(t: seq<Event>) { forall e :: e in t ==> !e.Signalled? }

  ghost predicate SeenGone(t: seq<Event>, pid: int) { Existed(pid, false) in t }

  // Only existence probes.
  ghost predicate OnlyProbes(t: seq<Event>) { forall e :: e in t ==> e.Existed? }

  // Only existence probes and signals to pid.
  ghost predicate Attempts(t: seq<Event>, pid: int)
  {
    forall e :: e in t ==> e.Existed? || (e.Signalled? && e.pid == pid)
  }

  // Every pid listed under pid is among ds.
  ghost predicate Covers(t: seq<Event>, pid: int, ds: seq<int>)
  {
    forall e, d :: e in t && e.Listed? && e.listing.Some? && d != pid && Descends(e.listing.value, pid, d) ==> d in ds
  }

  lemma AttemptsCover(t: seq<Event>, pid: int, ds: seq<int>)
    requires Attempts(t, pid)
    ensures Covers(t, pid, ds) && OnlySignals(t, pid)
  {
  }

  lemma CoversJoin(a: seq<Event>, b: seq<Event>, pid: int, ds: seq<int>)
    requires Covers(a, pid, ds) && Covers(b, pid, ds)
    ensures Covers(a + b, pid, ds)
  {
  }

  lemma CoveredPid(t: seq<Event>, pid: int, ds: seq<int>, e: Event, d: int)
    requires Covers(t, pid, ds) && e in t && e.Listed? && e.listing.Some? && d != pid
      && Descends(e.listing.value, pid, d)
    ensures d in ds
  {
  }

  lemma ListingCovers(listing: Option<seq<Row>>, pid: int, found: seq<int>, ds: seq<int>)
    requires listing.Some? ==> AreDescendants(listing.value, pid, found)
    requires forall d :: d in found ==> d in ds
    ensures Covers([Listed(listing)], pid, ds)
  {
  }

  ghost predicate EndsWith(t: seq<Event>, e: Event) { t != [] && t[|t| - 1] == e }

  // ---------------------------------------------------------------- termination

  // A forced signal is sent only right after its target was seen alive.
  ghost predicate Reluctant(t: seq<Event>)
  {
    forall i :: 0 <= i < |t| && t[i].Signalled? && t[i].signal == Kill ==> i > 0 && t[i - 1] == Existed(t[i].pid, true)
  }

  lemma ReluctantJoin(a: seq<Event>, b: seq<Event>)
    requires Reluctant(a) && Reluctant(b)
    ensures Reluctant(a + b)
  {
    var t := a + b;
    forall i | |a| <= i < |t| && t[i].Signalled? && t[i].signal == Kill
      ensures i > 0 && t[i - 1] == Existed(t[i].pid, true)
    {
      assert t[i] == b[i - |a|];
      assert t[i - 1] == b[i - |a| - 1];
    }
  }

  // One signal and what was observed after it, sent when the pid was seen alive.
  lemma ReluctantStrike(a: seq<Event>, b: seq<Event>, pid: int)
    requires Reluctant(a) && EndsWith(a, Existed(pid, true))
    requires b != [] && b[0].Signalled? && b[0].pid == pid && forall i :: 0 < i < |b| ==> b[i].Existed?
    ensures Reluctant(a + b)
  {
  }

  lemma ProbesReluctant(t: seq<Event>)
    requires OnlyProbes(t)
    ensures Reluctant(t)
  {
    forall i | 0 <= i < |t| ensures t[i].Existed? { assert t[i] in t; }
  }

  // Polls until the pid is gone or the deadline passes.
  method WaitGone(env: Environment, pid: int) returns (gone: bool, ghost t: seq<Event>)
    modifies env`trace
    ensures env.trace == old(env.trace) + t && OnlyProbes(t) && Attempts(t, pid) && EndsWith(t, Existed(pid, !gone))
  {
    var polls := env.Polls();
    t := [];
    var k := 0;
    while k < polls
      invariant env.trace == old(env.trace) + t && OnlyProbes(t)
    {
      var alive, u := env.Exists(pid);
      t := t + u;
      if !alive {
        return true, t;
      }
      k := k + 1;
    }
    var alive, u := env.Exists(pid);
    t := t + u;
    gone := !alive;
  }

  // One signal: a refusal is a success only if the process turns out to be gone.
  method Strike(env: Environment, pid: int, signal: Signal)
    returns (delivered: bool, gone: bool, ghost t: seq<Event>)
    modifies env`trace
    ensures env.trace == old(env.trace) + t && Attempts(t, pid)
    ensures EndsWith(t, if delivered then Signalled(pid, signal, true) else Existed(pid, !gone))
    ensures t[0] == Signalled(pid, signal, delivered) && forall i :: 0 < i < |t| ==> t[i].Existed?
  {
    ghost var u;
    delivered, u := env.SendSignal(pid, signal);
    gone, t := false, u;
    if !delivered {
      var alive, v := env.Exists(pid);
      t := t + v;
      gone := !alive;
    }
  }

  // A signal was refused or the final one delivered; or the pid was gone for a moment.
  ghost predicate Forced(t: seq<Event>, pid: int)
  {
    || Signalled(pid, Term, false) in t || Signalled(pid, Kill, false) in t || Signalled(pid, Kill, true) in t
    || SeenGone(t, pid)
  }

  // After the first signal: wait, force if it is still there, wait again, and look once more.
  method AwaitOrKill(env: Environment, pid: int) returns (ok: bool, error: Option<TermError>, ghost t: seq<Event>)
    modifies env`trace
    ensures env.trace == old(env.trace) + t && Attempts(t, pid)
    ensures EndsWith(t, Existed(pid, !ok)) && (error.Some? <==> !ok) && Forced(t, pid) && Reluctant(t)
  {
    hide Attempts, OnlyProbes, Reluctant;
    var waited, w := WaitGone(env, pid);
    ProbesReluctant(w);
    t := w;
    if !waited {
      var killed, gone, x := Strike(env, pid, Kill);
      AttemptsJoin(t, x, pid);
      ReluctantStrike(t, x, pid);
      t := t + x;
      if !killed {
        return gone, if gone then None else Some(SignalFailed), t;
      }
      var _, y := WaitGone(env, pid);
      AttemptsJoin(t, y, pid);
      ProbesReluctant(y);
      ReluctantJoin(t, y);
      t := t + y;
    }
    assert Forced(t, pid);
    var still, z := env.Exists(pid);
    ProbeAttempts(pid, still);
    AttemptsJoin(t, z, pid);
    ReluctantJoin(t, z);
    t := t + z;
    return !still, if still then Some(StillAlive) else None, t;
  }

  // Signals go to pid alone and none at all if it is already gone, the first one being a request to
  // terminate; success means exactly that the last observation found no process, and a failure
  // is never reported before the process was forced or a signal refused.
  method TerminateProcess(env: Environment, pid: int) returns (ok: bool, error: Option<TermError>, ghost t: seq<Event>)
    modifies env`trace
    ensures env.trace == old(env.trace) + t && Attempts(t, pid)
    ensures EndsWith(t, Existed(pid, !ok)) && (error.Some? <==> !ok)
    ensures t[0].Existed? && (!t[0].alive ==> |t| == 1)
    ensures t[0].alive ==> |t| > 1 && t[1].Signalled? && t[1].signal == Term
    ensures Pursued(t, pid) && Forced(t, pid) && Reluctant(t)
  {
    hide Attempts, OnlyProbes, Reluctant;
    var alive, u := env.Exists(pid);
    ProbeAttempts(pid, alive);
    if !alive {
      return true, None, u;
    }
    var delivered, gone, v := Strike(env, pid, Term);
    AttemptsJoin(u, v, pid);
    ReluctantStrike(u, v, pid);
    t := u + v;
    assert t[1] == v[0];
    if !delivered {
      return gone, if gone then None else Some(SignalFailed), t;
    }
    ghost var w;
    ok, error, w := AwaitOrKill(env, pid);
    AttemptsJoin(t, w, pid);
    ReluctantJoin(t, w);
    LaterEvents(t, w, pid, ok);
    t := t + w;
  }

  lemma LaterEvents(t: seq<Event>, w: seq<Event>, pid: int, ok: bool)
    requires |t| > 1 && t[1] == Signalled(pid, Term, true)
    requires EndsWith(w, Existed(pid, !ok)) && Forced(w, pid)
    ensures EndsWith(t + w, Existed(pid, !ok)) && Forced(t + w, pid) && Pursued(t + w, pid)
    ensures (t + w)[0] == t[0] && (t + w)[1] == t[1]
  {
    assert t[1] in t + w;
  }

  // Either the pid was seen gone or it was asked to terminate.
  ghost predicate Pursued(t: seq<Event>, pid: int)
  {
    SeenGone(t, pid) || Signalled(pid, Term, true) in t || Signalled(pid, Term, false) in t
  }

  lemma ProbeAttempts(pid: int, alive: bool)
    ensures Attempts([Existed(pid, alive)], pid) && Reluctant([Existed(pid, alive)])
  {
  }

  lemma AttemptsJoin(a: seq<Event>, b: seq<Event>, pid: int)
    requires Attempts(a, pid) && Attempts(b, pid)
    ensures Attempts(a + b, pid)
  {
  }

  // ---------------------------------------------------------------- shutdown

  datatype StopStatus =
    | NotRunning
    | UnreadableMetadata
    | ShutdownOk
    | NotRunningUnverified
    | RefusedUnverified
    | CleanupIncomplete

  datatype StopResult =
    StopResult(status: StopStatus, reasons: seq<Reason>, metadataRetained: bool, survivors: seq<int>)

  // The identity recorded at launch, as shutdown compares it.
  function Expected(m: Metadata): Identity
  {
    Identity(m.pid, Some(m.createTime), m.executable, m.parentPid, if m.runId == "" then None else Some(m.runId))
  }

  // The kill gate, for the metadata on record and a live snapshot: the same pid, create times at most five
  // seconds apart, no other attribute known to differ, and at least one of those confirmed.
  predicate MayKill(m: Metadata, s: Option<Identity>, canon: string -> string)
  {
    && s.Some? && s.value.pid == m.pid
    && s.value.createTime.Some? && -5.0 <= m.createTime - s.value.createTime.value <= 5.0
    && (m.executable.Some? && s.value.executable.Some? ==>
          canon(m.executable.value) == canon(s.value.executable.value))
    && (m.parentPid.Some? && s.value.parentPid.Some? ==> m.parentPid.value == s.value.parentPid.value)
    && (m.runId != "" && s.value.token.Some? ==> s.value.token.value == m.runId)
    && (|| (m.executable.Some? && s.value.executable.Some?)
        || (m.parentPid.Some? && s.value.parentPid.Some?)
        || (m.runId != "" && s.value.token.Some?))
  }

  lemma GateIsMayKill(m: Metadata, s: Identity, canon: string -> string)
    ensures AuthorizedForKill(Expected(m), s, CREATE_TIME_TOLERANCE, canon).0 <==> MayKill(m, Some(s), canon)
  {
    hide AuthorizedForKill;
    ComparedExactly(Expected(m), s, CREATE_TIME_TOLERANCE, true, canon);
  }

  // The same process on record; only the bookkeeping fields may differ.
  predicate SameProcess(m: Metadata, m': Metadata)
  {
    m' == m.(status := m'.status, terminateError := m'.terminateError, survivors := m'.survivors, notes := m'.notes)
  }

  ghost predicate StillTracked(f: MetaFile, d: int) { f.Readable? && d in f.m.survivors }

  // No tracked descendant is dropped unless it was seen not to exist.
  ghost predicate KeepsTrack(m: Metadata, t: seq<Event>, after: MetaFile)
  {
    forall d :: d in m.survivors ==> StillTracked(after, d) || SeenGone(t, d)
  }

  // Every one of ds was seen alive or listed under pid.
  ghost predicate Witnessed(t: seq<Event>, pid: int, ds: seq<int>)
  {
    forall d :: d in ds ==> Existed(d, true) in t || ListedUnder(t, pid, d)
  }

  ghost predicate ListedUnder(t: seq<Event>, pid: int, d: int)
  {
    exists table :: Listed(Some(table)) in t && Descends(table, pid, d)
  }

  lemma WitnessedGrows(a: seq<Event>, t: seq<Event>, b: seq<Event>, pid: int, ds: seq<int>)
    requires Witnessed(t, pid, ds)
    ensures Witnessed(a + t + b, pid, ds)
  {
    forall d | d in ds ensures Existed(d, true) in a + t + b || ListedUnder(a + t + b, pid, d) {
      if ListedUnder(t, pid, d) {
        var table :| Listed(Some(table)) in t && Descends(table, pid, d);
        assert Listed(Some(table)) in a + t + b;
      }
    }
  }

  // Why a verified stop is incomplete: the root, a descendant or the port is still there, and the reason says so.
  ghost predicate Blocked(m: Metadata, t: seq<Event>, r: StopResult)
  {
    |r.reasons| == 1 &&
    match r.reasons[0]
    case TerminationFailed(_) => Existed(m.pid, true) in t
    case DescendantsAlive(ds) => r.survivors != [] && ds == r.survivors
    case PortBusy(port) => r.survivors == [] && m.port == Some(port) && PortProbed(port, true) in t
    case _ => false
  }

  // A reason to refuse the kill.
  predicate Excludes(why: Mismatch, m: Metadata, s: Identity, canon: string -> string)
  {
    match why
    case PidDiffers => s.pid != m.pid
    case CreateTimeUnknown => s.createTime.None?
    case CreateTimeDiffers => s.createTime.Some? && !(-5.0 <= m.createTime - s.createTime.value <= 5.0)
    case ExecutableDiffers =>
      m.executable.Some? && s.executable.Some? && canon(m.executable.value) != canon(s.executable.value)
    case ParentDiffers => m.parentPid.Some? && s.parentPid.Some? && m.parentPid.value != s.parentPid.value
    case TokenDiffers => m.runId != "" && s.token.Some? && s.token.value != m.runId
    case NothingConfirmed =>
      && !(m.executable.Some? && s.executable.Some?) && !(m.parentPid.Some? && s.parentPid.Some?)
      && !(m.runId != "" && s.token.Some?)
  }

  lemma RefusalIsTrue(m: Metadata, s: Identity, canon: string -> string)
    requires !MayKill(m, Some(s), canon)
    ensures var why := AuthorizedForKill(Expected(m), s, CREATE_TIME_TOLERANCE, canon).1;
      |why| == 1 && Excludes(why[0], m, s, canon)
  {
    GateIsMayKill(m, s, canon);
  }

  predicate OnlyPortBusy(r: StopResult) { |r.reasons| == 1 && r.reasons[0].PortBusy? }

  // The error a failed termination leaves behind.
  function ErrorOf(reasons: seq<Reason>): Option<TermError>
  {
    if |reasons| == 1 && reasons[0].TerminationFailed? then reasons[0].error else None
  }

  // What a retained file says after a successful write: the outcome, the reasons, the last termination error,
  // and the survivors reported; a refusal and a busy port leave the old list.
  ghost predicate RecordsOutcome(m: Metadata, m': Metadata, r: StopResult)
  {
    && SameProcess(m, m')
    && m'.status == (if r.status == RefusedUnverified then StatusUnverified else StatusIncomplete)
    && m'.notes == m.notes + r.reasons
    && m'.terminateError == (if ErrorOf(r.reasons).Some? then ErrorOf(r.reasons) else m.terminateError)
    && m'.survivors == (if r.status == RefusedUnverified || OnlyPortBusy(r) then m.survivors else r.survivors)
  }

  // Whatever was listed under the pid is on record unless it was seen gone or the write failed.
  ghost predicate KeepsTrackOfListed(t: seq<Event>, pid: int, after: MetaFile)
  {
    forall e, d :: e in t && e.Listed? && e.listing.Some? && d != pid && Descends(e.listing.value, pid, d) ==>
      SeenGone(t, d) || StillTracked(after, d) || EndsWith(t, Saved(false))
  }

  // Everything listed under the pid at any time was seen not to exist.
  ghost predicate ListedAllGone(t: seq<Event>, pid: int)
  {
    forall e, d :: e in t && e.Listed? && e.listing.Some? && d != pid && Descends(e.listing.value, pid, d) ==>
      SeenGone(t, d)
  }

  // The pid was seen gone after the last signal.
  ghost predicate GoneAtLast(t: seq<Event>, pid: int)
  {
    exists k :: 0 <= k < |t| && t[k] == Existed(pid, false) && NoSignals(t[k..])
  }

  // The processes were listed before the first signal and again after the last one, and force was used only on a
  // process just seen alive.
  ghost predicate Surveyed(t: seq<Event>)
  {
    && |t| > 1 && t[1].Listed? && Reluctant(t)
    && exists k :: 1 < k < |t| && t[k].Listed? && NoSignals(t[k..])
  }

  // The contract of one shutdown: t is everything it observed and did.
  ghost predicate StopRun(before: MetaFile, t: seq<Event>, after: MetaFile, r: StopResult, canon: string -> string)
  {
    match before
    case Missing => r == StopResult(NotRunning, [NoMetadata], false, []) && t == [] && after == Missing
    case Unreadable => r == StopResult(UnreadableMetadata, [CannotRead], true, []) && t == [] && after == Unreadable
    case Readable(m) =>
      && t != [] && t[0].Snapshotted? && t[0].pid == m.pid
      && OnlySignals(t, m.pid)
      && (!MayKill(m, t[0].snapshot, canon) ==> NoSignals(t))
      && KeepsTrack(m, t, after)
      && (r.metadataRetained <==> r.status != ShutdownOk)
      && (if r.metadataRetained then
            || (EndsWith(t, Saved(true)) && after.Readable? && RecordsOutcome(m, after.m, r))
            || (EndsWith(t, Saved(false)) && after == before)
          else
            || (EndsWith(t, Erased(true)) && after == Missing)
            || (EndsWith(t, Erased(false)) && after == before))
      && (match t[0].snapshot
          case None => (r.status == ShutdownOk || r.status == NotRunningUnverified)
            && (r.status == ShutdownOk <==> r.survivors == [])
            && r.reasons == [if r.status == ShutdownOk then GoneAndClean else GoneButDescendants(r.survivors)]
          case Some(s) =>
            if MayKill(m, Some(s), canon) then
              && (r.status == ShutdownOk || r.status == CleanupIncomplete)
              && KeepsTrackOfListed(t, m.pid, after)
              && Surveyed(t) && Pursued(t, m.pid)
              && (r.status == CleanupIncomplete ==> Blocked(m, t, r))
              && (r.status == ShutdownOk ==>
                    && GoneAtLast(t, m.pid) && ListedAllGone(t, m.pid) && r.survivors == []
                    && r.reasons == (if m.port.Some? then [PortReleased(m.port.value)] else []) + [ShutdownVerified]
                    && (m.port.Some? ==> PortProbed(m.port.value, false) in t))
            else
              && r.status == RefusedUnverified && r.survivors == []
              && |r.reasons| == 1 && r.reasons[0].Refused? && Excludes(r.reasons[0].why, m, s, canon))
      && (r.status == ShutdownOk ==> forall d :: d in m.survivors ==> SeenGone(t, d))
      && Witnessed(t, m.pid, r.survivors)
  }

  // _persist_metadata: a failed write leaves the file as it was.
  method PersistMetadata(
    env: Environment, m: Metadata, status: Status, error: Option<TermError>, survivors: Option<seq<int>>,
    extra: seq<Reason>)
    returns (ghost t: seq<Event>)
    modifies env
    ensures t == [Saved(true)] || t == [Saved(false)]
    ensures env.trace == old(env.trace) + t
    ensures env.file == (if t == [Saved(true)] then
      Readable(m.(status := status,
                  terminateError := if error.Some? then error else m.terminateError,
                  survivors := if survivors.Some? then survivors.value else m.survivors,
                  notes := m.notes + extra))
      else old(env.file))
  {
    var updated := m.(
      status := status,
      terminateError := if error.Some? then error else m.terminateError,
      survivors := if survivors.Some? then survivors.value else m.survivors,
      notes := m.notes + extra);
    var _, u := env.Save(updated);
    t := u;
  }

  // The pids among ds that exist, in order; the others were seen gone.
  method ExistingAmong(env: Environment, ds: seq<int>) returns (alive: seq<int>, ghost t: seq<Event>)
    modifies env`trace
    ensures env.trace == old(env.trace) + t && OnlyProbes(t)
    ensures forall d :: d in ds ==> d in alive || SeenGone(t, d)
    ensures forall d :: d in alive ==> d in ds && Existed(d, true) in t
    ensures forall e :: e in t && e.alive ==> e.pid in alive
  {
    alive, t := [], [];
    var k := 0;
    while k < |ds|
      invariant 0 <= k <= |ds|
      invariant env.trace == old(env.trace) + t && OnlyProbes(t)
      invariant forall i :: 0 <= i < k ==> ds[i] in alive || SeenGone(t, ds[i])
      invariant forall d :: d in alive ==> d in ds && Existed(d, true) in t
      invariant forall e :: e in t && e.alive ==> e.pid in alive
    {
      var b, u := env.Exists(ds[k]);
      t := t + u;
      if b {
        alive := alive + [ds[k]];
      }
      k := k + 1;
    }
  }

  // The recorded pid has no snapshot: only a live tracked descendant blocks completion.
  method StopGone(env: Environment, m: Metadata, ghost t0: seq<Event>, canon: string -> string)
    returns (r: StopResult, ghost t: seq<Event>)
    requires env.file == Readable(m) && t0 == [Snapshotted(m.pid, None)]
    modifies env
    ensures env.trace == old(env.trace) + t && StopRun(Readable(m), t0 + t, env.file, r, canon)
  {
    hide AuthorizedForKill;
    var alive, u := ExistingAmong(env, m.survivors);
    var survivors := Sorted(alive);
    t := u;
    if survivors != [] {
      var reasons := [GoneButDescendants(survivors)];
      var v := PersistMetadata(env, m, StatusIncomplete, None, Some(survivors), reasons);
      t := t + v;
      r := StopResult(NotRunningUnverified, reasons, true, survivors);
    } else {
      assert forall d :: d in m.survivors ==> SeenGone(u, d);
      var _, v := env.Erase();
      t := t + v;
      r := StopResult(ShutdownOk, [GoneAndClean], false, []);
    }
  }

  method StopRefused(env: Environment, m: Metadata, s: Identity, ghost t0: seq<Event>, canon: string -> string)
    returns (r: StopResult, ghost t: seq<Event>)
    requires env.file == Readable(m) && t0 == [Snapshotted(m.pid, Some(s))] && !MayKill(m, Some(s), canon)
    modifies env
    ensures env.trace == old(env.trace) + t && StopRun(Readable(m), t0 + t, env.file, r, canon)
  {
    RefusalIsTrue(m, s, canon);
    var mismatches := AuthorizedForKill(Expected(m), s, CREATE_TIME_TOLERANCE, canon).1;
    var reasons := seq(|mismatches|, i requires 0 <= i < |mismatches| => Refused(mismatches[i]));
    t := PersistMetadata(env, m, StatusUnverified, None, None, reasons);
    r := StopResult(RefusedUnverified, reasons, true, []);
  }

  method WaitPortFree(env: Environment, port: int) returns (free: bool, ghost t: seq<Event>)
    modifies env`trace
    ensures env.trace == old(env.trace) + t && EndsWith(t, PortProbed(port, !free))
    ensures forall e :: e in t ==> e.PortProbed?
  {
    var polls := env.Polls();
    t := [];
    var k := 0;
    while k < polls
      invariant env.trace == old(env.trace) + t && forall e :: e in t ==> e.PortProbed?
    {
      var busy, u := env.PortInUse(port);
      t := t + u;
      if !busy {
        return true, t;
      }
      k := k + 1;
    }
    var busy, u := env.PortInUse(port);
    t := t + u;
    free := !busy;
  }

  // One last forced signal if the root is still there.
  method ForceRoot(env: Environment, pid: int, error: Option<TermError>)
    returns (error': Option<TermError>, ghost t: seq<Event>)
    modifies env`trace
    ensures env.trace == old(env.trace) + t && Attempts(t, pid) && Reluctant(t)
  {
    hide Attempts, Reluctant, OnlyProbes;
    error' := error;
    var alive, w := env.Exists(pid);
    ProbeAttempts(pid, alive);
    t := w;
    if alive {
      var delivered, x := env.SendSignal(pid, Kill);
      SignalAttempts(pid, Kill, delivered);
      AttemptsJoin(t, x, pid);
      ReluctantStrike(t, x, pid);
      t := t + x;
      if !delivered && error.None? {
        error' := Some(SignalFailed);
      }
      var _, y := WaitGone(env, pid);
      AttemptsJoin(t, y, pid);
      ProbesReluctant(y);
      ReluctantJoin(t, y);
      t := t + y;
    }
  }

  lemma SignalAttempts(pid: int, signal: Signal, delivered: bool)
    ensures Attempts([Signalled(pid, signal, delivered)], pid)
  {
  }

  // Terminates the verified root; descendants is everything listed under it or tracked before.
  method TerminateRoot(env: Environment, m: Metadata)
    returns (terminated: bool, error: Option<TermError>, descendants: seq<int>, ghost t: seq<Event>)
    modifies env`trace
    ensures env.trace == old(env.trace) + t && OnlySignals(t, m.pid) && Covers(t, m.pid, descendants)
    ensures forall d :: d in m.survivors ==> d in descendants
    ensures Pursued(t, m.pid) && (!terminated ==> Existed(m.pid, true) in t)
    ensures t != [] && t[0].Listed? && Reluctant(t)
  {
    hide Attempts, Covers, AreDescendants, Sorted, Distincts, Reluctant;
    var listing, u := env.Listing();
    var live := CollectDescendants(listing, m.pid);
    descendants := Sorted(Distincts(live + m.survivors));
    ListingCovers(listing, m.pid, live, descendants);
    ghost var v;
    terminated, error, v := TerminateProcess(env, m.pid);
    ghost var w;
    error, w := ForceRoot(env, m.pid, error);
    AttemptsJoin(v, w, m.pid);
    AttemptsCover(v + w, m.pid, descendants);
    CoversJoin(u, v + w, m.pid, descendants);
    ReluctantJoin(v, w);
    ListingReluctant(listing);
    ReluctantJoin(u, v + w);
    t := u + (v + w);
  }

  lemma ListingReluctant(listing: Option<seq<Row>>)
    ensures Reluctant([Listed(listing)])
  {
  }

  // Descendants that exist now, plus whatever is now listed under the root.
  method Survivors(env: Environment, pid: int, descendants: seq<int>) returns (survivors: seq<int>, ghost t: seq<Event>)
    modifies env`trace
    ensures env.trace == old(env.trace) + t && NoSignals(t) && Covers(t, pid, survivors) && Witnessed(t, pid, survivors)
    ensures forall d :: d in descendants ==> d in survivors || SeenGone(t, d)
    ensures HasListing(t)
  {
    var alive, u := ExistingAmong(env, descendants);
    survivors := Sorted(alive);
    var listing, v := env.Listing();
    t := u + v;
    var listed := CollectDescendants(listing, pid);
    var k := 0;
    while k < |listed|
      invariant 0 <= k <= |listed|
      invariant forall d :: d in alive ==> d in survivors
      invariant forall d :: d in survivors ==> d in alive || d in listed
      invariant forall i :: 0 <= i < k ==> listed[i] in survivors
    {
      if listed[k] !in survivors {
        survivors := survivors + [listed[k]];
      }
      k := k + 1;
    }
    survivors := Sorted(survivors);
    ListingCovers(listing, pid, listed, survivors);
    assert Listed(listing) in t;
    ListingWitnesses(u, listing, pid, listed, alive, survivors);
  }

  lemma ListingWitnesses(
    u: seq<Event>, listing: Option<seq<Row>>, pid: int, listed: seq<int>, alive: seq<int>, ds: seq<int>)
    requires (listing.Some? ==> AreDescendants(listing.value, pid, listed)) && (listing.None? ==> listed == [])
    requires forall d :: d in alive ==> Existed(d, true) in u
    requires forall d :: d in ds ==> d in alive || d in listed
    ensures Witnessed(u + [Listed(listing)], pid, ds)
  {
    var t := u + [Listed(listing)];
    forall d | d in ds ensures Existed(d, true) in t || ListedUnder(t, pid, d) {
      if d !in alive {
        assert Listed(Some(listing.value)) in t && Descends(listing.value, pid, d);
      }
    }
  }

  ghost predicate HasListing(t: seq<Event>) { exists e :: e in t && e.Listed? }

  // Everything up to the decision: t is root and survivors handled, ds what had to be accounted for.
  ghost predicate Accounted(
    m: Metadata, s: Identity, t0: seq<Event>, u: seq<Event>, v: seq<Event>, ds: seq<int>, survivors: seq<int>)
  {
    && t0 == [Snapshotted(m.pid, Some(s))]
    && OnlySignals(u, m.pid) && Covers(u, m.pid, ds) && NoSignals(v) && Covers(v, m.pid, survivors)
    && Pursued(u, m.pid) && Witnessed(v, m.pid, survivors)
    && (forall d :: d in ds ==> d in survivors || SeenGone(v, d))
    && (forall d :: d in m.survivors ==> d in ds)
    && u != [] && u[0].Listed? && Reluctant(u) && HasListing(v)
  }

  // Everything listed under pid is among ds or was seen gone.
  ghost predicate ListedIn(t: seq<Event>, pid: int, ds: seq<int>)
  {
    forall e, d :: e in t && e.Listed? && e.listing.Some? && d != pid && Descends(e.listing.value, pid, d) ==>
      d in ds || SeenGone(t, d)
  }

  lemma ListedPid(t: seq<Event>, pid: int, ds: seq<int>, e: Event, d: int)
    requires ListedIn(t, pid, ds) && e in t && e.Listed? && e.listing.Some? && d != pid
      && Descends(e.listing.value, pid, d)
    ensures d in ds || SeenGone(t, d)
  {
  }

  lemma AccountedIsListed(
    m: Metadata, s: Identity, t0: seq<Event>, u: seq<Event>, v: seq<Event>, ds: seq<int>, survivors: seq<int>,
    more: seq<Event>)
    requires Accounted(m, s, t0, u, v, ds, survivors) && forall e :: e in more ==> !e.Listed?
    ensures ListedIn(t0 + u + v + more, m.pid, survivors)
  {
    var t := t0 + u + v + more;
    forall e, d | e in t && e.Listed? && e.listing.Some? && d != m.pid && Descends(e.listing.value, m.pid, d)
      ensures d in survivors || SeenGone(t, d)
    {
      assert e in u || e in v;
      if e in u {
        CoveredPid(u, m.pid, ds, e, d);
        assert d in survivors || Existed(d, false) in v;
      } else {
        CoveredPid(v, m.pid, survivors, e, d);
      }
    }
  }

  lemma AccountedFor(
    m: Metadata, s: Identity, t0: seq<Event>, u: seq<Event>, v: seq<Event>, ds: seq<int>, survivors: seq<int>)
    requires t0 == [Snapshotted(m.pid, Some(s))]
    requires OnlySignals(u, m.pid) && Covers(u, m.pid, ds) && Pursued(u, m.pid)
    requires NoSignals(v) && Covers(v, m.pid, survivors) && Witnessed(v, m.pid, survivors)
    requires forall d :: d in ds ==> d in survivors || SeenGone(v, d)
    requires forall d :: d in m.survivors ==> d in ds
    requires u != [] && u[0].Listed? && Reluctant(u) && HasListing(v)
    ensures Accounted(m, s, t0, u, v, ds, survivors)
  {
  }

  lemma StillBlocked(
    m: Metadata, t0: seq<Event>, u: seq<Event>, v: seq<Event>, w: seq<Event>, terminated: bool, alive: bool,
    r: StopResult)
    requires !terminated ==> Existed(m.pid, true) in u
    requires terminated ==> w == [Existed(m.pid, alive)]
    requires |r.reasons| == 1 && (r.reasons[0].TerminationFailed? || r.reasons[0] == DescendantsAlive(r.survivors))
    requires if r.reasons[0].TerminationFailed? then !terminated || alive else r.survivors != []
    ensures Blocked(m, t0 + u + v + w, r)
  {
  }

  lemma AccountedIsSurveyed(
    m: Metadata, s: Identity, t0: seq<Event>, u: seq<Event>, v: seq<Event>, ds: seq<int>, survivors: seq<int>,
    more: seq<Event>)
    requires Accounted(m, s, t0, u, v, ds, survivors) && NoSignals(more)
    ensures Surveyed(t0 + u + v + more)
  {
    hide Covers, Witnessed, Pursued;
    var t := t0 + u + v + more;
    var e :| e in v && e.Listed?;
    var i :| 0 <= i < |v| && v[i] == e;
    var k := 1 + |u| + i;
    assert t[1] == u[0] && t[k] == e;
    assert t[k..] == v[i..] + more;
    assert NoSignals(v[i..]);
    QuietReluctant(t0);
    QuietReluctant(v);
    QuietReluctant(more);
    ReluctantJoin(t0, u);
    ReluctantJoin(t0 + u, v);
    ReluctantJoin(t0 + u + v, more);
  }

  lemma QuietReluctant(t: seq<Event>)
    requires NoSignals(t)
    ensures Reluctant(t)
  {
    forall i | 0 <= i < |t| ensures !t[i].Signalled? { assert t[i] in t; }
  }

  lemma SurveyedGrows(t: seq<Event>, x: seq<Event>)
    requires Surveyed(t) && NoSignals(x)
    ensures Surveyed(t + x)
  {
    QuietReluctant(x);
    ReluctantJoin(t, x);
    var k :| 1 < k < |t| && t[k].Listed? && NoSignals(t[k..]);
    assert (t + x)[k..] == t[k..] + x && (t + x)[k] == t[k] && (t + x)[1] == t[1];
  }

  // What the accounting amounts to for a stop that leaves the file.
  lemma AccountedForLeave(
    m: Metadata, s: Identity, t0: seq<Event>, u: seq<Event>, v: seq<Event>, ds: seq<int>, survivors: seq<int>,
    more: seq<Event>)
    requires Accounted(m, s, t0, u, v, ds, survivors) && forall e :: e in more ==> !e.Listed? && !e.Signalled?
    ensures var t := t0 + u + v + more;
      && t[0] == t0[0] && OnlySignals(t, m.pid) && ListedIn(t, m.pid, survivors)
      && Pursued(t, m.pid) && Witnessed(t, m.pid, survivors) && Surveyed(t)
      && forall d :: d in m.survivors ==> d in survivors || SeenGone(t, d)
  {
    hide Covers, ListedIn, Witnessed, Surveyed, Reluctant, HasListing;
    AccountedIsSurveyed(m, s, t0, u, v, ds, survivors, more);
    AccountedIsListed(m, s, t0, u, v, ds, survivors, more);
    WitnessedGrows(t0 + u, v, more, m.pid, survivors);
  }

  lemma AccountedSoFar(
    m: Metadata, s: Identity, t0: seq<Event>, u: seq<Event>, v: seq<Event>, w: seq<Event>, ds: seq<int>,
    terminated: bool, alive: bool, r: StopResult)
    requires Accounted(m, s, t0, u, v, ds, r.survivors) && (!terminated ==> Existed(m.pid, true) in u)
    requires w == if terminated then [Existed(m.pid, alive)] else []
    requires |r.reasons| == 1 && (r.reasons[0].TerminationFailed? || r.reasons[0] == DescendantsAlive(r.survivors))
    requires if r.reasons[0].TerminationFailed? then !terminated || alive else r.survivors != []
    ensures var t := t0 + (u + v + w);
      && t != [] && t[0] == Snapshotted(m.pid, Some(s)) && OnlySignals(t, m.pid) && ListedIn(t, m.pid, r.survivors)
      && Pursued(t, m.pid) && Witnessed(t, m.pid, r.survivors) && Blocked(m, t, r) && Surveyed(t)
      && forall d :: d in m.survivors ==> d in r.survivors || SeenGone(t, d)
  {
    hide Covers, ListedIn, Witnessed, Pursued, Blocked, Surveyed;
    assert t0 + (u + v + w) == t0 + u + v + w;
    StillBlocked(m, t0, u, v, w, terminated, alive, r);
    AccountedForLeave(m, s, t0, u, v, ds, r.survivors, w);
  }

  // Leaves the file in place with the given survivors on record (the old ones when None).
  method LeaveIncomplete(
    env: Environment, m: Metadata, s: Identity, error: Option<TermError>, survivors: Option<seq<int>>,
    reasons: seq<Reason>,
    ghost t: seq<Event>, canon: string -> string)
    returns (r: StopResult, ghost x: seq<Event>)
    requires env.file == Readable(m) && MayKill(m, Some(s), canon)
    requires t != [] && t[0] == Snapshotted(m.pid, Some(s)) && OnlySignals(t, m.pid)
    requires error == ErrorOf(reasons) && (survivors.None? <==> |reasons| == 1 && reasons[0].PortBusy?)
    requires survivors.Some? ==> forall d :: d in m.survivors ==> d in survivors.value || SeenGone(t, d)
    requires ListedIn(t, m.pid, if survivors.Some? then survivors.value else [])
    requires Pursued(t, m.pid) && Witnessed(t, m.pid, if survivors.Some? then survivors.value else []) && Surveyed(t)
    requires Blocked(m, t,
      StopResult(CleanupIncomplete, reasons, true, if survivors.Some? then survivors.value else []))
    modifies env
    ensures env.trace == old(env.trace) + x && StopRun(Readable(m), t + x, env.file, r, canon)
    ensures r == StopResult(CleanupIncomplete, reasons, true, if survivors.Some? then survivors.value else [])
  {
    x := PersistMetadata(env, m, StatusIncomplete, error, survivors, reasons);
    r := StopResult(CleanupIncomplete, reasons, true, if survivors.Some? then survivors.value else []);
    Incomplete(m, s, t, x, env.file, r, canon);
  }

  // Root and descendants are gone: release of the port, then erase.
  method CheckPortAndErase(
    env: Environment, m: Metadata, s: Identity, ghost t0: seq<Event>, ghost u: seq<Event>, ghost v: seq<Event>,
    ghost ds: seq<int>,
    canon: string -> string)
    returns (r: StopResult, ghost x: seq<Event>)
    requires env.file == Readable(m) && MayKill(m, Some(s), canon) && Accounted(m, s, t0, u, v, ds, [])
    modifies env
    ensures env.trace == old(env.trace) + x
    ensures StopRun(Readable(m), t0 + u + v + [Existed(m.pid, false)] + x, env.file, r, canon)
  {
    hide AuthorizedForKill, Covers, StopRun, ListedIn, Surveyed;
    ghost var t := t0 + u + v + [Existed(m.pid, false)];
    var reasons: seq<Reason> := [];
    ghost var p: seq<Event> := [];
    if m.port.Some? {
      var free, probes := WaitPortFree(env, m.port.value);
      p := probes;
      if !free {
        AccountedForLeave(m, s, t0, u, v, ds, [], [Existed(m.pid, false)] + p);
        assert PortProbed(m.port.value, true) in t + p;
        assert t + p == t0 + u + v + ([Existed(m.pid, false)] + p);
        ghost var y;
        r, y := LeaveIncomplete(env, m, s, None, None, [PortBusy(m.port.value)], t + p, canon);
        assert t + (p + y) == (t + p) + y;
        return r, p + y;
      }
      reasons := [PortReleased(m.port.value)];
    }
    var _, z := env.Erase();
    r := StopResult(ShutdownOk, reasons + [ShutdownVerified], false, []);
    Complete(m, s, t0, u, ds, v, p, z, env.file, r, canon);
    x := p + z;
    assert t + x == t + p + z;
  }

  // The identity is proven: terminate, account for every descendant and the port, and only then erase.
  method StopVerified(env: Environment, m: Metadata, s: Identity, ghost t0: seq<Event>, canon: string -> string)
    returns (r: StopResult, ghost t: seq<Event>)
    requires env.file == Readable(m) && t0 == [Snapshotted(m.pid, Some(s))] && MayKill(m, Some(s), canon)
    modifies env
    ensures env.trace == old(env.trace) + t && StopRun(Readable(m), t0 + t, env.file, r, canon)
  {
    hide MayKill, Covers, StopRun, ListedIn, Witnessed, Pursued, OnlySignals, Blocked, Accounted, Surveyed, Reluctant;
    var terminated, error, descendants, u := TerminateRoot(env, m);
    var survivors, v := Survivors(env, m.pid, descendants);
    AccountedFor(m, s, t0, u, v, descendants, survivors);
    var alive := false;
    ghost var w: seq<Event> := [];
    if terminated {
      alive, w := env.Exists(m.pid);
    }
    t := u + v + w;
    if terminated && !alive && survivors == [] {
      ghost var x;
      r, x := CheckPortAndErase(env, m, s, t0, u, v, descendants, canon);
      assert t0 + (t + x) == t0 + u + v + [Existed(m.pid, false)] + x;
      t := t + x;
    } else {
      var failed := !terminated || alive;
      var reasons := [if failed then TerminationFailed(error) else DescendantsAlive(survivors)];
      ghost var result := StopResult(CleanupIncomplete, reasons, true, survivors);
      AccountedSoFar(m, s, t0, u, v, w, descendants, terminated, alive, result);
      ghost var x;
      r, x := LeaveIncomplete(
        env, m, s, if failed then error else None, Some(survivors), reasons, t0 + t, canon);
      assert t0 + (t + x) == (t0 + t) + x;
      t := t + x;
    }
  }

  // A stop that ends with a write and keeps every tracked descendant not seen gone.
  lemma Incomplete(
    m: Metadata, s: Identity, t: seq<Event>, x: seq<Event>, after: MetaFile, r: StopResult, canon: string -> string)
    requires t != [] && t[0] == Snapshotted(m.pid, Some(s)) && MayKill(m, Some(s), canon)
    requires OnlySignals(t, m.pid) && (x == [Saved(true)] || x == [Saved(false)])
    requires after.Readable? && (if x == [Saved(true)] then RecordsOutcome(m, after.m, r) else after == Readable(m))
    requires forall d :: d in m.survivors ==> d in after.m.survivors || SeenGone(t, d)
    requires ListedIn(t, m.pid, r.survivors)
    requires r.status == CleanupIncomplete && r.metadataRetained
    requires Pursued(t, m.pid) && Witnessed(t, m.pid, r.survivors) && Blocked(m, t, r) && Surveyed(t)
    ensures StopRun(Readable(m), t + x, after, r, canon)
  {
    hide AuthorizedForKill, Descends, Surveyed;
    SurveyedGrows(t, x);
    var all := t + x;
    assert all[|all| - 1] == x[0] && all[0] == t[0];
    WitnessedGrows([], t, x, m.pid, r.survivors);
    assert [] + t + x == all;
    forall e, d | e in all && e.Listed? && e.listing.Some? && d != m.pid && Descends(e.listing.value, m.pid, d)
      ensures SeenGone(all, d) || StillTracked(after, d) || EndsWith(all, Saved(false))
    {
      assert e in t;
      assert d in r.survivors || SeenGone(t, d) by { ListedPid(t, m.pid, r.survivors, e, d); }
    }
  }

  // A stop that accounts for everything and erases.
  lemma Complete(
    m: Metadata, s: Identity, t0: seq<Event>, u: seq<Event>, ds: seq<int>, v: seq<Event>, p: seq<Event>, z: seq<Event>,
    after: MetaFile, r: StopResult, canon: string -> string)
    requires MayKill(m, Some(s), canon) && Accounted(m, s, t0, u, v, ds, [])
    requires forall e :: e in p ==> e.PortProbed?
    requires m.port.Some? ==> EndsWith(p, PortProbed(m.port.value, false))
    requires z == [Erased(true)] || z == [Erased(false)]
    requires after == if z == [Erased(true)] then Missing else Readable(m)
    requires r.status == ShutdownOk && !r.metadataRetained && r.survivors == []
    requires r.reasons == (if m.port.Some? then [PortReleased(m.port.value)] else []) + [ShutdownVerified]
    ensures StopRun(Readable(m), t0 + u + v + [Existed(m.pid, false)] + p + z, after, r, canon)
  {
    hide AuthorizedForKill, Descends, GoneAtLast, Surveyed, Reluctant, HasListing;
    AccountedIsSurveyed(m, s, t0, u, v, ds, [], [Existed(m.pid, false)] + p + z);
    assert t0 + u + v + ([Existed(m.pid, false)] + p + z) == t0 + u + v + [Existed(m.pid, false)] + p + z;
    var t := t0 + u + v + [Existed(m.pid, false)] + p + z;
    GoneSinceProbe(t0 + u + v, m.pid, p + z);
    assert t == (t0 + u + v) + [Existed(m.pid, false)] + (p + z);
    assert t[0] == t0[0] && t[|t| - 1] == z[0];
    forall e, d | e in t && e.Listed? && e.listing.Some? && d != m.pid && Descends(e.listing.value, m.pid, d)
      ensures SeenGone(t, d)
    {
      assert e in u || e in v;
      assert d in ds by {
        if e in u {
          CoveredPid(u, m.pid, ds, e, d);
        } else {
          CoveredPid(v, m.pid, [], e, d);
        }
      }
      assert Existed(d, false) in v;
    }
  }

  lemma GoneSinceProbe(a: seq<Event>, pid: int, b: seq<Event>)
    requires NoSignals(b)
    ensures GoneAtLast(a + [Existed(pid, false)] + b, pid)
  {
    var t := a + [Existed(pid, false)] + b;
    assert t[|a|] == Existed(pid, false);
    assert t[|a|..] == [Existed(pid, false)] + b;
  }

  // shutdown_process with its default seams.
  method ShutdownProcess(env: Environment, canon: string -> string) returns (r: StopResult, ghost t: seq<Event>)
    modifies env
    ensures env.trace == old(env.trace) + t && StopRun(old(env.file), t, env.file, r, canon)
    ensures forall e :: e in t && e.Signalled? ==>
      && old(env.file).Readable? && e.pid == old(env.file).m.pid
      && t[0].Snapshotted? && t[0].pid == e.pid && t[0].snapshot.Some? && t[0].snapshot.value.createTime.Some?
      && -5.0 <= old(env.file).m.createTime - t[0].snapshot.value.createTime.value <= 5.0
  {
    if env.file.Missing? {
      return StopResult(NotRunning, [NoMetadata], false, []), [];
    }
    if env.file.Unreadable? {
      return StopResult(UnreadableMetadata, [CannotRead], true, []), [];
    }
    var m := env.file.m;
    var s, t0 := env.Snapshot(m.pid);
    ghost var u;
    if s.Some? { GateIsMayKill(m, s.value, canon); }
    if s.None? {
      r, u := StopGone(env, m, t0, canon);
    } else if !AuthorizedForKill(Expected(m), s.value, CREATE_TIME_TOLERANCE, canon).0 {
      r, u := StopRefused(env, m, s.value, t0, canon);
    } else {
      r, u := StopVerified(env, m, s.value, t0, canon);
    }
    t := t0 + u;
  }

  // ---------------------------------------------------------------- sequences of stops

  datatype StopRecord = StopRecord(before: MetaFile, events: seq<Event>, after: MetaFile, result: StopResult)

  // Stops one after the other with nobody else touching the file.
  ghost predicate Sequence(rs: seq<StopRecord>, canon: string -> string)
  {
    && (forall i :: 0 <= i < |rs| ==> StopRun(rs[i].before, rs[i].events, rs[i].after, rs[i].result, canon))
    && forall i :: 0 <= i < |rs| - 1 ==> rs[i].after == rs[i + 1].before
  }

  lemma StopKeepsTrack(x: StopRecord, canon: string -> string, d: int)
    requires StopRun(x.before, x.events, x.after, x.result, canon) && StillTracked(x.before, d)
    ensures StillTracked(x.after, d) || SeenGone(x.events, d)
  {
    hide AuthorizedForKill, RecordsOutcome, KeepsTrackOfListed, ListedAllGone, GoneAtLast;
  }

  // A descendant once on record stays on record, through any number of stops, until some stop
  // sees it not to exist.
  lemma {:induction false} TrackedUntilSeenGone(rs: seq<StopRecord>, canon: string -> string, d: int)
    requires rs != [] && Sequence(rs, canon) && StillTracked(rs[0].before, d)
    ensures StillTracked(rs[|rs| - 1].after, d) || exists k :: 0 <= k < |rs| && SeenGone(rs[k].events, d)
    decreases |rs|
  {
    hide StopRun;
    var first := rs[0];
    StopKeepsTrack(first, canon, d);
    if !SeenGone(first.events, d) && |rs| > 1 {
      var rest := rs[1..];
      assert rest[0].before == first.after;
      forall i | 0 <= i < |rest| - 1 ensures rest[i].after == rest[i + 1].before {
        assert rs[i + 1].after == rs[i + 2].before;
      }
      TrackedUntilSeenGone(rest, canon, d);
      if k :| 0 <= k < |rest| && SeenGone(rest[k].events, d) {
        assert SeenGone(rs[k + 1].events, d);
      }
    }
  }

  // Over the whole sequence every signal goes to the one pid recorded at its beginning, and only in a
  // stop whose own snapshot of that pid passed the kill gate against the recorded identity.
  lemma {:induction false} SignalsNeedProof(rs: seq<StopRecord>, canon: string -> string, m: Metadata, k: nat, e: Event)
    requires Sequence(rs, canon) && k < |rs| && rs[0].before == Readable(m)
    requires e in rs[k].events && e.Signalled?
    ensures e.pid == m.pid
    ensures rs[k].before.Readable? && SameProcess(m, rs[k].before.m)
    ensures rs[k].events[0].Snapshotted? && rs[k].events[0].pid == m.pid && MayKill(m, rs[k].events[0].snapshot, canon)
  {
    hide AuthorizedForKill, KeepsTrack, KeepsTrackOfListed, ListedAllGone, GoneAtLast;
    RecordKeepsProcess(rs, canon, m, k);
    assert rs[k].before.Readable?;
  }

  // As long as the file is there it names the same process.
  lemma {:induction false} RecordKeepsProcess(rs: seq<StopRecord>, canon: string -> string, m: Metadata, k: nat)
    requires Sequence(rs, canon) && k < |rs| && rs[0].before == Readable(m)
    ensures rs[k].before == Missing || (rs[k].before.Readable? && SameProcess(m, rs[k].before.m))
  {
    hide AuthorizedForKill, KeepsTrack, KeepsTrackOfListed, ListedAllGone, GoneAtLast;
    if k > 0 {
      RecordKeepsProcess(rs, canon, m, k - 1);
      assert rs[k - 1].after == rs[k].before;
    }
  }

  // A file that has disappeared over a sequence of stops was erased by a successful one, and a stop that
  // reports its metadata retained leaves a file behind.
  lemma {:induction false} OnlySuccessErases(rs: seq<StopRecord>, canon: string -> string)
    requires rs != [] && Sequence(rs, canon) && rs[0].before != Missing
    ensures rs[|rs| - 1].after == Missing ==> exists k :: 0 <= k < |rs| && rs[k].result.status == ShutdownOk
    ensures forall k :: 0 <= k < |rs| && rs[k].result.metadataRetained ==> rs[k].after != Missing
    decreases |rs|
  {
    hide AuthorizedForKill, KeepsTrack, KeepsTrackOfListed, ListedAllGone, GoneAtLast, RecordsOutcome;
    if |rs| > 1 && rs[0].after != Missing {
      var rest := rs[1..];
      assert rest[0].before == rs[0].after;
      forall i | 0 <= i < |rest| - 1 ensures rest[i].after == rest[i + 1].before {
        assert rs[i + 1].after == rs[i + 2].before;
      }
      OnlySuccessErases(rest, canon);
      if k :| 0 <= k < |rest| && rest[k].result.status == ShutdownOk {
        assert rs[k + 1].result.status == ShutdownOk;
      }
    }
  }
}
