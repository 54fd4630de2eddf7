// Launch: spawn, verify ownership, and only then write the metadata a later stop relies on.
module GuardLaunch {
  import opened Options
  import opened Ordering
  import opened GuardIdentity
  import opened GuardDescendants
  import opened GuardEnvironment
  import opened GuardShutdown

  // ---------------------------------------------------------------- cleaning up a failed launch

  // pid itself, or something listed under it earlier in t.
  ghost predicate InTree(t: seq<Event>, pid: int, p: int)
  {
    p == pid || exists table :: Listed(Some(table)) in t && Descends(table, pid, p)
  }

  ghost predicate TreeSignals(t: seq<Event>, pid: int)
  {
    forall e :: e in t && e.Signalled? ==> InTree(t, pid, e.pid)
  }

  lemma InTreeGrows(a: seq<Event>, b: seq<Event>, pid: int, p: int)
    requires InTree(a, pid, p) || InTree(b, pid, p)
    ensures InTree(a + b, pid, p)
  {
    if p != pid {
      if InTree(a, pid, p) {
        var table :| Listed(Some(table)) in a && Descends(table, pid, p);
        assert Listed(Some(table)) in a + b;
      } else {
        var table :| Listed(Some(table)) in b && Descends(table, pid, p);
        assert Listed(Some(table)) in a + b;
      }
    }
  }

  lemma TreeJoin(a: seq<Event>, b: seq<Event>, pid: int)
    requires TreeSignals(a, pid)
    requires forall e :: e in b && e.Signalled? ==> InTree(a, pid, e.pid) || InTree(b, pid, e.pid)
    ensures TreeSignals(a + b, pid)
  {
    forall e | e in a + b && e.Signalled? ensures InTree(a + b, pid, e.pid) {
      InTreeGrows(a, b, pid, e.pid);
    }
  }

  lemma ListedInTree(t: seq<Event>, listing: Option<seq<Row>>, pid: int, found: seq<int>)
    requires Listed(listing) in t && (listing.Some? ==> AreDescendants(listing.value, pid, found))
      && (listing.None? ==> found == [])
    ensures forall p :: p in found ==> InTree(t, pid, p)
  {
  }

  // No file was written.
  ghost predicate Unsaved(t: seq<Event>) { forall e :: e in t ==> !e.Saved? }

  // What cleaning up owes a pid: it was asked to terminate and forced unless seen gone, and unless
  // it was seen gone it is a survivor.
  ghost predicate Cleared(t: seq<Event>, p: int, survivors: seq<int>)
  {
    Pursued(t, p) && Forced(t, p) && (p in survivors || SeenGone(t, p))
  }

  // Everything in ps and everything ever listed under pid was cleared, and survivors were seen alive.
  ghost predicate Settled(t: seq<Event>, pid: int, ps: seq<int>, survivors: seq<int>)
  {
    && (forall p :: p in ps ==> Cleared(t, p, survivors))
    && (forall e, d :: e in t && e.Listed? && e.listing.Some? && d != pid && Descends(e.listing.value, pid, d) ==>
          Cleared(t, d, survivors))
    && (forall p :: p in survivors ==> Existed(p, true) in t)
  }

  lemma ClearedGrows(a: seq<Event>, t: seq<Event>, b: seq<Event>, p: int, survivors: seq<int>, survivors': seq<int>)
    requires Cleared(t, p, survivors) && (p in survivors ==> p in survivors')
    ensures Cleared(a + t + b, p, survivors')
  {
  }

  lemma SettledJoin(
    a: seq<Event>, b: seq<Event>, pid: int, ps: seq<int>, qs: seq<int>, survivors: seq<int>, survivors': seq<int>)
    requires Settled(a, pid, ps, survivors) && Settled(b, pid, qs, survivors')
    ensures Settled(a + b, pid, ps + qs, survivors + survivors')
  {
    hide Cleared, Descends;
    var all := survivors + survivors';
    forall p ensures (Cleared(a, p, survivors) || Cleared(b, p, survivors')) ==> Cleared(a + b, p, all) {
      if Cleared(a, p, survivors) {
        ClearedGrows([], a, b, p, survivors, all);
        assert [] + a + b == a + b;
      }
      if Cleared(b, p, survivors') {
        ClearedGrows(a, b, [], p, survivors', all);
        assert a + b + [] == a + b;
      }
    }
  }

  lemma SettledAlike(t: seq<Event>, pid: int, ps: seq<int>, qs: seq<int>, survivors: seq<int>, survivors': seq<int>)
    requires Settled(t, pid, ps, survivors) && forall q :: q in qs ==> q in ps
    requires forall p :: p in survivors <==> p in survivors'
    ensures Settled(t, pid, qs, survivors')
  {
    hide Descends, Cleared;
    forall p ensures Cleared(t, p, survivors) ==> Cleared(t, p, survivors') {
      if Cleared(t, p, survivors) {
        ClearedGrows([], t, [], p, survivors, survivors');
        assert [] + t + [] == t;
      }
    }
  }

  // Nothing listed, nothing owed.
  lemma NothingToSettle(t: seq<Event>, pid: int)
    requires forall e :: e in t ==> !e.Listed?
    ensures Settled(t, pid, [], [])
  {
  }

  // The children found by a listing were among those cleared after it.
  lemma ListingSettled(
    listing: Option<seq<Row>>, quiet: seq<Event>, t: seq<Event>, pid: int, found: seq<int>, ps: seq<int>,
    survivors: seq<int>)
    requires listing.Some? ==> AreDescendants(listing.value, pid, found)
    requires (forall e :: e in quiet ==> !e.Listed?) && (forall p :: p in found ==> p in ps)
    requires Settled(t, pid, ps, survivors)
    ensures Settled([Listed(listing)] + quiet + t, pid, ps, survivors)
  {
    hide Cleared;
    var before := [Listed(listing)] + quiet;
    forall p | Cleared(t, p, survivors) ensures Cleared(before + t, p, survivors) {
      ClearedGrows(before, t, [], p, survivors, survivors);
      assert before + t + [] == before + t;
    }
  }

  // Candidates that did not answer a probe are gone; the others were terminated.
  lemma ProbedSettled(
    v: seq<Event>, w: seq<Event>, pid: int, candidates: seq<int>, targets: seq<int>, survivors: seq<int>)
    requires OnlyProbes(v) && Settled(w, pid, targets, survivors)
    requires forall d :: d in candidates ==> d in targets || SeenGone(v, d)
    ensures Settled(v + w, pid, candidates, survivors)
  {
    hide Cleared, Descends;
    forall p | Cleared(w, p, survivors) ensures Cleared(v + w, p, survivors) {
      ClearedGrows(v, w, [], p, survivors, survivors);
      assert v + w + [] == v + w;
    }
    forall d | d in candidates ensures Cleared(v + w, d, survivors) {
      if d !in targets {
        GoneIsCleared(v + w, d, survivors);
      }
    }
  }

  lemma GoneIsCleared(t: seq<Event>, p: int, survivors: seq<int>)
    requires SeenGone(t, p)
    ensures Cleared(t, p, survivors)
  {
  }

  // Cleaning up neither looks at ports nor writes a file.
  ghost predicate IgnoresPorts(t: seq<Event>)
  {
    forall e :: e in t ==> !e.ListenerFound? && !e.PortProbed? && !e.Saved?
  }

  lemma AttemptsIgnorePorts(t: seq<Event>, pid: int)
    requires Attempts(t, pid)
    ensures IgnoresPorts(t) && Listings(t) == 0
  {
    NothingListed(t);
  }

  // How often the processes were listed.
  ghost function Listings(t: seq<Event>): nat
  {
    if t == [] then 0 else (if t[0].Listed? then 1 else 0) + Listings(t[1..])
  }

  lemma {:induction false} ListingsJoin(a: seq<Event>, b: seq<Event>)
    ensures Listings(a + b) == Listings(a) + Listings(b)
  {
    if a == [] {
      assert a + b == b;
    } else {
      ListingsJoin(a[1..], b);
      assert (a + b)[1..] == a[1..] + b;
    }
  }

  lemma {:induction false} NothingListed(t: seq<Event>)
    requires forall e :: e in t ==> !e.Listed?
    ensures Listings(t) == 0
  {
    if t != [] {
      assert t[0] in t && forall e :: e in t[1..] ==> e in t;
      NothingListed(t[1..]);
    }
  }

  // After the last listing nothing was found alive.
  ghost predicate EndsIdle(t: seq<Event>)
  {
    exists k :: 0 <= k < |t| && t[k].Listed? && forall i :: k < i < |t| ==> t[i].Existed? && !t[i].alive
  }

  lemma EndsIdleLater(a: seq<Event>, b: seq<Event>)
    requires EndsIdle(b)
    ensures EndsIdle(a + b)
  {
    var t := a + b;
    var k :| 0 <= k < |b| && b[k].Listed? && forall i :: k < i < |b| ==> b[i].Existed? && !b[i].alive;
    assert t[|a| + k].Listed?;
    forall i | |a| + k < i < |t| ensures t[i].Existed? && !t[i].alive {
      assert t[i] == b[i - |a|];
    }
  }

  lemma OneListing(listing: Option<seq<Row>>, v: seq<Event>)
    requires OnlyProbes(v)
    ensures Listings([Listed(listing)] + v) == 1
    ensures (forall e :: e in v ==> !e.alive) ==> EndsIdle([Listed(listing)] + v)
  {
    var t := [Listed(listing)] + v;
    NothingListed(v);
    assert t[1..] == v && t[0].Listed?;
    if forall e :: e in v ==> !e.alive {
      forall i | 0 < i < |t| ensures t[i].Existed? && !t[i].alive {
        assert t[i] == v[i - 1] && v[i - 1] in v;
      }
    }
  }

  // Terminates each listed pid that still exists; the ones that resist are survivors.
  method TerminateAll(env: Environment, pid: int, targets: seq<int>, ghost t0: seq<Event>)
    returns (survivors: seq<int>, ghost t: seq<Event>)
    requires TreeSignals(t0, pid) && forall p :: p in targets ==> InTree(t0, pid, p)
    modifies env`trace
    ensures env.trace == old(env.trace) + t && TreeSignals(t0 + t, pid)
    ensures IgnoresPorts(t) && Settled(t, pid, targets, survivors) && forall p :: p in survivors ==> p in targets
    ensures Listings(t) == 0
  {
    hide InTree, TreeSignals, Settled, Pursued, Forced, Attempts;
    survivors, t := [], [];
    assert t0 + t == t0;
    NothingToSettle(t, pid);
    var k := 0;
    while k < |targets|
      invariant 0 <= k <= |targets|
      invariant env.trace == old(env.trace) + t && TreeSignals(t0 + t, pid)
      invariant IgnoresPorts(t) && Settled(t, pid, targets[..k], survivors) && Listings(t) == 0
      invariant forall p :: p in survivors ==> p in targets
    {
      var p := targets[k];
      var alive, u := env.Exists(p);
      ProbeAttempts(p, alive);
      var resisted: seq<int> := [];
      if alive {
        var ok, _, v := TerminateProcess(env, p);
        AttemptsJoin(u, v, p);
        TerminationSettles(u, v, pid, p, ok);
        u := u + v;
        resisted := if ok then [] else [p];
      } else {
        GoneSettles(pid, p);
      }
      AttemptsCover(u, p, []);
      AttemptsIgnorePorts(u, p);
      TargetSignals(t0, t, u, pid, p);
      ListingsJoin(t, u);
      SettledJoin(t, u, pid, targets[..k], [p], survivors, resisted);
      assert targets[..k + 1] == targets[..k] + [p];
      survivors := survivors + resisted;
      t := t + u;
      k := k + 1;
    }
    assert targets[..k] == targets;
  }

  lemma TerminationSettles(u: seq<Event>, v: seq<Event>, pid: int, p: int, ok: bool)
    requires u == [Existed(p, true)] && Attempts(v, p) && EndsWith(v, Existed(p, !ok)) && Pursued(v, p) && Forced(v, p)
    ensures Settled(u + v, pid, [p], if ok then [] else [p])
  {
    ClearedGrows(u, v, [], p, if ok then [] else [p], if ok then [] else [p]);
    assert u + v + [] == u + v;
  }

  lemma GoneSettles(pid: int, p: int)
    ensures Settled([Existed(p, false)], pid, [p], [])
  {
    GoneIsCleared([Existed(p, false)], p, []);
  }

  lemma TargetSignals(t0: seq<Event>, t: seq<Event>, u: seq<Event>, pid: int, p: int)
    requires TreeSignals(t0 + t, pid) && InTree(t0, pid, p) && OnlySignals(u, p)
    ensures TreeSignals(t0 + (t + u), pid)
  {
    InTreeGrows(t0, t, pid, p);
    TreeJoin(t0 + t, u, pid);
    assert t0 + (t + u) == (t0 + t) + u;
  }

  ghost predicate AllInTree(t: seq<Event>, pid: int, ps: seq<int>) { forall p :: p in ps ==> InTree(t, pid, p) }

  lemma AllInTreeGrows(a: seq<Event>, b: seq<Event>, pid: int, ps: seq<int>)
    requires AllInTree(a, pid, ps) || AllInTree(b, pid, ps)
    ensures AllInTree(a + b, pid, ps)
  {
    forall p | p in ps ensures InTree(a + b, pid, p) { InTreeGrows(a, b, pid, p); }
  }

  lemma AllInTreeJoins(t: seq<Event>, pid: int, ps: seq<int>, qs: seq<int>)
    requires AllInTree(t, pid, ps) && AllInTree(t, pid, qs)
    ensures AllInTree(t, pid, ps + qs)
  {
  }

  lemma AllInTreeShrinks(t: seq<Event>, pid: int, ps: seq<int>, qs: seq<int>)
    requires AllInTree(t, pid, ps) && forall q :: q in qs ==> q in ps
    ensures AllInTree(t, pid, qs)
  {
  }

  // One sweep: list, probe, terminate what is there. idle when nothing was.
  method Sweep(env: Environment, pid: int, descendants: seq<int>, ghost t0: seq<Event>)
    returns (idle: bool, failed: seq<int>, ghost t: seq<Event>)
    requires TreeSignals(t0, pid) && AllInTree(t0, pid, descendants)
    modifies env`trace
    ensures env.trace == old(env.trace) + t && TreeSignals(t0 + t, pid) && AllInTree(t0 + t, pid, failed)
    ensures IgnoresPorts(t) && Settled(t, pid, descendants, failed) && (idle ==> failed == [])
    ensures Listings(t) == 1 && (idle ==> EndsIdle(t))
  {
    hide InTree, TreeSignals, AreDescendants, AllInTree, Distincts, Sorted, Settled, SeenGone, Listings, EndsIdle;
    var listing, u := env.Listing();
    var listed := CollectDescendants(listing, pid);
    var candidates := Distincts(descendants + listed);
    var sweep, v := ExistingAmong(env, candidates);
    var targets := Sorted(sweep);
    ghost var seen := u + v;
    OneListing(listing, v);
    CandidatesInTree(t0, u, v, listing, pid, descendants, listed);
    AllInTreeShrinks(t0 + seen, pid, descendants + listed, targets);
    AllTargets(t0 + seen, pid, targets);
    idle := sweep == [];
    if idle {
      NoneInTree(t0 + seen, pid);
      NothingToSettle([], pid);
      SweepSettled(listing, v, [], pid, listed, descendants, candidates, sweep, []);
      assert seen + [] == seen;
      return idle, [], seen;
    }
    ghost var w;
    failed, w := TerminateAll(env, pid, targets, t0 + seen);
    SweepSettled(listing, v, w, pid, listed, descendants, candidates, targets, failed);
    AllInTreeShrinks(t0 + seen, pid, targets, failed);
    AllInTreeGrows(t0 + seen, w, pid, failed);
    t := seen + w;
    ListingsJoin(seen, w);
    assert t0 + t == (t0 + seen) + w;
  }

  lemma SweepSettled(
    listing: Option<seq<Row>>, v: seq<Event>, w: seq<Event>, pid: int, listed: seq<int>, descendants: seq<int>,
    candidates: seq<int>, targets: seq<int>, failed: seq<int>)
    requires listing.Some? ==> AreDescendants(listing.value, pid, listed)
    requires forall p :: p in candidates <==> p in descendants + listed
    requires OnlyProbes(v) && Settled(w, pid, targets, failed)
    requires forall d :: d in candidates ==> d in targets || SeenGone(v, d)
    ensures Settled([Listed(listing)] + v + w, pid, descendants, failed)
  {
    hide AreDescendants, Settled, SeenGone;
    ProbedSettled(v, w, pid, candidates, targets, failed);
    ListingSettled(listing, [], v + w, pid, listed, candidates, failed);
    assert [Listed(listing)] + [] + (v + w) == [Listed(listing)] + v + w;
    SettledAlike([Listed(listing)] + v + w, pid, candidates, descendants, failed, failed);
  }

  lemma NoneInTree(t: seq<Event>, pid: int)
    ensures AllInTree(t, pid, [])
  {
  }

  lemma AllTargets(t: seq<Event>, pid: int, ps: seq<int>)
    requires AllInTree(t, pid, ps)
    ensures forall p :: p in ps ==> InTree(t, pid, p)
  {
  }

  lemma CandidatesInTree(
    t0: seq<Event>, u: seq<Event>, v: seq<Event>, listing: Option<seq<Row>>, pid: int, descendants: seq<int>,
    listed: seq<int>)
    requires TreeSignals(t0, pid) && AllInTree(t0, pid, descendants)
    requires u == [Listed(listing)] && OnlyProbes(v)
    requires (listing.Some? ==> AreDescendants(listing.value, pid, listed)) && (listing.None? ==> listed == [])
    ensures TreeSignals(t0 + (u + v), pid) && AllInTree(t0 + (u + v), pid, descendants + listed)
  {
    TreeJoin(t0, u + v, pid);
    ListedInTree(u + v, listing, pid, listed);
    AllInTreeGrows(t0, u + v, pid, descendants);
    AllInTreeGrows(t0, u + v, pid, listed);
    AllInTreeJoins(t0 + (u + v), pid, descendants, listed);
  }

  // Up to five sweeps over the tree, stopping early when a sweep finds nothing alive.
  method SweepTree(env: Environment, pid: int, descendants: seq<int>, ghost t0: seq<Event>)
    returns (survivors: seq<int>, ghost t: seq<Event>)
    requires TreeSignals(t0, pid) && AllInTree(t0, pid, descendants)
    modifies env`trace
    ensures env.trace == old(env.trace) + t && TreeSignals(t0 + t, pid) && AllInTree(t0 + t, pid, survivors)
    ensures IgnoresPorts(t) && Settled(t, pid, descendants, survivors)
    ensures 1 <= Listings(t) <= 5 && (Listings(t) < 5 ==> EndsIdle(t))
  {
    hide InTree, TreeSignals, Settled, Listings, EndsIdle;
    survivors, t := [], [];
    assert t0 + t == t0;
    NothingToSettle(t, pid);
    NothingListed(t);
    var round := 0;
    var idle := false;
    while round < 5 && !idle
      invariant env.trace == old(env.trace) + t && TreeSignals(t0 + t, pid) && AllInTree(t0 + t, pid, survivors)
      invariant IgnoresPorts(t) && Settled(t, pid, if round == 0 then [] else descendants, survivors)
        && (idle ==> round > 0)
      invariant Listings(t) == round <= 5 && (idle ==> EndsIdle(t))
      decreases 5 - round
    {
      AllInTreeGrows(t0, t, pid, descendants);
      var failed;
      ghost var u;
      idle, failed, u := Sweep(env, pid, descendants, t0 + t);
      AllInTreeGrows(t0 + t, u, pid, survivors);
      AllInTreeJoins((t0 + t) + u, pid, survivors, failed);
      assert t0 + (t + u) == (t0 + t) + u;
      ListingsJoin(t, u);
      if idle { EndsIdleLater(t, u); }
      SettledJoin(t, u, pid, if round == 0 then [] else descendants, descendants, survivors, failed);
      t := t + u;
      survivors := survivors + failed;
      round := round + 1;
      SettledAlike(t, pid, (if round == 1 then [] else descendants) + descendants, descendants, survivors, survivors);
    }
  }

  // Only the spawned process and what is listed under it is ever signalled; and if its pid turns out
  // to belong to another process by now, nothing is. Otherwise the process and everything any listing
  // showed under it was asked to terminate and forced, and is reported unless it was seen gone. After the
  // first listing there are at most five more, and fewer only when the last of them found nothing alive.
  method TerminateSpawnedTree(env: Environment, pid: int, snap: Option<Identity>)
    returns (survivors: seq<int>, reused: bool, ghost t: seq<Event>)
    requires snap.Some? ==> snap.value.createTime.Some?
    modifies env`trace
    ensures env.trace == old(env.trace) + t && TreeSignals(t, pid)
    ensures |t| >= 2 && t[0].Listed? && t[1].Snapshotted? && t[1].pid == pid
    ensures t[1].snapshot.Some? ==> t[1].snapshot.value.createTime.Some?
    ensures reused <==>
      && t[1].snapshot.Some? && snap.Some?
      && !(-5.0 <= snap.value.createTime.value - t[1].snapshot.value.createTime.value <= 5.0)
    ensures reused ==> NoSignals(t) && survivors == [pid]
    ensures AllInTree(t, pid, survivors) && IgnoresPorts(t)
    ensures !reused ==> Settled(t, pid, [pid], survivors)
    ensures !reused ==> 2 <= Listings(t) <= 6 && (Listings(t) < 6 ==> EndsIdle(t))
  {
    hide InTree, TreeSignals, AreDescendants, Descends, AllInTree, Sorted, Distincts, Settled, Listings, EndsIdle;
    var listing, u := env.Listing();
    var descendants := CollectDescendants(listing, pid);
    var current, v := env.Snapshot(pid);
    t := u + v;
    QuietTree(t, pid);
    FirstListing(t, listing, pid, descendants);
    if current.Some? && snap.Some?
      && Abs(current.value.createTime.value - snap.value.createTime.value) > CREATE_TIME_TOLERANCE {
      RootInTree(t, pid);
      return [pid], true, t;
    }
    RootInTree(t, pid);
    var failed, w := TerminateAll(env, pid, [pid], t);
    AllInTreeShrinks(t, pid, [pid], failed);
    ghost var t1 := t + w;
    AllInTreeGrows(t, w, pid, failed);
    AllInTreeGrows(t, w, pid, descendants);
    var more, x := SweepTree(env, pid, descendants, t1);
    AllInTreeGrows(t1, x, pid, failed);
    AllInTreeJoins(t1 + x, pid, failed, more);
    survivors := Sorted(Distincts(failed + more));
    AllInTreeShrinks(t1 + x, pid, failed + more, survivors);
    reused := false;
    SettledJoin(w, x, pid, [pid], descendants, failed, more);
    ListingSettled(listing, v, w + x, pid, descendants, [pid] + descendants, failed + more);
    t := t1 + x;
    RootListedOnce(listing, v, w, x);
    assert t == u + v + (w + x);
    SettledAlike(t, pid, [pid] + descendants, [pid], failed + more, survivors);
  }

  lemma RootListedOnce(listing: Option<seq<Row>>, v: seq<Event>, w: seq<Event>, x: seq<Event>)
    requires Listings(w) == 0 && forall e :: e in v ==> !e.Listed?
    ensures var t := [Listed(listing)] + v + w + x;
      Listings(t) == 1 + Listings(x) && (EndsIdle(x) ==> EndsIdle(t))
  {
    var t := [Listed(listing)] + v + w + x;
    NothingListed(v);
    ListingsJoin(v, w);
    ListingsJoin(v + w, x);
    assert t[1..] == v + w + x;
    if EndsIdle(x) { EndsIdleLater([Listed(listing)] + v + w, x); }
  }

  lemma FirstListing(t: seq<Event>, listing: Option<seq<Row>>, pid: int, found: seq<int>)
    requires Listed(listing) in t && (listing.Some? ==> AreDescendants(listing.value, pid, found))
      && (listing.None? ==> found == [])
    ensures AllInTree(t, pid, found)
  {
    ListedInTree(t, listing, pid, found);
  }

  lemma RootInTree(t: seq<Event>, pid: int)
    ensures InTree(t, pid, pid) && AllInTree(t, pid, [pid])
  {
  }

  lemma QuietTree(t: seq<Event>, pid: int)
    requires NoSignals(t)
    ensures TreeSignals(t, pid)
  {
  }

  // ---------------------------------------------------------------- launch

  // The failures after the spawn carry the survivors they report.
  datatype LaunchOutcome =
    | BadPort
    | PortTaken
    | CannotSpawn
    | NoIdentity(survivors: seq<int>)
    | NoListener(survivors: seq<int>)
    | ForeignListener(survivors: seq<int>)
    | WriteFailed
    | Launched

  predicate ValidPort(port: int) { 1 <= port <= 65535 }

  // What launch expects of the listener: everything the snapshot shows, plus the run token.
  function ExpectedAtLaunch(s: Identity, runId: string): Identity { s.(token := Some(runId)) }

  function LaunchMetadata(runId: string, s: Identity, port: Option<int>): Metadata
    requires s.createTime.Some?
  {
    Metadata(runId, s.pid, s.createTime.value, s.executable, None, port, StatusVerified, None, [], [])
  }

  // A given port is probed first and must be free.
  ghost function Free(port: Option<int>): seq<Event> { if port.Some? then [PortProbed(port.value, false)] else [] }

  ghost function Opening(port: Option<int>, pid: int): seq<Event> { Free(port) + [Spawned(pid)] }

  // Nothing listed, probed for existence or signalled.
  ghost predicate Quiet(t: seq<Event>) { forall e :: e in t ==> !e.Signalled? && !e.Listed? && !e.Existed? }

  // The process was snapshotted with a readable executable.
  ghost predicate Identified(t: seq<Event>, s: Identity)
  {
    Snapshotted(s.pid, Some(s)) in t && s.createTime.Some? && s.executable.Some?
  }

  // The process l may be the launched one: the same pid, create times at most five seconds apart, and
  // executable, parent and run token equal where both are known.
  predicate LooksLike(s: Identity, runId: string, l: Identity, canon: string -> string)
  {
    && s.pid == l.pid
    && (s.createTime.Some? && l.createTime.Some? ==> -5.0 <= s.createTime.value - l.createTime.value <= 5.0)
    && (s.executable.Some? && l.executable.Some? ==> canon(s.executable.value) == canon(l.executable.value))
    && (s.parentPid.Some? && l.parentPid.Some? ==> s.parentPid.value == l.parentPid.value)
    && (l.token.Some? ==> l.token.value == runId)
  }

  lemma MatchIsLikeness(s: Identity, runId: string, l: Identity, canon: string -> string)
    ensures IdentityMatches(ExpectedAtLaunch(s, runId), l, CREATE_TIME_TOLERANCE, true, canon).0 <==>
      LooksLike(s, runId, l, canon)
    ensures LooksLike(s, runId, l, canon) ==> !Apart(s, l)
  {
    hide IdentityMatches;
    ComparedExactly(ExpectedAtLaunch(s, runId), l, CREATE_TIME_TOLERANCE, true, canon);
  }

  // Some real listener on the port was snapshotted and matched the launched process.
  ghost predicate Owned(t: seq<Event>, port: int, s: Identity, runId: string, canon: string -> string)
  {
    exists l: Identity ::
      && l.pid != 0 && ListenerFound(port, Some(l.pid)) in t && Snapshotted(l.pid, Some(l)) in t
      && LooksLike(s, runId, l, canon)
  }

  // Some real listener on the port could not be snapshotted or did not match.
  ghost predicate Disowned(t: seq<Event>, port: int, s: Identity, runId: string, canon: string -> string)
  {
    exists l: int, i: Option<Identity> ::
      && l != 0 && ListenerFound(port, Some(l)) in t && Snapshotted(l, i) in t
      && (i.Some? ==> !LooksLike(s, runId, i.value, canon))
  }

  // No probe ever showed a real listener.
  ghost predicate Unheard(t: seq<Event>)
  {
    forall e :: e in t && e.ListenerFound? ==> e.listener.None? || e.listener == Some(0)
  }

  // Every snapshot of pid shows s or one other, its create time within the tolerance.
  ghost predicate OneProcess(t: seq<Event>, pid: int, s: Identity)
  {
    exists l: Identity ::
      && !Apart(s, l)
      && forall i :: Snapshotted(pid, Some(i)) in t ==> i == s || i == l
  }

  // Two snapshots of pid show different processes.
  ghost predicate Reused(t: seq<Event>, pid: int)
  {
    exists a, b ::
      Snapshotted(pid, Some(a)) in t && Snapshotted(pid, Some(b)) in t && Apart(a, b)
  }

  // Every pid in the spawned tree was terminated or is reported; or the pid is no longer ours.
  ghost predicate CleanedUp(t: seq<Event>, pid: int, survivors: seq<int>)
  {
    && TreeSignals(t, pid) && AllInTree(t, pid, survivors)
    && (Settled(t, pid, [pid], survivors) || (Reused(t, pid) && NoSignals(t) && survivors == [pid]))
  }

  ghost predicate Verified(t: seq<Event>, s: Identity, runId: string, port: Option<int>, canon: string -> string)
  {
    Identified(t, s) && (port.Some? ==> Owned(t, port.value, s, runId, canon))
  }

  // A launch once the process was spawned.
  ghost predicate SpawnedRun(
    t: seq<Event>, pid: int, after: MetaFile, o: LaunchOutcome, runId: string, port: Option<int>,
    canon: string -> string)
  {
    && (o.NoIdentity? || o.NoListener? || o.ForeignListener? ==> Unsaved(t))
    && match o
    case NoIdentity(survivors) =>
      CleanedUp(t, pid, survivors) && exists i: Option<Identity> ::
        Snapshotted(pid, i) in t && (i.Some? ==> i.value.executable.None?)
    case NoListener(survivors) =>
      CleanedUp(t, pid, survivors) && port.Some? && Unheard(t) && exists s: Identity :: s.pid == pid && Identified(t, s)
    case ForeignListener(survivors) =>
      && CleanedUp(t, pid, survivors) && port.Some?
      && exists s: Identity :: s.pid == pid && Identified(t, s) && Disowned(t, port.value, s, runId, canon)
    case WriteFailed =>
      && Quiet(t) && EndsWith(t, Saved(false))
      && exists s: Identity :: s.pid == pid && Verified(t, s, runId, port, canon) && OneProcess(t, pid, s)
    case Launched =>
      && Quiet(t) && EndsWith(t, Saved(true))
      && exists s: Identity ::
           && s.pid == pid && Verified(t, s, runId, port, canon) && OneProcess(t, pid, s)
           && after == Readable(
                Metadata(runId, pid, s.createTime.value, s.executable, None, port, StatusVerified, None, [], []))
    case _ => false
  }

  // Metadata is written only for an identified process and, when a port was given, only after the port
  // was free before and owned after; a launch that fails leaves the file as it was, and once the
  // process is running every failure but that of the write cleans up after itself.
  ghost predicate LaunchRun(
    before: MetaFile, t: seq<Event>, after: MetaFile, o: LaunchOutcome, runId: string, port: Option<int>,
    canon: string -> string)
  {
    && (o != Launched ==> after == before)
    && (o == BadPort <==> port.Some? && (port.value < 1 || port.value > 65535))
    && match o
       case BadPort => t == []
       case PortTaken => port.Some? && t == [PortProbed(port.value, true)]
       case CannotSpawn => t == Free(port)
       case _ => exists pid :: Opening(port, pid) <= t && SpawnedRun(t, pid, after, o, runId, port, canon)
  }

  // Polls for a snapshot of the spawned process.
  method AwaitSnapshot(env: Environment, pid: int) returns (s: Option<Identity>, ghost t: seq<Event>)
    modifies env`trace
    ensures env.trace == old(env.trace) + t && forall e :: e in t ==> e.Snapshotted?
    ensures Snapshotted(pid, s) in t
    ensures forall e :: e in t && e.snapshot.Some? ==> e.snapshot == s
    ensures s.Some? ==> s.value.pid == pid && s.value.createTime.Some? && s.value.token.None?
  {
    var polls := env.Polls();
    t := [];
    var k := 0;
    while k < polls
      invariant env.trace == old(env.trace) + t && forall e :: e in t ==> e.Snapshotted? && e.snapshot.None?
    {
      ghost var u;
      s, u := env.Snapshot(pid);
      t := t + u;
      if s.Some? {
        return s, t;
      }
      k := k + 1;
    }
    ghost var u;
    s, u := env.Snapshot(pid);
    t := t + u;
  }

  // Whether the listener question is settled, and whether the launched process owns it.
  datatype Ownership = Open | Decided(owned: bool)

  // No real process was snapshotted.
  ghost predicate Unwatched(t: seq<Event>) { forall e :: e in t && e.Snapshotted? ==> e.pid == 0 }

  // The only real process snapshotted was created when s was, within the tolerance.
  ghost predicate OwnerOnly(t: seq<Event>, s: Identity)
  {
    exists l: Identity ::
      && !Apart(s, l)
      && forall e :: e in t && e.Snapshotted? && e.pid != 0 && e.snapshot.Some? ==> e.snapshot.value == l
  }

  // What an answer about the listener rests on.
  ghost predicate Answers(t: seq<Event>, a: Ownership, port: int, s: Identity, runId: string, canon: string -> string)
  {
    match a
    case Open => Unheard(t) && Unwatched(t)
    case Decided(owned) =>
      if owned then Owned(t, port, s, runId, canon) && OwnerOnly(t, s) else Disowned(t, port, s, runId, canon)
  }

  method ProbeOwnership(env: Environment, port: int, s: Identity, runId: string, canon: string -> string)
    returns (a: Ownership, ghost t: seq<Event>)
    modifies env`trace
    ensures env.trace == old(env.trace) + t && Quiet(t) && Unsaved(t) && Answers(t, a, port, s, runId, canon)
  {
    hide IdentityMatches;
    var listener, u := env.FindListener(port);
    t := u;
    if listener.None? {
      return Open, t;
    }
    var l, v := env.Snapshot(listener.value);
    t := t + v;
    assert ListenerFound(port, listener) in t && Snapshotted(listener.value, l) in t;
    var owned := l.Some? && IdentityMatches(ExpectedAtLaunch(s, runId), l.value, CREATE_TIME_TOLERANCE, true, canon).0;
    if l.Some? { MatchIsLikeness(s, runId, l.value, canon); }
    return if listener.value == 0 then Open else Decided(owned), t;
  }

  method AwaitOwnership(env: Environment, port: int, s: Identity, runId: string, canon: string -> string)
    returns (a: Ownership, ghost t: seq<Event>)
    modifies env`trace
    ensures env.trace == old(env.trace) + t && Quiet(t) && Unsaved(t) && Answers(t, a, port, s, runId, canon)
  {
    hide Answers, Unheard;
    var polls := env.Polls();
    t := [];
    NothingHeard(port, s, runId, canon);
    var k := 0;
    while k < polls
      invariant env.trace == old(env.trace) + t && Quiet(t) && Unsaved(t) && Answers(t, Open, port, s, runId, canon)
    {
      ghost var u;
      a, u := ProbeOwnership(env, port, s, runId, canon);
      AnswersGrow(t, u, a, port, s, runId, canon);
      t := t + u;
      if a.Decided? {
        return a, t;
      }
      k := k + 1;
    }
    ghost var u;
    a, u := ProbeOwnership(env, port, s, runId, canon);
    AnswersGrow(t, u, a, port, s, runId, canon);
    t := t + u;
  }

  lemma NothingHeard(port: int, s: Identity, runId: string, canon: string -> string)
    ensures Answers([], Open, port, s, runId, canon)
  {
  }

  lemma AnswersGrow(
    a: seq<Event>, b: seq<Event>, o: Ownership, port: int, s: Identity, runId: string, canon: string -> string)
    requires Answers(a, Open, port, s, runId, canon) && Answers(b, o, port, s, runId, canon)
    ensures Answers(a + b, o, port, s, runId, canon)
  {
    hide Owned, Disowned, LooksLike;
    if o.Decided? && o.owned {
      var l: Identity :| !Apart(s, l)
        && forall e :: e in b && e.Snapshotted? && e.pid != 0 && e.snapshot.Some? ==> e.snapshot.value == l;
      assert forall e :: e in a + b && e.Snapshotted? && e.pid != 0 && e.snapshot.Some? ==> e.snapshot.value == l;
    }
    if o.Decided? {
      OwnershipGrows(a, b, [], port, s, runId, canon);
      assert a + b + [] == a + b;
    }
  }

  lemma OwnershipGrows(
    a: seq<Event>, b: seq<Event>, c: seq<Event>, port: int, s: Identity, runId: string, canon: string -> string)
    ensures Owned(b, port, s, runId, canon) ==> Owned(a + b + c, port, s, runId, canon)
    ensures Disowned(b, port, s, runId, canon) ==> Disowned(a + b + c, port, s, runId, canon)
  {
    hide LooksLike;
    assert forall e :: e in b ==> e in a + b + c;
  }

  // Clean up after a failed launch.
  method Abort(env: Environment, pid: int, s: Option<Identity>, ghost t0: seq<Event>)
    returns (survivors: seq<int>, ghost t: seq<Event>)
    requires Quiet(t0) && (s.Some? ==> s.value.createTime.Some? && Snapshotted(pid, s) in t0)
    modifies env`trace
    ensures env.trace == old(env.trace) + t && CleanedUp(t0 + t, pid, survivors)
    ensures IgnoresPorts(t)
  {
    hide Settled, AllInTree, TreeSignals;
    var reused;
    survivors, reused, t := TerminateSpawnedTree(env, pid, s);
    QuietTree(t0, pid);
    SameTree(t0, t, pid);
    AllInTreeGrows(t0, t, pid, survivors);
    if reused {
      assert t[1] in t0 + t;
    } else {
      NothingToSettle(t0, pid);
      SettledJoin(t0, t, pid, [], [pid], [], survivors);
      assert [] + [pid] == [pid] && [] + survivors == survivors;
    }
  }

  lemma SameTree(a: seq<Event>, b: seq<Event>, pid: int)
    requires TreeSignals(a, pid) && TreeSignals(b, pid)
    ensures TreeSignals(a + b, pid)
  {
    TreeJoin(a, b, pid);
  }

  // The identified process: wait for the listener when a port was given, then write.
  method VerifyAndRecord(
    env: Environment, s: Identity, ghost t0: seq<Event>, runId: string, port: Option<int>, canon: string -> string)
    returns (o: LaunchOutcome, ghost t: seq<Event>)
    requires Quiet(t0) && Unsaved(t0) && Unheard(t0) && Identified(t0, s) && s.pid != 0
    requires forall i :: Snapshotted(s.pid, Some(i)) in t0 ==> i == s
    modifies env
    ensures env.trace == old(env.trace) + t
    ensures SpawnedRun(t0 + t, s.pid, env.file, o, runId, port, canon)
    ensures o != Launched ==> env.file == old(env.file)
  {
    hide Owned, Disowned, ExpectedAtLaunch, CleanedUp, OneProcess, OwnerOnly;
    ghost var y: seq<Event> := [];
    if port.Some? {
      var a;
      a, y := AwaitOwnership(env, port.value, s, runId, canon);
      if a != Decided(true) {
        var survivors, x := Abort(env, s.pid, Some(s), t0 + y);
        o := if a.Open? then NoListener(survivors) else ForeignListener(survivors);
        assert t0 + (y + x) == (t0 + y) + x == t0 + y + x;
        assert Identified(t0 + y + x, s);
        OwnershipGrows(t0, y, x, port.value, s, runId, canon);
        return o, y + x;
      }
    }
    var ok, z := env.Save(LaunchMetadata(runId, s, port));
    o := if ok then Launched else WriteFailed;
    t := y + z;
    assert t0 + t == t0 + y + z;
    assert Identified(t0 + t, s);
    if port.Some? {
      OwnershipGrows(t0, y, z, port.value, s, runId, canon);
    }
    assert Verified(t0 + t, s, runId, port, canon);
    SameProcessThroughout(t0, y, z, s);
  }

  lemma SameProcessThroughout(t0: seq<Event>, y: seq<Event>, z: seq<Event>, s: Identity)
    requires s.pid != 0 && (y == [] || OwnerOnly(y, s)) && forall e :: e in z ==> !e.Snapshotted?
    requires forall i :: Snapshotted(s.pid, Some(i)) in t0 ==> i == s
    ensures OneProcess(t0 + y + z, s.pid, s)
  {
    var t := t0 + y + z;
    var l := s;
    if y != [] {
      l :| !Apart(s, l)
        && forall e :: e in y && e.Snapshotted? && e.pid != 0 && e.snapshot.Some? ==> e.snapshot.value == l;
    }
    forall i | Snapshotted(s.pid, Some(i)) in t ensures i == s || i == l {
      var e := Snapshotted(s.pid, Some(i));
      assert e in t0 || e in y || e in z;
    }
    assert !Apart(s, l);
  }

  // Everything after the spawn.
  method FollowUp(
    env: Environment, pid: int, ghost t0: seq<Event>, runId: string, port: Option<int>, canon: string -> string)
    returns (o: LaunchOutcome, ghost t: seq<Event>)
    requires pid != 0 && Quiet(t0) && Unsaved(t0) && Unheard(t0) && forall e :: e in t0 ==> !e.Snapshotted?
    modifies env
    ensures env.trace == old(env.trace) + t
    ensures SpawnedRun(t0 + t, pid, env.file, o, runId, port, canon) && !o.BadPort? && !o.PortTaken? && !o.CannotSpawn?
    ensures o != Launched ==> env.file == old(env.file)
  {
    hide CleanedUp, Verified, ExpectedAtLaunch, LaunchMetadata, IdentityMatches, OneProcess;
    var s, w := AwaitSnapshot(env, pid);
    if s.None? || (s.value.executable.None? && s.value.token.None?) {
      var survivors, x := Abort(env, pid, s, t0 + w);
      t := w + x;
      assert t0 + t == (t0 + w) + x;
      assert Snapshotted(pid, s) in t0 + t;
      return NoIdentity(survivors), t;
    }
    ghost var x;
    o, x := VerifyAndRecord(env, s.value, t0 + w, runId, port, canon);
    t := w + x;
    assert t0 + t == (t0 + w) + x;
  }

  method Launch(env: Environment, runId: string, port: Option<int>, canon: string -> string)
    returns (o: LaunchOutcome, ghost t: seq<Event>)
    modifies env
    ensures env.trace == old(env.trace) + t
    ensures LaunchRun(old(env.file), t, env.file, o, runId, port, canon)
  {
    hide SpawnedRun;
    t := [];
    if port.Some? {
      if !ValidPort(port.value) {
        return BadPort, t;
      }
      var busy, u := env.PortInUse(port.value);
      t := u;
      if busy {
        return PortTaken, t;
      }
    }
    assert t == Free(port);
    var pid, v := env.Spawn();
    t := t + v;
    if pid.None? {
      return CannotSpawn, t;
    }
    assert t == Opening(port, pid.value);
    ghost var x;
    o, x := FollowUp(env, pid.value, t, runId, port, canon);
    assert Opening(port, pid.value) <= t + x;
    t := t + x;
  }

  // A launch that returns an error after its process was spawned cleans up exactly when it is not the write
  // of the metadata that failed: after a failed write nothing at all was asked to terminate. Unless the pid
  // was reused meanwhile, cleaning up accounts for the process and all it was ever seen to start, by
  // terminating it or by reporting it to the caller.
  lemma OnlyAFailedWriteOrphans(
    before: MetaFile, t: seq<Event>, after: MetaFile, o: LaunchOutcome, runId: string, port: Option<int>,
    canon: string -> string,
    pid: int)
    requires LaunchRun(before, t, after, o, runId, port, canon) && o != Launched && Opening(port, pid) <= t
    ensures after == before
    ensures (exists survivors :: CleanedUp(t, pid, survivors)) <==> Saved(false) !in t
    ensures Saved(false) !in t && !Reused(t, pid) ==>
      exists survivors :: AllInTree(t, pid, survivors) && Settled(t, pid, [pid], survivors)
    ensures Saved(false) in t ==> Quiet(t) && !Pursued(t, pid)
  {
    hide Verified, Settled, TreeSignals, AllInTree, Disowned, Identified;
    assert t[|Free(port)|] == Spawned(pid);
    if o == WriteFailed {
      assert t[|t| - 1] in t;
      NotPursued(t, pid);
      var s: Identity :| s.pid == pid && Verified(t, s, runId, port, canon) && OneProcess(t, pid, s);
      NotReused(t, pid, s);
    } else {
      assert CleanedUp(t, pid, o.survivors);
    }
  }

  lemma NotPursued(t: seq<Event>, pid: int)
    requires Quiet(t)
    ensures !Pursued(t, pid) && forall survivors :: !Settled(t, pid, [pid], survivors)
  {
    forall survivors ensures !Settled(t, pid, [pid], survivors) {
      assert pid in [pid] && !Cleared(t, pid, survivors);
    }
  }

  lemma NotReused(t: seq<Event>, pid: int, s: Identity)
    requires OneProcess(t, pid, s)
    ensures !Reused(t, pid)
  {
  }

  // The exception is real: the smallest run in which the write fails, its process left alone and unrecorded.
  lemma AWriteCanFail(runId: string, canon: string -> string)
    ensures var s := Identity(7, Some(0.0), Some("/bin/app"), None, None);
      var t := [Spawned(7), Snapshotted(7, Some(s)), Saved(false)];
      && LaunchRun(Missing, t, Missing, WriteFailed, runId, None, canon)
      && forall survivors :: !CleanedUp(t, 7, survivors)
  {
    hide CleanedUp, Owned;
    var s := Identity(7, Some(0.0), Some("/bin/app"), None, None);
    var t := [Spawned(7), Snapshotted(7, Some(s)), Saved(false)];
    assert t[1] == Snapshotted(7, Some(s)) && t[2] == Saved(false);
    assert !Apart(s, s);
    assert OneProcess(t, 7, s);
    assert Verified(t, s, runId, None, canon);
    assert SpawnedRun(t, 7, Missing, WriteFailed, runId, None, canon);
    assert Opening(None, 7) <= t;
    OnlyAFailedWriteOrphans(Missing, t, Missing, WriteFailed, runId, None, canon, 7);
  }

  // ---------------------------------------------------------------- launch composed with stop

  // For metadata written by a launch, a later stop may kill exactly when the live pid is the same, the
  // create times differ by at most the tolerance, and the live executable is readable and
  // canonically the recorded one. Parent and token never decide.
  lemma StopAfterLaunch(
    before: MetaFile, t: seq<Event>, after: MetaFile, runId: string, port: Option<int>, live: Identity,
    canon: string -> string)
    requires LaunchRun(before, t, after, Launched, runId, port, canon)
    requires live.createTime.Some? && live.token.None?
    ensures after.Readable? && after.m.executable.Some?
    ensures MayKill(after.m, Some(live), canon) <==>
      && live.pid == after.m.pid
      && -5.0 <= after.m.createTime - live.createTime.value <= 5.0
      && live.executable.Some? && canon(live.executable.value) == canon(after.m.executable.value)
  {
    hide CleanedUp, Owned, Disowned;
  }

  // The converse hazard: a launch does not look at what the file holds, so descendants tracked there
  // are dropped, unseen, exactly when the launch succeeds.
  lemma LaunchDropsTracking(
    before: MetaFile, t: seq<Event>, after: MetaFile, o: LaunchOutcome, runId: string, port: Option<int>,
    canon: string -> string, d: int)
    requires LaunchRun(before, t, after, o, runId, port, canon) && StillTracked(before, d)
    ensures StillTracked(after, d) <==> o != Launched
  {
  }
}
