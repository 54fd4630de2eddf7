// What holds of every history of the resume protocol, from any directory contents.
module ResumeHistories {
  import opened Ordering
  import opened ResumeModel
  import opened ResumeSafety

  // ---------------------------------------------------------------- the invariant of a run

  ghost predicate HasSkip(lines: seq<Line>, c: Combo)
  {
    exists l :: l in lines && l.IsRecord() && l.skipped && l.Key() == c
  }

  // The record in flight belongs to a planned combo that is neither completed nor still pending.
  ghost predicate InFlight(r: Run, planned: set<Combo>, l: Line)
    requires r.Active?
  {
    l.Merges() && l.Key() !in r.completed && l.Key() !in r.pending && l.Key() in planned
  }

  // What is in the results file already and not yet in memory.
  function Landed(phase: Phase): set<Combo>
  {
    if phase.Appended? && IsExecuted(phase.record) then {phase.record.Key()} else {}
  }

  // A run that could read the results file holds in memory all that the files hold; one that could not
  // holds what state.json holds.
  ghost predicate PhaseInv(w: World)
    requires w.run.Active?
  {
    && (w.run.read ==> Recovered(w.disk) <= w.run.completed + Landed(w.run.phase))
    && (!w.run.read ==> StateSet(w.disk) == w.run.completed)
    && match w.run.phase
       case Loop => true
       case Holding(l) => InFlight(w.run, w.planned, l)
       case Appended(l) => InFlight(w.run, w.planned, l)
       case Rewritten(records) =>
         && (w.run.read ==> Executed(records) <= w.run.completed)
         && OnePerCombo(records) && (records != [] ==> w.disk.results == records)
  }

  // Every planned item is accounted for.
  ghost predicate Covered(r: Run, c: Combo)
    requires r.Active?
  {
    match r.phase
    case Loop => c in r.completed || c in r.pending || HasSkip(r.raw, c)
    case Holding(l) => c in r.completed || c in r.pending || HasSkip(r.raw + [l], c) || (IsExecuted(l) && l.Key() == c)
    case Appended(l) => c in r.completed || c in r.pending || HasSkip(r.raw + [l], c) || (IsExecuted(l) && l.Key() == c)
    case Rewritten(records) => c in r.completed || c in Executed(records) || HasSkip(records, c)
  }

  ghost predicate Inv(w: World)
  {
    w.run.Active? ==>
      && Distinct(w.run.pending)
      && (forall c :: c in w.run.pending ==> c !in w.run.completed && c in w.planned)
      && StateSet(w.disk) <= w.run.completed
      && (forall l :: l in w.run.raw ==> l.Merges())
      && (forall l :: l in w.run.raw && IsExecuted(l) ==> l.Key() in StateSet(w.disk))
      && PhaseInv(w)
      && forall c :: c in w.run.plan ==> Covered(w.run, c)
  }

  lemma {:induction false} PendingFilters(plan: seq<Combo>, completed: set<Combo>)
    requires Distinct(plan)
    ensures Distinct(Pending(plan, completed))
    ensures forall c :: c in Pending(plan, completed) <==> c in plan && c !in completed
  {
    if plan != [] {
      var rest := plan[1..];
      PendingFilters(rest, completed);
      assert forall i :: 0 <= i < |rest| ==> rest[i] == plan[i + 1];
      assert plan[0] !in rest;
      assert plan == [plan[0]] + rest;
      var p := Pending(rest, completed);
      assert forall i :: 0 <= i < |p| ==> p[i] in p;
    }
  }

  lemma SkipAppends(lines: seq<Line>, l: Line, c: Combo)
    ensures HasSkip(lines + [l], c) <==> HasSkip(lines, c) || (l.IsRecord() && l.skipped && l.Key() == c)
  {
    if HasSkip(lines, c) {
      var x :| x in lines && x.IsRecord() && x.skipped && x.Key() == c;
      assert x in lines + [l];
    }
    assert l in lines + [l];
  }

  lemma StartStep(w: World, e: Event)
    requires Inv(w) && e.Start? && Enabled(w, e)
    ensures Inv(Apply(w, e))
  {
    PendingFilters(e.plan, Known(w.disk, e.read));
  }

  lemma ExecuteStep(w: World)
    requires Inv(w) && Enabled(w, Execute)
    ensures Inv(Apply(w, Execute))
  {
    var r := w.run;
    var w' := Apply(w, Execute);
    var c, rest := r.pending[0], r.pending[1..];
    assert r.pending == [c] + rest;
    assert forall i :: 0 <= i < |rest| ==> rest[i] == r.pending[i + 1];
    forall x | x in r.plan ensures Covered(w'.run, x) {
      assert Covered(r, x);
      SkipAppends(r.raw, w'.run.phase.record, x);
    }
  }

  lemma AppendStep(w: World)
    requires Inv(w) && Enabled(w, Append)
    ensures Inv(Apply(w, Append))
  {
    AppendEffect(w.disk, w.run.phase.record);
    var w' := Apply(w, Append);
    forall x | x in w.run.plan ensures Covered(w'.run, x) {
      assert Covered(w.run, x);
    }
  }

  lemma RefreshStep(w: World)
    requires Inv(w) && Enabled(w, Refresh)
    ensures Inv(Apply(w, Refresh))
  {
    var w' := Apply(w, Refresh);
    var l := w.run.phase.record;
    forall x | x in w.run.plan ensures Covered(w'.run, x) {
      assert Covered(w.run, x);
    }
  }

  // A planned combo that was skipped in this run keeps a record through the merge.
  lemma SkipSurvivesMerge(d: Disk, raw: seq<Line>, x: Combo)
    requires HasSkip(raw, x) && forall l :: l in raw ==> l.Merges()
    ensures x in Executed(Merged(d.results, raw)) || HasSkip(Merged(d.results, raw), x)
  {
    var lines := d.results + raw;
    MergeKeepsFirsts(d.results, raw);
    var s :| s in raw && s.IsRecord() && s.skipped && s.Key() == x;
    assert s in lines && s.Merges();
    FirstExists(lines, x);
    var f: Line :| f.Merges() && f.Key() == x && IsFirst(lines, f);
    assert f in Merged(d.results, raw);
  }

  lemma RewriteStep(w: World)
    requires Inv(w) && Enabled(w, Rewrite)
    ensures Inv(Apply(w, Rewrite))
  {
    hide Merged, FirstPerCombo, IsFirst, LosesOnRewrite;
    var d, raw := w.disk, w.run.raw;
    RewriteEffect(d, raw);
    MergeKeepsFirsts(d.results, raw);
    forall x | x in w.run.plan && x !in w.run.completed
      ensures x in Executed(Merged(d.results, raw)) || HasSkip(Merged(d.results, raw), x)
    {
      assert Covered(w.run, x);
      SkipSurvivesMerge(d, raw, x);
    }
  }

  lemma InvStep(w: World, e: Event)
    requires Inv(w) && Enabled(w, e)
    ensures Inv(Apply(w, e))
  {
    match e
    case Start(_, _, _) => StartStep(w, e);
    case Execute => ExecuteStep(w);
    case Append => AppendStep(w);
    case Refresh => RefreshStep(w);
    case Rewrite => RewriteStep(w);
    case TearAppend(_) =>
    case WriteFinal =>
    case Crash =>
  }

  lemma {:induction false} InvAlways(w: World, es: seq<Event>)
    requires Inv(w) && Legal(w, es)
    ensures Inv(After(w, es))
    decreases |es|
  {
    if es != [] {
      InvStep(w, es[0]);
      InvAlways(Apply(w, es[0]), es[1..]);
    }
  }

  // ---------------------------------------------------------------- what is durable

  // One step loses a recoverable combo exactly when Loses says so, a condition on the files
  // alone that holds just before the write.
  lemma LossIsExact(w: World, e: Event)
    requires Inv(w) && Enabled(w, e)
    ensures Recovered(w.disk) <= Recovered(Apply(w, e).disk) <==> !Loses(w, e)
  {
    match e
    case Append => AppendEffect(w.disk, w.run.phase.record);
    case TearAppend(whole) => TornAppendEffect(w.disk, w.run.phase.record, whole);
    case Rewrite => RewriteEffect(w.disk, w.run.raw);
    case _ =>
  }

  // state.json never forgets a combo, whatever happens.
  lemma StateGrows(w: World, e: Event)
    requires Inv(w) && Enabled(w, e)
    ensures StateSet(w.disk) <= StateSet(Apply(w, e).disk)
  {
  }

  // A history none of whose writes loses anything.
  ghost predicate Lossless(w: World, es: seq<Event>)
    requires Legal(w, es)
    decreases |es|
  {
    es != [] ==> !Loses(w, es[0]) && Lossless(Apply(w, es[0]), es[1..])
  }

  // The driver is called for c by a run that could not read the results file.
  predicate Rebuys(w: World, e: Event, c: Combo)
  {
    e.Execute? && w.run.Active? && !w.run.read && w.run.pending != [] && w.run.pending[0] == c
    && c.contestant in w.run.credentials
  }

  // A call is made for a combo that the files hold exactly when the run could not read the results file at
  // its start.
  lemma DurableBoughtExactly(w: World, e: Event, c: Combo)
    requires Inv(w) && Enabled(w, e) && c in Recovered(w.disk)
    ensures multiset(Apply(w, e).paid)[c] == multiset(w.paid)[c] + (if Rebuys(w, e, c) then 1 else 0)
  {
    if e.Execute? {
      assert w.run.pending[0] in w.run.pending;
    }
  }

  // Which combos that is, is settled at the start: what is pending although the files hold it is what the plan
  // has from the results file alone, and nothing if that file could be read.
  lemma PendingThoughDurable(w: World, plan: seq<Combo>, credentials: set<string>, read: bool, c: Combo)
    requires Enabled(w, Start(plan, credentials, read)) && c in Recovered(w.disk)
    ensures c in Apply(w, Start(plan, credentials, read)).run.pending <==> !read && c in plan && c !in StateSet(w.disk)
  {
    PendingFilters(plan, Known(w.disk, read));
  }

  // How often a history buys c in runs that could not read the results file.
  ghost function Rebought(w: World, es: seq<Event>, c: Combo): nat
    requires Legal(w, es)
    decreases |es|
  {
    if es == [] then 0 else (if Rebuys(w, es[0], c) then 1 else 0) + Rebought(Apply(w, es[0]), es[1..], c)
  }

  // Over a lossless history the recovered set never shrinks, and a combo recovered at its beginning is bought
  // again only by runs that could not read the results file.
  lemma {:induction false} DurableStaysDurable(w: World, es: seq<Event>, c: Combo)
    requires Inv(w) && Legal(w, es) && Lossless(w, es) && c in Recovered(w.disk)
    ensures c in Recovered(After(w, es).disk)
    ensures multiset(After(w, es).paid)[c] == multiset(w.paid)[c] + Rebought(w, es, c)
    decreases |es|
  {
    hide Inv, Recovered, Loses, Rebuys;
    if es != [] {
      var e := es[0];
      var w' := Apply(w, e);
      InvStep(w, e);
      LossIsExact(w, e);
      DurableBoughtExactly(w, e, c);
      DurableStaysDurable(w', es[1..], c);
    }
  }

  // Every run could read the results file.
  ghost predicate AllRead(w: World, es: seq<Event>)
  {
    (w.run.Active? ==> w.run.read) && forall e :: e in es && e.Start? ==> e.read
  }

  lemma {:induction false} ReadingRunsRebuyNothing(w: World, es: seq<Event>, c: Combo)
    requires Legal(w, es) && AllRead(w, es)
    ensures Rebought(w, es, c) == 0 && (After(w, es).run.Active? ==> After(w, es).run.read)
    decreases |es|
  {
    if es != [] {
      assert es[0] in es;
      assert forall e :: e in es[1..] ==> e in es;
      ReadingRunsRebuyNothing(Apply(w, es[0]), es[1..], c);
    }
  }

  // When every run can read the results file, no call is ever made for a combo that the files hold at that
  // moment, after whatever history.
  lemma NeverExecutesDurable(d: Disk, es: seq<Event>, e: Event, c: Combo)
    requires Legal(Boot(d), es) && AllRead(Boot(d), es) && Enabled(After(Boot(d), es), e)
    requires c in Recovered(After(Boot(d), es).disk)
    ensures var w := After(Boot(d), es);
      multiset(Apply(w, e).paid)[c] == multiset(w.paid)[c]
  {
    InvAlways(Boot(d), es);
    ReadingRunsRebuyNothing(Boot(d), es, c);
    DurableBoughtExactly(After(Boot(d), es), e, c);
  }

  // ---------------------------------------------------------------- finished runs

  // What memory and files hold together.
  ghost function Kept(w: World): set<Combo>
  {
    Recovered(w.disk) + if w.run.Idle? then {} else w.run.completed
  }

  predicate Dies(e: Event) { e.Crash? || e.TearAppend? }

  // The file loses what memory does not hold either.
  ghost predicate Forgets(w: World, e: Event)
    requires Enabled(w, e)
  {
    match e
    case Append => LosesOnAppend(w.disk, w.run.completed)
    case Rewrite => LosesOnRewrite(w.disk, w.run.raw, w.run.completed)
    case _ => false
  }

  // Short of a death, exactly these steps forget something.
  lemma ForgettingIsExact(w: World, e: Event)
    requires Inv(w) && Enabled(w, e) && !Dies(e)
    ensures Kept(w) <= Kept(Apply(w, e)) <==> !Forgets(w, e)
  {
    hide LosesOnRewrite, LosesOnAppend, Merged;
    match e
    case Append => AppendEffect(w.disk, w.run.phase.record);
    case Rewrite =>
      RewriteDrops(w.disk, w.run.raw, w.run.completed);
      assert Apply(w, e).disk == AfterRewrite(w.disk, w.run.raw);
    case Start(_, _, _) =>
    case Execute =>
    case Refresh =>
    case WriteFinal =>
  }

  // A run that could read the results file holds everything in memory.
  lemma ReadingRunsForgetNothing(w: World, e: Event)
    requires Inv(w) && Enabled(w, e) && (w.run.Active? ==> w.run.read)
    ensures !Forgets(w, e)
  {
    if e.Append? && w.disk.end.Torn? && w.disk.results != [] {
      var last := w.disk.results[|w.disk.results| - 1];
      assert IsExecuted(last) ==> last.Key() in Executed(w.disk.results);
    }
  }

  // Even where a rewrite drops an executed line, a run that could read the file and lives to its final state
  // write puts everything back: without a death nothing kept is ever lost.
  lemma {:induction false} SurvivingRunsLoseNothing(w: World, es: seq<Event>)
    requires Inv(w) && Legal(w, es) && AllRead(w, es) && forall e :: e in es ==> !Dies(e)
    ensures Kept(w) <= Kept(After(w, es))
    decreases |es|
  {
    hide Inv, Kept, Forgets;
    if es != [] {
      assert es[0] in es;
      assert forall e :: e in es[1..] ==> e in es;
      InvStep(w, es[0]);
      ForgettingIsExact(w, es[0]);
      ReadingRunsForgetNothing(w, es[0]);
      SurvivingRunsLoseNothing(Apply(w, es[0]), es[1..]);
    }
  }

  // After the final state write, replanning the same workload leaves pending only items whose one
  // line in results.jsonl says they were skipped for want of a credential.
  lemma FinishedRunLeavesOnlySkips(w: World)
    requires Inv(w) && Enabled(w, WriteFinal)
    ensures var d := Apply(w, WriteFinal).disk;
      && (forall c :: c in w.run.plan && c !in Recovered(d) ==> HasSkip(d.results, c))
      && (w.run.phase.records != [] ==> OnePerCombo(d.results))
      && w.run.completed <= StateSet(d)
  {
    var d := Apply(w, WriteFinal).disk;
    forall c | c in w.run.plan && c !in Recovered(d) ensures HasSkip(d.results, c) {
      assert Covered(w.run, c);
    }
  }

  // The same, for whole histories.
  lemma FinishedHistory(d: Disk, es: seq<Event>)
    requires Legal(Boot(d), es) && Enabled(After(Boot(d), es), WriteFinal)
    ensures var w := After(Boot(d), es);
      var d' := Apply(w, WriteFinal).disk;
      && (forall c :: c in Pending(w.run.plan, Recovered(d')) ==> HasSkip(d'.results, c))
      && (w.run.phase.records != [] ==> OnePerCombo(d'.results))
  {
    var w := After(Boot(d), es);
    InvAlways(Boot(d), es);
    FinishedRunLeavesOnlySkips(w);
    PendingMembers(w.run.plan, Recovered(Apply(w, WriteFinal).disk));
  }

  lemma {:induction false} PendingMembers(plan: seq<Combo>, completed: set<Combo>)
    ensures forall c :: c in Pending(plan, completed) <==> c in plan && c !in completed
  {
    if plan != [] {
      PendingMembers(plan[1..], completed);
      assert plan == [plan[0]] + plan[1..];
    }
  }

  // ---------------------------------------------------------------- the bill

  ghost function Unsettled(w: World): nat
  {
    if w.run.Active? && (w.run.phase.Holding? || w.run.phase.Appended?) && IsExecuted(w.run.phase.record) then 1 else 0
  }

  // Every paid call is covered by a combo new in state.json, by a crash, or is still in flight;
  // and everything known is planned or was there at the start.
  ghost predicate Budget(w: World, before: Disk)
  {
    && |w.paid| + |StateSet(before)| <= |StateSet(w.disk)| + w.crashes + Unsettled(w)
    && Recovered(w.disk) <= w.planned + Recovered(before)
    && (w.run.Active? ==> w.run.completed <= w.planned + Recovered(before))
  }

  lemma {:induction false} SubsetSize<T>(a: set<T>, b: set<T>)
    requires a <= b
    ensures |a| <= |b|
    decreases a
  {
    if a != {} {
      var x :| x in a;
      SubsetSize(a - {x}, b - {x});
    }
  }

  lemma RefreshBudget(w: World, before: Disk)
    requires Inv(w) && Budget(w, before) && Enabled(w, Refresh)
    ensures Budget(Apply(w, Refresh), before)
  {
    hide Covered;
    var l := w.run.phase.record;
    if IsExecuted(l) {
      SubsetSize(StateSet(w.disk) + {l.Key()}, StateSet(Apply(w, Refresh).disk));
    }
  }

  lemma WriteBudget(w: World, e: Event, before: Disk)
    requires Inv(w) && Budget(w, before) && Enabled(w, e) && (e.Append? || e.TearAppend? || e.Rewrite?)
    ensures Budget(Apply(w, e), before)
  {
    hide LosesOnRewrite, LosesOnAppend, Merged, Covered, OnePerCombo, AppendLine, TornAppend;
    match e
    case Append => AppendEffect(w.disk, w.run.phase.record);
    case TearAppend(whole) => TornAppendEffect(w.disk, w.run.phase.record, whole);
    case Rewrite =>
      RewriteEffect(w.disk, w.run.raw);
      assert Apply(w, e).disk == AfterRewrite(w.disk, w.run.raw);
  }

  lemma QuietBudget(w: World, e: Event, before: Disk)
    requires Inv(w) && Budget(w, before) && Enabled(w, e) && (e.Start? || e.Execute? || e.Crash?)
    ensures Budget(Apply(w, e), before)
  {
    hide Covered, OnePerCombo, Merged, RewriteRaises, ResumeRaises, Pending;
  }

  lemma FinalBudget(w: World, before: Disk)
    requires Inv(w) && Budget(w, before) && Enabled(w, WriteFinal)
    ensures Budget(Apply(w, WriteFinal), before)
  {
    FinalStateIsPlanned(w, before);
    hide Inv, Executed;
    SubsetSize(StateSet(w.disk), w.run.completed + Executed(w.run.phase.records));
  }

  lemma FinalStateIsPlanned(w: World, before: Disk)
    requires Inv(w) && Budget(w, before) && Enabled(w, WriteFinal)
    ensures var final := w.run.completed + Executed(w.run.phase.records);
      StateSet(w.disk) <= final <= w.planned + Recovered(before)
  {
    hide Covered, OnePerCombo, RewriteRaises, ResumeRaises;
    if w.run.phase.records == [] {
      assert Executed(w.run.phase.records) == {};
    }
  }

  lemma BudgetStep(w: World, e: Event, before: Disk)
    requires Inv(w) && Budget(w, before) && Enabled(w, e)
    ensures Budget(Apply(w, e), before)
  {
    hide Budget, Inv, Apply;
    match e
    case Start(_, _, _) => QuietBudget(w, e, before);
    case Execute => QuietBudget(w, e, before);
    case Append => WriteBudget(w, e, before);
    case TearAppend(_) => WriteBudget(w, e, before);
    case Refresh => RefreshBudget(w, before);
    case Rewrite => WriteBudget(w, e, before);
    case WriteFinal => FinalBudget(w, before);
    case Crash => QuietBudget(w, e, before);
  }

  lemma {:induction false} BudgetAlways(w: World, es: seq<Event>, before: Disk)
    requires Inv(w) && Budget(w, before) && Legal(w, es)
    ensures Budget(After(w, es), before)
    decreases |es|
  {
    if es != [] {
      InvStep(w, es[0]);
      BudgetStep(w, es[0], before);
      BudgetAlways(Apply(w, es[0]), es[1..], before);
    }
  }

  // Over every history, lossy or not, from any directory, every paid call is covered: together with what
  // state.json held at the start they are at most the combos planned or known, plus the crashes.
  lemma PaidCallsCovered(d: Disk, es: seq<Event>)
    requires Legal(Boot(d), es)
    ensures var w := After(Boot(d), es);
      |w.paid| + |StateSet(d)| <= |w.planned + Recovered(d)| + w.crashes
  {
    hide Inv, Legal, After;
    var w0 := Boot(d);
    assert Inv(w0) && Budget(w0, d) by { BootIsSound(d); }
    BudgetAlways(w0, es, d);
    InvAlways(w0, es);
    BudgetCovers(After(w0, es), d);
  }

  lemma BootIsSound(d: Disk)
    ensures Inv(Boot(d)) && Budget(Boot(d), d)
  {
  }

  // The combo of a call in flight is planned and not yet in state.json.
  lemma BudgetCovers(w: World, before: Disk)
    requires Inv(w) && Budget(w, before)
    ensures |w.paid| + |StateSet(before)| <= |w.planned + Recovered(before)| + w.crashes
  {
    hide Covered, OnePerCombo;
    var known := w.planned + Recovered(before);
    SubsetSize(StateSet(w.disk), known);
    if Unsettled(w) == 1 {
      SubsetSize(StateSet(w.disk) + {w.run.phase.record.Key()}, known);
    }
  }

  // From an empty directory: never more paid calls than distinct planned combos plus crashes.
  lemma PaidCallsBounded(es: seq<Event>)
    requires Legal(Boot(EMPTY_DIRECTORY), es)
    ensures var w := After(Boot(EMPTY_DIRECTORY), es);
      |w.paid| <= |w.planned| + w.crashes
  {
    PaidCallsCovered(EMPTY_DIRECTORY, es);
    assert Executed([]) == {};
    var w := After(Boot(EMPTY_DIRECTORY), es);
    assert w.planned + Recovered(EMPTY_DIRECTORY) == w.planned;
  }
}
