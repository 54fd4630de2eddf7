// The run directory and one sequential run over it, as code that changes files and variables in place.
// Every run, wherever it dies, is a history of the protocol of ResumeModel.
module ResumeRun {
  import opened Options
  import opened Ordering
  import opened ResumeModel
  import opened ResumeSafety
  import opened ResumeHistories
  import opened ResumeCases

  // One turn of the merge loop.
  lemma MergeOne(lines: seq<Line>, k: nat, records: seq<Line>, seen: set<Combo>)
    requires k < |lines|
    ensures records + FirstPerCombo(lines[k..], seen) ==
      var reading := ReadOnMerge(lines[k]);
      if reading.Read? && reading.combo !in seen then
        (records + [lines[k]]) + FirstPerCombo(lines[k + 1..], seen + {reading.combo})
      else records + FirstPerCombo(lines[k + 1..], seen)
  {
    assert lines[k..][0] == lines[k] && lines[k..][1..] == lines[k + 1..];
  }

  lemma NothingToMerge(seen: set<Combo>)
    ensures FirstPerCombo([], seen) == []
  {
  }

  class RunDirectory {
    var state: Option<set<Combo>>
    var results: seq<Line>
    var end: FileEnd

    function Contents(): Disk
      reads this
    {
      Disk(state, results, end)
    }

    constructor ()
      ensures Contents() == EMPTY_DIRECTORY
    {
      state, results, end := None, [], Newline;
    }

    method LoadState() returns (completed: set<Combo>)
      ensures completed == StateSet(Contents())
    {
      completed := if state.Some? then state.value else {};
    }

    // An atomic replacement of the file.
    method WriteState(completed: set<Combo>)
      modifies this`state
      ensures Contents() == old(Contents()).(state := Some(completed))
    {
      state := Some(completed);
    }

    // readable is false when reading the file ends in an OSError.
    method LoadCompletedFromResults(readable: bool) returns (raised: bool, completed: set<Combo>)
      ensures raised <==> readable && ResumeRaises(results)
      ensures !raised ==> completed == if readable then Executed(results) else {}
    {
      completed := {};
      if !readable {
        return false, completed;
      }
      var k := 0;
      while k < |results|
        invariant 0 <= k <= |results|
        invariant completed == Executed(results[..k])
        invariant forall l :: l in results[..k] ==> !ReadOnResume(l).Raised?
      {
        var line := results[k];
        assert results[..k + 1] == results[..k] + [line];
        ExecutedSplit(results[..k], [line]);
        assert line in [line];
        match ReadOnResume(line) {
          case Raised =>
            assert line in results;
            return true, {};
          case Ignored =>
          case Read(combo) =>
            completed := completed + {combo};
        }
        k := k + 1;
      }
      assert results[..k] == results;
      raised := false;
    }

    method WriteResultsJsonl(record: Line)
      modifies this`results, this`end
      ensures Contents() == AppendLine(old(Contents()), record)
      ensures end == Newline && state == old(state)
      ensures var n := |old(results)| - 1;
        if old(end) == Torn && n >= 0 then
          && |results| == n + 1 && results[..n] == old(results)[..n]
          && (old(results)[n].Undecodable? ==> results[n] == old(results)[n])
          && (!old(results)[n].Undecodable? ==> results[n] == Garbage)
        else
          && |results| == n + 2 && results[..n + 1] == old(results)
          && (old(end) == Blanks && record.Object? ==> results[n + 1] == record.(padded := true))
          && (!(old(end) == Blanks && record.Object?) ==> results[n + 1] == record)
    {
      if end.Torn? && results != [] {
        results := results[..|results| - 1] + [Spoiled(results[|results| - 1])];
      } else {
        results := results + [if end.Blanks? then Padded(record) else record];
      }
      end := Newline;
    }

    // The process dies inside the write.
    method TearResultsJsonl(record: Line, whole: bool)
      modifies this`results, this`end
      ensures Contents() == TornAppend(old(Contents()), record, whole)
      ensures end == Torn && state == old(state)
      ensures var n := |old(results)| - 1;
        if old(end) == Torn && n >= 0 then
          && |results| == n + 1 && results[..n] == old(results)[..n]
          && (old(results)[n].Undecodable? ==> results[n] == old(results)[n])
          && (!old(results)[n].Undecodable? ==> results[n] == Garbage)
        else
          && |results| == n + 2 && results[..n + 1] == old(results)
          && (!whole ==> results[n + 1] == Garbage)
          && (whole && old(end) == Blanks && record.Object? ==> results[n + 1] == record.(padded := true))
          && (whole && !(old(end) == Blanks && record.Object?) ==> results[n + 1] == record)
    {
      if end.Torn? && results != [] {
        results := results[..|results| - 1] + [Spoiled(results[|results| - 1])];
      } else {
        results := results + [if !whole then Garbage else if end.Blanks? then Padded(record) else record];
        end := Torn;
      }
    }

    // An atomic replacement of the file.
    method RewriteResultsJsonl(records: seq<Line>)
      modifies this`results, this`end
      ensures Contents() == old(Contents()).(results := records, end := Newline)
    {
      results, end := records, Newline;
    }

    // The merge loop: first record per combo; an exception on a line with any defect but a missing key.
    method Merge(raw: seq<Line>) returns (raised: bool, records: seq<Line>)
      ensures raised <==> MergeRaises(results + raw)
      ensures !raised ==> records == FirstPerCombo(results + raw, {})
    {
      hide FirstPerCombo, ReadOnMerge;
      var lines := results + raw;
      var comboSeen: set<Combo> := {};
      records := [];
      raised := false;
      var k := 0;
      while k < |lines|
        invariant 0 <= k <= |lines|
        invariant forall l :: l in lines[..k] ==> !ReadOnMerge(l).Raised?
        invariant records + FirstPerCombo(lines[k..], comboSeen) == FirstPerCombo(lines, {})
      {
        var record := lines[k];
        MergeOne(lines, k, records, comboSeen);
        assert lines[..k + 1] == lines[..k] + [record];
        match ReadOnMerge(record) {
          case Raised =>
            assert record in lines;
            return true, [];
          case Ignored =>
          case Read(combo) =>
            if combo !in comboSeen {
              comboSeen := comboSeen + {combo};
              records := records + [record];
            }
        }
        k := k + 1;
      }
      assert lines[..k] == lines && lines[k..] == [];
      assert FirstPerCombo([], comboSeen) == [] by { NothingToMerge(comboSeen); }
    }
  }

  // ---------------------------------------------------------------- what a run will do

  // The records of a run over items, the first of them the n-th.
  function NewRecords(items: seq<Combo>, credentials: set<string>, n: nat): seq<Line>
  {
    if items == [] then []
    else [NewRecord(items[0], items[0].contestant !in credentials, n)] + NewRecords(items[1..], credentials, n + 1)
  }

  // The results file after those lines, and how it ends; state.json plays no part.
  function AppendAll(d: Disk, lines: seq<Line>): Disk
    decreases |lines|
  {
    if lines == [] then d else AppendAll(AppendLine(d, lines[0]), lines[1..])
  }

  function WithoutState(d: Disk): Disk { d.(state := None) }

  // The items the driver is called for.
  function Bought(items: seq<Combo>, credentials: set<string>): seq<Combo>
  {
    if items == [] then []
    else (if items[0].contestant in credentials then [items[0]] else []) + Bought(items[1..], credentials)
  }

  lemma {:induction false} BoughtOneMore(items: seq<Combo>, credentials: set<string>, k: nat)
    requires k < |items|
    ensures Bought(items[..k + 1], credentials) ==
      Bought(items[..k], credentials) + (if items[k].contestant in credentials then [items[k]] else [])
  {
    if k == 0 {
      assert items[..1][1..] == [] && items[..0] == [];
    } else {
      BoughtOneMore(items[1..], credentials, k - 1);
      assert items[..k + 1][1..] == items[1..][..k] && items[..k][1..] == items[1..][..k - 1];
    }
  }

  // The combos of the executed records, added to those completed before.
  method FoldIn(completed: set<Combo>, records: seq<Line>) returns (completedNow: set<Combo>)
    ensures completedNow == completed + Executed(records)
  {
    completedNow := completed;
    var k := 0;
    while k < |records|
      invariant 0 <= k <= |records|
      invariant completedNow == completed + Executed(records[..k])
    {
      assert records[..k + 1] == records[..k] + [records[k]];
      ExecutedSplit(records[..k], [records[k]]);
      assert records[k] in [records[k]];
      if IsExecuted(records[k]) {
        completedNow := completedNow + {records[k].Key()};
      }
      k := k + 1;
    }
    assert records[..k] == records;
  }

  // How many more calls and writes the process lives for, and how an interrupted append ends.
  datatype Fate = Fate(fuse: nat, tears: bool, whole: bool)

  // One run in progress. start and events are its history so far.
  class Benchmark {
    const dir: RunDirectory
    const plan: seq<Combo>
    const credentials: set<string>
    ghost const read: bool
    var completed: set<Combo>
    var pending: seq<Combo>
    var raw: seq<Line>
    var calls: seq<Combo>
    ghost const start: World
    ghost var events: seq<Event>

    ghost predicate Valid()
      reads this, dir
    {
      && Legal(start, events)
      && After(start, events).disk == dir.Contents()
      && After(start, events).paid == calls
      && After(start, events).planned == start.planned + set c | c in plan
    }

    // The run stands at the given phase of the protocol with the variables it holds.
    ghost predicate At(phase: Phase)
      reads this, dir
    {
      Valid() && After(start, events).run == Active(phase, completed, pending, raw, credentials, plan, read)
    }

    ghost predicate Over()
      reads this, dir
    {
      Valid() && After(start, events).run == Idle
    }

    // Resume: completed is what the files are known to hold.
    constructor (
      dir: RunDirectory, plan: seq<Combo>, credentials: set<string>, completed: set<Combo>, ghost read: bool)
      requires Distinct(plan) && (read ==> !ResumeRaises(dir.results)) && completed == Known(dir.Contents(), read)
      ensures this.dir == dir && this.plan == plan && this.credentials == credentials && this.read == read
      ensures this.completed == completed
      ensures start == Boot(dir.Contents()) && events == [Start(plan, credentials, read)]
      ensures At(Loop) && raw == [] && calls == [] && pending == Pending(plan, completed)
    {
      this.dir, this.plan, this.credentials, this.completed := dir, plan, credentials, completed;
      this.raw, this.calls := [], [];
      this.read := read;
      start := Boot(dir.Contents());
      events := [];
      new;
      var items := [];
      var k := 0;
      while k < |plan|
        invariant 0 <= k <= |plan|
        invariant items + Pending(plan[k..], completed) == Pending(plan, completed)
      {
        assert plan[k..][1..] == plan[k + 1..];
        if plan[k] !in completed {
          items := items + [plan[k]];
        }
        k := k + 1;
      }
      pending := items;
      Snoc(start, [], Start(plan, credentials, read));
      events := [] + [Start(plan, credentials, read)];
    }

    method ExecuteItem() returns (record: Line)
      requires At(Loop) && pending != []
      modifies this`events, this`pending, this`calls
      ensures events == old(events) + [Execute] && At(Holding(record))
      ensures record == RecordFor(old(pending)[0], credentials, raw) && pending == old(pending)[1..]
      ensures calls == old(calls) + (if old(pending)[0].contestant in credentials then [old(pending)[0]] else [])
    {
      Snoc(start, events, Execute);
      events := events + [Execute];
      var item := pending[0];
      pending := pending[1..];
      if item.contestant in credentials {
        calls := calls + [item];
        record := NewRecord(item, false, |raw| + 1);
      } else {
        record := NewRecord(item, true, |raw| + 1);
      }
    }

    method WriteLine(record: Line)
      requires At(Holding(record))
      modifies this`events, dir
      ensures events == old(events) + [Append] && At(Appended(record))
      ensures dir.Contents() == AppendLine(old(dir.Contents()), record)
    {
      Snoc(start, events, Append);
      events := events + [Append];
      dir.WriteResultsJsonl(record);
    }

    // state.json is replaced exactly when an executed combo is new.
    method RefreshResumeState(record: Line)
      requires At(Appended(record))
      modifies this`events, this`raw, this`completed, dir
      ensures events == old(events) + [Refresh] && At(Loop) && raw == old(raw) + [record]
      ensures var isNew := IsExecuted(record) && record.Key() !in old(completed);
        && completed == (if isNew then old(completed) + {record.Key()} else old(completed))
        && dir.Contents() == if isNew then old(dir.Contents()).(state := Some(completed)) else old(dir.Contents())
    {
      Snoc(start, events, Refresh);
      events := events + [Refresh];
      raw := raw + [record];
      if IsExecuted(record) && record.Key() !in completed {
        completed := completed + {record.Key()};
        dir.WriteState(completed);
      }
    }

    // Merge, enrich, sort, then replace results.jsonl when there is any record.
    method MergeAndRewrite() returns (raised: bool, records: seq<Line>)
      requires At(Loop) && pending == []
      modifies this`events, dir
      ensures raised <==> old(RewriteRaises(dir.results, raw))
      ensures raised ==> events == old(events) && At(Loop) && dir.Contents() == old(dir.Contents())
      ensures !raised ==> events == old(events) + [Rewrite] && At(Rewritten(records))
      ensures !raised ==> records == old(Merged(dir.results, raw))
      ensures !raised && records == [] ==> dir.Contents() == old(dir.Contents())
      ensures !raised && records != [] ==> dir.Contents() == Disk(old(dir.state), records, Newline)
    {
      var firsts;
      raised, firsts := dir.Merge(raw);
      if raised || EnrichmentRaises(firsts) || SortRaises(firsts) {
        return true, [];
      }
      records := SortBy(ByOrder, firsts);
      Snoc(start, events, Rewrite);
      events := events + [Rewrite];
      if records != [] {
        dir.RewriteResultsJsonl(records);
      }
    }

    // What was completed before, and every executed record kept by the merge. Afterwards an item of the plan
    // that is not recovered has a line saying it was skipped.
    method WriteFinalState(records: seq<Line>)
      requires At(Rewritten(records)) && start.run.Idle?
      modifies this`events, dir
      ensures events == old(events) + [WriteFinal] && Over()
      ensures dir.Contents() == old(dir.Contents()).(state := Some(completed + Executed(records)))
      ensures forall c :: c in plan && c !in Recovered(dir.Contents()) ==> HasSkip(dir.results, c)
      ensures records != [] ==> OnePerCombo(dir.results)
    {
      var completedNow := FoldIn(completed, records);
      FinalStateLeavesOnlySkips(start, events);
      Snoc(start, events, WriteFinal);
      events := events + [WriteFinal];
      dir.WriteState(completedNow);
    }

    ghost method Die()
      requires Valid() && After(start, events).run.Active?
      modifies this`events
      ensures events == old(events) + [Crash] && Over()
    {
      Snoc(start, events, Crash);
      events := events + [Crash];
    }

    method DieWriting(record: Line, whole: bool)
      requires At(Holding(record))
      modifies this`events, dir
      ensures events == old(events) + [TearAppend(whole)] && Over()
      ensures dir.Contents() == TornAppend(old(dir.Contents()), record, whole)
    {
      Snoc(start, events, TearAppend(whole));
      events := events + [TearAppend(whole)];
      dir.TearResultsJsonl(record, whole);
    }

    // One turn of the sequential loop: execute, append, refresh; the process dies on the way when it has
    // fewer than three steps to live.
    method ProcessItem(fate: Fate) returns (alive: bool)
      requires At(Loop) && pending != []
      modifies this`events, this`pending, this`calls, this`raw, this`completed, dir
      ensures alive <==> fate.fuse >= 3
      ensures var item := old(pending)[0];
        var record := RecordFor(item, credentials, old(raw));
        && calls == old(calls) + (if fate.fuse >= 1 && item.contestant in credentials then [item] else [])
        && events == old(events) + Turn(fate)
        && if alive then
             && At(Loop) && pending == old(pending)[1..] && raw == old(raw) + [record]
             && completed == old(completed) + (if record.skipped then {} else {item})
             && WithoutState(dir.Contents()) == WithoutState(AppendLine(old(dir.Contents()), record))
           else Over()
    {
      hide Legal, After, Apply, Enabled, AppendLine, TornAppend;
      if fate.fuse < 1 {
        Die();
        return false;
      }
      var record := ExecuteItem();
      if fate.fuse < 2 {
        if fate.tears {
          DieWriting(record, fate.whole);
        } else {
          Die();
        }
        return false;
      }
      WriteLine(record);
      if fate.fuse < 3 {
        Die();
        return false;
      }
      RefreshResumeState(record);
      return true;
    }

    // Merge, rewrite and final state write. Which records the file then holds, and in what order, is said by
    // MergeKeepsFirsts and MergedInOrder.
    method Finish(fuse: nat) returns (finished: bool)
      requires At(Loop) && pending == [] && start.run.Idle?
      modifies this`events, dir
      ensures finished <==> fuse >= 2 && !old(RewriteRaises(dir.results, raw))
      ensures Over() && exists more :: events == old(events) + more && Ending(more, finished)
      ensures finished ==> forall c :: c in plan && c !in Recovered(dir.Contents()) ==> HasSkip(dir.results, c)
      ensures finished ==> completed <= Recovered(dir.Contents())
      ensures finished ==> dir.Contents() == Final(old(dir.Contents()), raw, completed)
    {
      hide Legal, After, Apply, Enabled, RewriteRaises, HasSkip, Merged;
      if fuse < 1 {
        Die();
        assert Ending([Crash], false);
        return false;
      }
      var raised, records := MergeAndRewrite();
      if raised || fuse < 2 {
        Die();
        assert events == old(events) + (if raised then [Crash] else [Rewrite, Crash]);
        assert Ending([Crash], false) && Ending([Rewrite, Crash], false);
        return false;
      }
      WriteFinalState(records);
      assert events == old(events) + [Rewrite, WriteFinal];
      assert Ending([Rewrite, WriteFinal], true);
      return true;
    }
  }

  // What a finished run leaves behind.
  function Final(d: Disk, raw: seq<Line>, completed: set<Combo>): Disk
  {
    var m := Merged(d.results, raw);
    Disk(Some(completed + Executed(m)), if m == [] then d.results else m, if m == [] then d.end else Newline)
  }

  // The events of one turn of the loop.
  function Turn(fate: Fate): seq<Event>
  {
    if fate.fuse < 1 then [Crash]
    else if fate.fuse < 2 then [Execute, if fate.tears then TearAppend(fate.whole) else Crash]
    else if fate.fuse < 3 then [Execute, Append, Crash]
    else [Execute, Append, Refresh]
  }

  predicate Ending(more: seq<Event>, finished: bool)
  {
    if finished then more == [Rewrite, WriteFinal] else more == [Crash] || more == [Rewrite, Crash]
  }

  lemma FinalStateLeavesOnlySkips(w: World, es: seq<Event>)
    requires Legal(w, es) && w.run.Idle? && Enabled(After(w, es), WriteFinal)
    ensures var v := After(w, es);
      var d := Apply(v, WriteFinal).disk;
      && (forall c :: c in v.run.plan && c !in Recovered(d) ==> HasSkip(d.results, c))
      && (v.run.phase.records != [] ==> OnePerCombo(d.results))
  {
    InvAlways(w, es);
    FinishedRunLeavesOnlySkips(After(w, es));
  }

  // ---------------------------------------------------------------- one run

  // What the run will execute, and the file it would leave for its merge if it lived to it.
  function Items(d: Disk, plan: seq<Combo>, read: bool): seq<Combo> { Pending(plan, Known(d, read)) }

  function Leftover(d: Disk, plan: seq<Combo>, credentials: set<string>, read: bool): seq<Line>
  {
    AppendAll(WithoutState(d), NewRecords(Items(d, plan, read), credentials, 1)).results
  }

  // How many of n items are executed by a process with fuse steps to live.
  function Reached(fuse: nat, n: nat): nat { if (fuse + 2) / 3 < n then (fuse + 2) / 3 else n }

  // A run is one start, and steps of that run only; it tears lines in one way only.
  ghost predicate OneRun(events: seq<Event>, plan: seq<Combo>, credentials: set<string>, read: bool, whole: bool)
  {
    && events != [] && events[0] == Start(plan, credentials, read)
    && forall i :: 0 < i < |events| ==> !events[i].Start? && (events[i].TearAppend? ==> events[i].whole == whole)
  }

  lemma OneRunGrows(
    events: seq<Event>, more: seq<Event>, plan: seq<Combo>, credentials: set<string>, read: bool, whole: bool)
    requires OneRun(events, plan, credentials, read, whole)
    requires forall e :: e in more ==> !e.Start? && (e.TearAppend? ==> e.whole == whole)
    ensures OneRun(events + more, plan, credentials, read, whole)
  {
    var all := events + more;
    forall i | 0 < i < |all| ensures !all[i].Start? && (all[i].TearAppend? ==> all[i].whole == whole) {
      if i >= |events| { assert all[i] in more; }
    }
  }

  lemma {:induction false} AppendAllStaysPlain(d: Disk, lines: seq<Line>)
    requires Plain(d.results) && Plain(lines) && !d.end.Blanks?
    ensures Plain(AppendAll(d, lines).results)
    decreases |lines|
  {
    if lines != [] {
      assert lines[0] in lines && Plain(AppendLine(d, lines[0]).results);
      assert forall l :: l in lines[1..] ==> l in lines;
      AppendAllStaysPlain(AppendLine(d, lines[0]), lines[1..]);
    }
  }

  lemma {:induction false} NewRecordsArePlain(items: seq<Combo>, credentials: set<string>, n: nat)
    ensures Plain(NewRecords(items, credentials, n))
  {
    if items != [] {
      NewRecordsArePlain(items[1..], credentials, n + 1);
    }
  }

  // In a directory that only this program has written, nothing but its death keeps a run from finishing.
  lemma OwnDirectoriesFinish(d: Disk, plan: seq<Combo>, credentials: set<string>, read: bool)
    requires Plain(d.results) && !d.end.Blanks?
    ensures !ResumeRaises(d.results)
    ensures !RewriteRaises(Leftover(d, plan, credentials, read), NewRecords(Items(d, plan, read), credentials, 1))
  {
    var raw := NewRecords(Items(d, plan, read), credentials, 1);
    NewRecordsArePlain(Items(d, plan, read), credentials, 1);
    AppendAllStaysPlain(WithoutState(d), raw);
    PlainLinesNeverRaise(Leftover(d, plan, credentials, read), raw);
    PlainLinesNeverRaise(d.results, raw);
  }

  ghost predicate NoRewrite(events: seq<Event>) { forall e :: e in events ==> !e.Rewrite? }

  // The run rewrote the file over an executed line that padding hides from the merge, and did not go on to write
  // a final state that remembers it.
  ghost predicate HidesInRun(d: Disk, events: seq<Event>, read: bool)
  {
    var n := |events| - 2;
    && n >= 0 && events[n].Rewrite? && (read ==> !events[n + 1].WriteFinal?)
    && Legal(Boot(d), events[..n])
    && var v := After(Boot(d), events[..n]);
       v.run.Active? && HidesOnRewrite(v.disk, v.run.raw, StateSet(v.disk))
  }

  // Within one run the files hold what they held at its start and what state.json holds.
  ghost predicate FromStart(w: World, d: Disk)
  {
    w.run.Active? ==> Recovered(w.disk) <= Recovered(d) + StateSet(w.disk) + Landed(w.run.phase)
  }

  lemma FromStartStep(w: World, e: Event, d: Disk)
    requires Inv(w) && FromStart(w, d) && Enabled(w, e) && !e.Start?
    ensures FromStart(Apply(w, e), d)
  {
    hide LosesOnRewrite, LosesOnAppend, Merged, Covered, AppendLine;
    match e
    case Append => AppendEffect(w.disk, w.run.phase.record);
    case Rewrite =>
      RewriteEffect(w.disk, w.run.raw);
      assert Apply(w, e).disk == AfterRewrite(w.disk, w.run.raw);
    case Execute =>
    case TearAppend(_) =>
    case Refresh =>
    case WriteFinal =>
    case Crash =>
  }

  lemma {:induction false} FromStartAlways(w: World, es: seq<Event>, d: Disk)
    requires Inv(w) && FromStart(w, d) && Legal(w, es) && forall e :: e in es ==> !e.Start?
    ensures FromStart(After(w, es), d)
    decreases |es|
  {
    hide Inv, FromStart;
    if es != [] {
      assert es[0] in es;
      assert forall e :: e in es[1..] ==> e in es;
      InvStep(w, es[0]);
      FromStartStep(w, es[0], d);
      FromStartAlways(Apply(w, es[0]), es[1..], d);
    }
  }

  lemma OneRunFromStart(d: Disk, events: seq<Event>, plan: seq<Combo>, credentials: set<string>, read: bool)
    requires Legal(Boot(d), events) && OneRun(events, plan, credentials, read, false)
    ensures FromStart(After(Boot(d), events), d)
  {
    var w := Apply(Boot(d), events[0]);
    assert Inv(Boot(d)) by { BootIsSound(d); }
    InvStep(Boot(d), events[0]);
    forall e | e in events[1..] ensures !e.Start? {
      var i :| 0 <= i < |events[1..]| && events[1..][i] == e;
      assert events[i + 1] == e;
    }
    FromStartAlways(w, events[1..], d);
  }

  lemma {:induction false} NoneHiddenWithoutRewrite(w: World, es: seq<Event>)
    requires Legal(w, es) && NoRewrite(es)
    ensures NoneHidden(w, es)
    decreases |es|
  {
    if es != [] {
      assert es[0] in es;
      assert forall e :: e in es[1..] ==> e in es;
      NoneHiddenWithoutRewrite(Apply(w, es[0]), es[1..]);
    }
  }

  lemma OneRunIsSteady(events: seq<Event>, plan: seq<Combo>, credentials: set<string>, read: bool)
    requires OneRun(events, plan, credentials, read, false)
    ensures forall e :: e in events ==> Steady(e, credentials)
  {
    forall e | e in events ensures Steady(e, credentials) {
      var i :| 0 <= i < |events| && events[i] == e;
    }
  }

  // Up to its rewrite a run with unchanged credentials loses nothing.
  lemma NothingLostBefore(d: Disk, events: seq<Event>, plan: seq<Combo>, credentials: set<string>, read: bool)
    requires Consistent(d, credentials) && Legal(Boot(d), events) && NoRewrite(events)
    requires OneRun(events, plan, credentials, read, false)
    ensures Recovered(d) <= Recovered(After(Boot(d), events).disk)
    ensures SteadyWorld(After(Boot(d), events), credentials)
  {
    hide Legal, After, Consistent, Inv;
    var w := Boot(d);
    assert Inv(w) && SteadyWorld(w, credentials) by { BootIsSound(d); }
    OneRunIsSteady(events, plan, credentials, read);
    SteadyCredentialsLoseOnlyHidden(w, events, credentials);
    NoneHiddenWithoutRewrite(w, events);
    SteadyAlways(w, events, credentials);
    forall c | c in Recovered(d) ensures c in Recovered(After(w, events).disk) {
      DurableStaysDurable(w, events, c);
    }
  }

  // The last two steps, from the end of the loop on.
  lemma LostAtTheEnd(v: World, last: Event, d: Disk, credentials: set<string>)
    requires Inv(v) && SteadyWorld(v, credentials) && FromStart(v, d) && Recovered(d) <= Recovered(v.disk)
    requires Enabled(v, Rewrite) && (last == Crash || last == WriteFinal)
    ensures var w := Apply(Apply(v, Rewrite), last);
      Recovered(d) <= Recovered(w.disk) <==>
        !(HidesOnRewrite(v.disk, v.run.raw, StateSet(v.disk)) && (v.run.read ==> last != WriteFinal))
  {
    hide Merged, HidesOnRewrite, LosesOnRewrite, Covered, OnePerCombo, RewriteRaises;
    MatchingLinesKeep(v.disk, v.run.raw, credentials);
    RewriteEffect(v.disk, v.run.raw);
    assert Apply(v, Rewrite).disk == AfterRewrite(v.disk, v.run.raw);
    ExecutedAfterRewrite(v.disk, v.run.raw);
  }

  lemma ExecutedAfterRewrite(d: Disk, raw: seq<Line>)
    ensures Executed(Merged(d.results, raw)) <= Executed(AfterRewrite(d, raw).results)
  {
  }

  lemma {:induction false} LegalPrefix(w: World, a: seq<Event>, b: seq<Event>)
    requires Legal(w, a + b)
    ensures Legal(w, a) && Legal(After(w, a), b) && After(w, a + b) == After(After(w, a), b)
    decreases |a|
  {
    if a == [] {
      assert a + b == b;
    } else {
      assert (a + b)[1..] == a[1..] + b;
      LegalPrefix(Apply(w, a[0]), a[1..], b);
    }
  }

  // With unchanged credentials and no line losing only its newline, a run loses something recoverable exactly
  // when it rewrites the file over a hidden line and does not remember it in its final state.
  lemma OneRunLosesExactly(
    d: Disk, loop: seq<Event>, more: seq<Event>, finished: bool, plan: seq<Combo>, credentials: set<string>, read: bool)
    requires Consistent(d, credentials) && Legal(Boot(d), loop + more) && NoRewrite(loop)
    requires OneRun(loop, plan, credentials, read, false) && (more == [] || Ending(more, finished))
    requires more != [] ==> After(Boot(d), loop + more).run.Idle?
    ensures var w := After(Boot(d), loop + more);
      && (Recovered(d) <= Recovered(w.disk) <==> !HidesInRun(d, loop + more, read))
      && (w.run.Idle? ==> Consistent(w.disk, credentials))
  {
    hide Consistent, Inv, HidesInRun;
    var events := loop + more;
    if more == [] || more == [Crash] {
      assert NoRewrite(events);
      OneRunGrows(loop, more, plan, credentials, read, false);
      NothingLostBefore(d, events, plan, credentials, read);
      NothingHiddenWithoutRewrite(d, events, read);
    } else {
      LostAfterRewrite(d, loop, more[1], plan, credentials, read);
      assert more == [Rewrite, more[1]];
    }
  }

  lemma NothingHiddenWithoutRewrite(d: Disk, events: seq<Event>, read: bool)
    requires NoRewrite(events)
    ensures !HidesInRun(d, events, read)
  {
  }

  lemma LostAfterRewrite(
    d: Disk, loop: seq<Event>, last: Event, plan: seq<Combo>, credentials: set<string>, read: bool)
    requires Consistent(d, credentials) && Legal(Boot(d), loop + [Rewrite, last]) && NoRewrite(loop)
    requires OneRun(loop, plan, credentials, read, false) && (last == Crash || last == WriteFinal)
    ensures var w := After(Boot(d), loop + [Rewrite, last]);
      && (Recovered(d) <= Recovered(w.disk) <==> !HidesInRun(d, loop + [Rewrite, last], read))
      && Consistent(w.disk, credentials)
  {
    hide Consistent, Inv, HidesOnRewrite, RewriteRaises, Merged, LosesOnRewrite, OneRun, NoRewrite, FromStart;
    var events := loop + [Rewrite, last];
    LegalPrefix(Boot(d), loop, [Rewrite, last]);
    var v := After(Boot(d), loop);
    assert events[..|events| - 2] == loop && events[|events| - 2] == Rewrite && events[|events| - 1] == last;
    NothingLostBefore(d, loop, plan, credentials, read);
    OneRunFromStart(d, loop, plan, credentials, read);
    assert Inv(Boot(d)) by { BootIsSound(d); }
    InvAlways(Boot(d), loop);
    RunReads(d, loop, plan, credentials, read);
    TwoSteps(v, [Rewrite, last]);
    LostAtTheEnd(v, last, d, credentials);
    InvStep(v, Rewrite);
    SteadyStep(v, Rewrite, credentials);
    SteadyStep(Apply(v, Rewrite), last, credentials);
  }

  lemma TwoSteps(v: World, more: seq<Event>)
    requires |more| == 2 && Legal(v, more)
    ensures Enabled(v, more[0]) && Enabled(Apply(v, more[0]), more[1])
    ensures After(v, more) == Apply(Apply(v, more[0]), more[1])
  {
    hide Apply, Enabled;
    var u := Apply(v, more[0]);
    assert more[1..] == [more[1]] && [more[1]][1..] == [];
    assert Legal(u, [more[1]]) && After(v, more) == After(u, [more[1]]);
    assert After(u, [more[1]]) == After(Apply(u, more[1]), []);
  }

  // Within one run it stays known whether the file could be read.
  lemma RunReads(d: Disk, events: seq<Event>, plan: seq<Combo>, credentials: set<string>, read: bool)
    requires Legal(Boot(d), events) && OneRun(events, plan, credentials, read, false)
    ensures After(Boot(d), events).run.Active? ==> After(Boot(d), events).run.read == read
  {
    var w := Apply(Boot(d), events[0]);
    forall e | e in events[1..] ensures !e.Start? {
      var i :| 0 <= i < |events[1..]| && events[1..][i] == e;
      assert events[i + 1] == e;
    }
    ReadStays(w, events[1..], read);
  }

  lemma {:induction false} ReadStays(w: World, es: seq<Event>, read: bool)
    requires Legal(w, es) && (w.run.Active? ==> w.run.read == read) && forall e :: e in es ==> !e.Start?
    ensures After(w, es).run.Active? ==> After(w, es).run.read == read
    decreases |es|
  {
    if es != [] {
      assert es[0] in es;
      assert forall e :: e in es[1..] ==> e in es;
      ReadStays(Apply(w, es[0]), es[1..], read);
    }
  }

  // What the records and lines still to come add up to.
  ghost predicate OnTrack(
    raw: seq<Line>, pending: seq<Combo>, now: Disk, credentials: set<string>, items: seq<Combo>, d: Disk)
  {
    && raw + NewRecords(pending, credentials, |raw| + 1) == NewRecords(items, credentials, 1)
    && AppendAll(WithoutState(now), NewRecords(pending, credentials, |raw| + 1))
         == AppendAll(WithoutState(d), NewRecords(items, credentials, 1))
  }

  lemma TrackedTurn(
    raw: seq<Line>, pending: seq<Combo>, now: Disk, record: Line, next: Disk, credentials: set<string>,
    items: seq<Combo>, d: Disk)
    requires OnTrack(raw, pending, now, credentials, items, d) && pending != []
    requires record == RecordFor(pending[0], credentials, raw)
    requires WithoutState(next) == WithoutState(AppendLine(now, record))
    ensures OnTrack(raw + [record], pending[1..], next, credentials, items, d)
  {
    var more := NewRecords(pending, credentials, |raw| + 1);
    assert more == [record] + NewRecords(pending[1..], credentials, |raw| + 2);
    assert raw + more == (raw + [record]) + NewRecords(pending[1..], credentials, |raw| + 2);
    assert more[1..] == NewRecords(pending[1..], credentials, |raw| + 2);
    assert WithoutState(AppendLine(now, record)) == AppendLine(WithoutState(now), record);
  }

  // The items among these that are completed once they have been executed.
  function Charged(items: seq<Combo>, credentials: set<string>): set<Combo>
  {
    set c | c in items && c.contestant in credentials
  }

  // Every item that was executed is completed or has no credential.
  ghost predicate Handled(items: seq<Combo>, k: nat, completed: set<Combo>, credentials: set<string>)
    requires k <= |items|
  {
    forall i :: 0 <= i < k ==> items[i] in completed || items[i].contestant !in credentials
  }

  // Both sources of a resume.
  method Resume(dir: RunDirectory, readable: bool) returns (raised: bool, completed: set<Combo>)
    ensures raised <==> readable && ResumeRaises(dir.results)
    ensures !raised ==> completed == Known(dir.Contents(), readable)
  {
    var fromState := dir.LoadState();
    var fromResults;
    raised, fromResults := dir.LoadCompletedFromResults(readable);
    completed := fromState + fromResults;
  }

  // The sequential loop over the pending items, until they are done or the process dies.
  method ProcessAll(run: Benchmark, fate: Fate, ghost d: Disk) returns (alive: bool, fuse: nat)
    requires run.At(Loop) && run.raw == [] && run.calls == [] && run.start == Boot(d) && d == run.dir.Contents()
    requires OneRun(run.events, run.plan, run.credentials, run.read, fate.whole) && NoRewrite(run.events)
    modifies run`events, run`pending, run`calls, run`raw, run`completed, run.dir
    ensures OneRun(run.events, run.plan, run.credentials, run.read, fate.whole) && NoRewrite(run.events)
    ensures var items := old(run.pending);
      && (alive <==> fate.fuse >= 3 * |items|)
      && run.calls == Bought(items[..Reached(fate.fuse, |items|)], run.credentials)
      && if alive then
           && run.At(Loop) && run.pending == [] && fuse == fate.fuse - 3 * |items|
           && run.raw == NewRecords(items, run.credentials, 1)
           && run.dir.results == AppendAll(WithoutState(d), NewRecords(items, run.credentials, 1)).results
           && run.completed == old(run.completed) + Charged(items, run.credentials)
           && Handled(items, |items|, run.completed, run.credentials)
         else run.Over() && run.events[|run.events| - 1] != WriteFinal
  {
    hide Legal, After, Apply, Enabled, AppendLine, OnTrack, AppendAll, NewRecords, Bought, OneRun, Handled, Charged;
    ghost var items := run.pending;
    ghost var k := 0;
    alive, fuse := true, fate.fuse;
    assert OnTrack(run.raw, run.pending, run.dir.Contents(), run.credentials, items, d) by {
      TrackBegins(items, run.credentials, d);
    }
    assert Bought(items[..0], run.credentials) == [] by { NothingBought(items, run.credentials); }
    assert Handled(items, 0, run.completed, run.credentials) by {
      NothingHandled(items, run.completed, run.credentials);
    }
    assert Charged(items[..0], run.credentials) == {} by { NothingCharged(items, run.credentials); }
    while run.pending != []
      invariant 0 <= k <= |items| && run.pending == items[k..] && alive && fuse == fate.fuse - 3 * k
      invariant run.At(Loop) && NoRewrite(run.events)
      invariant OneRun(run.events, run.plan, run.credentials, run.read, fate.whole)
      invariant OnTrack(run.raw, run.pending, run.dir.Contents(), run.credentials, items, d)
      invariant run.calls == Bought(items[..k], run.credentials)
      invariant run.completed == old(run.completed) + Charged(items[..k], run.credentials)
      invariant Handled(items, k, run.completed, run.credentials)
      decreases |run.pending|
    {
      ghost var raw, now, was, completed := run.raw, run.dir.Contents(), run.events, run.completed;
      BoughtOneMore(items, run.credentials, k);
      alive := run.ProcessItem(Fate(fuse, fate.tears, fate.whole));
      TurnIsOneRun(was, Fate(fuse, fate.tears, fate.whole), run.plan, run.credentials, run.read);
      if !alive {
        assert Reached(fate.fuse, |items|) == if fuse >= 1 then k + 1 else k;
        assert run.events[|run.events| - 1] != WriteFinal by { TurnNeverFinishes(Fate(fuse, fate.tears, fate.whole)); }
        return false, 0;
      }
      TrackedTurn(raw, items[k..], now, run.raw[|raw|], run.dir.Contents(), run.credentials, items, d);
      HandledOneMore(items, k, completed, run.completed, run.credentials);
      ChargedOneMore(items, k, run.credentials);
      fuse := fuse - 3;
      k := k + 1;
    }
    assert items[..k] == items;
    TrackEnds(run.raw, run.dir.Contents(), run.credentials, items, d);
  }

  lemma TrackBegins(items: seq<Combo>, credentials: set<string>, d: Disk)
    ensures OnTrack([], items, d, credentials, items, d)
  {
  }

  lemma TrackEnds(raw: seq<Line>, now: Disk, credentials: set<string>, items: seq<Combo>, d: Disk)
    requires OnTrack(raw, [], now, credentials, items, d)
    ensures raw == NewRecords(items, credentials, 1)
    ensures now.results == AppendAll(WithoutState(d), NewRecords(items, credentials, 1)).results
  {
  }

  lemma NothingBought(items: seq<Combo>, credentials: set<string>)
    ensures Bought(items[..0], credentials) == []
  {
  }

  lemma NothingHandled(items: seq<Combo>, completed: set<Combo>, credentials: set<string>)
    ensures Handled(items, 0, completed, credentials)
  {
  }

  lemma NothingCharged(items: seq<Combo>, credentials: set<string>)
    ensures Charged(items[..0], credentials) == {}
  {
  }

  lemma ChargedOneMore(items: seq<Combo>, k: nat, credentials: set<string>)
    requires k < |items|
    ensures Charged(items[..k + 1], credentials) ==
      Charged(items[..k], credentials) + (if items[k].contestant !in credentials then {} else {items[k]})
  {
    assert items[..k + 1] == items[..k] + [items[k]];
  }

  lemma HandledOneMore(items: seq<Combo>, k: nat, before: set<Combo>, now: set<Combo>, credentials: set<string>)
    requires k < |items| && Handled(items, k, before, credentials)
    requires now == before + (if items[k].contestant !in credentials then {} else {items[k]})
    ensures Handled(items, k + 1, now, credentials)
  {
  }

  lemma TurnIsOneRun(events: seq<Event>, fate: Fate, plan: seq<Combo>, credentials: set<string>, read: bool)
    requires OneRun(events, plan, credentials, read, fate.whole) && NoRewrite(events)
    ensures OneRun(events + Turn(fate), plan, credentials, read, fate.whole) && NoRewrite(events + Turn(fate))
  {
    OneRunGrows(events, Turn(fate), plan, credentials, read, fate.whole);
  }

  lemma TurnNeverFinishes(fate: Fate)
    ensures Turn(fate) != [] && Turn(fate)[|Turn(fate)| - 1] != WriteFinal
  {
  }

  // The loop and, if the process lives to it, the finish; loop and more are their events.
  method ProcessAndFinish(run: Benchmark, fate: Fate, ghost d: Disk)
    returns (finished: bool, ghost loop: seq<Event>, ghost more: seq<Event>)
    requires run.At(Loop) && run.raw == [] && run.calls == [] && run.start == Boot(d) && d == run.dir.Contents()
    requires OneRun(run.events, run.plan, run.credentials, run.read, fate.whole) && NoRewrite(run.events)
    modifies run`events, run`pending, run`calls, run`raw, run`completed, run.dir
    ensures run.Over() && run.events == loop + more && OneRun(loop, run.plan, run.credentials, run.read, fate.whole)
    ensures NoRewrite(loop) && (more == [] || Ending(more, finished))
    ensures OneRun(run.events, run.plan, run.credentials, run.read, fate.whole)
    ensures finished <==> run.events[|run.events| - 1] == WriteFinal
    ensures var items := old(run.pending);
      var raw := NewRecords(items, run.credentials, 1);
      var left := AppendAll(WithoutState(d), raw).results;
      && run.calls == Bought(items[..Reached(fate.fuse, |items|)], run.credentials)
      && (finished <==> fate.fuse >= 3 * |items| + 2 && !RewriteRaises(left, raw))
      && (finished ==>
            && run.completed == old(run.completed) + Charged(items, run.credentials)
            && Handled(items, |items|, run.completed, run.credentials)
            && run.completed <= Recovered(run.dir.Contents())
            && run.dir.results == (if Merged(left, raw) == [] then left else Merged(left, raw))
            && run.dir.state == Some(run.completed + Executed(Merged(left, raw)))
            && forall c :: c in run.plan && c !in Recovered(run.dir.Contents()) ==> HasSkip(run.dir.results, c))
  {
    hide Apply, Enabled, AppendLine, RewriteRaises, HasSkip, Legal, After;
    hide AppendAll, NewRecords, Bought, Handled, OneRun, NoRewrite, Merged, Executed, Charged, Recovered;
    var alive, fuse := ProcessAll(run, fate, d);
    finished := false;
    loop, more := run.events, [];
    if alive {
      finished := run.Finish(fuse);
      more :| run.events == loop + more && Ending(more, finished);
      OneRunGrows(loop, more, run.plan, run.credentials, run.read, fate.whole);
      assert run.events[|run.events| - 1] == more[|more| - 1];
    }
    assert run.events == loop + more;
  }

  // One run, alive until its fate strikes. Whatever happens is a legal history of one run of this plan with
  // these credentials. Which items are bought, and whether the run finishes, is settled beforehand by
  // the files, whether they can be read, the plan, the credentials and the length of its life.
  method RunBenchmark(dir: RunDirectory, plan: seq<Combo>, credentials: set<string>, readable: bool, fate: Fate)
    returns (finished: bool, calls: seq<Combo>, ghost events: seq<Event>)
    requires Distinct(plan)
    modifies dir
    ensures var w := Boot(old(dir.Contents()));
      Legal(w, events) && After(w, events).run == Idle && After(w, events).disk == dir.Contents()
        && After(w, events).paid == calls
    ensures if readable && old(ResumeRaises(dir.results)) then events == []
      else OneRun(events, plan, credentials, readable, fate.whole)
    ensures finished <==> events != [] && events[|events| - 1] == WriteFinal
    ensures !(readable && old(ResumeRaises(dir.results))) ==>
      var items := Items(old(dir.Contents()), plan, readable);
      && calls == Bought(items[..Reached(fate.fuse, |items|)], credentials)
      && (finished <==>
            && fate.fuse >= 3 * |items| + 2
            && !RewriteRaises(
              Leftover(old(dir.Contents()), plan, credentials, readable), NewRecords(items, credentials, 1)))
    ensures finished ==>
      var w := old(dir.Contents());
      var items, left := Items(w, plan, readable), Leftover(w, plan, credentials, readable);
      var m := Merged(left, NewRecords(items, credentials, 1));
      && dir.results == (if m == [] then left else m)
      && dir.state == Some(Known(w, readable) + (set c | c in items && c.contestant in credentials) + Executed(m))
    ensures finished && old(dir.state).None? && old(dir.results) == [] && old(dir.end) == Newline ==>
      dir.results == NewRecords(plan, credentials, 1)
    ensures finished ==>
      forall c :: c in plan && c !in Recovered(dir.Contents()) ==>
        c.contestant !in credentials && HasSkip(dir.results, c)
    ensures Consistent(old(dir.Contents()), credentials) && !fate.whole ==>
      && (Recovered(old(dir.Contents())) <= Recovered(dir.Contents()) <==>
            !HidesInRun(old(dir.Contents()), events, readable))
      && Consistent(dir.Contents(), credentials)
  {
    hide Apply, Enabled, AppendLine, RewriteRaises, ResumeRaises, HasSkip, HidesInRun;
    hide Consistent, AppendAll, NewRecords, Bought, Handled, OneRun, NoRewrite, Merged, Executed;
    hide OnePerCombo, Inv, Recovered;
    ghost var d := dir.Contents();
    var raised, completed := Resume(dir, readable);
    if raised {
      assert !HidesInRun(d, [], readable) by { NothingHiddenYet(d, readable); }
      return false, [], [];
    }
    var run := new Benchmark(dir, plan, credentials, completed, readable);
    ghost var items := run.pending;
    OnlyStarted(plan, credentials, readable, fate.whole);
    ghost var loop, more;
    finished, loop, more := ProcessAndFinish(run, fate, d);
    assert run.events != [] by { HasStart(run.events, plan, credentials, readable, fate.whole); }
    if finished {
      PendingMembers(plan, completed);
      NothingUnhandled(plan, items, completed, run.completed, credentials);
      if d == EMPTY_DIRECTORY { FreshRun(plan, credentials, readable); }
    }
    if !fate.whole && Consistent(d, credentials) {
      OneRunLosesExactly(d, loop, more, finished, plan, credentials, readable);
    }
    return finished, run.calls, run.events;
  }

  // The records of a run, one by one.
  lemma {:induction false} NewRecordAt(items: seq<Combo>, credentials: set<string>, n: nat, i: nat)
    requires i < |items|
    ensures |NewRecords(items, credentials, n)| == |items|
    ensures var c := items[i];
      NewRecords(items, credentials, n)[i] ==
        Object(Some(c.contestant), Some(c.caseId), Index(c.repeatIndex), c.contestant !in credentials,
          Number((n + i) as real), true, false)
  {
    if |items| == 1 {
      assert NewRecords(items[1..], credentials, n + 1) == [];
    } else {
      NewRecordAt(items[1..], credentials, n + 1, if i == 0 then 0 else i - 1);
    }
  }

  lemma NewRecordsAt(items: seq<Combo>, credentials: set<string>)
    ensures |NewRecords(items, credentials, 1)| == |items|
    ensures forall i :: 0 <= i < |items| ==>
      && NewRecords(items, credentials, 1)[i].Merges() && NewRecords(items, credentials, 1)[i].Key() == items[i]
      && NewRecords(items, credentials, 1)[i].order == Number((1 + i) as real)
  {
    forall i | 0 <= i < |items| { NewRecordAt(items, credentials, 1, i); }
    if items == [] { assert NewRecords(items, credentials, 1) == []; } else { NewRecordAt(items, credentials, 1, 0); }
  }

  lemma {:induction false} NothingNew(lines: seq<Line>, seen: set<Combo>)
    requires forall l :: l in lines && l.Merges() ==> l.Key() in seen
    ensures FirstPerCombo(lines, seen) == []
  {
    if lines != [] {
      assert lines[0] in lines;
      NothingNew(lines[1..], seen);
    }
  }

  lemma {:induction false} FirstsComeFirst(a: seq<Line>, b: seq<Line>, seen: set<Combo>)
    requires OnePerCombo(a) && (forall l :: l in a ==> l.Key() !in seen)
    requires forall l :: l in b && l.Merges() ==> l.Key() in seen || exists f :: f in a && f.Key() == l.Key()
    ensures FirstPerCombo(a + b, seen) == a
  {
    if a == [] {
      assert a + b == b;
      NothingNew(b, seen);
    } else {
      var rest := a[1..];
      assert (a + b)[1..] == rest + b && a == [a[0]] + rest;
      assert forall i :: 0 <= i < |rest| ==> rest[i] == a[i + 1];
      FirstsComeFirst(rest, b, seen + {a[0].Key()});
    }
  }

  // A run from an empty directory leaves its records in the order in which it executed its items.
  lemma FreshRun(plan: seq<Combo>, credentials: set<string>, read: bool)
    requires Distinct(plan)
    ensures Items(EMPTY_DIRECTORY, plan, read) == plan
    ensures var raw := NewRecords(plan, credentials, 1);
      Leftover(EMPTY_DIRECTORY, plan, credentials, read) == raw && Merged(raw, raw) == raw
  {
    hide NewRecords, FirstPerCombo, AppendAll, Merged;
    var raw := NewRecords(plan, credentials, 1);
    NewRecordsAt(plan, credentials);
    assert Known(EMPTY_DIRECTORY, read) == {};
    NothingPending(plan);
    AppendedToEmpty(EMPTY_DIRECTORY, raw);
    forall i, j | 0 <= i < j < |raw| ensures raw[i].Key() != raw[j].Key() {
      assert raw[i].Key() == plan[i] && raw[j].Key() == plan[j];
    }
    MergedAsTheyStand(raw);
  }

  // Records of distinct combos with ascending numbers are merged as they stand.
  lemma MergedAsTheyStand(raw: seq<Line>)
    requires forall i :: 0 <= i < |raw| ==> raw[i].Merges() && raw[i].order == Number((1 + i) as real)
    requires forall i, j :: 0 <= i < j < |raw| ==>
      raw[i].Merges() && raw[j].Merges() && raw[i].Key() != raw[j].Key()
    ensures Merged(raw, raw) == raw
  {
    hide FirstPerCombo, SortBy;
    assert OnePerCombo(raw);
    FirstsComeFirst(raw, raw, {});
    forall i, j | 0 <= i < j < |raw| ensures !ByOrder(raw[j], raw[i]) {
      assert raw[j].order == Number((1 + j) as real);
    }
    SortByKeeps(ByOrder, raw);
  }

  lemma {:induction false} NothingPending(plan: seq<Combo>)
    ensures Pending(plan, {}) == plan
  {
    if plan != [] { NothingPending(plan[1..]); }
  }

  lemma {:induction false} AppendedToEmpty(d: Disk, lines: seq<Line>)
    requires d.end == Newline
    ensures AppendAll(d, lines).results == d.results + lines
    decreases |lines|
  {
    if lines != [] {
      AppendedToEmpty(AppendLine(d, lines[0]), lines[1..]);
      assert d.results + lines == d.results + [lines[0]] + lines[1..];
    }
  }

  lemma HasStart(events: seq<Event>, plan: seq<Combo>, credentials: set<string>, read: bool, whole: bool)
    requires OneRun(events, plan, credentials, read, whole)
    ensures events != []
  {
  }

  lemma NothingHiddenYet(d: Disk, read: bool)
    ensures !HidesInRun(d, [], read)
  {
  }

  lemma OnlyStarted(plan: seq<Combo>, credentials: set<string>, read: bool, whole: bool)
    ensures OneRun([Start(plan, credentials, read)], plan, credentials, read, whole)
    ensures NoRewrite([Start(plan, credentials, read)])
  {
  }

  lemma NothingUnhandled(
    plan: seq<Combo>, items: seq<Combo>, before: set<Combo>, now: set<Combo>, credentials: set<string>)
    requires Handled(items, |items|, now, credentials) && before <= now
    requires forall c :: c in items <==> c in plan && c !in before
    ensures forall c :: c in plan && c !in now ==> c.contestant !in credentials
  {
  }
}
