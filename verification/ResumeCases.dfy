// When the protocol loses nothing, a history in which it does, and lines no run can get past.
module ResumeCases {
  import opened Options
  import opened Ordering
  import opened ResumeModel
  import opened ResumeSafety
  import opened ResumeHistories

  // ---------------------------------------------------------------- credentials that do not change

  // Skipped records belong to contestants without a credential, executed ones to contestants with one.
  ghost predicate Matches(l: Line, credentials: set<string>)
  {
    l.IsRecord() ==> (l.skipped <==> l.Key().contestant !in credentials)
  }

  ghost predicate Consistent(d: Disk, credentials: set<string>)
  {
    && (forall l :: l in d.results ==> Matches(l, credentials))
    && (d.end.Torn? && d.results != [] ==> d.results[|d.results| - 1].Garbage?)
  }

  // The same credentials at every start, and no line that loses only its newline.
  predicate Steady(e: Event, credentials: set<string>)
  {
    (e.Start? ==> e.credentials == credentials) && (e.TearAppend? ==> !e.whole)
  }

  ghost predicate SteadyWorld(w: World, credentials: set<string>)
  {
    && Consistent(w.disk, credentials)
    && (w.run.Active? ==>
          && w.run.credentials == credentials
          && (forall l :: l in w.run.raw ==> Matches(l, credentials))
          && (w.run.phase.Holding? || w.run.phase.Appended? ==> Matches(w.run.phase.record, credentials)))
  }

  // When every line matches the credentials, no combo has both a skipped and an executed record: all that a
  // rewrite can lose is what padding hides from it.
  lemma MatchingLinesKeep(d: Disk, raw: seq<Line>, credentials: set<string>)
    requires forall l :: l in d.results || l in raw ==> Matches(l, credentials)
    ensures forall l :: l in Merged(d.results, raw) ==> Matches(l, credentials)
    ensures forall known :: LosesOnRewrite(d, raw, known) <==> HidesOnRewrite(d, raw, known)
  {
    hide HidesOnRewrite;
    var lines := d.results + raw;
    MergeKeepsFirsts(d.results, raw);
    forall l | l in lines ensures Matches(l, credentials) {
      assert l in d.results || l in raw;
    }
    forall l | IsFirst(lines, l) && l.skipped ensures l.Key() !in Executed(d.results) {
      assert l in lines;
      forall x | x in d.results && IsExecuted(x) ensures x.Key() != l.Key() {
        assert Matches(x, credentials) && Matches(l, credentials);
      }
    }
  }

  ghost predicate Hides(w: World, e: Event)
    requires Enabled(w, e)
  {
    e.Rewrite? && HidesOnRewrite(w.disk, w.run.raw, StateSet(w.disk))
  }

  lemma SteadyStep(w: World, e: Event, credentials: set<string>)
    requires Inv(w) && SteadyWorld(w, credentials) && Enabled(w, e) && Steady(e, credentials)
    ensures SteadyWorld(Apply(w, e), credentials) && (Loses(w, e) <==> Hides(w, e))
  {
    hide Merged, LosesOnRewrite, HidesOnRewrite, Executed, FirstPerCombo, Inv;
    if e.Rewrite? {
      MatchingLinesKeep(w.disk, w.run.raw, credentials);
    }
  }

  // No rewrite of the history meets an executed line that padding hides from it.
  ghost predicate NoneHidden(w: World, es: seq<Event>)
    requires Legal(w, es)
    decreases |es|
  {
    es != [] ==> !Hides(w, es[0]) && NoneHidden(Apply(w, es[0]), es[1..])
  }

  // As long as the operator runs with the same credentials, a history is lossless exactly when no rewrite
  // meets such a line.
  lemma {:induction false} SteadyCredentialsLoseOnlyHidden(w: World, es: seq<Event>, credentials: set<string>)
    requires Inv(w) && SteadyWorld(w, credentials) && Legal(w, es)
    requires forall e :: e in es ==> Steady(e, credentials)
    ensures Lossless(w, es) <==> NoneHidden(w, es)
    decreases |es|
  {
    hide Inv, SteadyWorld, Loses, Hides, Steady;
    if es != [] {
      assert es[0] in es;
      assert forall e :: e in es[1..] ==> e in es;
      SteadyStep(w, es[0], credentials);
      InvStep(w, es[0]);
      SteadyCredentialsLoseOnlyHidden(Apply(w, es[0]), es[1..], credentials);
    }
  }

  // No line is padded, and none will be.
  ghost predicate Unpadded(d: Disk)
  {
    !d.end.Blanks? && forall l :: l in d.results && l.Object? ==> !l.padded
  }

  lemma UnpaddedStep(w: World, e: Event)
    requires Inv(w) && Unpadded(w.disk) && Enabled(w, e)
    ensures Unpadded(Apply(w, e).disk) && !Hides(w, e)
  {
    hide Merged, Covered;
    if e.Rewrite? {
      MergeKeepsFirsts(w.disk.results, w.run.raw);
      forall l | l in w.disk.results && IsExecuted(l)
        ensures !Unmerged(w.disk.results + w.run.raw, l.Key())
      {
        assert l in w.disk.results + w.run.raw && l.Merges();
      }
    }
  }

  // So from files without padding, such as this program writes, every history with the same credentials at
  // every start is lossless.
  lemma {:induction false} UnpaddedFilesHideNothing(w: World, es: seq<Event>)
    requires Inv(w) && Unpadded(w.disk) && Legal(w, es)
    ensures NoneHidden(w, es)
    decreases |es|
  {
    hide Inv, Unpadded, Hides;
    if es != [] {
      UnpaddedStep(w, es[0]);
      InvStep(w, es[0]);
      UnpaddedFilesHideNothing(Apply(w, es[0]), es[1..]);
    }
  }

  lemma SteadyCredentialsLoseNothing(w: World, es: seq<Event>, credentials: set<string>)
    requires Inv(w) && SteadyWorld(w, credentials) && Legal(w, es)
    requires Unpadded(w.disk) && forall e :: e in es ==> Steady(e, credentials)
    ensures Lossless(w, es)
  {
    SteadyCredentialsLoseOnlyHidden(w, es, credentials);
    UnpaddedFilesHideNothing(w, es);
  }

  lemma {:induction false} SteadyAlways(w: World, es: seq<Event>, credentials: set<string>)
    requires Inv(w) && SteadyWorld(w, credentials) && Legal(w, es)
    requires forall e :: e in es ==> Steady(e, credentials)
    ensures SteadyWorld(After(w, es), credentials)
    decreases |es|
  {
    if es != [] {
      assert es[0] in es;
      SteadyStep(w, es[0], credentials);
      InvStep(w, es[0]);
      SteadyAlways(Apply(w, es[0]), es[1..], credentials);
    }
  }

  // ---------------------------------------------------------------- a credential supplied later

  lemma {:induction false} Snoc(w: World, es: seq<Event>, e: Event)
    requires Legal(w, es) && Enabled(After(w, es), e)
    ensures Legal(w, es + [e]) && After(w, es + [e]) == Apply(After(w, es), e)
    decreases |es|
  {
    if es == [] {
      assert es + [e] == [e];
      assert [e][1..] == [];
    } else {
      Snoc(Apply(w, es[0]), es[1..], e);
      assert (es + [e])[1..] == es[1..] + [e];
    }
  }

  const ITEM := Combo("contestant", "case", 0)
  const NOBODY: set<string> := {}
  const EVERYBODY := {"contestant"}
  const SKIP_LINE := NewRecord(ITEM, true, 1)
  const EXECUTED_LINE := NewRecord(ITEM, false, 1)

  lemma OneItemPlan(completed: set<Combo>)
    ensures Distinct([ITEM]) && (set c | c in [ITEM]) == {ITEM}
    ensures Pending([ITEM], completed) == if ITEM in completed then [] else [ITEM]
  {
    assert [ITEM][1..] == [];
    assert Pending([], completed) == [];
  }

  // Starting a run for the one item.
  lemma StartItem(w: World, credentials: set<string>)
    requires w.run == Idle && !ResumeRaises(w.disk.results)
    ensures Enabled(w, Start([ITEM], credentials, true))
    ensures var r := Recovered(w.disk);
      Apply(w, Start([ITEM], credentials, true)) ==
        World(w.disk, Active(Loop, r, if ITEM in r then [] else [ITEM], [], credentials, [ITEM], true),
          w.paid, w.crashes, w.planned + {ITEM})
  {
    OneItemPlan(Recovered(w.disk));
  }

  function SkippingWorld(phase: Phase, disk: Disk, pending: seq<Combo>, raw: seq<Line>): World
  {
    World(disk, Active(phase, {}, pending, raw, NOBODY, [ITEM], true), [], 0, {ITEM})
  }

  const SKIPPED_DISK := Disk(None, [SKIP_LINE], Newline)

  lemma SkippingSteps()
    ensures Boot(EMPTY_DIRECTORY).run.Idle?
    ensures var w1 := SkippingWorld(Loop, EMPTY_DIRECTORY, [ITEM], []);
      && Enabled(Boot(EMPTY_DIRECTORY), Start([ITEM], NOBODY, true))
        && Apply(Boot(EMPTY_DIRECTORY), Start([ITEM], NOBODY, true)) == w1
      && Enabled(w1, Execute) && Apply(w1, Execute) == SkippingWorld(Holding(SKIP_LINE), EMPTY_DIRECTORY, [], [])
    ensures var w2 := SkippingWorld(Holding(SKIP_LINE), EMPTY_DIRECTORY, [], []);
      && Enabled(w2, Append) && Apply(w2, Append) == SkippingWorld(Appended(SKIP_LINE), SKIPPED_DISK, [], [])
    ensures var w3 := SkippingWorld(Appended(SKIP_LINE), SKIPPED_DISK, [], []);
      && Enabled(w3, Refresh) && Apply(w3, Refresh) == SkippingWorld(Loop, SKIPPED_DISK, [], [SKIP_LINE])
  {
    var w := Boot(EMPTY_DIRECTORY);
    assert Executed([]) == {} && Recovered(w.disk) == {};
    StartItem(w, NOBODY);
    assert w.planned + {ITEM} == {ITEM};
    assert [ITEM][1..] == [];
    assert [] + [SKIP_LINE] == [SKIP_LINE];
  }

  lemma SkippingFinish()
    ensures var w4 := SkippingWorld(Loop, SKIPPED_DISK, [], [SKIP_LINE]);
      var w5 := SkippingWorld(Rewritten([SKIP_LINE]), SKIPPED_DISK, [], [SKIP_LINE]);
      && Enabled(w4, Rewrite) && Apply(w4, Rewrite) == w5
      && Enabled(w5, WriteFinal)
      && Apply(w5, WriteFinal) == World(Disk(Some({}), [SKIP_LINE], Newline), Idle, [], 0, {ITEM})
  {
    TwoLines(SKIP_LINE, SKIP_LINE);
    assert Merged([SKIP_LINE], [SKIP_LINE]) == [SKIP_LINE];
    assert Executed([SKIP_LINE]) == {};
    var none: set<Combo> := {};
    assert none + Executed([SKIP_LINE]) == {};
  }

  // A run without the credential leaves a skipped line.
  lemma SkippingRun() returns (es: seq<Event>)
    ensures var w := Boot(EMPTY_DIRECTORY);
      Legal(w, es) && After(w, es) == World(Disk(Some({}), [SKIP_LINE], Newline), Idle, [], 0, {ITEM})
  {
    hide Apply, Enabled, SkippingWorld;
    var w := Boot(EMPTY_DIRECTORY);
    SkippingSteps();
    SkippingFinish();
    es := [];
    Snoc(w, es, Start([ITEM], NOBODY, true));
    es := es + [Start([ITEM], NOBODY, true)];
    Snoc(w, es, Execute);
    es := es + [Execute];
    Snoc(w, es, Append);
    es := es + [Append];
    Snoc(w, es, Refresh);
    es := es + [Refresh];
    Snoc(w, es, Rewrite);
    es := es + [Rewrite];
    Snoc(w, es, WriteFinal);
    es := es + [WriteFinal];
  }

  lemma TwoLines(a: Line, b: Line)
    requires a.Merges() && b.Merges() && a.Key() == b.Key()
    ensures FirstPerCombo([a] + [b], {}) == [a] && SortBy(ByOrder, [a]) == [a]
  {
    var ab := [a] + [b];
    assert ab[1..] == [b] && [b][1..] == [] && [a][1..] == [];
    assert FirstPerCombo([b], {} + {a.Key()}) == [];
    assert SortBy(ByOrder, []) == [] && InsertBy(ByOrder, a, []) == [a];
  }

  // The credential arrives: the item is bought and its line appended, then the process dies.
  lemma BuyingRunDies(w: World) returns (es: seq<Event>)
    requires w.run == Idle && w.disk == Disk(Some({}), [SKIP_LINE], Newline)
    ensures Legal(w, es)
    ensures After(w, es) ==
      World(Disk(Some({}), [SKIP_LINE, EXECUTED_LINE], Newline), Idle, w.paid + [ITEM], w.crashes + 1,
        w.planned + {ITEM})
  {
    es := [];
    assert Executed([SKIP_LINE]) == {};
    assert Recovered(w.disk) == {};
    StartItem(w, EVERYBODY);
    Snoc(w, es, Start([ITEM], EVERYBODY, true));
    es := es + [Start([ITEM], EVERYBODY, true)];
    assert After(w, es)
      == World(w.disk, Active(Loop, {}, [ITEM], [], EVERYBODY, [ITEM], true), w.paid, w.crashes, w.planned + {ITEM});
    Snoc(w, es, Execute);
    es := es + [Execute];
    Snoc(w, es, Append);
    es := es + [Append];
    assert [SKIP_LINE] + [EXECUTED_LINE] == [SKIP_LINE, EXECUTED_LINE];
    Snoc(w, es, Crash);
    es := es + [Crash];
  }

  // The next run has nothing pending; its rewrite keeps the skipped line, then the process dies.
  lemma RewritingRunDies(w: World) returns (es: seq<Event>)
    requires w.run == Idle && w.disk == Disk(Some({}), [SKIP_LINE, EXECUTED_LINE], Newline)
    ensures Legal(w, es)
    ensures After(w, es) == World(Disk(Some({}), [SKIP_LINE], Newline), Idle, w.paid, w.crashes + 1, w.planned + {ITEM})
  {
    es := [];
    var lines := [SKIP_LINE, EXECUTED_LINE];
    assert EXECUTED_LINE in lines;
    assert Recovered(w.disk) == {ITEM};
    assert lines + [] == [SKIP_LINE] + [EXECUTED_LINE];
    TwoLines(SKIP_LINE, EXECUTED_LINE);
    assert Merged(lines, []) == [SKIP_LINE];
    StartItem(w, EVERYBODY);
    Snoc(w, es, Start([ITEM], EVERYBODY, true));
    es := es + [Start([ITEM], EVERYBODY, true)];
    assert After(w, es)
      == World(w.disk, Active(Loop, {ITEM}, [], [], EVERYBODY, [ITEM], true), w.paid, w.crashes, w.planned + {ITEM});
    Snoc(w, es, Rewrite);
    es := es + [Rewrite];
    Snoc(w, es, Crash);
    es := es + [Crash];
  }

  lemma {:induction false} LegalAppend(w: World, a: seq<Event>, b: seq<Event>)
    requires Legal(w, a) && Legal(After(w, a), b)
    ensures Legal(w, a + b) && After(w, a + b) == After(After(w, a), b)
    decreases |a|
  {
    if a == [] {
      assert a + b == b;
    } else {
      LegalAppend(Apply(w, a[0]), a[1..], b);
      assert (a + b)[1..] == a[1..] + b;
    }
  }

  // The documented promise fails: from an empty directory, an item that was bought and is durable
  // is lost by a later rewrite and bought a second time. The bound on paid calls still holds.
  lemma CredentialSuppliedLater()
    ensures exists es, es' ::
      && Legal(Boot(EMPTY_DIRECTORY), es) && Legal(Boot(EMPTY_DIRECTORY), es + es')
      && ITEM in Recovered(After(Boot(EMPTY_DIRECTORY), es).disk)
      && ITEM !in Recovered(After(Boot(EMPTY_DIRECTORY), es + es').disk)
      && After(Boot(EMPTY_DIRECTORY), es + es').paid == [ITEM, ITEM]
  {
    hide Legal, After, Apply, Enabled;
    var w0 := Boot(EMPTY_DIRECTORY);
    var a := SkippingRun();
    var b := BuyingRunDies(After(w0, a));
    LegalAppend(w0, a, b);
    var w1 := After(w0, a + b);
    assert EXECUTED_LINE in w1.disk.results;
    var c := RewritingRunDies(w1);
    var w2 := After(w1, c);
    var d := BuyingRunDies(w2);
    LegalAppend(w1, c, d);
    var e := RewritingRunDies(After(w1, c + d));
    LegalAppend(w1, c + d, e);
    LegalAppend(w0, a + b, c + d + e);
    assert Executed([SKIP_LINE]) == {};
    var w3 := After(w0, (a + b) + (c + d + e));
    assert [] + [ITEM] + [ITEM] == [ITEM, ITEM];
  }

  // ---------------------------------------------------------------- the tolerance gap

  // The i-th line alone makes every finish raise.
  ghost predicate Blocks(lines: seq<Line>, i: nat)
    requires i < |lines|
  {
    var l := lines[i];
    || (l.Undecodable? && !l.padded) || l.NotAnObject?
    || (l.Object? && !l.padded && l.contestant.Some? && l.caseId.Some? && l.repeat.NotAnInteger?)
    || (FirstAt(lines, i) && (l.order.NoOrder? || !l.hashable))
  }

  ghost predicate Clash(lines: seq<Line>, i: nat, j: nat)
    requires i < j < |lines|
  {
    && FirstAt(lines, i) && FirstAt(lines, j)
    && var a, b := lines[i].order, lines[j].order;
       && !(a.Text? && b.Text?) && !((a.Number? || a.Infinite?) && (b.Number? || b.Infinite?))
  }

  // How many lines no later append can damage.
  function Settled(d: Disk): nat { if d.end.Torn? && d.results != [] then |d.results| - 1 else |d.results| }

  // Some line that no later append can damage, or two of them together, make every finish raise.
  ghost predicate Blocked(d: Disk)
  {
    || (exists i :: 0 <= i < Settled(d) && Blocks(d.results, i))
    || (exists i, j :: 0 <= i < j < Settled(d) && Clash(d.results, i, j))
  }

  // What stands before a position decides whether the line there blocks.
  lemma BlocksInPrefix(a: seq<Line>, b: seq<Line>, n: nat)
    requires n <= |a| && n <= |b| && a[..n] == b[..n]
    ensures forall i :: 0 <= i < n ==> (Blocks(a, i) <==> Blocks(b, i))
    ensures forall i, j :: 0 <= i < j < n ==> (Clash(a, i, j) <==> Clash(b, i, j))
  {
    hide ReadOnMerge, Comparable;
    assert forall i :: 0 <= i < n ==> a[i] == a[..n][i] == b[i];
  }

  lemma BlockedStays(d: Disk, d': Disk)
    requires Blocked(d) && Settled(d) <= Settled(d') && d.results[..Settled(d)] == d'.results[..Settled(d)]
    ensures Blocked(d')
  {
    hide Blocks, Clash;
    BlocksInPrefix(d.results, d'.results, Settled(d));
  }

  lemma BlockedMeansRaises(d: Disk, raw: seq<Line>)
    requires Blocked(d)
    ensures RewriteRaises(d.results, raw)
  {
    hide RewriteRaises;
    var lines := d.results + raw;
    BlocksInPrefix(d.results, lines, |d.results|);
    RewriteRaisesExactly(d.results, raw);
    if i :| 0 <= i < Settled(d) && Blocks(d.results, i) {
      assert lines[i] in lines && Blocks(lines, i);
      assert FirstAt(lines, i) ==> IsFirst(lines, lines[i]);
    } else {
      var i, j :| 0 <= i < j < Settled(d) && Clash(d.results, i, j);
      assert Clash(lines, i, j);
      assert IsFirst(lines, lines[i]) && IsFirst(lines, lines[j]);
    }
  }

  // Such a directory can be resumed from, bought for and appended to, but no run ever reaches its rewrite
  // again, let alone its final state write.
  lemma {:induction false} BlockedForever(w: World, es: seq<Event>)
    requires Blocked(w.disk) && Legal(w, es) && (w.run.Active? ==> !w.run.phase.Rewritten?)
    ensures Blocked(After(w, es).disk) && Rewrite !in es && WriteFinal !in es
    decreases |es|
  {
    hide Blocked, RewriteRaises;
    if es != [] {
      var w' := Apply(w, es[0]);
      if w.run.Active? {
        BlockedMeansRaises(w.disk, w.run.raw);
      }
      if es[0].Append? || es[0].TearAppend? {
        BlockedStays(w.disk, w'.disk);
      } else {
        assert w'.disk.results == w.disk.results && w'.disk.end == w.disk.end;
        assert w.disk.results[..Settled(w.disk)] == w'.disk.results[..Settled(w.disk)];
        BlockedStays(w.disk, w'.disk);
      }
      BlockedForever(w', es[1..]);
      assert es == [es[0]] + es[1..];
    }
  }

  // The documented tolerance fails at every line of the gap: a file holding just that line can be resumed
  // from with any plan, and then never finished.
  lemma GapBlocksEveryFinish(l: Line, plan: seq<Combo>, credentials: set<string>, read: bool, es: seq<Event>)
    requires !ResumeRaises([l]) && RewriteRaises([l], []) && Distinct(plan)
    requires Legal(Boot(Disk(None, [l], Newline)), es)
    ensures Enabled(Boot(Disk(None, [l], Newline)), Start(plan, credentials, read))
    ensures Rewrite !in es && WriteFinal !in es
  {
    var d := Disk(None, [l], Newline);
    RewriteRaisesExactly([l], []);
    assert [l] + [] == [l];
    FirstOfOne(l);
    assert FirstAt([l], 0) <==> l.Merges();
    assert Blocks(d.results, 0);
    BlockedForever(Boot(d), es);
  }

  const EXECUTED_ITEM := Object(Some("contestant"), Some("case"), Index(0), false, Number(1.0), true, false)

  // Lines of the gap: a bare number; a repeat index that is a text; on a skipped record an infinite one; a
  // record without execution order; a record whose attempt id is a list.
  const GAP_LINES := [
    NotAnObject,
    EXECUTED_ITEM.(repeat := NotAnInteger(ValueError)),
    EXECUTED_ITEM.(repeat := NotAnInteger(OverflowError), skipped := true),
    EXECUTED_ITEM.(order := NoOrder),
    EXECUTED_ITEM.(hashable := false)]

  lemma LinesOfTheGap()
    ensures forall l :: l in GAP_LINES ==> !ResumeRaises([l]) && RewriteRaises([l], [])
  {
    ToleranceGap(NotAnObject);
    ToleranceGap(EXECUTED_ITEM.(repeat := NotAnInteger(ValueError)));
    ToleranceGap(EXECUTED_ITEM.(repeat := NotAnInteger(OverflowError), skipped := true));
    ToleranceGap(EXECUTED_ITEM.(order := NoOrder));
    ToleranceGap(EXECUTED_ITEM.(hashable := false));
  }

  // A line on which the resume reader itself raises, such as an executed record with an infinite repeat
  // index, keeps every run from starting that can read the file.
  lemma RaisingReaderBlocksEveryStart(d: Disk, es: seq<Event>)
    requires ResumeRaises(d.results) && Legal(Boot(d), es) && es != []
    ensures es[0].Start? && !es[0].read
  {
  }

  lemma InfiniteRepeatIndexRaises()
    ensures ResumeRaises([EXECUTED_ITEM.(repeat := NotAnInteger(OverflowError))])
  {
    var l := EXECUTED_ITEM.(repeat := NotAnInteger(OverflowError));
    assert l in [l];
  }

  // ---------------------------------------------------------------- files only this program wrote

  predicate PlainLine(l: Line) { l == Garbage || (l.Merges() && l.hashable && l.order.Number?) }

  ghost predicate Plain(lines: seq<Line>) { forall l :: l in lines ==> PlainLine(l) }

  ghost predicate PlainWorld(w: World)
  {
    && Plain(w.disk.results) && !w.disk.end.Blanks?
    && (w.run.Active? ==>
          && Plain(w.run.raw)
          && (w.run.phase.Holding? || w.run.phase.Appended? ==> PlainLine(w.run.phase.record))
          && (w.run.phase.Rewritten? ==> Plain(w.run.phase.records)))
  }

  lemma PlainLinesNeverRaise(existing: seq<Line>, raw: seq<Line>)
    requires Plain(existing) && Plain(raw)
    ensures !ResumeRaises(existing) && !RewriteRaises(existing, raw) && Plain(Merged(existing, raw))
  {
    hide Merged, RewriteRaises;
    RewriteRaisesExactly(existing, raw);
    MergeKeepsFirsts(existing, raw);
    var lines := existing + raw;
    assert forall l :: l in lines ==> PlainLine(l);
    assert forall f :: IsFirst(lines, f) ==> f in lines;
  }

  // From a directory that only this program has written, over every history: a run can always be started,
  // and whenever a run has nothing left to execute its rewrite goes through.
  lemma {:induction false} OwnFilesNeverRaise(w: World, es: seq<Event>)
    requires PlainWorld(w) && Legal(w, es)
    ensures var v := After(w, es);
      && PlainWorld(v)
      && (v.run.Idle? ==>
            forall plan, credentials, read :: Distinct(plan) ==> Enabled(v, Start(plan, credentials, read)))
      && (v.run.Active? && v.run.phase.Loop? && v.run.pending == [] ==> Enabled(v, Rewrite))
    decreases |es|
  {
    hide RewriteRaises, ResumeRaises, Merged;
    PlainLinesNeverRaise(w.disk.results, if w.run.Active? then w.run.raw else []);
    if es != [] {
      OwnFilesNeverRaise(Apply(w, es[0]), es[1..]);
    }
  }

  // ---------------------------------------------------------------- padded lines and unreadable files

  const OTHER := Combo("contestant", "case", 1)
  const PADDED_LINE := Padded(EXECUTED_LINE)
  const OTHER_LINE := NewRecord(OTHER, false, 2)
  const PADDED_DISK := Disk(None, [PADDED_LINE, OTHER_LINE], Newline)

  lemma PaddedMerge()
    ensures Executed(PADDED_DISK.results) == {ITEM, OTHER}
    ensures Merged(PADDED_DISK.results, []) == [OTHER_LINE] && !RewriteRaises(PADDED_DISK.results, [])
    ensures !ResumeRaises(PADDED_DISK.results) && Executed([OTHER_LINE]) == {OTHER}
  {
    var lines := PADDED_DISK.results;
    assert lines == [PADDED_LINE] + [OTHER_LINE];
    ExecutedSplit([PADDED_LINE], [OTHER_LINE]);
    ExecutedOne(PADDED_LINE);
    ExecutedOne(OTHER_LINE);
    assert lines + [] == lines && lines[1..] == [OTHER_LINE] && [OTHER_LINE][1..] == [];
    assert FirstPerCombo([], {OTHER}) == [];
    assert FirstPerCombo([OTHER_LINE], {}) == [OTHER_LINE];
    assert FirstPerCombo(lines, {}) == [OTHER_LINE];
    assert SortBy(ByOrder, []) == [] && InsertBy(ByOrder, OTHER_LINE, []) == [OTHER_LINE];
  }

  // With unchanged credentials and every read succeeding, an executed line in a pair of no-break spaces is
  // recovered, dropped by the rewrite when the process dies after it, and its item bought again.
  lemma PaddedLineIsLost()
    ensures exists es ::
      && Legal(Boot(PADDED_DISK), es)
      && (forall e :: e in es ==> Steady(e, EVERYBODY)) && AllRead(Boot(PADDED_DISK), es)
      && ITEM in Recovered(PADDED_DISK) && After(Boot(PADDED_DISK), es).paid == [ITEM]
      && After(Boot(PADDED_DISK), es).crashes == 1
  {
    hide Legal, After, Merged, RewriteRaises, ResumeRaises, FirstPerCombo;
    PaddedMerge();
    var w0 := Boot(PADDED_DISK);
    var none: set<Combo> := {};
    assert Recovered(PADDED_DISK) == {ITEM, OTHER};
    var es := PaddedRun();
    assert forall e :: e in es ==> Steady(e, EVERYBODY);
    assert AllRead(w0, es);
  }

  lemma PaddedRun() returns (es: seq<Event>)
    ensures Legal(Boot(PADDED_DISK), es)
    ensures es == [Start([ITEM], EVERYBODY, true), Rewrite, Crash, Start([ITEM], EVERYBODY, true), Execute]
    ensures After(Boot(PADDED_DISK), es).paid == [ITEM] && After(Boot(PADDED_DISK), es).crashes == 1
  {
    hide Merged, RewriteRaises, ResumeRaises, FirstPerCombo;
    PaddedMerge();
    var w := Boot(PADDED_DISK);
    assert Recovered(PADDED_DISK) == {ITEM, OTHER};
    StartItem(w, EVERYBODY);
    es := [];
    Snoc(w, es, Start([ITEM], EVERYBODY, true));
    es := es + [Start([ITEM], EVERYBODY, true)];
    Snoc(w, es, Rewrite);
    es := es + [Rewrite];
    Snoc(w, es, Crash);
    es := es + [Crash];
    var v := After(w, es);
    assert v.disk == Disk(None, [OTHER_LINE], Newline) && v.run == Idle && v.paid == [] && v.crashes == 1;
    assert Recovered(v.disk) == {OTHER};
    OtherLineReads();
    StartItem(v, EVERYBODY);
    Snoc(w, es, Start([ITEM], EVERYBODY, true));
    es := es + [Start([ITEM], EVERYBODY, true)];
    Snoc(w, es, Execute);
    es := es + [Execute];
  }

  lemma OtherLineReads()
    ensures !ResumeRaises([OTHER_LINE])
  {
  }

  // A run that cannot read the results file buys what the file holds: two steps and one executed line.
  lemma UnreadFileIsBoughtAgain()
    ensures var w := Boot(Disk(None, [EXECUTED_LINE], Newline));
      var es := [Start([ITEM], EVERYBODY, false), Execute];
      && Legal(w, es) && After(w, es).paid == [ITEM]
      && ITEM in Recovered(w.disk) && ITEM in Recovered(After(w, es).disk)
  {
    var w := Boot(Disk(None, [EXECUTED_LINE], Newline));
    var start := Start([ITEM], EVERYBODY, false);
    var none: set<Combo> := {};
    OneItemPlan(none);
    assert EXECUTED_LINE in [EXECUTED_LINE];
    Snoc(w, [], start);
    Snoc(w, [] + [start], Execute);
    assert [] + [start] + [Execute] == [start, Execute];
  }

  // Such a run can lose an item for good without any death: nothing to do, a skipped line before the executed one.
  lemma UnreadRunForgets()
    ensures var w := Boot(Disk(None, [SKIP_LINE, EXECUTED_LINE], Newline));
      var es := [Start([], EVERYBODY, false), Rewrite, WriteFinal];
      && Legal(w, es) && (forall e :: e in es ==> !Dies(e))
      && ITEM in Recovered(w.disk) && ITEM !in Recovered(After(w, es).disk)
  {
    var lines := [SKIP_LINE, EXECUTED_LINE];
    var w := Boot(Disk(None, lines, Newline));
    var start := Start([], EVERYBODY, false);
    assert EXECUTED_LINE in lines && lines + [] == [SKIP_LINE] + [EXECUTED_LINE];
    TwoLines(SKIP_LINE, EXECUTED_LINE);
    assert Merged(lines, []) == [SKIP_LINE];
    assert Executed([SKIP_LINE]) == {};
    Snoc(w, [], start);
    Snoc(w, [] + [start], Rewrite);
    Snoc(w, [] + [start] + [Rewrite], WriteFinal);
    assert [] + [start] + [Rewrite] + [WriteFinal] == [start, Rewrite, WriteFinal];
  }
}
