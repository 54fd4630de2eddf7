// Safety of the resume protocol over all histories of runs, crashes and torn appends.
module ResumeSafety {
  import opened Options
  import opened Ordering
  import opened ResumeModel

  // ---------------------------------------------------------------- merge

  // l is the first record of its combo that the merge sees among lines.
  ghost predicate IsFirst(lines: seq<Line>, l: Line)
  {
    && l.Merges()
    && exists i :: 0 <= i < |lines| && lines[i] == l
                && forall j :: 0 <= j < i ==> !(lines[j].Merges() && lines[j].Key() == l.Key())
  }

  ghost predicate OnePerCombo(lines: seq<Line>)
  {
    && (forall l :: l in lines ==> l.IsRecord() && !l.padded)
    && forall i, j :: 0 <= i < j < |lines| ==> lines[i].Key() != lines[j].Key()
  }

  lemma FirstOfTail(lines: seq<Line>, l: Line)
    requires lines != []
    ensures IsFirst(lines, l) <==>
      l.Merges() && (lines[0] == l || (!(lines[0].Merges() && lines[0].Key() == l.Key()) && IsFirst(lines[1..], l)))
  {
    var head, tail := lines[0], lines[1..];
    if IsFirst(lines, l) && head != l {
      var i :| 0 <= i < |lines| && lines[i] == l
               && forall j :: 0 <= j < i ==> !(lines[j].Merges() && lines[j].Key() == l.Key());
      assert tail[i - 1] == l;
      assert forall j :: 0 <= j < i - 1 ==> tail[j] == lines[j + 1];
    }
    if l.Merges() && !(head.Merges() && head.Key() == l.Key()) && IsFirst(tail, l) {
      var i :| 0 <= i < |tail| && tail[i] == l
               && forall j :: 0 <= j < i ==> !(tail[j].Merges() && tail[j].Key() == l.Key());
      assert lines[i + 1] == l;
      forall j | 0 <= j < i + 1
        ensures !(lines[j].Merges() && lines[j].Key() == l.Key())
      {
        if j > 0 { assert lines[j] == tail[j - 1]; }
      }
    }
  }

  lemma {:induction false} FirstPerComboIsFirsts(lines: seq<Line>, seen: set<Combo>)
    ensures forall l :: l in FirstPerCombo(lines, seen) <==> IsFirst(lines, l) && l.Key() !in seen
    ensures OnePerCombo(FirstPerCombo(lines, seen))
  {
    if lines != [] {
      var head, tail := lines[0], lines[1..];
      var seen' := if head.Merges() then seen + {head.Key()} else seen;
      var rest := FirstPerCombo(tail, seen');
      FirstPerComboIsFirsts(tail, seen');
      assert forall k :: 0 <= k < |rest| ==> rest[k] in rest;
      if head.Merges() && head.Key() !in seen {
        assert FirstPerCombo(lines, seen) == [head] + rest;
      } else {
        assert seen' == seen;
        assert FirstPerCombo(lines, seen) == rest;
      }
      forall l ensures l in FirstPerCombo(lines, seen) <==> IsFirst(lines, l) && l.Key() !in seen {
        FirstOfTail(lines, l);
      }
    }
  }

  lemma OrdersAreWeak()
    ensures WeakOrder(ByOrder)
  {
    hide OrderLess;
    forall a, b | ByOrder(a, b) ensures !ByOrder(b, a) {
      LessOneWay(OrderOf(a), OrderOf(b));
    }
    forall a, b, c | !ByOrder(a, b) && !ByOrder(b, c) ensures !ByOrder(a, c) {
      NotLessChains(OrderOf(a), OrderOf(b), OrderOf(c));
    }
  }

  lemma LessOneWay(a: ExecutionOrder, b: ExecutionOrder)
    requires OrderLess(a, b)
    ensures !OrderLess(b, a)
  {
    hide StringLess;
    if a.Text? && b.Text? && StringLess(b.text, a.text) {
      StringLessTransitive(a.text, b.text, a.text);
      StringLessIrreflexive(a.text);
    }
  }

  lemma NotLessChains(a: ExecutionOrder, b: ExecutionOrder, c: ExecutionOrder)
    requires !OrderLess(a, b) && !OrderLess(b, c)
    ensures !OrderLess(a, c)
  {
    hide StringLess;
    if a.Text? && b.Text? && c.Text? && StringLess(a.text, c.text) {
      StringLessTotal(a.text, b.text);
      StringLessTotal(b.text, c.text);
      if a.text != b.text {
        StringLessTransitive(b.text, a.text, c.text);
      }
    }
  }

  lemma {:induction false} InsertOnePerCombo(l: Line, sorted: seq<Line>)
    requires l.Merges() && OnePerCombo(sorted) && forall x :: x in sorted ==> x.Key() != l.Key()
    ensures OnePerCombo(InsertBy(ByOrder, l, sorted))
  {
    hide OrderLess, OrderOf;
    InsertByCounts(ByOrder, l, sorted);
    assert forall i :: 0 <= i < |sorted| ==> sorted[i] in sorted;
    if sorted != [] && ByOrder(sorted[0], l) {
      var rest := InsertBy(ByOrder, l, sorted[1..]);
      InsertByCounts(ByOrder, l, sorted[1..]);
      InsertOnePerCombo(l, sorted[1..]);
      assert forall i :: 0 <= i < |rest| ==> rest[i] in rest;
    }
  }

  lemma {:induction false} SortOnePerCombo(lines: seq<Line>)
    requires OnePerCombo(lines)
    ensures OnePerCombo(SortBy(ByOrder, lines))
  {
    if lines != [] {
      var rest := lines[1..];
      assert forall i :: 0 <= i < |rest| ==> rest[i] == lines[i + 1];
      SortOnePerCombo(rest);
      SortByCounts(ByOrder, rest);
      InsertOnePerCombo(lines[0], SortBy(ByOrder, rest));
    }
  }

  // The merge keeps exactly one record per combo, the FIRST in file order followed by this run's
  // order, sorted by execution order.
  lemma MergeKeepsFirsts(existing: seq<Line>, raw: seq<Line>)
    ensures var m := Merged(existing, raw);
      && OnePerCombo(m) && Ascends(ByOrder, m)
      && (forall l :: l in m <==> IsFirst(existing + raw, l))
  {
    FirstPerComboIsFirsts(existing + raw, {});
    FirstsAreRecords(existing + raw, {});
    SortOnePerCombo(FirstPerCombo(existing + raw, {}));
    OrdersAreWeak();
    SortByAscends(ByOrder, FirstPerCombo(existing + raw, {}));
  }

  // The line at k is the first that the merge sees of its combo.
  ghost predicate FirstAt(lines: seq<Line>, k: nat)
    requires k < |lines|
  {
    lines[k].Merges() && forall h :: 0 <= h < k ==> !(lines[h].Merges() && lines[h].Key() == lines[k].Key())
  }

  // Where the first records stand.
  lemma {:induction false} FirstsStand(lines: seq<Line>, seen: set<Combo>) returns (at: seq<nat>)
    ensures |at| == |FirstPerCombo(lines, seen)|
    ensures forall p :: 0 <= p < |at| ==>
      at[p] < |lines| && lines[at[p]] == FirstPerCombo(lines, seen)[p] && FirstAt(lines, at[p])
        && lines[at[p]].Key() !in seen
    ensures forall p, q :: 0 <= p < q < |at| ==> at[p] < at[q]
  {
    if lines == [] {
      return [];
    }
    var takes := lines[0].Merges() && lines[0].Key() !in seen;
    var rest := FirstsStand(lines[1..], if takes then seen + {lines[0].Key()} else seen);
    var shifted := seq(|rest|, i requires 0 <= i < |rest| => rest[i] + 1);
    assert forall k :: 0 < k < |lines| ==> lines[k] == lines[1..][k - 1];
    forall p | 0 <= p < |rest| ensures FirstAt(lines, shifted[p]) && lines[shifted[p]] == lines[1..][rest[p]] {
      assert FirstAt(lines[1..], rest[p]);
    }
    at := if takes then [0] + shifted else shifted;
  }

  lemma OrderLessMeans(a: ExecutionOrder, b: ExecutionOrder)
    requires !OrderLess(b, a)
    ensures a.Number? && b.Number? ==> a.value <= b.value
    ensures b == Infinite(false) && Numeric(a) ==> a == Infinite(false)
    ensures a == Infinite(true) && Numeric(b) ==> b == Infinite(true)
    ensures a.Text? && b.Text? ==> a.text == b.text || Smaller(a.text, b.text)
  {
    hide StringLess;
    if a.Text? && b.Text? {
      StringLessTotal(a.text, b.text);
      StringLessMeans(a.text, b.text);
    }
  }

  // How the file a finish writes is sorted: numbers upwards from minus infinity to plus infinity, or texts by
  // code point; records with the same execution order stand as they did.
  lemma MergedInOrder(existing: seq<Line>, raw: seq<Line>, i: nat, j: nat)
    requires !RewriteRaises(existing, raw) && i < j < |Merged(existing, raw)|
    ensures var lines, m := existing + raw, Merged(existing, raw);
      var a, b := m[i].order, m[j].order;
      && (((a.Number? || a.Infinite?) && (b.Number? || b.Infinite?)) || (a.Text? && b.Text?))
      && (a.Number? && b.Number? ==> a.value <= b.value)
      && (b == Infinite(false) ==> a == Infinite(false)) && (a == Infinite(true) ==> b == Infinite(true))
      && (a.Text? ==> a.text == b.text || Smaller(a.text, b.text))
      && (a == b ==> exists k, n ::
            0 <= k < n < |lines| && FirstAt(lines, k) && FirstAt(lines, n) && lines[k] == m[i] && lines[n] == m[j])
  {
    hide OrderLess, FirstPerCombo, Merged, IsFirst, FirstAt, MergeRaises, EnrichmentRaises, ReadOnMerge;
    var lines, m := existing + raw, Merged(existing, raw);
    MergeKeepsFirsts(existing, raw);
    assert m[i] in m && m[j] in m && m[i].Key() != m[j].Key();
    MergedComparable(existing, raw, m[i], m[j]);
    assert !ByOrder(m[j], m[i]);
    OrderLessMeans(m[i].order, m[j].order);
    if m[i].order == m[j].order {
      MergedStable(existing, raw, i, j);
    }
  }

  lemma MergedComparable(existing: seq<Line>, raw: seq<Line>, f: Line, g: Line)
    requires f.Merges() && g.Merges() && f.Key() != g.Key()
    requires !RewriteRaises(existing, raw) && f in Merged(existing, raw) && g in Merged(existing, raw)
    ensures Comparable(f.order, g.order)
  {
    hide MergeRaises, EnrichmentRaises, FirstPerCombo;
    var firsts := FirstPerCombo(existing + raw, {});
    var i :| 0 <= i < |firsts| && firsts[i] == f;
    var j :| 0 <= j < |firsts| && firsts[j] == g;
    ComparableBothWays(f.order, g.order);
  }

  lemma MergedStable(existing: seq<Line>, raw: seq<Line>, i: nat, j: nat)
    requires i < j < |Merged(existing, raw)|
    requires Merged(existing, raw)[i].order == Merged(existing, raw)[j].order
    ensures var lines, m := existing + raw, Merged(existing, raw);
      exists k, n ::
        0 <= k < n < |lines| && FirstAt(lines, k) && FirstAt(lines, n) && lines[k] == m[i] && lines[n] == m[j]
  {
    hide OrderLess, FirstPerCombo, IsFirst, FirstAt;
    var lines, m := existing + raw, Merged(existing, raw);
    var firsts := FirstPerCombo(lines, {});
    MergeKeepsFirsts(existing, raw);
    OrdersAreWeak();
    assert m[i] in m && m[j] in m;
    var p :| 0 <= p < |firsts| && firsts[p] == m[i];
    var q :| 0 <= q < |firsts| && firsts[q] == m[j];
    assert m[i].Key() != m[j].Key();
    if q < p {
      assert !ByOrder(m[i], m[j]) by { NotBelowItself(m[i], m[j]); }
      SortByIsStable(ByOrder, firsts, m[j], m[i]);
      OneWayRound(m, i, j);
      assert false;
    }
    var at := FirstsStand(lines, {});
    assert at[p] < at[q] && FirstAt(lines, at[p]) && FirstAt(lines, at[q]);
  }

  lemma OneWayRound(m: seq<Line>, i: nat, j: nat)
    requires OnePerCombo(m) && i < j < |m|
    ensures !Before(m, m[j], m[i])
  {
    hide OrderOf;
    forall x, y | 0 <= x < y < |m| && m[x] == m[j] ensures m[y] != m[i] {
      assert m[x].Key() == m[j].Key();
    }
  }

  lemma NotBelowItself(a: Line, b: Line)
    requires OrderOf(a) == OrderOf(b)
    ensures !ByOrder(a, b)
  {
    if OrderOf(a).Text? { StringLessIrreflexive(OrderOf(a).text); }
  }

  lemma {:induction false} FirstExists(lines: seq<Line>, c: Combo)
    requires exists l :: l in lines && l.Merges() && l.Key() == c
    ensures exists l: Line :: l.Merges() && l.Key() == c && IsFirst(lines, l)
  {
    var head := lines[0];
    if head.Merges() && head.Key() == c {
      FirstOfTail(lines, head);
    } else {
      var l :| l in lines && l.Merges() && l.Key() == c;
      assert l in lines[1..];
      FirstExists(lines[1..], c);
      var f: Line :| f.Merges() && f.Key() == c && IsFirst(lines[1..], f);
      FirstOfTail(lines, f);
    }
  }

  lemma FirstIsUnique(lines: seq<Line>, a: Line, b: Line)
    requires IsFirst(lines, a) && IsFirst(lines, b) && a.Key() == b.Key()
    ensures a == b
  {
  }

  // ---------------------------------------------------------------- exactly when a finish raises

  // A finish raises exactly when some line makes the merge raise, or some first record has no execution order
  // or an unhashable attempt id, or the execution orders of two first records cannot be compared.
  lemma RewriteRaisesExactly(existing: seq<Line>, raw: seq<Line>)
    ensures var lines := existing + raw;
      RewriteRaises(existing, raw) <==>
        || (exists l :: l in lines && (
              || (l.Undecodable? && !l.padded) || l.NotAnObject?
              || (l.Object? && !l.padded && l.contestant.Some? && l.caseId.Some? && l.repeat.NotAnInteger?)))
        || (exists f :: IsFirst(lines, f) && (f.order.NoOrder? || !f.hashable))
        || (exists f, g ::
              && IsFirst(lines, f) && IsFirst(lines, g) && f.Key() != g.Key()
              && !(f.order.Text? && g.order.Text?)
              && !((f.order.Number? || f.order.Infinite?) && (g.order.Number? || g.order.Infinite?)))
  {
    hide IsFirst, ReadOnMerge, Comparable, MergeRaises;
    var lines := existing + raw;
    var records := FirstPerCombo(lines, {});
    FirstPerComboIsFirsts(lines, {});
    FirstsAreRecords(lines, {});
    FirstsAreFirst(lines);
    MergeRaisesExactly(lines);
    forall f, g { ComparableMeans(OrderOf(f), OrderOf(g)); }
    if i, j :| 0 <= i < j < |records| && !Comparable(OrderOf(records[i]), OrderOf(records[j])) {
      assert records[i] in records && records[j] in records && records[i].Key() != records[j].Key();
    }
    if f, g :| IsFirst(lines, f) && IsFirst(lines, g) && f.Key() != g.Key() && !Comparable(OrderOf(f), OrderOf(g)) {
      assert f in records && g in records;
      var i :| 0 <= i < |records| && records[i] == f;
      var j :| 0 <= j < |records| && records[j] == g;
      ComparableBothWays(OrderOf(f), OrderOf(g));
      assert i != j;
    }
  }

  lemma ComparableMeans(a: ExecutionOrder, b: ExecutionOrder)
    ensures Comparable(a, b) <==>
      (a.Text? && b.Text?) || ((a.Number? || a.Infinite?) && (b.Number? || b.Infinite?))
  {
  }

  lemma MergeRaisesExactly(lines: seq<Line>)
    ensures MergeRaises(lines) <==>
      exists l :: l in lines && (
        || (l.Undecodable? && !l.padded) || l.NotAnObject?
        || (l.Object? && !l.padded && l.contestant.Some? && l.caseId.Some? && l.repeat.NotAnInteger?))
  {
  }

  // What a resume takes from the file, and what makes it raise, in the fields of a line.
  lemma ReaderExactly(lines: seq<Line>, c: Combo)
    ensures c in Executed(lines) <==>
      exists l :: (
        && l in lines && l.Object? && !l.skipped
        && l.contestant == Some(c.contestant) && l.caseId == Some(c.caseId) && l.repeat == Index(c.repeatIndex))
    ensures ResumeRaises(lines) <==>
      exists l :: l in lines && (
        || l.Undecodable?
        || (l.Object? && !l.skipped && l.contestant.Some? && l.caseId.Some?
            && l.repeat == NotAnInteger(OverflowError)))
  {
    if c in Executed(lines) {
      var l :| l in lines && IsExecuted(l) && l.Key() == c;
      assert l.contestant == Some(c.contestant);
    }
    forall l | l in lines && IsExecuted(l) && l.Key() == c ensures c in Executed(lines) {}
  }

  lemma ComparableBothWays(a: ExecutionOrder, b: ExecutionOrder)
    ensures Comparable(a, b) <==> Comparable(b, a)
  {
  }

  lemma FirstsAreFirst(lines: seq<Line>)
    ensures forall f :: IsFirst(lines, f) ==> f.Merges()
  {
  }

  // The tolerance gap, line by line: what a resume reads or skips over and a finish, meeting nothing else,
  // raises on is, unless padding hides it from the finish, anything but an object; an object with both ids
  // and a repeat index that int() rejects, unless a resume raises on it too; and a record without execution
  // order or with an unhashable attempt id.
  lemma ToleranceGap(l: Line)
    ensures !ResumeRaises([l]) && RewriteRaises([l], []) <==>
      || l.NotAnObject?
      || (&& l.Object? && !l.padded && l.contestant.Some? && l.caseId.Some?
          && match l.repeat
             case NoRepeat => false
             case NotAnInteger(error) => l.skipped || error != OverflowError
             case Index(_) => l.order.NoOrder? || !l.hashable)
  {
    assert [l] + [] == [l];
    RewriteRaisesExactly([l], []);
    FirstOfOne(l);
    assert ResumeRaises([l]) <==> ReadOnResume(l).Raised? by { assert l in [l]; }
    assert l in [l];
  }

  lemma FirstOfOne(l: Line)
    ensures forall f :: IsFirst([l], f) <==> f == l && l.Merges()
  {
    assert [l][0] == l;
  }

  // ---------------------------------------------------------------- exactly when something is lost

  // An append lands on a torn last line that holds the only trace of an executed combo; known is what need
  // not be traced in the file.
  ghost predicate LosesOnAppend(d: Disk, known: set<Combo>)
  {
    && d.end.Torn? && d.results != []
    && var last := d.results[|d.results| - 1];
       IsExecuted(last) && last.Key() !in known && last.Key() !in Executed(d.results[..|d.results| - 1])
  }

  // The merge sees no record of c.
  ghost predicate Unmerged(lines: seq<Line>, c: Combo) { forall l :: l in lines && l.Merges() ==> l.Key() != c }

  // A combo is executed only on lines that padding hides from the merge, which rewrites the file all the same.
  ghost predicate HidesOnRewrite(d: Disk, raw: seq<Line>, known: set<Combo>)
  {
    && (exists l :: l in d.results + raw && l.Merges())
    && exists c :: c in Executed(d.results) && c !in known && Unmerged(d.results + raw, c)
  }

  // A combo is known from an executed line only, and a skipped line of the same combo comes first.
  ghost predicate ShadowsOnRewrite(d: Disk, raw: seq<Line>, known: set<Combo>)
  {
    exists l :: IsFirst(d.results + raw, l) && l.skipped && l.Key() in Executed(d.results) && l.Key() !in known
  }

  ghost predicate LosesOnRewrite(d: Disk, raw: seq<Line>, known: set<Combo>)
  {
    ShadowsOnRewrite(d, raw, known) || HidesOnRewrite(d, raw, known)
  }

  ghost predicate Loses(w: World, e: Event)
    requires Enabled(w, e)
  {
    match e
    case Append => LosesOnAppend(w.disk, StateSet(w.disk))
    case TearAppend(_) => LosesOnAppend(w.disk, StateSet(w.disk))
    case Rewrite => LosesOnRewrite(w.disk, w.run.raw, StateSet(w.disk))
    case _ => false
  }

  lemma ExecutedSplit(a: seq<Line>, b: seq<Line>)
    ensures Executed(a + b) == Executed(a) + Executed(b)
  {
    var ab := a + b;
    forall c | c in Executed(a) + Executed(b) ensures c in Executed(ab) {
      if c in Executed(a) {
        var l :| l in a && IsExecuted(l) && l.Key() == c;
        assert l in ab;
      } else {
        var l :| l in b && IsExecuted(l) && l.Key() == c;
        assert l in ab;
      }
    }
  }

  lemma PaddingKeepsReading(d: Disk, l: Line)
    ensures IsExecuted(AsAppended(d, l)) <==> IsExecuted(l)
    ensures l.IsRecord() ==> AsAppended(d, l).IsRecord() && AsAppended(d, l).Key() == l.Key()
  {
  }

  lemma ExecutedOne(l: Line)
    ensures Executed([l]) == if IsExecuted(l) then {l.Key()} else {}
  {
    assert l in [l];
  }

  lemma AppendEffect(d: Disk, l: Line)
    ensures forall known ::
      Executed(d.results) <= known + Executed(AppendLine(d, l).results) <==> !LosesOnAppend(d, known)
    ensures Recovered(d) <= Recovered(AppendLine(d, l)) <==> !LosesOnAppend(d, StateSet(d))
    ensures Recovered(AppendLine(d, l)) <= Recovered(d) + (if IsExecuted(l) then {l.Key()} else {})
    ensures !d.end.Torn? && IsExecuted(l) ==> l.Key() in Recovered(AppendLine(d, l))
    ensures StateSet(AppendLine(d, l)) == StateSet(d)
  {
    CutLast(d);
    ExecutedSplit(d.results, [AsAppended(d, l)]);
    ExecutedOne(AsAppended(d, l));
    PaddingKeepsReading(d, l);
  }

  lemma CutLast(d: Disk)
    ensures d.results != [] ==>
      var n := |d.results| - 1;
      && Executed(d.results[..n] + [Spoiled(d.results[n])]) == Executed(d.results[..n])
      && Executed(d.results)
        == Executed(d.results[..n]) + (if IsExecuted(d.results[n]) then {d.results[n].Key()} else {})
  {
    if d.results != [] {
      var n := |d.results| - 1;
      ExecutedSplit(d.results[..n], [Spoiled(d.results[n])]);
      ExecutedSplit(d.results[..n], [d.results[n]]);
      assert d.results[..n] + [d.results[n]] == d.results;
      assert d.results[n] in [d.results[n]];
    }
  }

  lemma TornAppendEffect(d: Disk, l: Line, whole: bool)
    ensures Recovered(d) <= Recovered(TornAppend(d, l, whole)) <==> !LosesOnAppend(d, StateSet(d))
    ensures Recovered(TornAppend(d, l, whole)) <= Recovered(d) + (if IsExecuted(l) then {l.Key()} else {})
    ensures StateSet(TornAppend(d, l, whole)) == StateSet(d)
  {
    var added := if whole then AsAppended(d, l) else Garbage;
    CutLast(d);
    ExecutedSplit(d.results, [added]);
    ExecutedOne(added);
    PaddingKeepsReading(d, l);
  }

  // The file after a rewrite.
  function AfterRewrite(d: Disk, raw: seq<Line>): Disk
  {
    if Merged(d.results, raw) == [] then d else d.(results := Merged(d.results, raw), end := Newline)
  }

  // The merged records of c say that it was executed, or there are none.
  lemma MergeOutcome(d: Disk, raw: seq<Line>, c: Combo)
    ensures var lines := d.results + raw;
      c in Executed(Merged(d.results, raw)) <==>
        !Unmerged(lines, c) && !exists f :: IsFirst(lines, f) && f.skipped && f.Key() == c
  {
    var lines := d.results + raw;
    var records := Merged(d.results, raw);
    MergeKeepsFirsts(d.results, raw);
    if !Unmerged(lines, c) {
      FirstExists(lines, c);
      var f: Line :| f.Merges() && f.Key() == c && IsFirst(lines, f);
      assert f in records;
      if c in Executed(records) {
        var x :| x in records && IsExecuted(x) && x.Key() == c;
        forall y | IsFirst(lines, y) && y.Key() == c ensures y == x { FirstIsUnique(lines, x, y); }
      }
    }
  }

  lemma NothingMerged(d: Disk, raw: seq<Line>)
    ensures Merged(d.results, raw) == [] <==> !exists l :: l in d.results + raw && l.Merges()
  {
    var lines := d.results + raw;
    MergeKeepsFirsts(d.results, raw);
    if Merged(d.results, raw) != [] {
      var x := Merged(d.results, raw)[0];
      assert x in Merged(d.results, raw) && x in lines && x.Merges();
    }
    if l :| l in lines && l.Merges() {
      FirstExists(lines, l.Key());
    }
  }

  // What a rewrite drops from the file, beyond known, exactly.
  lemma RewriteDrops(d: Disk, raw: seq<Line>, known: set<Combo>)
    ensures Executed(d.results) <= known + Executed(AfterRewrite(d, raw).results) <==> !LosesOnRewrite(d, raw, known)
  {
    hide Merged, IsFirst, Unmerged;
    var lines := d.results + raw;
    NothingMerged(d, raw);
    FirstsAreFirst(lines);
    forall c { MergeOutcome(d, raw, c); }
    if Merged(d.results, raw) == [] {
      NoFirsts(lines);
    } else {
      if f :| IsFirst(lines, f) && f.skipped && f.Key() in Executed(d.results) && f.Key() !in known {
        assert f.Key() !in Executed(Merged(d.results, raw));
      }
      forall c | c in Executed(d.results) && c !in known + Executed(Merged(d.results, raw))
        ensures LosesOnRewrite(d, raw, known)
      {
        assert Unmerged(lines, c) || exists f :: IsFirst(lines, f) && f.skipped && f.Key() == c;
      }
    }
  }

  lemma NoFirsts(lines: seq<Line>)
    requires !exists l :: l in lines && l.Merges()
    ensures forall f :: !IsFirst(lines, f)
  {
  }

  lemma RewriteEffect(d: Disk, raw: seq<Line>)
    requires forall l :: l in raw && IsExecuted(l) ==> l.Key() in Recovered(d)
    ensures Recovered(d) <= Recovered(AfterRewrite(d, raw)) <==> !LosesOnRewrite(d, raw, StateSet(d))
    ensures Recovered(AfterRewrite(d, raw)) <= Recovered(d) && Executed(Merged(d.results, raw)) <= Recovered(d)
  {
    hide LosesOnRewrite;
    RewriteDrops(d, raw, StateSet(d));
    MergeKeepsFirsts(d.results, raw);
    forall c | c in Executed(Merged(d.results, raw)) ensures c in Recovered(d) {
      var l :| l in Merged(d.results, raw) && IsExecuted(l) && l.Key() == c;
      assert l in d.results + raw;
    }
  }
}
