// One pass over the access-log entries, against a specification that sees only the multiset of entries.
module LogAggregation {
  import opened Options
  import opened Ordering
  import opened Counters
  import opened LogEntries

  // What the list handed to the aggregation may hold: something else, an entry whose
  // timestamp is not finite, or an entry.
  datatype Item = Junk | BadTimestamp | Log(e: Entry)

  predicate IsValid(i: Item) { i.Log? && -MAX_TS <= i.e.ts <= MAX_TS }

  function Valid(items: seq<Item>): seq<Entry>
  {
    if items == [] then [] else (if IsValid(items[0]) then [items[0].e] else []) + Valid(items[1..])
  }

  // ---------------------------------------------------------------- what each figure looks at

  function VerbOf(e: Entry): string { e.verb }
  function ClassOf(e: Entry): string { StatusClass(e.status) }
  function PathOf(e: Entry): string { e.path }
  function HourOf(e: Entry): int { (e.ts / 3600.0).Floor * 3600 }
  function CategoryOf(e: Entry): Category { Categorize(e.path) }
  function Is404(e: Entry): int { if e.status == 404 then 1 else 0 }
  function Is5xx(e: Entry): int { if e.status >= 500 then 1 else 0 }
  function BytesOf(e: Entry): int { if e.size.Some? && e.size.value >= 0 then e.size.value else 0 }
  function IsPageApi(e: Entry): int { if CategoryOf(e).Page? || CategoryOf(e).Api? then 1 else 0 }

  // The timestamps that have a UTC calendar date: years 1 to 9999.
  const YEAR_1 := -62_135_596_800.0
  const YEAR_10000 := 253_402_300_800.0

  predicate HasDate(t: real) { YEAR_1 <= t < YEAR_10000 }

  // day stands for the UTC calendar day of a timestamp that has one.
  function DayOf(day: real -> string): Entry -> string { (e: Entry) => day(e.ts) }

  predicate ByTime(a: Entry, b: Entry) { a.ts < b.ts }
  predicate ByHour(a: Count<int>, b: Count<int>) { a.key < b.key || (a.key == b.key && a.n < b.n) }
  predicate ByRank(a: Count<string>, b: Count<string>) { a.n > b.n || (a.n == b.n && StringLess(a.key, b.key)) }

  lemma HoursAreOrdered()
    ensures StrictTotal(ByHour)
  {
  }

  lemma RanksAreOrdered()
    ensures StrictTotal(ByRank)
  {
    StringsAreOrdered();
  }

  // ---------------------------------------------------------------- specification

  datatype Stats = Stats(
    total: nat, skipped: nat,
    methods: seq<Count<string>>, statusClasses: seq<Count<string>>, perDay: seq<Count<string>>,
    count404: int, count5xx: int, bytes: int, pageApi: int,
    hourly: seq<Count<int>>, categories: seq<Count<Category>>, topPaths: seq<Count<string>>,
    firstTs: Option<real>, lastTs: Option<real>, requestsPerHour: real)

  // The figures that grow entry by entry, after the entries es.
  ghost predicate Running(s: Stats, es: seq<Entry>, day: real -> string)
  {
    && Tally(s.methods, multiset(Map(VerbOf, es)))
    && Tally(s.statusClasses, multiset(Map(ClassOf, es)))
    && Tally(s.perDay, multiset(Map(DayOf(day), es)))
    && Tally(s.categories, multiset(Map(CategoryOf, es)))
    && s.count404 == Total(Is404, es) && s.count5xx == Total(Is5xx, es)
    && s.bytes == Total(BytesOf, es) && s.pageApi == Total(IsPageApi, es)
    && Keys(s.hourly) == Map(HourOf, es)
    && IsFirst(s.firstTs, es) && IsLast(s.lastTs, es)
  }

  ghost predicate IsFirst(t: Option<real>, es: seq<Entry>)
  {
    if es == [] then t.None?
    else t.Some? && (exists e :: e in es && e.ts == t.value) && forall e :: e in es ==> t.value <= e.ts
  }

  ghost predicate IsLast(t: Option<real>, es: seq<Entry>)
  {
    if es == [] then t.None?
    else t.Some? && (exists e :: e in es && e.ts == t.value) && forall e :: e in es ==> e.ts <= t.value
  }

  const CATEGORY_ORDER: seq<Category> := [Page, Api, Static, Health, Other]

  ghost predicate InCategoryOrder(c: seq<Count<Category>>, keys: multiset<Category>)
  {
    |c| == 5 && forall i :: 0 <= i < 5 ==> c[i] == Count(CATEGORY_ORDER[i], keys[CATEGORY_ORDER[i]])
  }

  // The ten best of the paths ranked by count, then by name.
  ghost predicate IsTop(top: seq<Count<string>>, paths: multiset<string>)
  {
    exists all :: Tally(all, paths) && SortedBy(ByRank, all) && top == all[..if |all| < 10 then |all| else 10]
  }

  function Span(firstTs: Option<real>, lastTs: Option<real>): real
  {
    if firstTs.Some? && lastTs.Some? then lastTs.value - firstTs.value else 0.0
  }

  // The divisor of requests per hour: the observed span, at least a second, or the window when there is none.
  function ElapsedHours(span: real, window: real): real
  {
    if span <= 0.0 then window else (if span > 1.0 then span else 1.0) / 3600.0
  }

  // The two ways a pass ends in an exception: an entry without a calendar date, or a zero window and
  // no observed span to divide by instead.
  ghost predicate Raises(items: seq<Item>, window: real)
  {
    var es := Valid(items);
    || (exists e :: e in es && !HasDate(e.ts))
    || (es != [] && window == 0.0 && forall a, b :: a in es && b in es ==> a.ts == b.ts)
  }

  function PerHour(n: nat, elapsed: real): real
    requires n != 0 ==> elapsed != 0.0
  {
    if n == 0 then 0.0 else n as real / elapsed
  }

  ghost predicate Describes(s: Stats, items: seq<Item>, window: real, day: real -> string)
  {
    var es := Valid(items);
    && s.total == |es| && s.skipped == |items| - |es|
    && Tally(s.methods, multiset(Map(VerbOf, es)))
    && Tally(s.statusClasses, multiset(Map(ClassOf, es)))
    && Tally(s.perDay, multiset(Map(DayOf(day), es)))
    && s.count404 == Total(Is404, es) && s.count5xx == Total(Is5xx, es)
    && s.bytes == Total(BytesOf, es) && s.pageApi == Total(IsPageApi, es)
    && Tally(s.hourly, multiset(Map(HourOf, es))) && SortedBy(ByHour, s.hourly)
    && InCategoryOrder(s.categories, multiset(Map(CategoryOf, es)))
    && IsTop(s.topPaths, multiset(Map(PathOf, es)))
    && IsFirst(s.firstTs, es) && IsLast(s.lastTs, es)
    && var elapsed := ElapsedHours(Span(s.firstTs, s.lastTs), window);
       (es != [] ==> elapsed != 0.0) && s.requestsPerHour == PerHour(|es|, elapsed)
  }

  // ---------------------------------------------------------------- the pass

  // What one entry adds before its date is formatted, which may raise.
  function AddUndated(s: Stats, e: Entry): Stats
  {
    s.(methods := Bump(s.methods, VerbOf(e)),
       statusClasses := Bump(s.statusClasses, ClassOf(e)),
       count404 := s.count404 + Is404(e),
       count5xx := s.count5xx + Is5xx(e),
       bytes := s.bytes + BytesOf(e),
       firstTs := if s.firstTs.None? || e.ts < s.firstTs.value then Some(e.ts) else s.firstTs,
       lastTs := if s.lastTs.None? || e.ts > s.lastTs.value then Some(e.ts) else s.lastTs)
  }

  // What one entry adds.
  function AddEntry(s: Stats, e: Entry, day: real -> string): Stats
  {
    var u := AddUndated(s, e);
    u.(perDay := Bump(u.perDay, DayOf(day)(e)),
       categories := Bump(u.categories, CategoryOf(e)),
       pageApi := u.pageApi + IsPageApi(e),
       hourly := u.hourly + [Count(HourOf(e), 1)])
  }

  lemma TallyOneMore<K(!new)>(c: seq<Count<K>>, f: Entry -> K, es: seq<Entry>, e: Entry)
    requires Tally(c, multiset(Map(f, es)))
    ensures Tally(Bump(c, f(e)), multiset(Map(f, es + [e])))
  {
    BumpTally(c, multiset(Map(f, es)), f(e));
    MapOneMore(f, es, e);
  }

  lemma RunningOneMore(s: Stats, es: seq<Entry>, e: Entry, day: real -> string)
    requires Running(s, es, day)
    ensures Running(AddEntry(s, e, day), es + [e], day)
  {
    hide Tally, Map, Total, Bump, Is404, Is5xx, BytesOf, IsPageApi, IsFirst, IsLast, Categorize, StatusClass, DayOf;
    TallyOneMore(s.methods, VerbOf, es, e);
    TallyOneMore(s.statusClasses, ClassOf, es, e);
    TallyOneMore(s.perDay, DayOf(day), es, e);
    TallyOneMore(s.categories, CategoryOf, es, e);
    TotalOneMore(Is404, es, e);
    TotalOneMore(Is5xx, es, e);
    TotalOneMore(BytesOf, es, e);
    TotalOneMore(IsPageApi, es, e);
    MapOneMore(HourOf, es, e);
    assert Keys(s.hourly + [Count(HourOf(e), 1)]) == Keys(s.hourly) + [HourOf(e)];
    ExtremesOneMore(s.firstTs, s.lastTs, es, e);
  }

  lemma ExtremesOneMore(first: Option<real>, last: Option<real>, es: seq<Entry>, e: Entry)
    requires IsFirst(first, es) && IsLast(last, es)
    ensures IsFirst(if first.None? || e.ts < first.value then Some(e.ts) else first, es + [e])
    ensures IsLast(if last.None? || e.ts > last.value then Some(e.ts) else last, es + [e])
  {
    assert e in es + [e];
    assert forall x :: x in es ==> x in es + [e];
  }

  class HttpStats {
    var total: nat
    var skipped: nat
    var methods: seq<Count<string>>
    var statusClasses: seq<Count<string>>
    var perDay: seq<Count<string>>
    var count404: int
    var count5xx: int
    var bytes: int
    var pageApi: int
    var hourly: seq<Count<int>>
    var categories: seq<Count<Category>>
    var topPaths: seq<Count<string>>
    var firstTs: Option<real>
    var lastTs: Option<real>
    var requestsPerHour: real

    function Value(): Stats
      reads this
    {
      Stats(total, skipped, methods, statusClasses, perDay, count404, count5xx, bytes, pageApi, hourly, categories,
        topPaths,
            firstTs, lastTs, requestsPerHour)
    }

    constructor ()
      ensures Value() == EMPTY_STATS
    {
      total, skipped := 0, 0;
      methods, statusClasses, perDay := [], [], [];
      count404, count5xx, bytes, pageApi := 0, 0, 0, 0;
      hourly, categories, topPaths := [], [], [];
      firstTs, lastTs, requestsPerHour := None, None, 0.0;
    }

    method NoteTime(t: real)
      modifies this`firstTs, this`lastTs
      ensures firstTs == if old(firstTs).None? || t < old(firstTs).value then Some(t) else old(firstTs)
      ensures lastTs == if old(lastTs).None? || t > old(lastTs).value then Some(t) else old(lastTs)
    {
      if firstTs.None? || t < firstTs.value {
        firstTs := Some(t);
      }
      if lastTs.None? || t > lastTs.value {
        lastTs := Some(t);
      }
    }

    method NoteResponse(e: Entry)
      modifies this`count404, this`count5xx, this`bytes
      ensures count404 == old(count404) + Is404(e) && count5xx == old(count5xx) + Is5xx(e)
      ensures bytes == old(bytes) + BytesOf(e)
    {
      if e.status == 404 {
        count404 := count404 + 1;
      }
      if e.status >= 500 {
        count5xx := count5xx + 1;
      }
      if e.size.Some? && e.size.value >= 0 {
        bytes := bytes + e.size.value;
      }
    }

    method NoteCategory(e: Entry)
      modifies this`categories, this`pageApi
      ensures categories == Bump(old(categories), CategoryOf(e)) && pageApi == old(pageApi) + IsPageApi(e)
    {
      hide Bump, Categorize;
      var category := Categorize(e.path);
      categories := Bump(categories, category);
      if category.Page? || category.Api? {
        pageApi := pageApi + 1;
      }
    }

    // The figures computed after the loop.
    method Complete(
      total: nat, skipped: nat, hourly: seq<Count<int>>, topPaths: seq<Count<string>>, requestsPerHour: real,
      categories: seq<Count<Category>>)
      modifies this
      ensures Value() == old(Value()).(
        total := total, skipped := skipped, hourly := hourly, topPaths := topPaths,
        requestsPerHour := requestsPerHour, categories := categories)
    {
      this.total, this.skipped, this.hourly, this.topPaths := total, skipped, hourly, topPaths;
      this.requestsPerHour, this.categories := requestsPerHour, categories;
    }

    // The body of the loop up to the formatting of the date.
    method NoteUndated(e: Entry)
      modifies this
      ensures Value() == AddUndated(old(Value()), e)
    {
      hide Bump, StatusClass, Is404, Is5xx, BytesOf;
      NoteTime(e.ts);
      methods := Bump(methods, VerbOf(e));
      statusClasses := Bump(statusClasses, ClassOf(e));
      NoteResponse(e);
    }

    // The body of the loop over the sorted entries.
    method Add(e: Entry, day: real -> string) returns (raised: bool)
      modifies this
      ensures raised <==> !HasDate(e.ts)
      ensures Value() == if raised then AddUndated(old(Value()), e) else AddEntry(old(Value()), e, day)
    {
      hide Bump, Categorize, IsPageApi, CategoryOf, AddUndated;
      NoteUndated(e);
      if !HasDate(e.ts) {
        return true;
      }
      perDay := Bump(perDay, DayOf(day)(e));
      hourly := hourly + [Count(HourOf(e), 1)];
      NoteCategory(e);
      raised := false;
    }
  }

  const EMPTY_STATS := Stats(0, 0, [], [], [], 0, 0, 0, 0, [], [], [], None, None, 0.0)

  // The valid entries in input order, and how many items were skipped.
  method KeepValid(items: seq<Item>) returns (valid: seq<Entry>, skipped: nat)
    ensures valid == Valid(items) && skipped == |items| - |valid|
  {
    valid, skipped := [], 0;
    var k := 0;
    while k < |items|
      invariant 0 <= k <= |items|
      invariant valid + Valid(items[k..]) == Valid(items)
      invariant skipped == k - |valid|
    {
      assert items[k..][0] == items[k] && items[k..][1..] == items[k + 1..];
      if IsValid(items[k]) {
        valid := valid + [items[k].e];
      } else {
        skipped := skipped + 1;
      }
      k := k + 1;
    }
  }

  method CountKeys<K(==, !new)>(keys: seq<K>) returns (c: seq<Count<K>>)
    ensures Tally(c, multiset(keys))
  {
    c := [];
    var k := 0;
    while k < |keys|
      invariant 0 <= k <= |keys|
      invariant Tally(c, multiset(keys[..k]))
    {
      BumpTally(c, multiset(keys[..k]), keys[k]);
      assert keys[..k + 1] == keys[..k] + [keys[k]];
      c := Bump(c, keys[k]);
      k := k + 1;
    }
    assert keys[..k] == keys;
  }

  lemma SortedIsDistinct<T(!new)>(less: (T, T) -> bool, s: seq<T>)
    requires StrictTotal(less) && SortedBy(less, s)
    ensures Distinct(s)
  {
  }

  lemma DistinctKeys<K(!new)>(c: seq<Count<K>>, r: seq<Count<K>>)
    requires forall i, j :: 0 <= i < j < |c| ==> c[i].key != c[j].key
    requires Distinct(r) && forall x :: x in r ==> x in c
    ensures forall i, j :: 0 <= i < j < |r| ==> r[i].key != r[j].key
  {
    forall i, j | 0 <= i < j < |r| ensures r[i].key != r[j].key {
      assert r[i] in c && r[j] in c && r[i] != r[j];
      var p :| 0 <= p < |c| && c[p] == r[i];
      var q :| 0 <= q < |c| && c[q] == r[j];
      assert p != q;
    }
  }

  // A tally sorted by a strict total order is still a tally.
  lemma SortedTally<K(!new)>(less: (Count<K>, Count<K>) -> bool, c: seq<Count<K>>, keys: multiset<K>)
    requires StrictTotal(less) && Tally(c, keys)
    ensures Tally(SortBy(less, c), keys) && SortedBy(less, SortBy(less, c))
  {
    hide SortBy, StrictTotal, SortedBy;
    TallyIsDistinct(c, keys);
    SortBySorted(less, c);
    SortByCounts(less, c);
    var r := SortBy(less, c);
    SortedIsDistinct(less, r);
    forall x | x in r ensures x in c {
      assert multiset(r)[x] > 0 && x in multiset(c);
    }
    DistinctKeys(c, r);
  }

  // Hourly buckets: count the hours seen, then sort them.
  method HourlySeries(seen: seq<Count<int>>) returns (r: seq<Count<int>>)
    ensures Tally(r, multiset(Keys(seen))) && SortedBy(ByHour, r)
  {
    var hours := CountKeys(Keys(seen));
    HoursAreOrdered();
    SortedTally(ByHour, hours, multiset(Keys(seen)));
    r := SortBy(ByHour, hours);
  }

  // The ten best paths.
  method TopPaths(es: seq<Entry>) returns (top: seq<Count<string>>)
    ensures IsTop(top, multiset(Map(PathOf, es)))
  {
    var paths := CountKeys(Map(PathOf, es));
    RanksAreOrdered();
    SortedTally(ByRank, paths, multiset(Map(PathOf, es)));
    var ranked := SortBy(ByRank, paths);
    top := ranked[..if |ranked| < 10 then |ranked| else 10];
  }

  lemma RunningParts(s: Stats, es: seq<Entry>, day: real -> string)
    requires Running(s, es, day)
    ensures Tally(s.categories, multiset(Map(CategoryOf, es))) && IsFirst(s.firstTs, es) && IsLast(s.lastTs, es)
  {
  }

  // What follows the loop: totals, hourly buckets, top paths, rate and category order.
  method Finish(
    stats: HttpStats, items: seq<Item>, valid: seq<Entry>, skipped: nat, sorted: seq<Entry>, window: real,
    day: real -> string)
    returns (raised: bool)
    requires valid == Valid(items) && skipped == |items| - |valid| && multiset(sorted) == multiset(valid)
    requires Running(stats.Value(), sorted, day)
    modifies stats
    ensures raised <==> valid != [] && window == 0.0 && forall a, b :: a in valid && b in valid ==> a.ts == b.ts
    ensures !raised ==> Describes(stats.Value(), items, window, day)
  {
    hide Tally, Map, Total, Describes, IsFirst, IsLast;
    hide SortedBy, IsTop, ElapsedHours, Span, InCategoryOrder, Keys, Valid;
    hide VerbOf, CategoryOf, PathOf, Running, PerHour;
    ghost var running := stats.Value();
    RunningParts(running, sorted, day);
    SameElements(sorted, valid);
    var hourly := HourlySeries(stats.hourly);
    var top := TopPaths(sorted);
    var elapsed := ElapsedHours(Span(stats.firstTs, stats.lastTs), window);
    if |valid| != 0 {
      ElapsedIsZero(stats.firstTs, stats.lastTs, sorted, window);
      if elapsed == 0.0 {
        return true;
      }
    }
    var categories := OrderCategories(stats.categories, multiset(Map(CategoryOf, sorted)));
    stats.Complete(|valid|, skipped, hourly, top, PerHour(|valid|, elapsed), categories);
    Finished(items, valid, sorted, window, day, running, stats.Value());
    raised := false;
  }

  method Aggregate(items: seq<Item>, window: real, day: real -> string) returns (raised: bool, stats: HttpStats)
    ensures raised <==> Raises(items, window)
    ensures !raised ==> Describes(stats.Value(), items, window, day)
    ensures fresh(stats)
  {
    hide Tally, Map, Total, SortBy, Describes, IsFirst, IsLast, AddEntry, Running, Valid;
    stats := new HttpStats();
    var valid, skipped := KeepValid(items);
    var sorted := SortBy(ByTime, valid);
    SortByCounts(ByTime, valid);
    RunningFromNothing(day);
    assert sorted[..0] == [];
    var k := 0;
    while k < |sorted|
      invariant 0 <= k <= |sorted| && fresh(stats)
      invariant Running(stats.Value(), sorted[..k], day)
      invariant forall i :: 0 <= i < k ==> HasDate(sorted[i].ts)
    {
      RunningOneMore(stats.Value(), sorted[..k], sorted[k], day);
      assert sorted[..k + 1] == sorted[..k] + [sorted[k]];
      var undated := stats.Add(sorted[k], day);
      if undated {
        assert sorted[k] in valid;
        return true, stats;
      }
      k := k + 1;
    }
    assert sorted[..k] == sorted;
    assert forall e :: e in valid ==> HasDate(e.ts) by {
      assert forall e :: e in valid ==> e in sorted;
    }
    raised := Finish(stats, items, valid, skipped, sorted, window, day);
  }

  lemma SameElements(s: seq<Entry>, t: seq<Entry>)
    requires multiset(s) == multiset(t)
    ensures |s| == |t| && forall e :: e in s <==> e in t
  {
    assert |multiset(s)| == |multiset(t)|;
    forall e ensures e in s <==> e in t { assert e in multiset(s) <==> e in multiset(t); }
  }

  lemma RunningFromNothing(day: real -> string)
    ensures Running(EMPTY_STATS, [], day)
  {
  }

  method OrderCategories(c: seq<Count<Category>>, ghost keys: multiset<Category>) returns (r: seq<Count<Category>>)
    requires Tally(c, keys)
    ensures InCategoryOrder(r, keys)
  {
    r := [];
    var k := 0;
    while k < 5
      invariant 0 <= k <= 5 && |r| == k
      invariant forall i :: 0 <= i < k ==> r[i] == Count(CATEGORY_ORDER[i], keys[CATEGORY_ORDER[i]])
    {
      TallyCounts(c, keys, CATEGORY_ORDER[k]);
      r := r + [Count(CATEGORY_ORDER[k], CountOf(c, CATEGORY_ORDER[k]))];
      k := k + 1;
    }
  }

  lemma ElapsedIsZero(first: Option<real>, last: Option<real>, es: seq<Entry>, window: real)
    requires IsFirst(first, es) && IsLast(last, es) && es != []
    ensures ElapsedHours(Span(first, last), window) == 0.0 <==>
      window == 0.0 && forall a, b :: a in es && b in es ==> a.ts == b.ts
  {
  }

  // The figures over the sorted entries are the figures over the valid ones.
  lemma Finished(
    items: seq<Item>, valid: seq<Entry>, sorted: seq<Entry>, window: real, day: real -> string, running: Stats,
    s: Stats)
    requires valid == Valid(items) && multiset(sorted) == multiset(valid) && Running(running, sorted, day)
    requires s == running.(
      total := |valid|, skipped := s.skipped, hourly := s.hourly, topPaths := s.topPaths,
      requestsPerHour := s.requestsPerHour, categories := s.categories)
    requires s.skipped == |items| - |valid|
    requires Tally(s.hourly, multiset(Keys(running.hourly))) && SortedBy(ByHour, s.hourly)
    requires IsTop(s.topPaths, multiset(Map(PathOf, sorted)))
    requires InCategoryOrder(s.categories, multiset(Map(CategoryOf, sorted)))
    requires var elapsed := ElapsedHours(Span(s.firstTs, s.lastTs), window);
      (valid != [] ==> elapsed != 0.0) && s.requestsPerHour == PerHour(|valid|, elapsed)
    ensures Describes(s, items, window, day)
  {
    hide Tally, Map, Total, SortedBy, ElapsedHours, Span, InCategoryOrder, IsTop, Keys, PerHour;
    MapRearranged(VerbOf, sorted, valid);
    MapRearranged(ClassOf, sorted, valid);
    MapRearranged(DayOf(day), sorted, valid);
    MapRearranged(CategoryOf, sorted, valid);
    MapRearranged(HourOf, sorted, valid);
    MapRearranged(PathOf, sorted, valid);
    TotalRearranged(Is404, sorted, valid);
    TotalRearranged(Is5xx, sorted, valid);
    TotalRearranged(BytesOf, sorted, valid);
    TotalRearranged(IsPageApi, sorted, valid);
    SameElements(sorted, valid);
  }
}
