// What the aggregate figures mean together, whatever the order of the entries.
module LogResults {
  import opened Options
  import opened Ordering
  import opened Counters
  import opened LogEntries
  import opened LogAggregation

  // ---------------------------------------------------------------- order independence

  lemma {:induction false} ValidWithout(items: seq<Item>, i: nat)
    requires i < |items|
    ensures multiset(Valid(items)) ==
      multiset(Valid(Without(items, i))) + (if IsValid(items[i]) then multiset{items[i].e} else multiset{})
  {
    if i == 0 {
      assert Without(items, 0) == items[1..];
    } else {
      WithoutTail(items, i);
      ValidWithout(items[1..], i - 1);
    }
  }

  lemma {:induction false} ValidRearranged(s: seq<Item>, t: seq<Item>)
    requires multiset(s) == multiset(t)
    ensures multiset(Valid(s)) == multiset(Valid(t)) && |s| == |t|
    decreases |s|
  {
    assert |s| == |multiset(s)| && |t| == |multiset(t)|;
    if s != [] {
      var i := TakeOut(s, t);
      ValidWithout(t, i);
      ValidRearranged(s[1..], Without(t, i));
    }
  }

  // Equal figures; counters are equal as dictionaries, entry by entry.
  ghost predicate SameFigures(a: Stats, b: Stats)
  {
    && a.total == b.total && a.skipped == b.skipped
    && (forall x :: x in a.methods <==> x in b.methods)
    && (forall x :: x in a.statusClasses <==> x in b.statusClasses)
    && (forall x :: x in a.perDay <==> x in b.perDay)
    && a.count404 == b.count404 && a.count5xx == b.count5xx && a.bytes == b.bytes && a.pageApi == b.pageApi
    && a.hourly == b.hourly && a.categories == b.categories && a.topPaths == b.topPaths
    && a.firstTs == b.firstTs && a.lastTs == b.lastTs && a.requestsPerHour == b.requestsPerHour
  }

  // The figures of a log do not depend on the order of its entries.
  lemma OrderDoesNotMatter(a: Stats, b: Stats, s: seq<Item>, t: seq<Item>, window: real, day: real -> string)
    requires multiset(s) == multiset(t)
    requires Describes(a, s, window, day) && Describes(b, t, window, day)
    ensures SameFigures(a, b)
  {
    hide Tally, SortedBy, ElapsedHours, Span, IsTop, InCategoryOrder, Map, Total, Valid, IsFirst, IsLast;
    ValidRearranged(s, t);
    var es, fs := Valid(s), Valid(t);
    SameElements(es, fs);
    MapRearranged(VerbOf, es, fs);
    MapRearranged(ClassOf, es, fs);
    MapRearranged(DayOf(day), es, fs);
    MapRearranged(CategoryOf, es, fs);
    MapRearranged(HourOf, es, fs);
    MapRearranged(PathOf, es, fs);
    TotalRearranged(Is404, es, fs);
    TotalRearranged(Is5xx, es, fs);
    TotalRearranged(BytesOf, es, fs);
    TotalRearranged(IsPageApi, es, fs);
    TallySameEntries(a.methods, b.methods, multiset(Map(VerbOf, es)));
    TallySameEntries(a.statusClasses, b.statusClasses, multiset(Map(ClassOf, es)));
    TallySameEntries(a.perDay, b.perDay, multiset(Map(DayOf(day), es)));
    TallySameEntries(a.hourly, b.hourly, multiset(Map(HourOf, es)));
    HoursAreOrdered();
    SortedUnique(ByHour, a.hourly, b.hourly);
    TopIsUnique(a.topPaths, b.topPaths, multiset(Map(PathOf, es)));
    CategoriesAreUnique(a.categories, b.categories, multiset(Map(CategoryOf, es)));
    ExtremesAreUnique(a.firstTs, b.firstTs, a.lastTs, b.lastTs, es, fs);
  }

  lemma TopIsUnique(a: seq<Count<string>>, b: seq<Count<string>>, paths: multiset<string>)
    requires IsTop(a, paths) && IsTop(b, paths)
    ensures a == b
  {
    var s :| Tally(s, paths) && SortedBy(ByRank, s) && a == s[..if |s| < 10 then |s| else 10];
    var t :| Tally(t, paths) && SortedBy(ByRank, t) && b == t[..if |t| < 10 then |t| else 10];
    TallySameEntries(s, t, paths);
    RanksAreOrdered();
    SortedUnique(ByRank, s, t);
  }

  lemma CategoriesAreUnique(a: seq<Count<Category>>, b: seq<Count<Category>>, keys: multiset<Category>)
    requires InCategoryOrder(a, keys) && InCategoryOrder(b, keys)
    ensures a == b
  {
  }

  lemma ExtremesAreUnique(
    first: Option<real>, first': Option<real>, last: Option<real>, last': Option<real>, es: seq<Entry>, fs: seq<Entry>)
    requires IsFirst(first, es) && IsFirst(first', fs) && IsLast(last, es) && IsLast(last', fs)
    requires |es| == |fs| && forall e :: e in es <==> e in fs
    ensures first == first' && last == last'
  {
  }

  // ---------------------------------------------------------------- conservation

  // Nothing is lost: total and skipped make up the input, and verbs, classes, days, hours and
  // categories each account for every counted entry once.
  lemma EveryEntryCountedOnce(s: Stats, items: seq<Item>, window: real, day: real -> string)
    requires Describes(s, items, window, day)
    ensures s.total + s.skipped == |items|
    ensures Sum(s.methods) == Sum(s.statusClasses) == Sum(s.perDay) == Sum(s.hourly) == Sum(s.categories) == s.total
  {
    hide SortedBy, ElapsedHours, Span, IsTop, IsFirst, IsLast, Tally, Map, Total, Valid;
    var es := Valid(items);
    MapSize(VerbOf, es);
    MapSize(ClassOf, es);
    MapSize(DayOf(day), es);
    MapSize(HourOf, es);
    MapSize(CategoryOf, es);
    TallySum(s.methods, multiset(Map(VerbOf, es)));
    TallySum(s.statusClasses, multiset(Map(ClassOf, es)));
    TallySum(s.perDay, multiset(Map(DayOf(day), es)));
    TallySum(s.hourly, multiset(Map(HourOf, es)));
    CategoriesSum(s.categories, multiset(Map(CategoryOf, es)));
  }

  lemma MapSize<T, K>(f: T -> K, s: seq<T>)
    ensures |multiset(Map(f, s))| == |s|
  {
  }

  lemma CategoriesSum(c: seq<Count<Category>>, keys: multiset<Category>)
    requires InCategoryOrder(c, keys)
    ensures Sum(c) == |keys|
  {
    var c1, c2, c3, c4 := c[1..], c[2..], c[3..], c[4..];
    assert c1[1..] == c2 && c2[1..] == c3 && c3[1..] == c4 && c4[1..] == [];
    assert Sum(c) == c[0].n + Sum(c1) && Sum(c1) == c[1].n + Sum(c2) && Sum(c2) == c[2].n + Sum(c3);
    assert Sum(c3) == c[3].n + Sum(c4) && Sum(c4) == c[4].n + Sum<Category>([]);
    var k0 := keys;
    var k1 := k0[Page := 0];
    var k2 := k1[Api := 0];
    var k3 := k2[Static := 0];
    var k4 := k3[Health := 0];
    var k5 := k4[Other := 0];
    RemoveKey(k0, Page);
    RemoveKey(k1, Api);
    RemoveKey(k2, Static);
    RemoveKey(k3, Health);
    RemoveKey(k4, Other);
    forall k: Category ensures k5[k] == 0 {
      match k
      case Page =>
      case Api =>
      case Static =>
      case Health =>
      case Other =>
    }
    assert k5 == multiset{};
  }

  // ---------------------------------------------------------------- relations between figures

  lemma {:induction false} PageApiTotal(es: seq<Entry>)
    ensures Total(IsPageApi, es) == multiset(Map(CategoryOf, es))[Page] + multiset(Map(CategoryOf, es))[Api]
  {
    if es != [] {
      PageApiTotal(es[1..]);
      assert Map(CategoryOf, es) == [CategoryOf(es[0])] + Map(CategoryOf, es[1..]);
    }
  }

  // The player-activity figure is exactly the page views plus the API calls.
  lemma PageApiIsPagePlusApi(s: Stats, items: seq<Item>, window: real, day: real -> string)
    requires Describes(s, items, window, day)
    ensures s.pageApi == s.categories[0].n + s.categories[1].n
    ensures s.categories[0].key == Page && s.categories[1].key == Api
  {
    hide Tally, SortedBy, ElapsedHours, Span, IsTop, IsFirst, IsLast, Map, Total, Valid;
    PageApiTotal(Valid(items));
    assert s.categories[0] == Count(CATEGORY_ORDER[0], multiset(Map(CategoryOf, Valid(items)))[CATEGORY_ORDER[0]]);
    assert s.categories[1] == Count(CATEGORY_ORDER[1], multiset(Map(CategoryOf, Valid(items)))[CATEGORY_ORDER[1]]);
  }

  // How many entries have a status above 599, which counts as 5xx but not in the class "5xx".
  function Beyond(e: Entry): int { if e.status > 599 then 1 else 0 }

  lemma {:induction false} FiveHundreds(es: seq<Entry>)
    ensures Total(Is5xx, es) == multiset(Map(ClassOf, es))["5xx"] + Total(Beyond, es)
    ensures Total(Beyond, es) >= 0 && (Total(Beyond, es) == 0 <==> forall e :: e in es ==> e.status <= 599)
  {
    if es != [] {
      FiveHundreds(es[1..]);
      assert es == [es[0]] + es[1..];
      assert Map(ClassOf, es) == [ClassOf(es[0])] + Map(ClassOf, es[1..]);
      ClassIs5xx(es[0].status);
    }
  }

  lemma ClassIs5xx(status: int)
    ensures StatusClass(status) == "5xx" <==> 500 <= status <= 599
  {
    assert "1xx"[0] != "5xx"[0] && "2xx"[0] != "5xx"[0] && "3xx"[0] != "5xx"[0] && "4xx"[0] != "5xx"[0]
      && "other"[0] != "5xx"[0];
  }

  // The 5xx count and the class "5xx" agree exactly when no counted entry has a status above 599.
  lemma Count5xxIsTheClass(s: Stats, items: seq<Item>, window: real, day: real -> string)
    requires Describes(s, items, window, day)
    ensures s.count5xx == CountOf(s.statusClasses, "5xx") <==> forall e :: e in Valid(items) ==> e.status <= 599
  {
    hide Tally, SortedBy, ElapsedHours, Span, IsTop, IsFirst, IsLast, InCategoryOrder, Map, Total, Valid, CountOf;
    TallyCounts(s.statusClasses, multiset(Map(ClassOf, Valid(items))), "5xx");
    FiveHundreds(Valid(items));
  }

  // A log as the parser delivers it: entries built from decoded objects.
  function Parsed(objects: seq<LogObject>): seq<Item>
  {
    if objects == [] then []
    else
      var e := EntryFromObject(objects[0]);
      (if e.Some? then [Log(e.value)] else []) + Parsed(objects[1..])
  }

  lemma {:induction false} ParsedIsPlausible(objects: seq<LogObject>)
    ensures |Valid(Parsed(objects))| == |Parsed(objects)|
    ensures forall e :: e in Valid(Parsed(objects)) ==> Plausible(e)
  {
    if objects != [] {
      ParsedIsPlausible(objects[1..]);
      EntriesArePlausible(objects[0]);
      var e := EntryFromObject(objects[0]);
      if e.Some? {
        assert Parsed(objects) == [Log(e.value)] + Parsed(objects[1..]);
        assert Parsed(objects)[1..] == Parsed(objects[1..]);
      } else {
        assert Parsed(objects) == Parsed(objects[1..]);
      }
    }
  }

  // For parsed logs nothing is skipped in the aggregation, and the two 5xx figures agree.
  lemma ParsedLogsAgreeOn5xx(s: Stats, objects: seq<LogObject>, window: real, day: real -> string)
    requires Describes(s, Parsed(objects), window, day)
    ensures s.skipped == 0 && s.count5xx == CountOf(s.statusClasses, "5xx")
  {
    ParsedIsPlausible(objects);
    Count5xxIsTheClass(s, Parsed(objects), window, day);
  }

  // Hourly buckets are whole hours in strictly ascending order, none of them empty.
  lemma HoursAscend(s: Stats, items: seq<Item>, window: real, day: real -> string)
    requires Describes(s, items, window, day)
    ensures forall i, j :: 0 <= i < j < |s.hourly| ==> s.hourly[i].key < s.hourly[j].key
    ensures forall i :: 0 <= i < |s.hourly| ==> s.hourly[i].n > 0 && s.hourly[i].key % 3600 == 0
  {
    hide ElapsedHours, Span, IsTop, IsFirst, IsLast, InCategoryOrder, Total, Valid;
    var es := Valid(items);
    forall i, j | 0 <= i < j < |s.hourly| ensures s.hourly[i].key < s.hourly[j].key {
      assert ByHour(s.hourly[i], s.hourly[j]);
    }
    forall i | 0 <= i < |s.hourly| ensures s.hourly[i].n > 0 && s.hourly[i].key % 3600 == 0 {
      assert s.hourly[i] in s.hourly;
      assert s.hourly[i].key in Map(HourOf, es);
      HoursAreWhole(es, s.hourly[i].key);
    }
  }

  lemma {:induction false} HoursAreWhole(es: seq<Entry>, h: int)
    requires h in Map(HourOf, es)
    ensures h % 3600 == 0
  {
    assert Map(HourOf, es) == [HourOf(es[0])] + Map(HourOf, es[1..]);
    if h != HourOf(es[0]) {
      HoursAreWhole(es[1..], h);
    }
  }

  // ---------------------------------------------------------------- the two exceptions

  const FAR_FUTURE := 300_000_000_000.0

  function Hit(ts: real): LogObject
  {
    LogObject(true, Some("/"), Some("GET"), Converted(200), Converted(Seconds(ts)), NoSize)
  }

  lemma OneHit(ts: real)
    requires -MAX_TS <= ts <= MAX_TS
    ensures EntryFromObject(Hit(ts)).Some? && EntryFromObject(Hit(ts)).value.ts == ts
    ensures Valid(Parsed([Hit(ts)])) == [EntryFromObject(Hit(ts)).value]
  {
    var e := EntryFromObject(Hit(ts)).value;
    assert [Hit(ts)][1..] == [] && Parsed([]) == [];
    assert Parsed([Hit(ts)]) == [Log(e)];
    assert [Log(e)][1..] == [] && Valid([]) == [];
  }

  // A plausible timestamp in the year 11476 passes both clamps and makes the pass raise, whatever the window.
  lemma FarFutureRaises(window: real)
    ensures EntryFromObject(Hit(FAR_FUTURE)).Some? && Raises(Parsed([Hit(FAR_FUTURE)]), window)
  {
    OneHit(FAR_FUTURE);
    assert EntryFromObject(Hit(FAR_FUTURE)).value in Valid(Parsed([Hit(FAR_FUTURE)]));
  }

  lemma {:induction false} ParsedMembers(objects: seq<LogObject>, e: Entry)
    ensures e in Valid(Parsed(objects)) <==> exists o :: o in objects && EntryFromObject(o) == Some(e)
  {
    if objects != [] {
      var o, rest := objects[0], objects[1..];
      ParsedMembers(rest, e);
      EntriesArePlausible(o);
      assert objects == [o] + rest;
      if EntryFromObject(o).Some? {
        assert Parsed(objects) == [Log(EntryFromObject(o).value)] + Parsed(rest);
        assert Parsed(objects)[1..] == Parsed(rest);
      } else {
        assert Parsed(objects) == Parsed(rest);
      }
    }
  }

  // For a window the command line admits, the pass over a log raises exactly when a single parsed line has a
  // timestamp outside the calendar; the report then counts every line of the log as skipped.
  lemma OneUndatedLineSpoilsTheLog(objects: seq<LogObject>, window: real)
    requires window > 0.0
    ensures Raises(Parsed(objects), window) <==>
      exists o :: o in objects && EntryFromObject(o).Some? && !HasDate(EntryFromObject(o).value.ts)
  {
    forall e ensures e in Valid(Parsed(objects)) <==> exists o :: o in objects && EntryFromObject(o) == Some(e) {
      ParsedMembers(objects, e);
    }
    if o :| o in objects && EntryFromObject(o).Some? && !HasDate(EntryFromObject(o).value.ts) {
      assert EntryFromObject(o) == Some(EntryFromObject(o).value);
      assert EntryFromObject(o).value in Valid(Parsed(objects));
    }
  }

  // One ordinary entry and a window of zero: there is nothing to divide by.
  lemma ZeroWindowRaises()
    ensures Raises(Parsed([Hit(0.0)]), 0.0) && forall window: real :: window != 0.0 ==>
      !Raises(Parsed([Hit(0.0)]), window)
  {
    OneHit(0.0);
  }
}
