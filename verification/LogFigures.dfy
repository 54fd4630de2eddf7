// Every figure of the aggregation, counted directly over the items with the paths, prefixes and bounds spelled out.
module LogFigures {
  import opened Options
  import opened Ordering
  import opened Counters
  import opened LogEntries
  import opened LogAggregation

  // How many elements satisfy p.
  function HowMany<T>(p: T -> bool, s: seq<T>): nat
  {
    if s == [] then 0 else (if p(s[0]) then 1 else 0) + HowMany(p, s[1..])
  }

  // ---------------------------------------------------------------- what is counted

  predicate Sound(i: Item) { i.Log? && -1_000_000_000_000.0 <= i.e.ts <= 1_000_000_000_000.0 }

  predicate Probe(i: Item) { Sound(i) && (i.e.path == "/api/v1/health" || i.e.path == "/api/v1/readiness") }

  predicate PageView(i: Item)
  {
    Sound(i) && i.e.path in ["/", "/new", "/generating", "/scene", "/accuse", "/reveal"]
  }

  predicate Call(i: Item)
  {
    Sound(i) && "/api/v1/" <= i.e.path && i.e.path != "/api/v1/health" && i.e.path != "/api/v1/readiness"
  }

  predicate Asset(i: Item) { Sound(i) && ("/assets/" <= i.e.path || "/static/" <= i.e.path) }

  predicate Unknown(i: Item) { Sound(i) && !Probe(i) && !PageView(i) && !Call(i) && !Asset(i) }

  predicate Activity(i: Item) { PageView(i) || Call(i) }

  predicate NotFound(i: Item) { Sound(i) && i.e.status == 404 }

  predicate ServerError(i: Item) { Sound(i) && i.e.status >= 500 }

  function WithVerb(verb: string): Item -> bool { (i: Item) => Sound(i) && i.e.verb == verb }

  function WithPath(path: string): Item -> bool { (i: Item) => Sound(i) && i.e.path == path }

  function OnDay(day: real -> string, d: string): Item -> bool { (i: Item) => Sound(i) && day(i.e.ts) == d }

  // Within the 3600 seconds from h on.
  function InHour(h: int): Item -> bool
  {
    (i: Item) => Sound(i) && h as real <= i.e.ts < (h + 3600) as real
  }

  function InHundred(n: int): Item -> bool { (i: Item) => Sound(i) && 100 * n <= i.e.status < 100 * n + 100 }

  predicate NoHundred(i: Item) { Sound(i) && (i.e.status < 100 || i.e.status > 599) }

  // ---------------------------------------------------------------- from totals and tallies to counts

  lemma {:induction false} TotalIsCount(f: Entry -> int, p: Item -> bool, items: seq<Item>)
    requires forall i: Item :: IsValid(i) ==> f(i.e) == if p(i) then 1 else 0
    requires forall i: Item :: p(i) ==> IsValid(i)
    ensures Total(f, Valid(items)) == HowMany(p, items)
  {
    hide IsValid;
    if items != [] {
      TotalIsCount(f, p, items[1..]);
      ValidSplits(items);
      if IsValid(items[0]) {
        assert ([items[0].e] + Valid(items[1..]))[1..] == Valid(items[1..]);
      }
    }
  }

  lemma ValidSplits(items: seq<Item>)
    requires items != []
    ensures Valid(items) == (if IsValid(items[0]) then [items[0].e] else []) + Valid(items[1..])
    ensures !IsValid(items[0]) ==> Valid(items) == Valid(items[1..])
    ensures IsValid(items[0]) ==> items[0].Log?
  {
  }

  lemma {:induction false} KeysAreCounts<K(!new)>(f: Entry -> K, k: K, p: Item -> bool, items: seq<Item>)
    requires forall i: Item :: p(i) <==> IsValid(i) && f(i.e) == k
    ensures multiset(Map(f, Valid(items)))[k] == HowMany(p, items)
  {
    hide IsValid;
    if items != [] {
      var rest := Valid(items[1..]);
      KeysAreCounts(f, k, p, items[1..]);
      ValidSplits(items);
      if IsValid(items[0]) {
        assert Valid(items) == [items[0].e] + rest && Valid(items)[1..] == rest;
        assert Map(f, Valid(items)) == [f(items[0].e)] + Map(f, rest);
      }
    }
  }

  lemma {:induction false} ValidIsCount(items: seq<Item>)
    ensures |Valid(items)| == HowMany(Sound, items)
  {
    if items != [] { ValidIsCount(items[1..]); }
  }

  lemma {:induction false} ValidMembers(items: seq<Item>)
    ensures forall e :: e in Valid(items) <==> exists i :: i in items && Sound(i) && i.e == e
  {
    hide Sound, IsValid;
    if items != [] {
      ValidMembers(items[1..]);
      ValidSplits(items);
      SoundIsValid(items[0]);
      assert items == [items[0]] + items[1..];
    }
  }

  lemma SoundIsValid(i: Item)
    ensures Sound(i) <==> IsValid(i)
    ensures Sound(i) ==> i.Log?
  {
  }

  // ---------------------------------------------------------------- categories

  lemma PrefixFacts(path: string)
    ensures path in ["/", "/new", "/generating", "/scene", "/accuse", "/reveal"] ==>
      !("/api/v1/" <= path) && path != "/api/v1/health" && path != "/api/v1/readiness"
    ensures "/api/v1/" <= path ==> !("/assets/" <= path) && !("/static/" <= path)
    ensures "/assets/" <= path || "/static/" <= path ==>
      path !in ["/", "/new", "/generating", "/scene", "/accuse", "/reveal"]
    ensures "/api/v1/" <= "/api/v1/health" && "/api/v1/" <= "/api/v1/readiness"
  {
    if |path| > 7 && path[7] == '/' {
      assert "/generating"[7] == 't';
    }
    assert "/api/v1/"[7] == "/assets/"[7] == "/static/"[7] == '/';
    assert "/api/v1/"[2] == 'p' && "/assets/"[2] == 's' && "/static/"[2] == 't';
    assert "/api/v1/health"[..8] == "/api/v1/" && "/api/v1/readiness"[..8] == "/api/v1/";
  }

  lemma CategoryExactly(i: Item)
    ensures PageView(i) <==> IsValid(i) && CategoryOf(i.e) == Page
    ensures Call(i) <==> IsValid(i) && CategoryOf(i.e) == Api
    ensures Asset(i) <==> IsValid(i) && CategoryOf(i.e) == Static
    ensures Probe(i) <==> IsValid(i) && CategoryOf(i.e) == Health
    ensures Unknown(i) <==> IsValid(i) && CategoryOf(i.e) == Other
    ensures Activity(i) <==> IsValid(i) && IsPageApi(i.e) == 1
  {
    if Sound(i) {
      PrefixFacts(i.e.path);
    }
  }

  // Player activity is page views and API calls; health checks and assets are counted apart.
  lemma CategoriesExactly(s: Stats, items: seq<Item>, window: real, day: real -> string)
    requires Describes(s, items, window, day)
    ensures s.pageApi == HowMany(Activity, items)
    ensures s.categories == [
      Count(Page, HowMany(PageView, items)), Count(Api, HowMany(Call, items)), Count(Static, HowMany(Asset, items)),
      Count(Health, HowMany(Probe, items)), Count(Other, HowMany(Unknown, items))]
  {
    hide Tally, SortedBy, ElapsedHours, Span, IsTop, IsFirst, IsLast, Map, Total, Valid, HowMany;
    hide PageView, Call, Asset, Probe, Unknown, Activity, IsValid, CategoryOf, IsPageApi;
    forall i: Item { CategoryExactly(i); }
    ActivityTotal(items);
    KeysAreCounts(CategoryOf, Page, PageView, items);
    KeysAreCounts(CategoryOf, Api, Call, items);
    KeysAreCounts(CategoryOf, Static, Asset, items);
    KeysAreCounts(CategoryOf, Health, Probe, items);
    KeysAreCounts(CategoryOf, Other, Unknown, items);
    var keys := multiset(Map(CategoryOf, Valid(items)));
    assert InCategoryOrder(s.categories, keys);
    assert s.categories[0] == Count(Page, keys[Page]) && s.categories[1] == Count(Api, keys[Api]);
    assert s.categories[2] == Count(Static, keys[Static]) && s.categories[3] == Count(Health, keys[Health]);
    assert s.categories[4] == Count(Other, keys[Other]);
  }

  lemma ActivityTotal(items: seq<Item>)
    ensures Total(IsPageApi, Valid(items)) == HowMany(Activity, items)
  {
    hide Total, HowMany, Valid, Activity, CategoryOf;
    forall i: Item { CategoryExactly(i); }
    TotalIsCount(IsPageApi, Activity, items);
  }

  // ---------------------------------------------------------------- keyed figures

  lemma CountedBy<K(!new)>(c: seq<Count<K>>, f: Entry -> K, k: K, p: Item -> bool, items: seq<Item>)
    requires Tally(c, multiset(Map(f, Valid(items)))) && forall i: Item :: p(i) <==> IsValid(i) && f(i.e) == k
    ensures CountOf(c, k) == HowMany(p, items)
  {
    TallyCounts(c, multiset(Map(f, Valid(items))), k);
    KeysAreCounts(f, k, p, items);
  }

  lemma HourExactly(t: real, h: int)
    ensures (t / 3600.0).Floor * 3600 == h <==> h % 3600 == 0 && h as real <= t < (h + 3600) as real
  {
    var q := (t / 3600.0).Floor;
    assert q as real <= t / 3600.0 < (q + 1) as real;
    assert (q * 3600) as real <= t < (q * 3600 + 3600) as real;
    if h % 3600 == 0 && h as real <= t < (h + 3600) as real {
      assert h == (h / 3600) * 3600;
      assert h < q * 3600 + 3600 && q * 3600 < h + 3600;
      assert h / 3600 == q;
    }
  }

  lemma NobodyMatches(p: Item -> bool, items: seq<Item>)
    requires forall i: Item :: !p(i)
    ensures HowMany(p, items) == 0
  {
  }

  // Totals, verbs, days, whole hours, and the two error counts.
  lemma CountsExactly(s: Stats, items: seq<Item>, window: real, day: real -> string)
    requires Describes(s, items, window, day)
    ensures s.total == HowMany(Sound, items) && s.skipped == |items| - s.total
    ensures s.count404 == HowMany(NotFound, items) && s.count5xx == HowMany(ServerError, items)
    ensures forall verb :: CountOf(s.methods, verb) == HowMany(WithVerb(verb), items)
    ensures forall d :: CountOf(s.perDay, d) == HowMany(OnDay(day, d), items)
    ensures forall h :: CountOf(s.hourly, h) == if h % 3600 == 0 then HowMany(InHour(h), items) else 0
  {
    hide Tally, SortedBy, ElapsedHours, Span, IsTop, IsFirst, IsLast, Map, Total, Valid, HowMany, InCategoryOrder;
    hide CountOf;
    ValidIsCount(items);
    TotalIsCount(Is404, NotFound, items);
    TotalIsCount(Is5xx, ServerError, items);
    forall verb ensures CountOf(s.methods, verb) == HowMany(WithVerb(verb), items) {
      CountedBy(s.methods, VerbOf, verb, WithVerb(verb), items);
    }
    forall d ensures CountOf(s.perDay, d) == HowMany(OnDay(day, d), items) {
      CountedBy(s.perDay, DayOf(day), d, OnDay(day, d), items);
    }
    forall h ensures CountOf(s.hourly, h) == if h % 3600 == 0 then HowMany(InHour(h), items) else 0 {
      HourCounted(s.hourly, h, items);
    }
  }

  lemma HourCounted(hourly: seq<Count<int>>, h: int, items: seq<Item>)
    requires Tally(hourly, multiset(Map(HourOf, Valid(items))))
    ensures CountOf(hourly, h) == if h % 3600 == 0 then HowMany(InHour(h), items) else 0
  {
    hide Tally, Map, Valid, CountOf;
    forall i: Item | i.Log? { HourExactly(i.e.ts, h); }
    if h % 3600 == 0 {
      CountedBy(hourly, HourOf, h, InHour(h), items);
    } else {
      var none := (i: Item) => false;
      CountedBy(hourly, HourOf, h, none, items);
      NobodyMatches(none, items);
    }
  }

  // Status classes by their hundreds.
  lemma ClassesExactly(s: Stats, items: seq<Item>, window: real, day: real -> string)
    requires Describes(s, items, window, day)
    ensures CountOf(s.statusClasses, "1xx") == HowMany(InHundred(1), items)
    ensures CountOf(s.statusClasses, "2xx") == HowMany(InHundred(2), items)
    ensures CountOf(s.statusClasses, "3xx") == HowMany(InHundred(3), items)
    ensures CountOf(s.statusClasses, "4xx") == HowMany(InHundred(4), items)
    ensures CountOf(s.statusClasses, "5xx") == HowMany(InHundred(5), items)
    ensures CountOf(s.statusClasses, "other") == HowMany(NoHundred, items)
  {
    hide Tally, SortedBy, ElapsedHours, Span, IsTop, IsFirst, IsLast, Map, Total, Valid, HowMany, InCategoryOrder;
    hide CountOf, StatusClass;
    forall i: Item | i.Log? { ClassExactly(i.e.status); }
    CountedBy(s.statusClasses, ClassOf, "1xx", InHundred(1), items);
    CountedBy(s.statusClasses, ClassOf, "2xx", InHundred(2), items);
    CountedBy(s.statusClasses, ClassOf, "3xx", InHundred(3), items);
    CountedBy(s.statusClasses, ClassOf, "4xx", InHundred(4), items);
    CountedBy(s.statusClasses, ClassOf, "5xx", InHundred(5), items);
    CountedBy(s.statusClasses, ClassOf, "other", NoHundred, items);
  }

  lemma ClassExactly(status: int)
    ensures StatusClass(status) == "1xx" <==> 100 <= status < 200
    ensures StatusClass(status) == "2xx" <==> 200 <= status < 300
    ensures StatusClass(status) == "3xx" <==> 300 <= status < 400
    ensures StatusClass(status) == "4xx" <==> 400 <= status < 500
    ensures StatusClass(status) == "5xx" <==> 500 <= status < 600
    ensures StatusClass(status) == "other" <==> status < 100 || status > 599
  {
    assert "1xx"[0] == '1' && "2xx"[0] == '2' && "3xx"[0] == '3' && "4xx"[0] == '4' && "5xx"[0] == '5';
    assert "other"[0] == 'o' && StatusClass(status)[0] in ['1', '2', '3', '4', '5', 'o'];
  }

  // The list of paths: at most ten, each with its count, by falling count and then by code point; a path left
  // out stands behind all ten.
  lemma TopPathsExactly(s: Stats, items: seq<Item>, window: real, day: real -> string)
    requires Describes(s, items, window, day)
    ensures |s.topPaths| <= 10
    ensures forall c :: c in s.topPaths ==> c.n == HowMany(WithPath(c.key), items) && c.n > 0
    ensures forall i, j :: 0 <= i < j < |s.topPaths| ==> RanksAbove(s.topPaths[i], s.topPaths[j])
    ensures forall path :: HowMany(WithPath(path), items) > 0 ==>
      || (exists c :: c in s.topPaths && c.key == path)
      || (|s.topPaths| == 10 &&
            forall c :: c in s.topPaths ==> RanksAbove(c, Count(path, HowMany(WithPath(path), items))))
  {
    hide ElapsedHours, Span, IsFirst, IsLast, Map, Total, Valid, HowMany, InCategoryOrder, CountOf, ByRank;
    hide RanksAbove, SortedBy, Tally;
    var es := Valid(items);
    var all :| Tally(all, multiset(Map(PathOf, es))) && SortedBy(ByRank, all)
      && s.topPaths == all[..if |all| < 10 then |all| else 10];
    forall path ensures multiset(Map(PathOf, es))[path] == HowMany(WithPath(path), items) {
      KeysAreCounts(PathOf, path, WithPath(path), items);
    }
    RankedExactly(all);
    TallyMembers(all, multiset(Map(PathOf, es)));
    forall path | HowMany(WithPath(path), items) > 0
      ensures (exists c :: c in s.topPaths && c.key == path)
        || (|s.topPaths| == 10 &&
              forall c :: c in s.topPaths ==> RanksAbove(c, Count(path, HowMany(WithPath(path), items))))
    {
      var x := Count(path, HowMany(WithPath(path), items));
      assert x in all;
      var k :| 0 <= k < |all| && all[k] == x;
      if k < |s.topPaths| {
        assert s.topPaths[k] == x && x.key == path;
      }
    }
  }

  // More hits, or as many and a name that comes first.
  ghost predicate RanksAbove(a: Count<string>, b: Count<string>)
  {
    a.n > b.n || (a.n == b.n && Smaller(a.key, b.key))
  }

  lemma RankedExactly(all: seq<Count<string>>)
    requires SortedBy(ByRank, all)
    ensures forall i, j :: 0 <= i < j < |all| ==> RanksAbove(all[i], all[j])
  {
    forall i, j | 0 <= i < j < |all| ensures RanksAbove(all[i], all[j]) {
      StringLessMeans(all[i].key, all[j].key);
      assert ByRank(all[i], all[j]);
    }
  }

  lemma TallyMembers<K(!new)>(c: seq<Count<K>>, keys: multiset<K>)
    requires Tally(c, keys)
    ensures forall x :: x in c ==> x.n == keys[x.key] && x.n > 0
    ensures forall k :: keys[k] > 0 ==> Count(k, keys[k]) in c
  {
  }

  // ---------------------------------------------------------------- rate and exceptions

  // Requests per hour over the observed span, counted as one second at least; without a span, over the window.
  lemma RateExactly(s: Stats, items: seq<Item>, window: real, day: real -> string)
    requires Describes(s, items, window, day)
    ensures s.total == 0 ==> s.requestsPerHour == 0.0 && s.firstTs.None? && s.lastTs.None?
    ensures s.total > 0 ==>
      && s.firstTs.Some? && s.lastTs.Some?
      && (exists i :: i in items && Sound(i) && i.e.ts == s.firstTs.value)
      && (exists i :: i in items && Sound(i) && i.e.ts == s.lastTs.value)
      && (forall i :: i in items && Sound(i) ==> s.firstTs.value <= i.e.ts <= s.lastTs.value)
      && var span := s.lastTs.value - s.firstTs.value;
         && (span <= 0.0 ==> window != 0.0 && s.requestsPerHour == s.total as real / window)
         && (0.0 < span < 1.0 ==> s.requestsPerHour == 3600.0 * s.total as real)
         && (1.0 <= span ==> s.requestsPerHour == s.total as real / (span / 3600.0))
  {
    hide Tally, SortedBy, IsTop, Map, Total, Valid, InCategoryOrder, ElapsedHours, Span;
    ValidMembers(items);
    forall i | i in items && Sound(i) ensures i.e in Valid(items) {}
    RateOf(s.total, s.firstTs, s.lastTs, window);
  }

  lemma RateOf(n: nat, first: Option<real>, last: Option<real>, window: real)
    requires n > 0 && first.Some? && last.Some? ==> ElapsedHours(Span(first, last), window) != 0.0
    ensures n > 0 && first.Some? && last.Some? ==>
      var span, rate := last.value - first.value, PerHour(n, ElapsedHours(Span(first, last), window));
      && (span <= 0.0 ==> window != 0.0 && rate == n as real / window)
      && (0.0 < span < 1.0 ==> rate == 3600.0 * n as real)
      && (1.0 <= span ==> rate == n as real / (span / 3600.0))
  {
  }

  // A pass raises exactly on an item before the year 1 or after the year 9999, or when there are items, all at
  // one instant, and the window is zero.
  lemma RaisesExactly(items: seq<Item>, window: real)
    ensures Raises(items, window) <==>
      || (exists i :: i in items && Sound(i) && !(-62_135_596_800.0 <= i.e.ts < 253_402_300_800.0))
      || (&& window == 0.0 && (exists i :: i in items && Sound(i))
          && forall i, j :: i in items && j in items && Sound(i) && Sound(j) ==> i.e.ts == j.e.ts)
  {
    hide Valid;
    var es := Valid(items);
    ValidMembers(items);
    forall i | i in items && Sound(i) ensures i.e in es {}
    if es != [] { assert es[0] in es; }
  }
}
