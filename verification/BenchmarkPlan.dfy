// The benchmark plan: contestant-major work items over a shuffled list of enabled contestants,
// and its split by the resume filter.
module BenchmarkPlan {
  import opened Options
  import opened Ordering
  import opened ResumeModel
  import opened ResumeHistories

  datatype Contestant = Contestant(id: string, enabled: bool)

  datatype Case = Case(id: string)

  function Enabled(cs: seq<Contestant>): (r: seq<Contestant>)
    ensures forall c :: c in r <==> c in cs && c.enabled
  {
    if cs == [] then [] else (if cs[0].enabled then [cs[0]] else []) + Enabled(cs[1..])
  }

  // Repeats from..repeat of one case.
  function Repeats(contestant: string, caseId: string, from: nat, repeat: int): seq<Combo>
    decreases repeat - from
  {
    if from >= repeat then [] else [Combo(contestant, caseId, from)] + Repeats(contestant, caseId, from + 1, repeat)
  }

  function Block(contestant: string, cases: seq<Case>, repeat: int): seq<Combo>
  {
    if cases == [] then [] else Repeats(contestant, cases[0].id, 0, repeat) + Block(contestant, cases[1..], repeat)
  }

  function Plan(order: seq<Contestant>, cases: seq<Case>, repeat: int): seq<Combo>
  {
    if order == [] then [] else Block(order[0].id, cases, repeat) + Plan(order[1..], cases, repeat)
  }

  function Ids(cs: seq<Contestant>): seq<string>
  {
    if cs == [] then [] else [cs[0].id] + Ids(cs[1..])
  }

  // The innermost loop: one item per repeat.
  method AddRepeats(items: seq<Combo>, contestant: string, caseId: string, repeat: int) returns (out: seq<Combo>)
    ensures out == items + Repeats(contestant, caseId, 0, repeat)
  {
    out := items;
    var rep := 0;
    while rep < repeat
      invariant 0 <= rep
      invariant out + Repeats(contestant, caseId, rep, repeat) == items + Repeats(contestant, caseId, 0, repeat)
    {
      out := out + [Combo(contestant, caseId, rep)];
      rep := rep + 1;
    }
  }

  // The middle loop: every case of one contestant.
  method AddBlock(items: seq<Combo>, contestant: string, cases: seq<Case>, repeat: int) returns (out: seq<Combo>)
    ensures out == items + Block(contestant, cases, repeat)
  {
    hide Repeats;
    out := items;
    var j := 0;
    while j < |cases|
      invariant 0 <= j <= |cases|
      invariant out + Block(contestant, cases[j..], repeat) == items + Block(contestant, cases, repeat)
    {
      assert cases[j..][0] == cases[j] && cases[j..][1..] == cases[j + 1..];
      out := AddRepeats(out, contestant, cases[j].id, repeat);
      j := j + 1;
    }
  }

  // shuffled is what the seeded generator makes of the enabled list, drawn the seed taken from the
  // system when none is given.
  method BuildWorkItems(
    contestants: seq<Contestant>, cases: seq<Case>, repeat: int, seed: Option<int>, fixedOrder: bool,
    shuffled: seq<Contestant>, drawn: int)
    returns (items: seq<Combo>, contestantOrder: seq<string>, effectiveSeed: Option<int>)
    requires multiset(shuffled) == multiset(Enabled(contestants))
    ensures var order := if fixedOrder then Enabled(contestants) else shuffled;
      items == Plan(order, cases, repeat) && contestantOrder == Ids(order)
    ensures effectiveSeed == if fixedOrder then None else if seed.Some? then seed else Some(drawn)
  {
    hide Block, Repeats, Enabled, Plan, Ids;
    var order := Enabled(contestants);
    effectiveSeed := seed;
    if !fixedOrder {
      if effectiveSeed.None? {
        effectiveSeed := Some(drawn);
      }
      order := shuffled;
    } else {
      effectiveSeed := None;
    }
    items, contestantOrder := [], [];
    assert order[0..] == order;
    var i := 0;
    while i < |order|
      invariant 0 <= i <= |order|
      invariant items + Plan(order[i..], cases, repeat) == Plan(order, cases, repeat)
      invariant contestantOrder + Ids(order[i..]) == Ids(order)
    {
      PlanStep(order, cases, repeat, i, items, contestantOrder);
      items := AddBlock(items, order[i].id, cases, repeat);
      contestantOrder := contestantOrder + [order[i].id];
      i := i + 1;
    }
    PlanEnd(order, cases, repeat);
  }

  lemma PlanStep(order: seq<Contestant>, cases: seq<Case>, repeat: int, i: nat, items: seq<Combo>, ids: seq<string>)
    requires i < |order|
    ensures items + Plan(order[i..], cases, repeat) ==
      (items + Block(order[i].id, cases, repeat)) + Plan(order[i + 1..], cases, repeat)
    ensures ids + Ids(order[i..]) == (ids + [order[i].id]) + Ids(order[i + 1..])
  {
    hide Block;
    assert order[i..][0] == order[i] && order[i..][1..] == order[i + 1..];
  }

  lemma PlanEnd(order: seq<Contestant>, cases: seq<Case>, repeat: int)
    ensures Plan(order[|order|..], cases, repeat) == [] && Ids(order[|order|..]) == []
    ensures order[0..] == order
  {
  }

  // ---------------------------------------------------------------- every combo exactly once

  ghost predicate UniqueIds(cs: seq<Contestant>) { forall i, j :: 0 <= i < j < |cs| ==> cs[i].id != cs[j].id }

  ghost predicate UniqueCases(cs: seq<Case>) { forall i, j :: 0 <= i < j < |cs| ==> cs[i].id != cs[j].id }

  lemma {:induction false} RepeatsOnce(contestant: string, caseId: string, from: nat, repeat: int)
    ensures forall c :: c in Repeats(contestant, caseId, from, repeat) <==>
      c.contestant == contestant && c.caseId == caseId && from <= c.repeatIndex < repeat
    ensures Distinct(Repeats(contestant, caseId, from, repeat))
    decreases repeat - from
  {
    if from < repeat {
      var rest := Repeats(contestant, caseId, from + 1, repeat);
      RepeatsOnce(contestant, caseId, from + 1, repeat);
      HeadAndTail([Combo(contestant, caseId, from)], rest);
      forall c ensures c in Repeats(contestant, caseId, from, repeat) <==>
        c.contestant == contestant && c.caseId == caseId && from <= c.repeatIndex < repeat
      {
        if c.contestant == contestant && c.caseId == caseId && c.repeatIndex == from {
          assert c == Combo(contestant, caseId, from);
        }
      }
    }
  }

  // Two duplicate-free lists without a common element make a duplicate-free list.
  lemma HeadAndTail(a: seq<Combo>, b: seq<Combo>)
    requires Distinct(a) && Distinct(b) && forall c :: c in a ==> c !in b
    ensures Distinct(a + b)
  {
    var ab := a + b;
    forall i, j | 0 <= i < j < |ab| ensures ab[i] != ab[j] {
      if i < |a| <= j {
        assert ab[i] in a && ab[j] in b;
      }
    }
  }

  lemma {:induction false} BlockOnce(contestant: string, cases: seq<Case>, repeat: int)
    ensures forall c :: c in Block(contestant, cases, repeat) <==>
      c.contestant == contestant && Case(c.caseId) in cases && 0 <= c.repeatIndex < repeat
    ensures UniqueCases(cases) ==> Distinct(Block(contestant, cases, repeat))
  {
    if cases != [] {
      RepeatsOnce(contestant, cases[0].id, 0, repeat);
      BlockOnce(contestant, cases[1..], repeat);
      assert cases == [cases[0]] + cases[1..];
      assert forall c: Combo :: Case(c.caseId) in cases <==> c.caseId == cases[0].id || Case(c.caseId) in cases[1..];
      if UniqueCases(cases) {
        forall x | x in cases[1..] ensures x.id != cases[0].id {
          var i :| 0 <= i < |cases[1..]| && cases[1..][i] == x;
          assert cases[i + 1] == x;
        }
        HeadAndTail(Repeats(contestant, cases[0].id, 0, repeat), Block(contestant, cases[1..], repeat));
      }
    }
  }

  // A combo is planned exactly when its contestant is in the order, its case is selected and its
  // repeat is in range; and with unique ids it is planned once.
  lemma {:induction false} PlanOnce(order: seq<Contestant>, cases: seq<Case>, repeat: int)
    ensures forall c :: c in Plan(order, cases, repeat) <==>
      (exists x :: x in order && x.id == c.contestant) && Case(c.caseId) in cases && 0 <= c.repeatIndex < repeat
    ensures UniqueIds(order) && UniqueCases(cases) ==> Distinct(Plan(order, cases, repeat))
  {
    if order != [] {
      var head, tail := order[0], order[1..];
      BlockOnce(head.id, cases, repeat);
      PlanOnce(tail, cases, repeat);
      assert order == [head] + tail;
      forall c: Combo
        ensures (exists x :: x in order && x.id == c.contestant) <==>
          head.id == c.contestant || exists x :: x in tail && x.id == c.contestant
      {
        if x :| x in tail && x.id == c.contestant { assert x in order; }
        if head.id == c.contestant { assert head in order; }
      }
      if UniqueIds(order) && UniqueCases(cases) {
        forall x | x in tail ensures x.id != head.id {
          var i :| 0 <= i < |tail| && tail[i] == x;
          assert order[i + 1] == x;
        }
        HeadAndTail(Block(head.id, cases, repeat), Plan(tail, cases, repeat));
      }
    }
  }

  lemma {:induction false} EnabledUnique(cs: seq<Contestant>)
    requires UniqueIds(cs)
    ensures UniqueIds(Enabled(cs))
  {
    if cs != [] {
      EnabledUnique(cs[1..]);
      var rest := Enabled(cs[1..]);
      forall k | 0 <= k < |rest| ensures rest[k].id != cs[0].id {
        assert rest[k] in cs[1..];
        var i :| 0 <= i < |cs[1..]| && cs[1..][i] == rest[k];
        assert cs[i + 1] == rest[k];
      }
    }
  }

  lemma PermutationKeepsUniqueness(a: seq<Contestant>, b: seq<Contestant>)
    requires UniqueIds(a) && multiset(a) == multiset(b)
    ensures UniqueIds(b) && forall x :: x in b <==> x in a
  {
    forall x ensures x in b <==> x in a {
      assert x in multiset(a) <==> x in multiset(b);
    }
    forall i, j | 0 <= i < j < |b| ensures b[i].id != b[j].id {
      assert b[i] in a && b[j] in a;
      if b[i].id == b[j].id {
        SameIdSameContestant(a, b[i], b[j]);
        assert b == b[..i] + [b[i]] + b[i + 1..j] + [b[j]] + b[j + 1..];
        assert multiset(b)[b[i]] >= 2;
        OnceInUnique(a, b[i]);
        assert false;
      }
    }
  }

  lemma SameIdSameContestant(a: seq<Contestant>, x: Contestant, y: Contestant)
    requires UniqueIds(a) && x in a && y in a && x.id == y.id
    ensures x == y
  {
  }

  lemma {:induction false} OnceInUnique(a: seq<Contestant>, x: Contestant)
    requires UniqueIds(a)
    ensures multiset(a)[x] <= 1
  {
    if a != [] {
      OnceInUnique(a[1..], x);
      assert a == [a[0]] + a[1..];
      if a[0] == x {
        assert forall i :: 0 <= i < |a[1..]| ==> a[1..][i] == a[i + 1];
        assert x !in a[1..];
      }
    }
  }

  // Whatever the shuffle, the plan lists each (enabled contestant, case, repeat) exactly once.
  lemma EveryShufflePlansOnce(contestants: seq<Contestant>, cases: seq<Case>, repeat: int, shuffled: seq<Contestant>)
    requires UniqueIds(contestants) && UniqueCases(cases)
    requires multiset(shuffled) == multiset(Enabled(contestants))
    ensures var items := Plan(shuffled, cases, repeat);
      && Distinct(items)
      && forall c :: c in items <==>
           Contestant(c.contestant, true) in contestants && Case(c.caseId) in cases && 0 <= c.repeatIndex < repeat
  {
    EnabledUnique(contestants);
    PermutationKeepsUniqueness(Enabled(contestants), shuffled);
    PlanOnce(shuffled, cases, repeat);
    forall c: Combo
      ensures (exists x :: x in shuffled && x.id == c.contestant) <==> Contestant(c.contestant, true) in contestants
    {
      if x :| x in shuffled && x.id == c.contestant {
        assert x == Contestant(c.contestant, true);
      }
      if Contestant(c.contestant, true) in contestants {
        assert Contestant(c.contestant, true) in shuffled;
      }
    }
  }

  // All items of an earlier contestant come before all items of a later one.
  lemma {:induction false} ContestantMajor(
    order: seq<Contestant>, cases: seq<Case>, repeat: int, i: nat, j: nat, a: nat, b: nat)
    requires UniqueIds(order) && i < j < |order|
    requires a < |Plan(order, cases, repeat)| && Plan(order, cases, repeat)[a].contestant == order[i].id
    requires b < |Plan(order, cases, repeat)| && Plan(order, cases, repeat)[b].contestant == order[j].id
    ensures a < b
  {
    hide Block, Repeats;
    var n := |Block(order[0].id, cases, repeat)|;
    FirstBlock(order, cases, repeat, a);
    FirstBlock(order, cases, repeat, b);
    assert order[0].id != order[j].id;
    if i > 0 {
      assert order[0].id != order[i].id;
      ContestantMajor(order[1..], cases, repeat, i - 1, j - 1, a - n, b - n);
    }
  }

  // The items of the first contestant are exactly the first block.
  lemma FirstBlock(order: seq<Contestant>, cases: seq<Case>, repeat: int, k: nat)
    requires UniqueIds(order) && order != [] && k < |Plan(order, cases, repeat)|
    ensures var n := |Block(order[0].id, cases, repeat)|;
      var item := Plan(order, cases, repeat)[k];
      && (k < n <==> item.contestant == order[0].id)
      && (k >= n ==> k - n < |Plan(order[1..], cases, repeat)| && item == Plan(order[1..], cases, repeat)[k - n])
  {
    hide Block, Repeats;
    var block, rest := Block(order[0].id, cases, repeat), Plan(order[1..], cases, repeat);
    var n := |block|;
    BlockOnce(order[0].id, cases, repeat);
    PlanOnce(order[1..], cases, repeat);
    if k < n {
      assert block[k] in block;
    } else {
      assert rest[k - n] in rest;
      var x :| x in order[1..] && x.id == rest[k - n].contestant;
      var q :| 0 <= q < |order[1..]| && order[1..][q] == x;
      assert order[q + 1].id != order[0].id;
    }
  }

  // ---------------------------------------------------------------- which item stands where

  function Product(a: nat, b: nat): nat { a * b }

  lemma ProductStep(a: nat, b: nat)
    ensures Product(a + 1, b) == Product(a, b) + b && Product(0, b) == 0
    ensures Product(a, b) == a * b
  {
  }

  lemma {:induction false} RepeatAt(contestant: string, caseId: string, from: nat, repeat: nat, r: nat)
    requires from <= repeat
    ensures |Repeats(contestant, caseId, from, repeat)| == repeat - from
    ensures from + r < repeat ==> Repeats(contestant, caseId, from, repeat)[r] == Combo(contestant, caseId, from + r)
    decreases repeat - from
  {
    if from < repeat { RepeatAt(contestant, caseId, from + 1, repeat, if r == 0 then 0 else r - 1); }
  }

  lemma {:induction false} BlockAt(contestant: string, cases: seq<Case>, repeat: nat, j: nat, r: nat)
    ensures |Block(contestant, cases, repeat)| == Product(|cases|, repeat)
    ensures j < |cases| && r < repeat ==>
      var k := Product(j, repeat) + r;
      k < |Block(contestant, cases, repeat)| && Block(contestant, cases, repeat)[k] == Combo(contestant, cases[j].id, r)
  {
    hide Product, Repeats;
    if cases != [] {
      var head, rest := Repeats(contestant, cases[0].id, 0, repeat), Block(contestant, cases[1..], repeat);
      assert Block(contestant, cases, repeat) == head + rest;
      RepeatAt(contestant, cases[0].id, 0, repeat, r);
      BlockAt(contestant, cases[1..], repeat, if j == 0 then 0 else j - 1, r);
      ProductStep(|cases| - 1, repeat);
      if 0 < j < |cases| && r < repeat {
        ProductStep(j - 1, repeat);
        assert (head + rest)[repeat + (Product(j - 1, repeat) + r)] == rest[Product(j - 1, repeat) + r];
      } else {
        ProductStep(0, repeat);
      }
    } else {
      ProductStep(0, repeat);
    }
  }

  lemma {:induction false} ItemAt(order: seq<Contestant>, cases: seq<Case>, repeat: nat, i: nat, j: nat, r: nat)
    ensures |Plan(order, cases, repeat)| == Product(|order|, Product(|cases|, repeat))
    ensures i < |order| && j < |cases| && r < repeat ==>
      var k := Product(i, Product(|cases|, repeat)) + (Product(j, repeat) + r);
      && k < |Plan(order, cases, repeat)|
      && Plan(order, cases, repeat)[k] == Combo(order[i].id, cases[j].id, r)
  {
    hide Product, Block, Repeats;
    var size := Product(|cases|, repeat);
    if order != [] {
      var head, rest := Block(order[0].id, cases, repeat), Plan(order[1..], cases, repeat);
      assert Plan(order, cases, repeat) == head + rest;
      BlockAt(order[0].id, cases, repeat, j, r);
      ItemAt(order[1..], cases, repeat, if i == 0 then 0 else i - 1, j, r);
      ProductStep(|order| - 1, size);
      if 0 < i < |order| && j < |cases| && r < repeat {
        var m := Product(i - 1, size) + (Product(j, repeat) + r);
        ProductStep(i - 1, size);
        assert (head + rest)[size + m] == rest[m];
      } else {
        ProductStep(0, size);
      }
    } else {
      ProductStep(0, size);
    }
  }

  function Position(cases: nat, repeat: nat, i: nat, j: nat, r: nat): nat { (i * cases + j) * repeat + r }

  // The position of every item: contestant by contestant, then case by case, then repeat by repeat.
  lemma PlanAt(order: seq<Contestant>, cases: seq<Case>, repeat: nat, i: nat, j: nat, r: nat)
    requires i < |order| && j < |cases| && r < repeat
    ensures |Plan(order, cases, repeat)| == |order| * |cases| * repeat
    ensures var k := Position(|cases|, repeat, i, j, r);
      k < |Plan(order, cases, repeat)| && Plan(order, cases, repeat)[k] == Combo(order[i].id, cases[j].id, r)
  {
    hide Plan;
    ItemAt(order, cases, repeat, i, j, r);
    PositionIsSum(|order|, |cases|, repeat, i, j, r);
  }

  lemma PositionIsSum(n: nat, cases: nat, repeat: nat, i: nat, j: nat, r: nat)
    ensures Position(cases, repeat, i, j, r) == Product(i, Product(cases, repeat)) + (Product(j, repeat) + r)
    ensures n * cases * repeat == Product(n, Product(cases, repeat))
  {
    var size := cases * repeat;
    assert (i * cases + j) * repeat == i * cases * repeat + j * repeat;
    assert i * cases * repeat == i * size && n * cases * repeat == n * size;
  }

  // The enabled contestants stand in the order of the manifest.
  lemma {:induction false} EnabledInOrder(cs: seq<Contestant>, x: Contestant, y: Contestant)
    ensures Before(Enabled(cs), x, y) <==> Before(cs, x, y) && x.enabled && y.enabled
  {
    hide Before;
    if cs == [] {
      NoneBefore(x, y);
    } else {
      EnabledInOrder(cs[1..], x, y);
      BeforeExactly(cs, x, y);
      if cs[0].enabled {
        assert Enabled(cs)[1..] == Enabled(cs[1..]);
        BeforeExactly(Enabled(cs), x, y);
      } else {
        assert Enabled(cs) == Enabled(cs[1..]);
      }
    }
  }

  // Each of them is listed as often as in the manifest.
  lemma {:induction false} EnabledCounts(cs: seq<Contestant>, x: Contestant)
    ensures multiset(Enabled(cs))[x] == if x.enabled then multiset(cs)[x] else 0
  {
    if cs != [] {
      EnabledCounts(cs[1..], x);
      assert cs == [cs[0]] + cs[1..];
    }
  }

  lemma NoneBefore(x: Contestant, y: Contestant)
    ensures !Before([], x, y)
  {
  }

  // ---------------------------------------------------------------- the resume filter

  // The plan items a resume leaves out, in plan order.
  function Skipped(plan: seq<Combo>, completed: set<Combo>): seq<Combo>
  {
    if plan == [] then []
    else if plan[0] in completed then [plan[0]] + Skipped(plan[1..], completed)
    else Skipped(plan[1..], completed)
  }

  // Skipped and pending items together are the plan: nothing is lost and nothing doubled.
  lemma {:induction false} FilterSplitsPlan(plan: seq<Combo>, completed: set<Combo>)
    ensures multiset(Pending(plan, completed)) + multiset(Skipped(plan, completed)) == multiset(plan)
    ensures |Skipped(plan, completed)| == |plan| - |Pending(plan, completed)|
    ensures forall c :: c in Skipped(plan, completed) <==> c in plan && c in completed
    ensures forall c :: c in Pending(plan, completed) <==> c in plan && c !in completed
  {
    PendingMembers(plan, completed);
    if plan != [] {
      FilterSplitsPlan(plan[1..], completed);
      assert plan == [plan[0]] + plan[1..];
    }
  }
}
