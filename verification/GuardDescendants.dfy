// Descendant search over a process table whose parent relation may be cyclic.
module GuardDescendants {
  import opened Options
  import opened Ordering

  // One row of the process listing; ppid may be unreadable.
  datatype Row = Row(pid: int, ppid: Option<int>)

  // ---------------------------------------------------------------- sorted pid lists

  predicate Less(a: int, b: int) { a < b }

  predicate StrictlyAscending(s: seq<int>) { forall i, j :: 0 <= i < j < |s| ==> s[i] < s[j] }

  function Sorted(s: seq<int>): (r: seq<int>)
    ensures forall x :: x in r <==> x in s
  {
    SortByCounts(Less, s);
    SortBy(Less, s)
  }

  lemma SortedDistinct(s: seq<int>)
    requires Distinct(s)
    ensures StrictlyAscending(Sorted(s))
  {
    SortBySorted(Less, s);
    assert forall i, j :: 0 <= i < j < |Sorted(s)| ==> Less(Sorted(s)[i], Sorted(s)[j]);
  }

  // ---------------------------------------------------------------- reachability

  ghost predicate Edge(table: seq<Row>, parent: int, child: int) { Row(child, Some(parent)) in table }

  // A chain of parent-to-child steps with at least one step.
  ghost predicate Chain(table: seq<Row>, path: seq<int>, root: int, p: int)
  {
    && |path| >= 2 && path[0] == root && path[|path| - 1] == p
    && forall i :: 0 <= i < |path| - 1 ==> Edge(table, path[i], path[i + 1])
  }

  ghost predicate Descends(table: seq<Row>, root: int, p: int) { exists path :: Chain(table, path, root, p) }

  ghost predicate Closed(table: seq<Row>, s: set<int>)
  {
    forall p, q :: p in s && Edge(table, p, q) ==> q in s
  }

  // A closed set that contains the start of a chain contains its end.
  lemma {:induction false} ClosedHoldsChain(table: seq<Row>, s: set<int>, path: seq<int>, root: int, p: int)
    requires Closed(table, s) && root in s && Chain(table, path, root, p)
    ensures p in s
    decreases |path|
  {
    assert Edge(table, path[0], path[1]);
    if |path| > 2 {
      var rest := path[1..];
      assert forall i :: 0 <= i < |rest| - 1 ==> Edge(table, rest[i], rest[i + 1]) by {
        forall i | 0 <= i < |rest| - 1 ensures Edge(table, rest[i], rest[i + 1]) {
          assert Edge(table, path[i + 1], path[i + 2]);
        }
      }
      ClosedHoldsChain(table, s, rest, path[1], p);
    }
  }

  lemma ExtendChain(table: seq<Row>, root: int, p: int, q: int)
    requires (p == root || Descends(table, root, p)) && Edge(table, p, q)
    ensures Descends(table, root, q)
  {
    if Descends(table, root, p) {
      var path :| Chain(table, path, root, p);
      assert Chain(table, path + [q], root, q);
    } else {
      assert Chain(table, [p, q], root, q);
    }
  }

  // ---------------------------------------------------------------- the search

  // The pids listed under a parent, in listing order.
  function ChildrenOf(table: seq<Row>, parent: int): (r: seq<int>)
    ensures forall q :: q in r <==> Row(q, Some(parent)) in table
  {
    if table == [] then []
    else
      var n := |table| - 1;
      assert table == table[..n] + [table[n]];
      ChildrenOf(table[..n], parent) + (if table[n].ppid == Some(parent) then [table[n].pid] else [])
  }

  function Lookup(children: map<int, seq<int>>, p: int): seq<int> { if p in children then children[p] else [] }

  ghost predicate Indexed(children: map<int, seq<int>>, rows: seq<Row>)
  {
    forall p :: Lookup(children, p) == ChildrenOf(rows, p)
  }

  function AddRow(children: map<int, seq<int>>, row: Row): map<int, seq<int>>
  {
    if row.ppid.None? then children else children[row.ppid.value := Lookup(children, row.ppid.value) + [row.pid]]
  }

  lemma IndexedRow(children: map<int, seq<int>>, rows: seq<Row>, row: Row)
    requires Indexed(children, rows)
    ensures Indexed(AddRow(children, row), rows + [row])
  {
    var all := rows + [row];
    assert all[..|all| - 1] == rows && all[|all| - 1] == row;
    forall p ensures Lookup(AddRow(children, row), p) == ChildrenOf(all, p) {
      assert Lookup(children, p) == ChildrenOf(rows, p);
    }
  }

  method ChildrenByParent(table: seq<Row>) returns (children: map<int, seq<int>>)
    ensures Indexed(children, table)
  {
    hide Indexed;
    children := map[];
    var k := 0;
    assert Indexed(children, []) by { NothingIndexed(); }
    while k < |table|
      invariant 0 <= k <= |table|
      invariant Indexed(children, table[..k])
    {
      var row := table[k];
      IndexedRow(children, table[..k], row);
      assert table[..k] + [row] == table[..k + 1];
      if row.ppid.Some? {
        children := children[row.ppid.value := Lookup(children, row.ppid.value) + [row.pid]];
      }
      k := k + 1;
    }
    assert table[..k] == table;
  }

  lemma NothingIndexed()
    ensures Indexed(map[], [])
  {
  }

  ghost function Pids(table: seq<Row>): set<int> { set r | r in table :: r.pid }

  // Exactly the pids other than root that descend from it, each once, in ascending order.
  ghost predicate AreDescendants(table: seq<Row>, root: int, found: seq<int>)
  {
    && StrictlyAscending(found)
    && forall p :: p in found <==> p != root && Descends(table, root, p)
  }

  // listing is None when the enumeration fails.
  method CollectDescendants(listing: Option<seq<Row>>, root: int) returns (result: seq<int>)
    ensures listing.None? ==> result == []
    ensures listing.Some? ==> AreDescendants(listing.value, root, result)
  {
    if listing.None? {
      return [];
    }
    var table := listing.value;
    var children := ChildrenByParent(table);
    var found: seq<int> := [];
    var stack := Lookup(children, root);
    Pushed(table, root, root, stack);
    while stack != []
      invariant Searching(table, root, found, stack)
      decreases Pids(table) - Elements(found), |stack|
    {
      var pid := stack[|stack| - 1];
      Popped(stack);
      stack := stack[..|stack| - 1];
      if pid == root || pid in found {
        continue;
      }
      Pushed(table, root, pid, Lookup(children, pid));
      Visit(table, root, found, stack, pid, Lookup(children, pid));
      found := found + [pid];
      stack := stack + Lookup(children, pid);
    }
    SearchDone(table, root, found);
    SortedDistinct(found);
    return Sorted(found);
  }

  lemma Popped(stack: seq<int>)
    requires stack != []
    ensures forall q :: q in stack <==> q == stack[|stack| - 1] || q in stack[..|stack| - 1]
  {
    assert stack == stack[..|stack| - 1] + [stack[|stack| - 1]];
  }

  // found holds descendants without repetition; every child of a visited pid is found or stacked.
  ghost predicate Searching(table: seq<Row>, root: int, found: seq<int>, stack: seq<int>)
  {
    && Distinct(found) && root !in found
    && (forall p :: p in found || p in stack ==> Descends(table, root, p) && p in Pids(table))
    && (forall p, q :: (p in found || p == root) && Edge(table, p, q) ==> q == root || q in found || q in stack)
  }

  lemma Pushed(table: seq<Row>, root: int, p: int, more: seq<int>)
    requires p == root || Descends(table, root, p)
    requires more == ChildrenOf(table, p)
    ensures forall q :: q in more ==> Descends(table, root, q) && q in Pids(table)
    ensures forall q :: Edge(table, p, q) ==> q in more
  {
    forall q | q in more ensures Descends(table, root, q) && q in Pids(table) {
      assert Edge(table, p, q);
      ExtendChain(table, root, p, q);
    }
  }

  lemma Visit(table: seq<Row>, root: int, found: seq<int>, stack: seq<int>, pid: int, more: seq<int>)
    requires Searching(table, root, found, stack + [pid]) && pid != root && pid !in found
    requires forall q :: q in more ==> Descends(table, root, q) && q in Pids(table)
    requires forall q :: Edge(table, pid, q) ==> q in more
    ensures Searching(table, root, found + [pid], stack + more)
    ensures Pids(table) - Elements(found + [pid]) < Pids(table) - Elements(found)
  {
    assert pid in stack + [pid];
    assert pid in Pids(table) - Elements(found) && pid !in Pids(table) - Elements(found + [pid]);
  }

  lemma SearchDone(table: seq<Row>, root: int, found: seq<int>)
    requires Searching(table, root, found, [])
    ensures forall p :: p in found <==> p != root && Descends(table, root, p)
  {
    assert Closed(table, Elements(found) + {root});
    forall p | Descends(table, root, p) ensures p == root || p in found {
      var path :| Chain(table, path, root, p);
      ClosedHoldsChain(table, Elements(found) + {root}, path, root, p);
    }
  }

  ghost function Elements(s: seq<int>): set<int> { set x | x in s }
}
