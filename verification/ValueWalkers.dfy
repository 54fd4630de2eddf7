// The decoded value as Python holds it (a dict keeps the last value given for a key, at the key's first
// position) and the two explicit-stack walkers that bound its depth and its collections.
module ValueWalkers {
  import opened JsonSyntax

  // ---------------------------------------------------------------- dict semantics

  // d[k] = v on an insertion-ordered dict.
  function Put(es: seq<Entry>, k: seq<nat>, v: Json): seq<Entry>
  {
    if es == [] then [Entry(k, v)]
    else if es[0].key == k then [Entry(k, v)] + es[1..]
    else [es[0]] + Put(es[1..], k, v)
  }

  // The decoded value of a syntax tree: every object becomes a dict.
  function Collapse(v: Json): Json
    decreases v, 0
  {
    match v
    case List(vs) => List(CollapseAll(vs))
    case Object(es) => Object(DictOf(es))
    case _ => v
  }

  function CollapseAll(vs: seq<Json>): (r: seq<Json>)
    ensures |r| == |vs|
    decreases vs
  {
    if vs == [] then [] else [Collapse(vs[0])] + CollapseAll(vs[1..])
  }

  function DictOf(es: seq<Entry>): seq<Entry>
    decreases es
  {
    if es == [] then []
    else
      var last := es[|es| - 1];
      Put(DictOf(es[..|es| - 1]), last.key, Collapse(last.value))
  }

  ghost predicate DistinctKeys(es: seq<Entry>)
  {
    forall i, j :: 0 <= i < j < |es| ==> es[i].key != es[j].key
  }

  ghost predicate DuplicateFree(v: Json)
    decreases v
  {
    match v
    case List(vs) => forall x | x in vs :: DuplicateFree(x)
    case Object(es) => DistinctKeys(es) && forall e | e in es :: DuplicateFree(e.value)
    case _ => true
  }

  lemma {:induction false} PutNew(es: seq<Entry>, k: seq<nat>, v: Json)
    requires forall e :: e in es ==> e.key != k
    ensures Put(es, k, v) == es + [Entry(k, v)]
  {
    if es != [] {
      PutNew(es[1..], k, v);
    }
  }

  // Without duplicate keys decoding loses nothing.
  lemma {:induction false} CollapseKeeps(v: Json)
    requires DuplicateFree(v)
    ensures Collapse(v) == v
    decreases v, 0
  {
    match v
    case List(vs) => CollapseAllKeeps(vs);
    case Object(es) => DictKeeps(es);
    case _ =>
  }

  lemma {:induction false} CollapseAllKeeps(vs: seq<Json>)
    requires forall x :: x in vs ==> DuplicateFree(x)
    ensures CollapseAll(vs) == vs
    decreases vs
  {
    if vs != [] {
      CollapseKeeps(vs[0]);
      CollapseAllKeeps(vs[1..]);
    }
  }

  lemma {:induction false} DictKeeps(es: seq<Entry>)
    requires DistinctKeys(es) && forall e :: e in es ==> DuplicateFree(e.value)
    ensures DictOf(es) == es
    decreases es
  {
    if es != [] {
      var n := |es| - 1;
      var front, last := es[..n], es[n];
      assert es == front + [last];
      assert forall e :: e in front ==> e in es;
      DictKeeps(front);
      CollapseKeeps(last.value);
      forall e | e in front
        ensures e.key != last.key
      {
        var i :| 0 <= i < n && front[i] == e;
      }
      PutNew(front, last.key, last.value);
    }
  }

  // A dict never holds a key twice.
  lemma {:induction false} PutDistinct(es: seq<Entry>, k: seq<nat>, v: Json)
    requires DistinctKeys(es)
    ensures DistinctKeys(Put(es, k, v))
    ensures forall e :: e in Put(es, k, v) ==> e.key == k || e in es
  {
    if es != [] && es[0].key != k {
      var rest := Put(es[1..], k, v);
      PutDistinct(es[1..], k, v);
      assert forall e :: e in es[1..] ==> e in es;
      forall e | e in rest
        ensures e.key != es[0].key
      {
        if e.key != k {
          var i :| 0 <= i < |es[1..]| && es[1..][i] == e;
          assert es[i + 1] == e;
        }
      }
    }
  }

  lemma {:induction false} DictIsDistinct(es: seq<Entry>)
    ensures DistinctKeys(DictOf(es))
    decreases es
  {
    if es != [] {
      var last := es[|es| - 1];
      DictIsDistinct(es[..|es| - 1]);
      PutDistinct(DictOf(es[..|es| - 1]), last.key, Collapse(last.value));
    }
  }

  // Collapsing duplicates can only make a value shallower.
  lemma {:induction false} CollapseDepth(v: Json)
    ensures Depth(Collapse(v)) <= Depth(v)
    decreases v, 0
  {
    match v
    case List(vs) => CollapseAllDepth(vs);
    case Object(es) => DictDepth(es);
    case _ =>
  }

  lemma {:induction false} CollapseAllDepth(vs: seq<Json>)
    ensures DepthAll(CollapseAll(vs)) <= DepthAll(vs)
    decreases vs
  {
    if vs != [] {
      CollapseDepth(vs[0]);
      CollapseAllDepth(vs[1..]);
      assert CollapseAll(vs)[1..] == CollapseAll(vs[1..]);
    }
  }

  lemma {:induction false} PutDepth(es: seq<Entry>, k: seq<nat>, v: Json)
    ensures DepthEntries(Put(es, k, v)) <= Max(DepthEntries(es), Depth(v))
  {
    if es != [] {
      if es[0].key == k {
        assert ([Entry(k, v)] + es[1..])[1..] == es[1..];
      } else {
        PutDepth(es[1..], k, v);
        assert ([es[0]] + Put(es[1..], k, v))[1..] == Put(es[1..], k, v);
      }
    }
  }

  lemma {:induction false} DepthEntriesSplit(es: seq<Entry>, e: Entry)
    ensures DepthEntries(es + [e]) == Max(DepthEntries(es), Depth(e.value))
  {
    if es == [] {
      assert es + [e] == [e];
    } else {
      DepthEntriesSplit(es[1..], e);
      assert (es + [e])[1..] == es[1..] + [e];
    }
  }

  lemma {:induction false} DictDepth(es: seq<Entry>)
    ensures DepthEntries(DictOf(es)) <= DepthEntries(es)
    decreases es
  {
    if es != [] {
      var front, last := es[..|es| - 1], es[|es| - 1];
      DictDepth(front);
      CollapseDepth(last.value);
      PutDepth(DictOf(front), last.key, Collapse(last.value));
      DepthEntriesSplit(front, last);
      assert front + [last] == es;
    }
  }

  // ---------------------------------------------------------------- children and sizes

  predicate IsContainer(v: Json) { v.List? || v.Object? }

  function Values(es: seq<Entry>): (r: seq<Json>)
    ensures |r| == |es|
    ensures forall i :: 0 <= i < |es| ==> r[i] == es[i].value
  {
    if es == [] then [] else [es[0].value] + Values(es[1..])
  }

  // node.values() of a dict, the node itself for a list.
  function Children(v: Json): seq<Json>
    requires IsContainer(v)
  {
    if v.List? then v.elements else Values(v.entries)
  }

  function Size(v: Json): nat
    decreases v, 0
  {
    match v
    case List(vs) => 1 + SizeAll(vs)
    case Object(es) => 1 + SizeEntries(es)
    case _ => 1
  }

  function SizeAll(vs: seq<Json>): nat
    decreases vs
  {
    if vs == [] then 0 else Size(vs[0]) + SizeAll(vs[1..])
  }

  function SizeEntries(es: seq<Entry>): nat
    decreases es
  {
    if es == [] then 0 else Size(es[0].value) + SizeEntries(es[1..])
  }

  lemma {:induction false} EntriesAsValues(es: seq<Entry>)
    ensures SizeEntries(es) == SizeAll(Values(es)) && DepthEntries(es) == DepthAll(Values(es))
  {
    if es != [] {
      EntriesAsValues(es[1..]);
      assert Values(es)[1..] == Values(es[1..]);
    }
  }

  lemma ContainerLaws(v: Json)
    requires IsContainer(v)
    ensures Size(v) == 1 + SizeAll(Children(v))
    ensures Depth(v) == 1 + DepthAll(Children(v))
  {
    if v.Object? { EntriesAsValues(v.entries); }
  }

  lemma {:induction false} SizeAllAppend(a: seq<Json>, b: seq<Json>)
    ensures SizeAll(a + b) == SizeAll(a) + SizeAll(b)
  {
    if a == [] {
      assert a + b == b;
    } else {
      SizeAllAppend(a[1..], b);
      assert (a + b)[1..] == a[1..] + b;
    }
  }

  // ---------------------------------------------------------------- collection lengths

  // No list and no dict anywhere in v has more than limit elements.
  predicate Within(v: Json, limit: int)
    decreases v
  {
    match v
    case List(vs) => |vs| <= limit && forall x | x in vs :: Within(x, limit)
    case Object(es) => |es| <= limit && forall e | e in es :: Within(e.value, limit)
    case _ => true
  }

  lemma WithinChildren(v: Json, limit: int)
    requires IsContainer(v)
    ensures Within(v, limit) <==> |Children(v)| <= limit && forall x :: x in Children(v) ==> Within(x, limit)
  {
    if v.Object? {
      var es, xs := v.entries, Values(v.entries);
      if forall x :: x in xs ==> Within(x, limit) {
        forall e | e in es ensures Within(e.value, limit) {
          var i :| 0 <= i < |es| && es[i] == e;
          assert xs[i] in xs;
        }
      }
      if forall e :: e in es ==> Within(e.value, limit) {
        forall x | x in xs ensures Within(x, limit) {
          var i :| 0 <= i < |xs| && xs[i] == x;
          assert es[i] in es;
        }
      }
    }
  }

  // ok is false where the original raises.
  method BoundCollectionLengths(value: Json, limit: int) returns (ok: bool)
    ensures ok <==> Within(value, limit)
  {
    var stack := [value];
    while stack != []
      invariant Within(value, limit) <==> forall x :: x in stack ==> Within(x, limit)
      decreases SizeAll(stack)
    {
      var node := stack[|stack| - 1];
      ghost var full := stack;
      stack := stack[..|stack| - 1];
      assert full == stack + [node];
      ListPush(stack, node);
      if IsContainer(node) {
        ContainerLaws(node);
        WithinChildren(node, limit);
        assert node in full;
        if |Children(node)| > limit {
          return false;
        }
        SizeAllAppend(stack, Children(node));
        stack := stack + Children(node);
      }
    }
    return true;
  }

  // ---------------------------------------------------------------- structure depth

  datatype Frame = Frame(node: Json, parentDepth: nat)

  // The deepest level below any frame on the stack.
  function Reach(stack: seq<Frame>): nat
  {
    if stack == [] then 0 else Max(stack[0].parentDepth + Depth(stack[0].node), Reach(stack[1..]))
  }

  function Load(stack: seq<Frame>): nat
  {
    if stack == [] then 0 else Size(stack[0].node) + Load(stack[1..])
  }

  lemma {:induction false} StackPush(a: seq<Frame>, f: Frame)
    ensures Reach(a + [f]) == Max(Reach(a), f.parentDepth + Depth(f.node)) && Load(a + [f]) == Load(a) + Size(f.node)
  {
    if a == [] {
      assert a + [f] == [f];
    } else {
      StackPush(a[1..], f);
      assert (a + [f])[1..] == a[1..] + [f];
    }
  }

  lemma {:induction false} ListPush(a: seq<Json>, x: Json)
    ensures DepthAll(a + [x]) == Max(DepthAll(a), Depth(x)) && SizeAll(a + [x]) == SizeAll(a) + Size(x)
  {
    if a == [] {
      assert a + [x] == [x];
    } else {
      ListPush(a[1..], x);
      assert (a + [x])[1..] == a[1..] + [x];
    }
  }

  function Min(a: int, b: int): int { if a < b then a else b }

  // Pushes the container children of a node, one by one.
  method PushChildren(stack: seq<Frame>, children: seq<Json>, depth: nat) returns (out: seq<Frame>)
    requires depth > 0
    ensures |out| >= |stack| && out[..|stack|] == stack
    ensures forall k :: |stack| <= k < |out| ==> out[k].parentDepth == depth && IsContainer(out[k].node)
    ensures Load(out) <= Load(stack) + SizeAll(children)
    ensures Max(depth, Reach(out)) == Max(Reach(stack), depth + DepthAll(children))
  {
    hide Children, Values, SizeEntries, DepthEntries, Size;
    out := stack;
    var k := 0;
    while k < |children|
      invariant 0 <= k <= |children|
      invariant |out| >= |stack| && out[..|stack|] == stack
      invariant forall k :: |stack| <= k < |out| ==> out[k].parentDepth == depth && IsContainer(out[k].node)
      invariant Load(out) <= Load(stack) + SizeAll(children[..k])
      invariant Max(depth, Reach(out)) == Max(Reach(stack), depth + DepthAll(children[..k]))
    {
      var child := children[k];
      assert children[..k + 1] == children[..k] + [child];
      ListPush(children[..k], child);
      if IsContainer(child) {
        StackPush(out, Frame(child, depth));
        out := out + [Frame(child, depth)];
      }
      k := k + 1;
    }
    assert children[..k] == children;
  }

  method BoundedStructureDepth(value: Json, limit: int) returns (depth: nat)
    ensures depth == Min(Depth(value), Max(limit, 0) + 1)
  {
    hide Size, SizeAll, DepthAll, Children, Values;
    if !IsContainer(value) {
      return 0;
    }
    depth := 0;
    var stack := [Frame(value, 0)];
    while stack != []
      invariant forall f :: f in stack ==> IsContainer(f.node) && f.parentDepth <= Max(limit, 0)
      invariant depth <= Max(limit, 0)
      invariant Max(depth, Reach(stack)) == Depth(value)
      decreases Load(stack)
    {
      var frame := stack[|stack| - 1];
      ghost var full := stack;
      stack := stack[..|stack| - 1];
      assert full == stack + [frame] && frame in full;
      StackPush(stack, frame);
      ContainerLaws(frame.node);
      var childDepth := frame.parentDepth + 1;
      if childDepth > limit {
        return childDepth;
      }
      if childDepth > depth {
        depth := childDepth;
      }
      stack := PushChildren(stack, Children(frame.node), childDepth);
    }
  }
}
