// Insertion-ordered counters, and sums over lists that do not depend on the order of the list.
module Counters {
  import opened Ordering

  datatype Count<K> = Count(key: K, n: nat)

  // counter[k] += 1
  function Bump<K(==)>(c: seq<Count<K>>, k: K): seq<Count<K>>
  {
    if c == [] then [Count(k, 1)]
    else if c[0].key == k then [Count(k, c[0].n + 1)] + c[1..]
    else [c[0]] + Bump(c[1..], k)
  }

  // counter[k], 0 when absent.
  function CountOf<K(==)>(c: seq<Count<K>>, k: K): nat
  {
    if c == [] then 0 else if c[0].key == k then c[0].n else CountOf(c[1..], k)
  }

  function Sum<K>(c: seq<Count<K>>): nat
  {
    if c == [] then 0 else c[0].n + Sum(c[1..])
  }

  function Keys<K>(c: seq<Count<K>>): (r: seq<K>)
    ensures |r| == |c| && forall i :: 0 <= i < |c| ==> r[i] == c[i].key
  {
    seq(|c|, i requires 0 <= i < |c| => c[i].key)
  }

  // c counts the multiset keys: every key once, with its multiplicity, and nothing else.
  ghost predicate Tally<K(!new)>(c: seq<Count<K>>, keys: multiset<K>)
  {
    && (forall i, j :: 0 <= i < j < |c| ==> c[i].key != c[j].key)
    && (forall x :: x in c ==> x.n == keys[x.key] && x.n > 0)
    && (forall k :: k in keys ==> Count(k, keys[k]) in c)
  }

  lemma {:induction false} BumpEffect<K(!new)>(c: seq<Count<K>>, k: K)
    requires forall i, j :: 0 <= i < j < |c| ==> c[i].key != c[j].key
    ensures var b := Bump(c, k);
      && (forall i, j :: 0 <= i < j < |b| ==> b[i].key != b[j].key)
      && (forall x :: x in b <==> (x in c && x.key != k) || x == Count(k, CountOf(c, k) + 1))
      && Sum(b) == Sum(c) + 1
  {
    if c != [] {
      if c[0].key == k {
        assert c == [c[0]] + c[1..];
        assert forall i :: 0 <= i < |c[1..]| ==> c[1..][i].key != k;
        assert Bump(c, k)[1..] == c[1..];
      } else {
        var rest := Bump(c[1..], k);
        BumpEffect(c[1..], k);
        assert Bump(c, k) == [c[0]] + rest && Bump(c, k)[1..] == rest;
        assert c == [c[0]] + c[1..];
        assert forall i :: 0 <= i < |rest| ==> rest[i] in rest;
        assert forall x :: x in c[1..] ==> x.key != c[0].key;
      }
    }
  }

  lemma {:induction false} CountOfAbsent<K(!new)>(c: seq<Count<K>>, k: K)
    requires forall x :: x in c ==> x.key != k
    ensures CountOf(c, k) == 0
  {
    if c != [] {
      assert c[0] in c;
      assert forall x :: x in c[1..] ==> x in c;
      CountOfAbsent(c[1..], k);
    }
  }

  lemma {:induction false} CountOfPresent<K(!new)>(c: seq<Count<K>>, x: Count<K>)
    requires x in c && forall i, j :: 0 <= i < j < |c| ==> c[i].key != c[j].key
    ensures CountOf(c, x.key) == x.n
  {
    if c[0] != x {
      assert x in c[1..];
      CountOfPresent(c[1..], x);
    }
  }

  lemma TallyCounts<K(!new)>(c: seq<Count<K>>, keys: multiset<K>, k: K)
    requires Tally(c, keys)
    ensures CountOf(c, k) == keys[k]
  {
    if k in keys {
      CountOfPresent(c, Count(k, keys[k]));
    } else {
      CountOfAbsent(c, k);
    }
  }

  // Counting one more key.
  lemma BumpTally<K(!new)>(c: seq<Count<K>>, keys: multiset<K>, k: K)
    requires Tally(c, keys)
    ensures Tally(Bump(c, k), keys + multiset{k})
  {
    BumpEffect(c, k);
    TallyCounts(c, keys, k);
  }

  // The counts add up to the number of keys counted.
  lemma {:induction false} TallySum<K(!new)>(c: seq<Count<K>>, keys: multiset<K>)
    requires Tally(c, keys)
    ensures Sum(c) == |keys|
    decreases |c|
  {
    if c == [] {
      assert forall k :: k !in keys;
      assert keys == multiset{};
    } else {
      var x := c[0];
      assert x in c;
      var fewer := keys[x.key := 0];
      assert c == [x] + c[1..];
      assert forall y :: y in c[1..] ==> y.key != x.key;
      TallySum(c[1..], fewer);
      assert |keys| == |fewer| + x.n by { RemoveKey(keys, x.key); }
    }
  }

  lemma RemoveKey<K(!new)>(keys: multiset<K>, k: K)
    ensures |keys| == |keys[k := 0]| + keys[k]
  {
    var only := multiset{}[k := keys[k]];
    assert keys == keys[k := 0] + only;
    OnlySize(k, keys[k]);
  }

  lemma {:induction false} OnlySize<K(!new)>(k: K, n: nat)
    ensures |multiset{}[k := n]| == n
  {
    if n == 0 {
      assert multiset{}[k := n] == multiset{};
    } else {
      OnlySize(k, n - 1);
      assert multiset{}[k := n] == multiset{}[k := n - 1] + multiset{k};
    }
  }

  lemma TallyIsDistinct<K(!new)>(c: seq<Count<K>>, keys: multiset<K>)
    requires Tally(c, keys)
    ensures Distinct(c)
  {
  }

  // Two tallies of the same keys have the same entries.
  lemma TallySameEntries<K(!new)>(c: seq<Count<K>>, d: seq<Count<K>>, keys: multiset<K>)
    requires Tally(c, keys) && Tally(d, keys)
    ensures forall x :: x in c <==> x in d
  {
    forall x | x in c ensures x in d { assert x.key in keys; }
    forall x | x in d ensures x in c { assert x.key in keys; }
  }

  // ---------------------------------------------------------------- order-independent totals

  function Map<T, K>(f: T -> K, s: seq<T>): (r: seq<K>)
    ensures |r| == |s|
  {
    if s == [] then [] else [f(s[0])] + Map(f, s[1..])
  }

  function Total<T>(f: T -> int, s: seq<T>): int
  {
    if s == [] then 0 else f(s[0]) + Total(f, s[1..])
  }

  lemma {:induction false} MapOneMore<T, K>(f: T -> K, s: seq<T>, x: T)
    ensures Map(f, s + [x]) == Map(f, s) + [f(x)]
  {
    if s == [] {
      assert s + [x] == [x];
    } else {
      MapOneMore(f, s[1..], x);
      assert (s + [x])[1..] == s[1..] + [x];
    }
  }

  lemma {:induction false} TotalOneMore<T>(f: T -> int, s: seq<T>, x: T)
    ensures Total(f, s + [x]) == Total(f, s) + f(x)
  {
    if s == [] {
      assert s + [x] == [x];
    } else {
      TotalOneMore(f, s[1..], x);
      assert (s + [x])[1..] == s[1..] + [x];
    }
  }

  // s without its i-th element.
  function Without<T>(s: seq<T>, i: nat): seq<T>
    requires i < |s|
  {
    s[..i] + s[i + 1..]
  }

  lemma WithoutTail<T>(s: seq<T>, i: nat)
    requires 0 < i < |s|
    ensures Without(s, i) == [s[0]] + Without(s[1..], i - 1) && Without(s, i)[1..] == Without(s[1..], i - 1)
  {
  }

  lemma WithoutCounts<T>(s: seq<T>, i: nat)
    requires i < |s|
    ensures multiset(s) == multiset(Without(s, i)) + multiset{s[i]}
  {
    assert s == s[..i] + [s[i]] + s[i + 1..];
  }

  lemma {:induction false} MapWithout<T, K>(f: T -> K, s: seq<T>, i: nat)
    requires i < |s|
    ensures multiset(Map(f, s)) == multiset(Map(f, Without(s, i))) + multiset{f(s[i])}
  {
    assert Map(f, s) == [f(s[0])] + Map(f, s[1..]);
    if i == 0 {
      assert Without(s, 0) == s[1..];
    } else {
      WithoutTail(s, i);
      MapWithout(f, s[1..], i - 1);
      assert Map(f, Without(s, i)) == [f(s[0])] + Map(f, Without(s[1..], i - 1));
    }
  }

  lemma {:induction false} TotalWithout<T>(g: T -> int, s: seq<T>, i: nat)
    requires i < |s|
    ensures Total(g, s) == Total(g, Without(s, i)) + g(s[i])
  {
    if i == 0 {
      assert Without(s, 0) == s[1..];
    } else {
      WithoutTail(s, i);
      TotalWithout(g, s[1..], i - 1);
    }
  }

  // The position in t of the head of a rearrangement s of t, taken out of both.
  lemma TakeOut<T>(s: seq<T>, t: seq<T>) returns (i: nat)
    requires s != [] && multiset(s) == multiset(t)
    ensures i < |t| && t[i] == s[0] && multiset(s[1..]) == multiset(Without(t, i))
  {
    assert s[0] in multiset(s);
    assert s[0] in t;
    i :| 0 <= i < |t| && t[i] == s[0];
    WithoutCounts(t, i);
    assert s == [s[0]] + s[1..];
    assert multiset(s[1..]) == multiset(s) - multiset{s[0]};
  }

  // Rearranging a list does not change what a function takes on it.
  lemma {:induction false} MapRearranged<T, K>(f: T -> K, s: seq<T>, t: seq<T>)
    requires multiset(s) == multiset(t)
    ensures multiset(Map(f, s)) == multiset(Map(f, t))
    decreases |s|
  {
    assert |s| == |multiset(s)| && |t| == |multiset(t)|;
    if s != [] {
      var i := TakeOut(s, t);
      MapWithout(f, t, i);
      MapRearranged(f, s[1..], Without(t, i));
      assert Map(f, s) == [f(s[0])] + Map(f, s[1..]);
    }
  }

  // Nor any total over it.
  lemma {:induction false} TotalRearranged<T>(g: T -> int, s: seq<T>, t: seq<T>)
    requires multiset(s) == multiset(t)
    ensures Total(g, s) == Total(g, t)
    decreases |s|
  {
    assert |s| == |multiset(s)| && |t| == |multiset(t)|;
    if s != [] {
      var i := TakeOut(s, t);
      TotalWithout(g, t, i);
      TotalRearranged(g, s[1..], Without(t, i));
    }
  }
}
