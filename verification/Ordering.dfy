// Sorting by a strict total order, the order of strings, and why a sorted duplicate-free list is
// determined by its elements.
module Ordering {

  ghost predicate StrictTotal<T(!new)>(less: (T, T) -> bool)
  {
    && (forall a :: !less(a, a))
    && (forall a, b, c :: less(a, b) && less(b, c) ==> less(a, c))
    && (forall a, b :: a == b || less(a, b) || less(b, a))
  }

  ghost predicate SortedBy<T>(less: (T, T) -> bool, s: seq<T>)
  {
    forall i, j :: 0 <= i < j < |s| ==> less(s[i], s[j])
  }

  ghost predicate Distinct<T>(s: seq<T>) { forall i, j :: 0 <= i < j < |s| ==> s[i] != s[j] }

  function InsertBy<T>(less: (T, T) -> bool, x: T, s: seq<T>): seq<T>
  {
    if s == [] || !less(s[0], x) then [x] + s else [s[0]] + InsertBy(less, x, s[1..])
  }

  function SortBy<T>(less: (T, T) -> bool, s: seq<T>): seq<T>
  {
    if s == [] then [] else InsertBy(less, s[0], SortBy(less, s[1..]))
  }

  lemma {:induction false} InsertByCounts<T>(less: (T, T) -> bool, x: T, s: seq<T>)
    ensures multiset(InsertBy(less, x, s)) == multiset(s) + multiset{x}
    ensures forall y :: y in InsertBy(less, x, s) <==> y == x || y in s
  {
    if s != [] && less(s[0], x) {
      InsertByCounts(less, x, s[1..]);
      assert s == [s[0]] + s[1..];
    }
  }

  lemma {:induction false} SortByCounts<T>(less: (T, T) -> bool, s: seq<T>)
    ensures multiset(SortBy(less, s)) == multiset(s) && |SortBy(less, s)| == |s|
    ensures forall y :: y in SortBy(less, s) <==> y in s
  {
    if s != [] {
      SortByCounts(less, s[1..]);
      InsertByCounts(less, s[0], SortBy(less, s[1..]));
      assert s == [s[0]] + s[1..];
    }
    assert |multiset(SortBy(less, s))| == |multiset(s)|;
  }

  lemma {:induction false} InsertBySorted<T(!new)>(less: (T, T) -> bool, x: T, s: seq<T>)
    requires StrictTotal(less) && SortedBy(less, s) && x !in s
    ensures SortedBy(less, InsertBy(less, x, s))
  {
    InsertByCounts(less, x, s);
    if s != [] && less(s[0], x) {
      var rest := InsertBy(less, x, s[1..]);
      InsertByCounts(less, x, s[1..]);
      InsertBySorted(less, x, s[1..]);
      assert forall i :: 0 <= i < |rest| ==> rest[i] in rest;
    } else if s != [] {
      assert less(x, s[0]);
    }
  }

  lemma {:induction false} SortBySorted<T(!new)>(less: (T, T) -> bool, s: seq<T>)
    requires StrictTotal(less) && Distinct(s)
    ensures SortedBy(less, SortBy(less, s))
  {
    if s != [] {
      SortBySorted(less, s[1..]);
      SortByCounts(less, s[1..]);
      assert s[0] !in s[1..];
      InsertBySorted(less, s[0], SortBy(less, s[1..]));
    }
  }

  // less orders keys that several elements may share.
  ghost predicate WeakOrder<T(!new)>(less: (T, T) -> bool)
  {
    && (forall a, b :: less(a, b) ==> !less(b, a))
    && (forall a, b, c :: !less(a, b) && !less(b, c) ==> !less(a, c))
  }

  ghost predicate Ascends<T>(less: (T, T) -> bool, s: seq<T>)
  {
    forall i, j :: 0 <= i < j < |s| ==> !less(s[j], s[i])
  }

  lemma {:induction false} InsertByAscends<T(!new)>(less: (T, T) -> bool, x: T, s: seq<T>)
    requires WeakOrder(less) && Ascends(less, s)
    ensures Ascends(less, InsertBy(less, x, s))
  {
    if s != [] && less(s[0], x) {
      var rest := InsertBy(less, x, s[1..]);
      InsertByCounts(less, x, s[1..]);
      InsertByAscends(less, x, s[1..]);
      forall j | 0 <= j < |rest| ensures !less(rest[j], s[0]) {
        assert rest[j] in rest;
      }
    } else if s != [] {
      forall j | 0 <= j < |s| ensures !less(s[j], x) {
        assert !less(s[j], s[0]);
      }
    }
  }

  lemma {:induction false} SortByAscends<T(!new)>(less: (T, T) -> bool, s: seq<T>)
    requires WeakOrder(less)
    ensures Ascends(less, SortBy(less, s))
  {
    if s != [] {
      SortByAscends(less, s[1..]);
      InsertByAscends(less, s[0], SortBy(less, s[1..]));
    }
  }

  // Some x stands before some y.
  ghost predicate Before<T>(s: seq<T>, x: T, y: T) { exists i, j :: 0 <= i < j < |s| && s[i] == x && s[j] == y }

  lemma {:induction false} InsertByKeeps<T(!new)>(less: (T, T) -> bool, h: T, s: seq<T>, x: T, y: T)
    requires Before(s, x, y)
    ensures Before(InsertBy(less, h, s), x, y)
  {
    var r := InsertBy(less, h, s);
    var i, j :| 0 <= i < j < |s| && s[i] == x && s[j] == y;
    if !less(s[0], h) {
      assert r[i + 1] == x && r[j + 1] == y;
    } else if i == 0 {
      InsertByCounts(less, h, s[1..]);
      assert s[1..][j - 1] == y && y in r[1..];
      var k :| 0 <= k < |r[1..]| && r[1..][k] == y;
      assert r[0] == x && r[k + 1] == y;
    } else {
      assert s[1..][i - 1] == x && s[1..][j - 1] == y;
      InsertByKeeps(less, h, s[1..], x, y);
      BeforeInTail(r, x, y);
    }
  }

  lemma BeforeExactly<T>(s: seq<T>, x: T, y: T)
    requires s != []
    ensures Before(s, x, y) <==> (s[0] == x && y in s[1..]) || Before(s[1..], x, y)
  {
    if Before(s, x, y) {
      var i, j :| 0 <= i < j < |s| && s[i] == x && s[j] == y;
      assert s[1..][j - 1] == y && (i > 0 ==> s[1..][i - 1] == x);
    }
    if s[0] == x && y in s[1..] {
      var j :| 0 <= j < |s[1..]| && s[1..][j] == y;
      assert s[j + 1] == y;
    }
    if Before(s[1..], x, y) { BeforeInTail(s, x, y); }
  }

  lemma BeforeInTail<T>(s: seq<T>, x: T, y: T)
    requires s != [] && Before(s[1..], x, y)
    ensures Before(s, x, y)
  {
    var i, j :| 0 <= i < j < |s[1..]| && s[1..][i] == x && s[1..][j] == y;
    assert s[i + 1] == x && s[j + 1] == y;
  }

  lemma {:induction false} InsertByFirst<T(!new)>(less: (T, T) -> bool, h: T, s: seq<T>, y: T)
    requires y in s && !less(y, h)
    ensures Before(InsertBy(less, h, s), h, y)
  {
    var r := InsertBy(less, h, s);
    if !less(s[0], h) {
      var j :| 0 <= j < |s| && s[j] == y;
      assert r[0] == h && r[j + 1] == y;
    } else {
      InsertByFirst(less, h, s[1..], y);
      BeforeInTail(r, h, y);
    }
  }

  // The sort is stable: what stands first and is not greater stays first.
  lemma {:induction false} SortByIsStable<T(!new)>(less: (T, T) -> bool, s: seq<T>, x: T, y: T)
    requires Before(s, x, y) && !less(y, x)
    ensures Before(SortBy(less, s), x, y)
  {
    var i, j :| 0 <= i < j < |s| && s[i] == x && s[j] == y;
    SortByCounts(less, s[1..]);
    assert s[1..][j - 1] == y;
    if i == 0 {
      InsertByFirst(less, x, SortBy(less, s[1..]), y);
    } else {
      assert s[1..][i - 1] == x;
      SortByIsStable(less, s[1..], x, y);
      InsertByKeeps(less, s[0], SortBy(less, s[1..]), x, y);
    }
  }

  // Sorting changes nothing that ascends already.
  lemma {:induction false} SortByKeeps<T(!new)>(less: (T, T) -> bool, s: seq<T>)
    requires Ascends(less, s)
    ensures SortBy(less, s) == s
  {
    if s != [] {
      assert forall i :: 0 <= i < |s[1..]| ==> s[1..][i] == s[i + 1];
      SortByKeeps(less, s[1..]);
      assert s == [s[0]] + s[1..];
    }
  }

  // A strictly sorted list is the only one with its elements.
  lemma {:induction false} SortedUnique<T(!new)>(less: (T, T) -> bool, s: seq<T>, t: seq<T>)
    requires StrictTotal(less) && SortedBy(less, s) && SortedBy(less, t)
    requires forall x :: x in s <==> x in t
    ensures s == t
    decreases |s|
  {
    if s != [] { assert s[0] in t; }
    if t != [] { assert t[0] in s; }
    if s != [] {
      var a :| 0 <= a < |t| && t[a] == s[0];
      var b :| 0 <= b < |s| && s[b] == t[0];
      assert s[0] == t[0];
      forall x ensures x in s[1..] <==> x in t[1..] {
        if x in s[1..] {
          var i :| 0 <= i < |s[1..]| && s[1..][i] == x;
          assert less(s[0], s[i + 1]) && x in t;
          var j :| 0 <= j < |t| && t[j] == x;
          assert j > 0 && t[1..][j - 1] == x;
        }
        if x in t[1..] {
          var i :| 0 <= i < |t[1..]| && t[1..][i] == x;
          assert less(t[0], t[i + 1]) && x in s;
          var j :| 0 <= j < |s| && s[j] == x;
          assert j > 0 && s[1..][j - 1] == x;
        }
      }
      SortedUnique(less, s[1..], t[1..]);
    }
  }

  // ---------------------------------------------------------------- strings

  // Code point order, a proper prefix being smaller.
  predicate StringLess(a: string, b: string)
  {
    if b == "" then false
    else if a == "" then true
    else a[0] < b[0] || (a[0] == b[0] && StringLess(a[1..], b[1..]))
  }

  // The smaller text is a proper prefix of the other, or has the smaller character where they first differ.
  ghost predicate Smaller(a: string, b: string)
  {
    exists n: nat :: n <= |a| && n < |b| && a[..n] == b[..n] && (n == |a| || a[n] as int < b[n] as int)
  }

  lemma {:induction false} StringLessMeans(a: string, b: string)
    ensures StringLess(a, b) <==> Smaller(a, b)
  {
    if a != "" && b != "" && a[0] == b[0] {
      StringLessMeans(a[1..], b[1..]);
      if Smaller(a[1..], b[1..]) {
        var x, y := a[1..], b[1..];
        var n: nat :| n <= |x| && n < |y| && x[..n] == y[..n] && (n == |x| || x[n] as int < y[n] as int);
        assert a[..n + 1] == [a[0]] + x[..n] && b[..n + 1] == [b[0]] + y[..n];
      }
      if Smaller(a, b) {
        var n: nat :| n <= |a| && n < |b| && a[..n] == b[..n] && (n == |a| || a[n] as int < b[n] as int);
        assert n > 0 && a[1..][..n - 1] == a[..n][1..] && b[1..][..n - 1] == b[..n][1..];
      }
    } else if b != "" {
      assert a[..0] == b[..0];
      HeadsAgree(a, b);
    }
  }

  lemma HeadsAgree(a: string, b: string)
    ensures forall n :: 0 < n <= |a| && n <= |b| && a[..n] == b[..n] ==> a[0] == b[0]
  {
    forall n | 0 < n <= |a| && n <= |b| && a[..n] == b[..n] ensures a[0] == b[0] {
      assert a[..n][0] == b[..n][0];
    }
  }

  lemma {:induction false} StringLessIrreflexive(a: string)
    ensures !StringLess(a, a)
  {
    if a != "" { StringLessIrreflexive(a[1..]); }
  }

  lemma {:induction false} StringLessTransitive(a: string, b: string, c: string)
    requires StringLess(a, b) && StringLess(b, c)
    ensures StringLess(a, c)
  {
    if a != "" && a[0] == b[0] == c[0] {
      StringLessTransitive(a[1..], b[1..], c[1..]);
    }
  }

  lemma {:induction false} StringLessTotal(a: string, b: string)
    ensures a == b || StringLess(a, b) || StringLess(b, a)
  {
    if a != "" && b != "" && a[0] == b[0] {
      StringLessTotal(a[1..], b[1..]);
      if a[1..] == b[1..] {
        assert a == [a[0]] + a[1..] && b == [b[0]] + b[1..];
      }
    }
  }

  lemma StringsAreOrdered()
    ensures StrictTotal(StringLess)
  {
    forall a, b, c | StringLess(a, b) && StringLess(b, c) ensures StringLess(a, c) {
      StringLessTransitive(a, b, c);
    }
    forall a ensures !StringLess(a, a) { StringLessIrreflexive(a); }
    forall a, b ensures a == b || StringLess(a, b) || StringLess(b, a) { StringLessTotal(a, b); }
  }

  // ---------------------------------------------------------------- distinct elements

  // The elements of a list without repetition, in order of first occurrence.
  function Distincts<T(==,!new)>(s: seq<T>): (r: seq<T>)
    ensures Distinct(r)
    ensures forall x :: x in r <==> x in s
  {
    if s == [] then []
    else
      var front := Distincts(s[..|s| - 1]);
      var last := s[|s| - 1];
      assert s == s[..|s| - 1] + [last];
      if last in front then front else front + [last]
  }
}
