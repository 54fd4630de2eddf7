// What the core fingerprint tells: which files it needs, which missing one it names, and that a change to one
// canonical file shows, while changes to two can hide each other.
module AdapterFingerprint {
  import opened Options
  import opened Ordering
  import opened AdapterFiles

  ghost predicate Bound(bs: seq<Binding>, p: string) { exists b :: b in bs && b.path == p }

  // The manifest itself and every path in it.
  ghost predicate Named(manifestRel: string, m: Manifest, p: string)
  {
    || p == manifestRel || p == m.coreProtocol || p == m.orchestratorRole
    || Bound(m.roles, p) || Bound(m.workflows, p) || p in m.policies
  }

  lemma {:induction false} PathsOfExactly(bs: seq<Binding>, p: string)
    ensures p in PathsOf(bs) <==> Bound(bs, p)
  {
    if bs != [] {
      PathsOfExactly(bs[1..], p);
      assert bs == [bs[0]] + bs[1..];
    }
  }

  lemma CanonicalExactly(manifestRel: string, m: Manifest, p: string)
    ensures p in CanonicalPaths(manifestRel, m) <==> Named(manifestRel, m, p)
  {
    PathsOfExactly(m.roles, p);
    PathsOfExactly(m.workflows, p);
  }

  lemma RelsExactly(manifestRel: string, m: Manifest)
    ensures forall p :: p in SortedRels(manifestRel, m) <==> Named(manifestRel, m, p)
    ensures SortedBy(StringLess, SortedRels(manifestRel, m))
  {
    hide StringLess, CanonicalPaths, Named;
    forall p { CanonicalExactly(manifestRel, m, p); }
    StringsAreOrdered();
    SortBySorted(StringLess, Distincts(CanonicalPaths(manifestRel, m)));
    SortByCounts(StringLess, Distincts(CanonicalPaths(manifestRel, m)));
  }

  // ---------------------------------------------------------------- a missing file

  lemma {:induction false} FirstBroken(files: Files, rels: seq<string>, h: Hashing)
    ensures StreamOf(files, rels, h).Broken? ==>
      exists i ::
        && 0 <= i < |rels| && rels[i] == StreamOf(files, rels, h).rel && h.locate(rels[i]) !in files
        && forall j :: 0 <= j < i ==> h.locate(rels[j]) in files
    ensures StreamOf(files, rels, h).Stream? ==> forall p :: p in rels ==> h.locate(p) in files
  {
    if rels != [] && h.locate(rels[0]) in files {
      FirstBroken(files, rels[1..], h);
      if StreamOf(files, rels[1..], h).Broken? {
        var i :| && 0 <= i < |rels[1..]| && rels[1..][i] == StreamOf(files, rels[1..], h).rel
          && h.locate(rels[1..][i]) !in files && forall j :: 0 <= j < i ==> h.locate(rels[1..][j]) in files;
        assert rels[i + 1] == rels[1..][i];
        forall j | 0 <= j < i + 1 ensures h.locate(rels[j]) in files {
          assert j > 0 ==> rels[j] == rels[1..][j - 1];
        }
      }
    }
  }

  // A missing file named by the manifest makes the fingerprint fail, with the first missing one by code point.
  lemma MissingFileFails(files: Files, manifestRel: string, m: Manifest, h: Hashing)
    ensures var r := CoreFingerprint(files, manifestRel, m, h);
      && (r.MissingFile? <==> exists p :: Named(manifestRel, m, p) && h.locate(p) !in files)
      && (r.MissingFile? ==>
            && Named(manifestRel, m, r.rel) && h.locate(r.rel) !in files
            && forall p :: Named(manifestRel, m, p) && Smaller(p, r.rel) ==> h.locate(p) in files)
  {
    hide StringLess, SortedRels, Named, Smaller;
    var rels := SortedRels(manifestRel, m);
    RelsExactly(manifestRel, m);
    FirstBroken(files, rels, h);
    if StreamOf(files, rels, h).Broken? {
      var i :| && 0 <= i < |rels| && rels[i] == StreamOf(files, rels, h).rel && h.locate(rels[i]) !in files
        && forall j :: 0 <= j < i ==> h.locate(rels[j]) in files;
      assert rels[i] in rels;
      forall p | Named(manifestRel, m, p) && Smaller(p, rels[i]) ensures h.locate(p) in files {
        assert p in rels;
        var j :| 0 <= j < |rels| && rels[j] == p;
        StringLessMeans(p, rels[i]);
        NotSmallerLater(rels, i, j);
      }
    }
  }

  lemma NotSmallerLater(rels: seq<string>, i: nat, j: nat)
    requires SortedBy(StringLess, rels) && i < |rels| && j < |rels| && StringLess(rels[j], rels[i])
    ensures j < i
  {
    hide StringLess;
    StringLessIrreflexive(rels[i]);
    if i < j {
      StringLessTransitive(rels[i], rels[j], rels[i]);
    }
  }

  // ---------------------------------------------------------------- a changed file

  // Every canonical file but f is the same in both.
  ghost predicate SameBut(files: Files, files': Files, rels: seq<string>, h: Hashing, f: string)
  {
    && f in files && f in files'
    && forall p :: p in rels ==>
         && h.locate(p) in files && h.locate(p) in files'
         && (h.locate(p) != f ==> files[h.locate(p)] == files'[h.locate(p)])
  }

  // A longer file makes the stream longer.
  lemma {:induction false} StreamLengths(files: Files, files': Files, rels: seq<string>, h: Hashing, f: string)
    requires SameBut(files, files', rels, h, f)
    ensures StreamOf(files, rels, h).Stream? && StreamOf(files', rels, h).Stream?
    ensures |files[f]| >= |files'[f]| ==>
      |StreamOf(files, rels, h).bytes| >= |StreamOf(files', rels, h).bytes|
    ensures |files[f]| > |files'[f]| && (exists p :: p in rels && h.locate(p) == f) ==>
      |StreamOf(files, rels, h).bytes| > |StreamOf(files', rels, h).bytes|
  {
    if rels != [] {
      assert rels[0] in rels && forall p :: p in rels[1..] ==> p in rels;
      StreamLengths(files, files', rels[1..], h, f);
      assert rels == [rels[0]] + rels[1..];
    }
  }

  lemma {:induction false} StreamContents(files: Files, files': Files, rels: seq<string>, h: Hashing, f: string)
    requires SameBut(files, files', rels, h, f) && |files[f]| == |files'[f]|
    requires exists p :: p in rels && h.locate(p) == f
    ensures StreamOf(files, rels, h).Stream? && StreamOf(files', rels, h).Stream?
    ensures StreamOf(files, rels, h) == StreamOf(files', rels, h) ==> files[f] == files'[f]
  {
    hide SameBut;
    StreamLengths(files, files', rels, h, f);
    var first := h.locate(rels[0]);
    TailSameBut(files, files', rels, h, f);
    StreamLengths(files, files', rels[1..], h, f);
    var name := h.encode(rels[0]) + [0];
    var b, b' := StreamOf(files, rels[1..], h).bytes, StreamOf(files', rels[1..], h).bytes;
    if StreamOf(files, rels, h) == StreamOf(files', rels, h) {
      assert name + files[first] + [0] + b == name + files[first] + ([0] + b);
      assert name + files'[first] + [0] + b' == name + files'[first] + ([0] + b');
      SplitEqual(name, files[first], [0] + b, files'[first], [0] + b');
      if first != f {
        assert b == ([0] + b)[1..] && b' == ([0] + b')[1..];
        var p :| p in rels && h.locate(p) == f;
        assert rels == [rels[0]] + rels[1..] && p in rels[1..];
        StreamContents(files, files', rels[1..], h, f);
      }
    }
  }

  lemma TailSameBut(files: Files, files': Files, rels: seq<string>, h: Hashing, f: string)
    requires SameBut(files, files', rels, h, f) && rels != []
    ensures SameBut(files, files', rels[1..], h, f)
    ensures h.locate(rels[0]) in files && h.locate(rels[0]) in files' && f in files && f in files'
    ensures h.locate(rels[0]) != f ==> files[h.locate(rels[0])] == files'[h.locate(rels[0])]
  {
    assert rels[0] in rels;
  }

  lemma SplitEqual(a: Bytes, x: Bytes, b: Bytes, x': Bytes, b': Bytes)
    requires a + x + b == a + x' + b' && |x| == |x'|
    ensures x == x' && b == b'
  {
    var n := |a|;
    assert x == (a + x + b)[n..n + |x|] && b == (a + x + b)[n + |x|..];
    assert x' == (a + x' + b')[n..n + |x|] && b' == (a + x' + b')[n + |x|..];
  }

  // For a digest that never repeats, changing one canonical file and no other changes the fingerprint.
  lemma ChangedFileShows(files: Files, files': Files, manifestRel: string, m: Manifest, h: Hashing, p: string)
    requires forall a, b :: h.digest(a) == h.digest(b) ==> a == b
    requires forall q :: Named(manifestRel, m, q) ==> h.locate(q) in files && h.locate(q) in files'
    requires forall q :: Named(manifestRel, m, q) && h.locate(q) != h.locate(p) ==>
      files[h.locate(q)] == files'[h.locate(q)]
    requires Named(manifestRel, m, p) && files[h.locate(p)] != files'[h.locate(p)]
    ensures CoreFingerprint(files, manifestRel, m, h) != CoreFingerprint(files', manifestRel, m, h)
  {
    hide StringLess, SortedRels, Named;
    var rels, f := SortedRels(manifestRel, m), h.locate(p);
    RelsExactly(manifestRel, m);
    assert p in rels;
    StreamLengths(files, files', rels, h, f);
    StreamLengths(files', files, rels, h, f);
    var a, b := StreamOf(files, rels, h).bytes, StreamOf(files', rels, h).bytes;
    if a == b {
      assert |files[f]| == |files'[f]|;
      StreamContents(files, files', rels, h, f);
      assert false;
    }
  }

  // Changing two can go unseen, whatever the digest: contents are not delimited, so that an empty file and one
  // that spells the second name between zeros can trade places.
  lemma TwoChangesCanHide(h: Hashing)
    requires h.locate("a") == "a" && h.locate("b") == "b" && h.locate("m") == "m"
    ensures var m := Manifest("a", "b", [], [], [], []);
      var long := [0] + h.encode("b") + [0];
      CoreFingerprint(map["a" := [], "b" := long, "m" := []], "m", m, h) ==
        CoreFingerprint(map["a" := long, "b" := [], "m" := []], "m", m, h)
  {
    var m := Manifest("a", "b", [], [], [], []);
    var long: Bytes := [0] + h.encode("b") + [0];
    var files: Files := map["a" := [], "b" := long, "m" := []];
    var files': Files := map["a" := long, "b" := [], "m" := []];
    ThreeRels(m);
    var tail := h.encode("m") + [0] + [] + [0] + [];
    ThreeFiles(files, h);
    ThreeFiles(files', h);
    Regroup(h.encode("a"), h.encode("b"), tail);
  }

  lemma Regroup(a: Bytes, b: Bytes, tail: Bytes)
    ensures var long := [0] + b + [0];
      a + [0] + [] + [0] + (b + [0] + long + [0] + tail) == a + [0] + long + [0] + (b + [0] + [] + [0] + tail)
  {
    var long: Bytes := [0] + b + [0];
    var zeros: Bytes := [0, 0];
    assert a + [0] + [] + [0] == a + zeros;
    assert b + [0] + long + [0] + tail == b + zeros + b + zeros + tail;
    assert a + [0] + long + [0] == a + zeros + b + zeros;
    assert b + [0] + [] + [0] + tail == b + zeros + tail;
    assert a + zeros + (b + zeros + b + zeros + tail) == a + zeros + b + zeros + (b + zeros + tail);
  }

  lemma ThreeRels(m: Manifest)
    requires m == Manifest("a", "b", [], [], [], [])
    ensures SortedRels("m", m) == ["a", "b", "m"]
  {
    var paths := CanonicalPaths("m", m);
    assert paths == ["m", "a", "b"];
    RelsExactly("m", m);
    var rels := ["a", "b", "m"];
    assert StringLess("a", "b") && StringLess("b", "m") && StringLess("a", "m");
    assert SortedBy(StringLess, rels);
    forall p ensures p in SortedRels("m", m) <==> p in rels {
      CanonicalExactly("m", m, p);
    }
    StringsAreOrdered();
    SortedUnique(StringLess, SortedRels("m", m), rels);
  }

  lemma ThreeFiles(files: Files, h: Hashing)
    requires h.locate("a") == "a" && h.locate("b") == "b" && h.locate("m") == "m"
    requires "a" in files && "b" in files && "m" in files
    ensures StreamOf(files, ["a", "b", "m"], h) == Stream(
      h.encode("a") + [0] + files["a"] + [0] + (h.encode("b") + [0] + files["b"] + [0] +
        (h.encode("m") + [0] + files["m"] + [0] + [])))
  {
    assert ["a", "b", "m"][1..] == ["b", "m"] && ["b", "m"][1..] == ["m"] && ["m"][1..] == [];
    assert StreamOf(files, [], h) == Stream([]);
    assert StreamOf(files, ["m"], h) == Stream(h.encode("m") + [0] + files["m"] + [0] + []);
  }
}
