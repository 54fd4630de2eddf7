// Regeneration and the drift check over a workspace, and why regenerating is a fixpoint.
module AdapterRegenerate {
  import opened Options
  import opened Ordering
  import opened AdapterFiles

  // ---------------------------------------------------------------- allow lists

  function AllowList(a: Adapter): seq<string>
  {
    if a.OpenCode? then ["node_modules/**", "package.json", "package-lock.json", ".gitignore"] else []
  }

  predicate EndsWith(s: string, suffix: string) { |s| >= |suffix| && s[|s| - |suffix|..] == suffix }

  // Patterns ending in "/**" cover a directory and everything below; others go to fnmatch.
  predicate ItemCovers(rel: string, item: string, fnmatch: (string, string) -> bool)
  {
    if EndsWith(item, "/**") then
      var prefix := item[..|item| - 3];
      rel == prefix || prefix + "/" <= rel
    else fnmatch(rel, item)
  }

  predicate IsAllowlisted(rel: string, allow: seq<string>, fnmatch: (string, string) -> bool)
  {
    allow != [] && (ItemCovers(rel, allow[0], fnmatch) || IsAllowlisted(rel, allow[1..], fnmatch))
  }

  method CheckAllowlisted(rel: string, allow: seq<string>, fnmatch: (string, string) -> bool) returns (r: bool)
    ensures r <==> exists item :: item in allow && ItemCovers(rel, item, fnmatch)
    ensures r <==> IsAllowlisted(rel, allow, fnmatch)
  {
    var k := 0;
    while k < |allow|
      invariant 0 <= k <= |allow|
      invariant forall i :: 0 <= i < k ==> !ItemCovers(rel, allow[i], fnmatch)
      invariant IsAllowlisted(rel, allow, fnmatch) <==> IsAllowlisted(rel, allow[k..], fnmatch)
    {
      assert allow[k..][0] == allow[k] && allow[k..][1..] == allow[k + 1..];
      if ItemCovers(rel, allow[k], fnmatch) {
        return true;
      }
      k := k + 1;
    }
    return false;
  }

  // What a "/**" pattern covers, it covers with everything below: pruning a directory for it hides no
  // file that the file test would report.
  lemma PruningIsInherited(dir: string, below: string, item: string, fnmatch: (string, string) -> bool)
    requires EndsWith(item, "/**") && ItemCovers(dir, item, fnmatch)
    ensures ItemCovers(dir + "/" + below, item, fnmatch)
  {
    var prefix := item[..|item| - 3];
    if dir == prefix {
      assert dir + "/" + below == (prefix + "/") + below;
    } else {
      var rest := dir[|prefix + "/"|..];
      assert dir == (prefix + "/") + rest;
      assert dir + "/" + below == (prefix + "/") + (rest + "/" + below);
    }
  }

  // ---------------------------------------------------------------- stale files

  // inside tells whether an adapter directory resolves inside the workspace, and whether anything below one
  // resolves inside that directory; fnmatch is Python's pattern test.
  datatype Host = Host(inside: string -> bool, fnmatch: (string, string) -> bool)

  // The walk enters a directory that is not allow-listed and does not resolve outside.
  predicate Passable(a: Adapter, dir: string, host: Host)
  {
    !IsAllowlisted(dir, AllowList(a), host.fnmatch) && host.inside(DirOf(a) + "/" + dir)
  }

  // Every directory on the way to short, from position start on, can be entered.
  predicate ReachedFrom(a: Adapter, short: string, start: nat, host: Host)
  {
    forall i | start <= i < |short| && short[i] == '/' :: Passable(a, short[..i], host)
  }

  predicate Reached(a: Adapter, short: string, host: Host)
  {
    host.inside(DirOf(a)) && ReachedFrom(a, short, 0, host)
  }

  // A file the walk reports once it gets there.
  predicate Reportable(a: Adapter, short: string, expected: set<string>, host: Host)
  {
    var rel := DirOf(a) + "/" + short;
    rel !in expected && !IsAllowlisted(short, AllowList(a), host.fnmatch) && host.inside(rel)
  }

  predicate StaleUnder(a: Adapter, rel: string, expected: set<string>, host: Host)
  {
    var base := DirOf(a) + "/";
    base <= rel &&
    var short := rel[|base|..];
    Reportable(a, short, expected, host) && Reached(a, short, host)
  }

  predicate IsStale(rel: string, m: Manifest, expected: set<string>, host: Host)
  {
    || StaleUnder(Codex, rel, expected, host)
    || StaleUnder(OpenCode, rel, expected, host)
    || StaleUnder(Claude, rel, expected, host)
    || StaleUnder(Cursor, rel, expected, host)
    || (rel == "CLAUDE.md" && !IsActive(m, Claude) && rel !in expected)
  }

  lemma StaleIsUnexpected(rel: string, m: Manifest, expected: set<string>, host: Host)
    ensures IsStale(rel, m, expected, host) ==> rel !in expected
  {
    hide IsAllowlisted, Reached;
    forall a: Adapter | DirOf(a) + "/" <= rel ensures DirOf(a) + "/" + rel[|DirOf(a) + "/"|..] == rel {
    }
  }

  function Stale(files: Files, m: Manifest, expected: set<string>, host: Host): set<string>
  {
    set rel | rel in files && IsStale(rel, m, expected, host)
  }

  // ---------------------------------------------------------------- the walk

  // A directory as it is on disk: the names in it that are no directories, and its real subdirectories. A
  // link to a directory, which the walk lists as a directory and does not follow, is neither.
  datatype Dir = Dir(names: seq<string>, subdirs: seq<Subdir>)
  datatype Subdir = Subdir(name: string, dir: Dir)

  predicate PlainName(name: string) { '/' !in name }

  ghost predicate WfDir(d: Dir)
  {
    && (forall f :: f in d.names ==> PlainName(f))
    && forall sub :: sub in d.subdirs ==> PlainName(sub.name) && WfDir(sub.dir)
  }

  // s is the path of a file of d, whose own path is p.
  ghost predicate HasPath(d: Dir, p: string, s: string)
  {
    || (exists f :: f in d.names && s == p + f)
    || (exists sub :: sub in d.subdirs && HasPath(sub.dir, p + sub.name + "/", s))
  }

  lemma {:induction false} PathsExtend(d: Dir, p: string, s: string)
    requires HasPath(d, p, s)
    ensures p <= s
    decreases d
  {
    if !exists f :: f in d.names && s == p + f {
      var sub :| sub in d.subdirs && HasPath(sub.dir, p + sub.name + "/", s);
      PathsExtend(sub.dir, p + sub.name + "/", s);
    }
  }

  // Getting into a subdirectory is one more directory to enter.
  lemma ReachedThrough(a: Adapter, p: string, name: string, s: string, host: Host)
    requires PlainName(name) && p + name + "/" <= s
    ensures ReachedFrom(a, s, |p|, host) <==> Passable(a, p + name, host) && ReachedFrom(a, s, |p + name + "/"|, host)
  {
    var way := p + name + "/";
    assert s[..|way|] == way;
    assert s[|p + name|] == way[|p + name|] == '/' && s[..|p + name|] == way[..|p + name|] == p + name;
    forall i | |p| <= i < |p + name| ensures s[i] != '/' {
      assert s[i] == way[i] == name[i - |p|];
    }
  }

  // What the walk reports for the directory d at p.
  ghost predicate Reported(a: Adapter, d: Dir, p: string, s: string, expected: set<string>, host: Host)
  {
    HasPath(d, p, s) && Reportable(a, s, expected, host) && ReachedFrom(a, s, |p|, host)
  }

  ghost predicate ReportedAmong(a: Adapter, subs: seq<Subdir>, p: string, s: string, expected: set<string>, host: Host)
  {
    exists sub ::
      sub in subs && Passable(a, p + sub.name, host) && Reported(a, sub.dir, p + sub.name + "/", s, expected, host)
  }

  // Pruning by directory agrees with the test on whole paths.
  lemma ReportedSplits(a: Adapter, d: Dir, p: string, s: string, expected: set<string>, host: Host)
    requires WfDir(d)
    ensures Reported(a, d, p, s, expected, host) <==>
      || (Reportable(a, s, expected, host) && exists f :: f in d.names && s == p + f)
      || ReportedAmong(a, d.subdirs, p, s, expected, host)
  {
    hide Reportable, Passable;
    if f :| f in d.names && s == p + f {
      assert ReachedFrom(a, s, |p|, host) by {
        forall i | |p| <= i < |s| ensures s[i] != '/' { assert s[i] == f[i - |p|]; }
      }
    }
    forall sub | sub in d.subdirs && HasPath(sub.dir, p + sub.name + "/", s)
      ensures ReachedFrom(a, s, |p|, host) <==>
        Passable(a, p + sub.name, host) && ReachedFrom(a, s, |p + sub.name + "/"|, host)
    {
      PathsExtend(sub.dir, p + sub.name + "/", s);
      ReachedThrough(a, p, sub.name, s, host);
    }
  }

  lemma SubdirsAreWf(d: Dir)
    requires WfDir(d)
    ensures forall sub :: sub in d.subdirs ==> WfDir(sub.dir)
  {
  }

  lemma NoSubdirs(a: Adapter, p: string, expected: set<string>, host: Host)
    ensures forall s :: !ReportedAmong(a, [], p, s, expected, host)
  {
  }

  lemma OneMoreSubdir(a: Adapter, subs: seq<Subdir>, sub: Subdir, p: string, expected: set<string>, host: Host)
    ensures forall s :: ReportedAmong(a, subs + [sub], p, s, expected, host) <==>
      || ReportedAmong(a, subs, p, s, expected, host)
      || (Passable(a, p + sub.name, host) && Reported(a, sub.dir, p + sub.name + "/", s, expected, host))
  {
    hide Passable, Reported;
    assert sub in subs + [sub];
    forall s | ReportedAmong(a, subs, p, s, expected, host)
      ensures ReportedAmong(a, subs + [sub], p, s, expected, host)
    {
      var x :| x in subs && Passable(a, p + x.name, host) && Reported(a, x.dir, p + x.name + "/", s, expected, host);
      assert x in subs + [sub];
    }
  }

  lemma SameSubdirs(a: Adapter, subs: seq<Subdir>, subs': seq<Subdir>, p: string, expected: set<string>, host: Host)
    requires forall sub :: sub in subs <==> sub in subs'
    ensures forall s :: ReportedAmong(a, subs, p, s, expected, host) <==> ReportedAmong(a, subs', p, s, expected, host)
  {
    hide Passable, Reported;
  }

  predicate ByName(a: Subdir, b: Subdir) { StringLess(a.name, b.name) }

  // os.walk from the top with directories pruned on the way: the files of this directory, then each
  // directory that can be entered.
  method Walk(a: Adapter, d: Dir, p: string, expected: set<string>, host: Host) returns (stale: seq<string>)
    requires WfDir(d)
    ensures forall s :: s in stale <==> Reported(a, d, p, s, expected, host)
    decreases d
  {
    hide Reportable, Passable, Reported, HasPath, ReportedAmong, SortBy, ByName, StringLess, WfDir;
    SubdirsAreWf(d);
    stale := WalkNames(a, SortBy(StringLess, d.names), p, expected, host);
    SortByCounts(StringLess, d.names);
    var subs := SortBy(ByName, d.subdirs);
    SortByCounts(ByName, d.subdirs);
    ghost var here := stale;
    NoSubdirs(a, p, expected, host);
    assert subs[..0] == [];
    var k := 0;
    while k < |subs|
      invariant 0 <= k <= |subs|
      invariant forall s :: s in stale <==> s in here || ReportedAmong(a, subs[..k], p, s, expected, host)
    {
      var sub := subs[k];
      assert sub in d.subdirs && subs[..k + 1] == subs[..k] + [sub];
      OneMoreSubdir(a, subs[..k], sub, p, expected, host);
      if Passable(a, p + sub.name, host) {
        var below := Walk(a, sub.dir, p + sub.name + "/", expected, host);
        stale := stale + below;
      }
      k := k + 1;
    }
    assert subs[..k] == subs;
    SameSubdirs(a, subs, d.subdirs, p, expected, host);
    forall s ensures s in stale <==> Reported(a, d, p, s, expected, host) {
      ReportedSplits(a, d, p, s, expected, host);
    }
  }

  method WalkNames(a: Adapter, names: seq<string>, p: string, expected: set<string>, host: Host)
    returns (stale: seq<string>)
    ensures forall s :: s in stale <==> Reportable(a, s, expected, host) && exists f :: f in names && s == p + f
  {
    stale := [];
    var k := 0;
    while k < |names|
      invariant 0 <= k <= |names|
      invariant forall s :: s in stale <==>
        Reportable(a, s, expected, host) && exists f :: f in names[..k] && s == p + f
    {
      assert names[..k + 1] == names[..k] + [names[k]];
      if Reportable(a, p + names[k], expected, host) {
        stale := stale + [p + names[k]];
      }
      k := k + 1;
    }
    assert names[..k] == names;
  }

  // The adapter directories that exist are laid out as the workspace's files say.
  ghost predicate LaidOut(layout: Adapter -> Option<Dir>, files: Files)
  {
    forall a: Adapter ::
      && (layout(a).Some? ==> WfDir(layout(a).value))
      && forall short :: DirOf(a) + "/" + short in files <==> layout(a).Some? && HasPath(layout(a).value, "", short)
  }

  // One adapter directory, unless it is missing or resolves outside.
  method ScanAdapter(a: Adapter, layout: Adapter -> Option<Dir>, ghost files: Files, expected: set<string>, host: Host)
    returns (stale: seq<string>)
    requires LaidOut(layout, files)
    ensures forall rel :: rel in stale <==> rel in files && StaleUnder(a, rel, expected, host)
  {
    hide Reportable, Passable, HasPath, WfDir;
    var base := DirOf(a) + "/";
    stale := [];
    if layout(a).Some? && host.inside(DirOf(a)) {
      var shorts := Walk(a, layout(a).value, "", expected, host);
      stale := seq(|shorts|, i requires 0 <= i < |shorts| => base + shorts[i]);
      forall rel ensures rel in stale <==> rel in files && StaleUnder(a, rel, expected, host) {
        if rel in stale {
          var i :| 0 <= i < |shorts| && rel == base + shorts[i];
          assert shorts[i] in shorts && rel[|base|..] == shorts[i];
        }
        if rel in files && StaleUnder(a, rel, expected, host) {
          var short := rel[|base|..];
          assert rel == base + short && short in shorts;
          var i :| 0 <= i < |shorts| && shorts[i] == short;
          assert stale[i] == rel;
        }
      }
    } else {
      forall rel ensures !(rel in files && StaleUnder(a, rel, expected, host)) {
        if base <= rel { assert rel == base + rel[|base|..]; }
      }
    }
  }

  // All four adapter directories, whether active or not, and the root file of an inactive one.
  method ScanStale(layout: Adapter -> Option<Dir>, files: Files, m: Manifest, expected: set<string>, host: Host)
    returns (stale: seq<string>)
    requires LaidOut(layout, files)
    ensures forall rel :: rel in stale <==> rel in Stale(files, m, expected, host)
  {
    hide LaidOut, StaleUnder;
    var codex := ScanAdapter(Codex, layout, files, expected, host);
    var openCode := ScanAdapter(OpenCode, layout, files, expected, host);
    var claude := ScanAdapter(Claude, layout, files, expected, host);
    var cursor := ScanAdapter(Cursor, layout, files, expected, host);
    stale := codex + openCode + claude + cursor;
    if !IsActive(m, Claude) && "CLAUDE.md" !in expected && "CLAUDE.md" in files {
      stale := stale + ["CLAUDE.md"];
    }
  }

  // Pruning for a name pattern is different: a directory called package.json hides a file that the file test
  // would report.
  lemma PrunedByNameHides(expected: set<string>, host: Host)
    requires host.fnmatch("package.json", "package.json") && host.inside(".opencode/package.json/x")
    requires forall item :: item in AllowList(OpenCode) ==> !host.fnmatch("package.json/x", item)
    requires ".opencode/package.json/x" !in expected
    ensures Reportable(OpenCode, "package.json/x", expected, host)
    ensures !StaleUnder(OpenCode, ".opencode/package.json/x", expected, host)
  {
    hide IsAllowlisted;
    var short := "package.json/x";
    assert DirOf(OpenCode) + "/" == ".opencode/" && DirOf(OpenCode) + "/" + short == ".opencode/package.json/x";
    NotBelow(short, AllowList(OpenCode), host.fnmatch);
    NameIsPruned(host.fnmatch);
    assert short[12] == '/' && short[..12] == "package.json";
    assert ".opencode/package.json/x"[|".opencode/"|..] == short;
  }

  lemma NameIsPruned(fnmatch: (string, string) -> bool)
    requires fnmatch("package.json", "package.json")
    ensures IsAllowlisted("package.json", AllowList(OpenCode), fnmatch)
  {
    var allow := AllowList(OpenCode);
    assert allow[1..] == ["package.json", "package-lock.json", ".gitignore"];
    assert ItemCovers("package.json", allow[1], fnmatch);
    assert IsAllowlisted("package.json", allow[1..], fnmatch);
  }

  lemma NotBelow(short: string, allow: seq<string>, fnmatch: (string, string) -> bool)
    requires short == "package.json/x" && allow == AllowList(OpenCode)
    requires forall item :: item in allow ==> !fnmatch(short, item)
    ensures !IsAllowlisted(short, allow, fnmatch)
  {
    hide ItemCovers;
    forall item | item in allow ensures !ItemCovers(short, item, fnmatch) {
      NotCovered(short, item, fnmatch);
    }
    NothingCovers(short, allow, fnmatch);
  }

  lemma {:induction false} NothingCovers(short: string, allow: seq<string>, fnmatch: (string, string) -> bool)
    requires forall item :: item in allow ==> !ItemCovers(short, item, fnmatch)
    ensures !IsAllowlisted(short, allow, fnmatch)
  {
    if allow != [] {
      assert allow[0] in allow;
      NothingCovers(short, allow[1..], fnmatch);
    }
  }

  lemma NotCovered(short: string, item: string, fnmatch: (string, string) -> bool)
    requires short == "package.json/x" && item in AllowList(OpenCode) && !fnmatch(short, item)
    ensures !ItemCovers(short, item, fnmatch)
  {
    if item == "node_modules/**" {
      assert item[..12] == "node_modules" && short[0] != "node_modules"[0];
    }
  }

  // The dictionary of expected files, filled target by target.
  method BuildExpected(m: Manifest, fp: string, render: Renderer) returns (files: Files)
    ensures files == ExpectedFiles(m, fp, render)
  {
    var targets := Targets(m);
    files := map[];
    var k := 0;
    while k < |targets|
      invariant 0 <= k <= |targets|
      invariant files == RenderAll(targets[..k], fp, render)
    {
      assert targets[..k + 1][..k] == targets[..k] && targets[..k + 1][k] == targets[k];
      files := files[targets[k].rel := render(targets[k].rel, fp, targets[k].source)];
      k := k + 1;
    }
    assert targets[..k] == targets;
  }

  // ---------------------------------------------------------------- writing and checking

  // The elements of order that are in wanted, in that order.
  function Among(order: seq<string>, wanted: set<string>): seq<string>
  {
    if order == [] then []
    else
      var n := |order| - 1;
      Among(order[..n], wanted) + (if order[n] in wanted then [order[n]] else [])
  }

  lemma AmongOneMore(order: seq<string>, k: nat, wanted: set<string>)
    requires k < |order|
    ensures Among(order[..k + 1], wanted) ==
      Among(order[..k], wanted) + (if order[k] in wanted then [order[k]] else [])
  {
    assert order[..k + 1][..k] == order[..k];
  }

  lemma NoneAmong(wanted: set<string>)
    ensures Among([], wanted) == []
  {
  }

  predicate UpToDate(files: Files, rel: string, data: Bytes) { rel in files && files[rel] == data }

  // Write to rel.tmp, then rename: whatever was called rel.tmp is gone afterwards.
  function AtomicWrite(files: Files, rel: string, data: Bytes): Files
  {
    (files[rel + TMP := data] - {rel + TMP})[rel := data]
  }

  class Workspace {
    var files: Files

    constructor (files: Files)
      ensures this.files == files
    {
      this.files := files;
    }

    method AtomicWriteBytes(rel: string, data: Bytes)
      modifies this
      ensures files == AtomicWrite(old(files), rel, data)
    {
      files := files[rel + TMP := data];
      files := (files - {rel + TMP})[rel := data];
    }

    // Writes every expected file that is missing or differs, in the order of order.
    method WriteAll(expected: Files, order: seq<string>) returns (written: seq<string>)
      requires forall rel :: rel in order <==> rel in expected
      requires NotTemporary(expected)
      modifies this
      ensures forall rel :: rel in written <==> rel in expected && !UpToDate(old(files), rel, expected[rel])
      ensures Distinct(order) ==>
        written == Among(order, set rel | rel in expected && !UpToDate(old(files), rel, expected[rel]))
      ensures Regenerated(old(files), expected, written, files)
    {
      hide Among, Partly, Regenerated, AtomicWrite, WasTemporary;
      ghost var wanted := set rel | rel in expected && !UpToDate(old(files), rel, expected[rel]);
      NothingDone(files, expected);
      NoneAmong(wanted);
      assert order[..0] == [];
      written := [];
      var k := 0;
      while k < |order|
        invariant 0 <= k <= |order|
        invariant forall rel :: rel in written <==> rel in order[..k] && !UpToDate(old(files), rel, expected[rel])
        invariant Distinct(order) ==> written == Among(order[..k], wanted)
        invariant Partly(old(files), expected, order[..k], written, files)
      {
        var rel := order[k];
        assert rel in order && order[..k + 1] == order[..k] + [rel];
        ghost var before := files;
        AmongOneMore(order, k, wanted);
        assert Distinct(order) ==> rel !in order[..k];
        if rel !in order[..k] {
          PartlyUntouched(old(files), expected, order[..k], written, files, rel);
        }
        if UpToDate(files, rel, expected[rel]) {
          StepUpToDate(old(files), expected, order[..k], written, before, rel);
        } else {
          AtomicWriteBytes(rel, expected[rel]);
          StepWritten(old(files), expected, order[..k], written, before, rel);
          written := written + [rel];
        }
        k := k + 1;
      }
      assert order[..k] == order;
      AllDone(old(files), expected, order, written, files);
    }

    // The drift check: missing and drifted files in the order of order, and the stale ones.
    method Check(expected: Files, order: seq<string>, m: Manifest, layout: Adapter -> Option<Dir>, host: Host)
      returns (missing: seq<string>, drifted: seq<string>, stale: seq<string>)
      requires (forall rel :: rel in order <==> rel in expected) && LaidOut(layout, files)
      ensures forall rel :: rel in stale <==> rel in Stale(files, m, expected.Keys, host)
      ensures forall rel :: rel in missing <==> rel in expected && rel !in files
      ensures forall rel :: rel in drifted <==> rel in expected && rel in files && files[rel] != expected[rel]
      ensures missing == Among(order, set rel | rel in expected && rel !in files)
      ensures drifted == Among(order, set rel | rel in expected && rel in files && files[rel] != expected[rel])
    {
      hide LaidOut, Among;
      missing, drifted := [], [];
      ghost var absent := set rel | rel in expected && rel !in files;
      ghost var different := set rel | rel in expected && rel in files && files[rel] != expected[rel];
      assert order[..0] == [];
      NoneAmong(absent);
      NoneAmong(different);
      var k := 0;
      while k < |order|
        invariant 0 <= k <= |order|
        invariant forall rel :: rel in missing <==> rel in order[..k] && rel !in files
        invariant forall rel :: rel in drifted <==> rel in order[..k] && rel in files && files[rel] != expected[rel]
        invariant missing == Among(order[..k], absent) && drifted == Among(order[..k], different)
      {
        var rel := order[k];
        assert rel in order && order[..k + 1] == order[..k] + [rel];
        AmongOneMore(order, k, absent);
        AmongOneMore(order, k, different);
        if rel !in files {
          missing := missing + [rel];
        } else if files[rel] != expected[rel] {
          drifted := drifted + [rel];
        }
        k := k + 1;
      }
      assert order[..k] == order;
      stale := ScanStale(layout, files, m, expected.Keys, host);
    }
  }

  ghost predicate NotTemporary(expected: Files) { forall rel, p :: rel in expected ==> rel != p + TMP }

  // p is the temporary name of a file that was written.
  ghost predicate WasTemporary(p: string, written: seq<string>) { exists w :: w in written && p == w + TMP }

  // The workspace after a regeneration: expected files as expected, temporaries of written files gone,
  // everything else untouched.
  ghost predicate Regenerated(before: Files, expected: Files, written: seq<string>, after: Files)
  {
    && (forall rel :: rel in expected ==> UpToDate(after, rel, expected[rel]))
    && (forall p :: p !in expected ==> (p in after <==> p in before && !WasTemporary(p, written)))
    && (forall p :: p !in expected && p in after ==> after[p] == before[p])
  }

  // The same, when only the paths in done have been treated so far.
  ghost predicate Partly(before: Files, expected: Files, done: seq<string>, written: seq<string>, now: Files)
  {
    && (forall rel :: rel in done ==> rel in expected && UpToDate(now, rel, expected[rel]))
    && (forall p :: p !in done ==> (p in now <==> p in before && !WasTemporary(p, written)))
    && (forall p :: p !in done && p in now ==> now[p] == before[p])
    && (forall w :: w in written ==> w in done)
  }

  lemma NothingDone(files: Files, expected: Files)
    ensures Partly(files, expected, [], [], files)
  {
  }

  lemma AllDone(before: Files, expected: Files, order: seq<string>, written: seq<string>, now: Files)
    requires Partly(before, expected, order, written, now) && forall rel :: rel in order <==> rel in expected
    ensures Regenerated(before, expected, written, now)
  {
  }

  lemma PartlyUntouched(
    before: Files, expected: Files, done: seq<string>, written: seq<string>, now: Files, rel: string)
    requires NotTemporary(expected) && rel in expected && Partly(before, expected, done, written, now)
    requires rel !in done
    ensures UpToDate(now, rel, expected[rel]) <==> UpToDate(before, rel, expected[rel])
  {
    assert !WasTemporary(rel, written);
  }

  lemma StepUpToDate(before: Files, expected: Files, done: seq<string>, written: seq<string>, now: Files, rel: string)
    requires NotTemporary(expected) && rel in expected && UpToDate(now, rel, expected[rel])
    requires Partly(before, expected, done, written, now)
    requires forall x :: x in written <==> x in done && !UpToDate(before, x, expected[x])
    ensures Partly(before, expected, done + [rel], written, now)
    ensures forall x :: x in written <==> x in done + [rel] && !UpToDate(before, x, expected[x])
  {
    if rel !in done {
      assert now[rel] == before[rel];
    }
  }

  lemma StepWritten(before: Files, expected: Files, done: seq<string>, written: seq<string>, now: Files, rel: string)
    requires NotTemporary(expected) && rel in expected && !UpToDate(now, rel, expected[rel])
    requires Partly(before, expected, done, written, now)
    requires forall x :: x in written <==> x in done && !UpToDate(before, x, expected[x])
    ensures Partly(before, expected, done + [rel], written + [rel], AtomicWrite(now, rel, expected[rel]))
    ensures forall x :: x in written + [rel] <==> x in done + [rel] && !UpToDate(before, x, expected[x])
  {
    var after := AtomicWrite(now, rel, expected[rel]);
    assert rel !in done;
    assert !WasTemporary(rel, written);
    forall p | p !in done + [rel] ensures p in after <==> p in before && !WasTemporary(p, written + [rel]) {
      assert p in after <==> p in now && p != rel + TMP;
      if WasTemporary(p, written) {
        var w :| w in written && p == w + TMP;
        assert w in written + [rel];
      }
      if p == rel + TMP { assert rel in written + [rel]; }
    }
    forall x | x in done ensures UpToDate(after, x, expected[x]) {
      assert x != rel + TMP;
    }
  }

  // ---------------------------------------------------------------- the fixpoint

  lemma HeadIsMember(s: seq<string>)
    ensures s != [] ==> s[0] in s
  {
  }

  // Right after a regeneration nothing is missing and nothing has drifted, a second one would write nothing
  // and leave the workspace as it is, and the stale files are the old ones less the temporaries of
  // what was written.
  lemma RegenerateIsFixpoint(
    before: Files, expected: Files, written: seq<string>, after: Files, again: seq<string>, third: Files, m: Manifest,
    host: Host)
    requires NotTemporary(expected)
    requires Regenerated(before, expected, written, after)
    requires forall rel :: rel in again <==> rel in expected && !UpToDate(after, rel, expected[rel])
    requires Regenerated(after, expected, again, third)
    ensures forall rel :: rel in expected ==> rel in after && after[rel] == expected[rel]
    ensures again == [] && third == after
    ensures forall rel :: rel in Stale(after, m, expected.Keys, host) <==>
      rel in Stale(before, m, expected.Keys, host) && !WasTemporary(rel, written)
  {
    HeadIsMember(again);
    assert forall p :: !WasTemporary(p, again);
    assert forall p :: p in third <==> p in after;
    forall rel ensures rel in Stale(after, m, expected.Keys, host) <==>
      rel in Stale(before, m, expected.Keys, host) && !WasTemporary(rel, written)
    {
      StaleIsUnexpected(rel, m, expected.Keys, host);
    }
  }

  // The stale set is unchanged exactly when no stale file has the temporary name of a file that is missing or
  // drifted beforehand.
  lemma StaleUnchangedExactly(
    before: Files, expected: Files, written: seq<string>, after: Files, m: Manifest, host: Host)
    requires NotTemporary(expected) && Regenerated(before, expected, written, after)
    requires forall rel :: rel in written <==> rel in expected && !UpToDate(before, rel, expected[rel])
    ensures Stale(after, m, expected.Keys, host) == Stale(before, m, expected.Keys, host) <==>
      forall rel :: rel in expected && !UpToDate(before, rel, expected[rel]) ==>
        rel + TMP !in Stale(before, m, expected.Keys, host)
  {
    var was, now := Stale(before, m, expected.Keys, host), Stale(after, m, expected.Keys, host);
    forall rel ensures rel in now <==> rel in was && !WasTemporary(rel, written) {
      StaleIsUnexpected(rel, m, expected.Keys, host);
    }
    if forall w :: w in written ==> w + TMP !in was {
      forall rel | rel in was ensures rel in now {
        assert !WasTemporary(rel, written);
      }
      assert now == was;
    } else {
      var w :| w in written && w + TMP in was;
      assert WasTemporary(w + TMP, written);
      assert w + TMP !in now;
    }
  }

  const CONFIG := ".codex/config.toml"

  function Config(m: Manifest, fp: string, render: Renderer): Bytes
    requires IsActive(m, Codex)
  {
    ConfigIsExpected(m, fp, render);
    ExpectedFiles(m, fp, render)[CONFIG]
  }

  // Such a file: with codex active and its configuration drifted, a file called config.toml.tmp beside it
  // is stale before a regeneration and gone after it.
  lemma StaleTemporaryVanishes(
    before: Files, m: Manifest, fp: string, render: Renderer, written: seq<string>, after: Files, host: Host)
    requires IsActive(m, Codex) && host.inside(".codex") && host.inside(CONFIG + TMP)
    requires CONFIG in before && before[CONFIG] != Config(m, fp, render) && CONFIG + TMP in before
    requires forall rel :: rel in written <==>
      rel in ExpectedFiles(m, fp, render) && !UpToDate(before, rel, ExpectedFiles(m, fp, render)[rel])
    requires Regenerated(before, ExpectedFiles(m, fp, render), written, after)
    ensures CONFIG + TMP in Stale(before, m, ExpectedFiles(m, fp, render).Keys, host)
    ensures CONFIG + TMP !in Stale(after, m, ExpectedFiles(m, fp, render).Keys, host)
  {
    hide ExpectedFiles, IsActive, IsStale;
    var expected := ExpectedFiles(m, fp, render);
    ExpectedAreNotTemporary(m, fp, render);
    ConfigIsExpected(m, fp, render);
    assert CONFIG in written && WasTemporary(CONFIG + TMP, written);
    TemporaryIsStale(m, expected.Keys, host);
  }

  lemma TemporaryIsStale(m: Manifest, expected: set<string>, host: Host)
    requires host.inside(".codex") && host.inside(CONFIG + TMP) && CONFIG + TMP !in expected
    ensures IsStale(CONFIG + TMP, m, expected, host)
  {
    var short := "config.toml.tmp";
    assert (CONFIG + TMP)[|".codex/"|..] == short && ".codex/" + short == CONFIG + TMP;
    assert ReachedFrom(Codex, short, 0, host) by {
      assert forall i :: 0 <= i < |short| ==> short[i] != '/';
    }
    assert DirOf(Codex) == ".codex" && AllowList(Codex) == [];
    assert !IsAllowlisted(short, AllowList(Codex), host.fnmatch);
    assert DirOf(Codex) + "/" == ".codex/";
    assert DirOf(Codex) + "/" + short == CONFIG + TMP;
    assert Reportable(Codex, short, expected, host);
    assert DirOf(Codex) + "/" <= CONFIG + TMP;
  }

  lemma ConfigIsExpected(m: Manifest, fp: string, render: Renderer)
    requires IsActive(m, Codex)
    ensures CONFIG in ExpectedFiles(m, fp, render)
  {
    hide RoleTargets, RenderAll;
    RenderedKeys(Targets(m), fp, render);
    assert Target(CONFIG, "") in TargetsOf(m, Codex);
    assert Target(CONFIG, "") in Targets(m);
  }

  // When no canonical input, however its path is spelled, is a generated file or the temporary of one,
  // regenerating leaves the fingerprint, and with it the whole expected set, as it was: check agrees with the
  // very next run.
  lemma FingerprintSurvivesRegeneration(
    before: Files, after: Files, written: seq<string>, manifestRel: string, m: Manifest, h: Hashing, render: Renderer,
    fp: string)
    requires CoreFingerprint(before, manifestRel, m, h) == Core(fp)
    requires forall w :: w in written ==> w in ExpectedFiles(m, fp, render)
    requires Regenerated(before, ExpectedFiles(m, fp, render), written, after)
    requires forall p :: p in CanonicalPaths(manifestRel, m) ==>
      h.locate(p) !in ExpectedFiles(m, fp, render)
        && forall rel :: rel in ExpectedFiles(m, fp, render) ==> h.locate(p) != rel + TMP
    ensures CoreFingerprint(after, manifestRel, m, h) == Core(fp)
    ensures forall rel :: rel in ExpectedFiles(m, fp, render) ==>
      UpToDate(after, rel, ExpectedFiles(m, fp, render)[rel])
  {
    hide ExpectedFiles, CanonicalPaths, CoreFingerprint;
    var expected := ExpectedFiles(m, fp, render);
    forall p | p in CanonicalPaths(manifestRel, m)
      ensures (h.locate(p) in before <==> h.locate(p) in after)
      ensures h.locate(p) in before ==> before[h.locate(p)] == after[h.locate(p)]
    {
      assert !WasTemporary(h.locate(p), written);
    }
    FingerprintReadsCanonicalFiles(before, after, manifestRel, m, h);
  }

  // --all on a workspace: fingerprint, then write what is expected. order lists the expected paths.
  method Regenerate(ws: Workspace, manifestRel: string, m: Manifest, h: Hashing, render: Renderer)
    returns (fp: Fingerprint, written: seq<string>)
    modifies ws
    ensures fp == CoreFingerprint(old(ws.files), manifestRel, m, h)
    ensures fp.MissingFile? ==> ws.files == old(ws.files) && written == []
    ensures fp.Core? ==> Regenerated(old(ws.files), ExpectedFiles(m, fp.fp, render), written, ws.files)
    ensures fp.Core? ==> forall rel :: rel in written <==>
      rel in ExpectedFiles(m, fp.fp, render) && !UpToDate(old(ws.files), rel, ExpectedFiles(m, fp.fp, render)[rel])
    ensures fp.Core? ==> exists wanted :: written == Among(Distincts(Rels(Targets(m))), wanted)
  {
    hide Targets, RenderAll, CoreFingerprint, Regenerated;
    fp := ComputeFingerprint(ws.files, manifestRel, m, h);
    if fp.MissingFile? {
      return fp, [];
    }
    var expected := BuildExpected(m, fp.fp, render);
    ExpectedAreNotTemporary(m, fp.fp, render);
    RenderedKeys(Targets(m), fp.fp, render);
    var order := Distincts(Rels(Targets(m)));
    written := ws.WriteAll(expected, order);
  }

  function Rels(ts: seq<Target>): (r: seq<string>)
    ensures forall x :: x in r <==> exists t :: t in ts && t.rel == x
  {
    if ts == [] then []
    else
      assert ts == [ts[0]] + ts[1..];
      [ts[0].rel] + Rels(ts[1..])
  }
}
