// The adapter generator: the files it expects for a manifest and a core fingerprint.
module AdapterFiles {
  import opened Options
  import opened Ordering

  newtype Byte = x: int | 0 <= x < 256
  type Bytes = seq<Byte>
  type Files = map<string, Bytes>

  datatype Adapter = Codex | OpenCode | Claude | Cursor

  function NameOf(a: Adapter): string
  {
    match a case Codex => "codex" case OpenCode => "opencode" case Claude => "claude" case Cursor => "cursor"
  }

  function DirOf(a: Adapter): string { "." + NameOf(a) }

  datatype Binding = Binding(key: string, path: string)

  // The manifest after validation: roles and workflows are bindings to canonical paths.
  datatype Manifest = Manifest(
    coreProtocol: string, orchestratorRole: string,
    roles: seq<Binding>, workflows: seq<Binding>, policies: seq<string>, generatedAdapters: seq<string>)

  predicate IsActive(m: Manifest, a: Adapter) { NameOf(a) in m.generatedAdapters }

  function Lookup(bs: seq<Binding>, key: string): Option<string>
  {
    if bs == [] then None else if bs[0].key == key then Some(bs[0].path) else Lookup(bs[1..], key)
  }

  const ROLE_ORDER: seq<string> := ["adversary", "backend-dev", "frontend-dev", "qa"]

  function RolePath(m: Manifest, role: string): string
  {
    var p := Lookup(m.roles, role);
    if p.Some? && p.value != "" then p.value else ".rad/roles/" + role + ".md"
  }

  const CURSOR_COMMANDS: seq<Binding> := [
    Binding("preflight", "rad-preflight.md"),
    Binding("architecture_audit", "rad-audit.md"),
    Binding("implementation", "rad-build.md"),
    Binding("final_release", "rad-release.md"),
    Binding("resume", "rad-resume.md")]

  // What is rendered into a file: its path, and the canonical path it refers to, if any.
  datatype Target = Target(rel: string, source: string)

  // render(rel, fingerprint, source) stands for the text templates.
  type Renderer = (string, string, string) -> Bytes

  function RoleTargets(m: Manifest, dir: string, extension: string, roles: seq<string>): seq<Target>
  {
    if roles == [] then []
    else
      [Target(dir + "/agents/" + roles[0] + extension, RolePath(m, roles[0]))]
      + RoleTargets(m, dir, extension, roles[1..])
  }

  function CommandTargets(m: Manifest, commands: seq<Binding>): seq<Target>
  {
    if commands == [] then []
    else
      var workflow := Lookup(m.workflows, commands[0].key);
      (if workflow.Some? then [Target(".cursor/commands/" + commands[0].path, workflow.value)] else [])
      + CommandTargets(m, commands[1..])
  }

  // The files of one adapter directory.
  function TargetsOf(m: Manifest, a: Adapter): seq<Target>
  {
    match a
    case Codex =>
      [Target(".codex/config.toml", ""), Target(".codex/README.md", "")] + RoleTargets(m, ".codex", ".toml", ROLE_ORDER)
    case Claude =>
      [Target(".claude/README.md", "")] + RoleTargets(m, ".claude", ".md", ROLE_ORDER)
    case Cursor =>
      [Target(".cursor/README.md", "")] + RoleTargets(m, ".cursor", ".md", ROLE_ORDER)
        + CommandTargets(m, CURSOR_COMMANDS)
    case OpenCode =>
      [Target(".opencode/README.md", ""), Target(".opencode/agents/orchestrator.md", "")]
      + RoleTargets(m, ".opencode", ".md", ROLE_ORDER)
  }

  function WhenActive(m: Manifest, a: Adapter): seq<Target> { if IsActive(m, a) then TargetsOf(m, a) else [] }

  // The generated files in the order in which they are produced.
  function Targets(m: Manifest): seq<Target>
  {
    (if IsActive(m, Claude) then [Target("CLAUDE.md", "")] else [])
    + WhenActive(m, Codex) + WhenActive(m, Claude) + WhenActive(m, Cursor) + WhenActive(m, OpenCode)
  }

  // files[rel] = render(...), one after the other.
  function RenderAll(targets: seq<Target>, fp: string, render: Renderer): Files
  {
    if targets == [] then map[]
    else
      var last := targets[|targets| - 1];
      RenderAll(targets[..|targets| - 1], fp, render)[last.rel := render(last.rel, fp, last.source)]
  }

  function ExpectedFiles(m: Manifest, fp: string, render: Renderer): Files { RenderAll(Targets(m), fp, render) }

  // ---------------------------------------------------------------- no expected path is a temporary name

  const TMP := ".tmp"

  predicate EndsIn(s: string, c: char) { s != "" && s[|s| - 1] == c }

  predicate Permanent(s: string) { EndsIn(s, 'd') || EndsIn(s, 'l') }

  ghost predicate AllPermanent(ts: seq<Target>) { forall t :: t in ts ==> Permanent(t.rel) }

  lemma {:induction false} RolesArePermanent(m: Manifest, dir: string, extension: string, roles: seq<string>)
    requires Permanent(extension)
    ensures AllPermanent(RoleTargets(m, dir, extension, roles))
  {
    if roles != [] {
      RolesArePermanent(m, dir, extension, roles[1..]);
      var rel := dir + "/agents/" + roles[0] + extension;
      assert rel[|rel| - 1] == extension[|extension| - 1];
    }
  }

  lemma {:induction false} CommandsArePermanent(m: Manifest, commands: seq<Binding>)
    requires forall c :: c in commands ==> Permanent(c.path)
    ensures AllPermanent(CommandTargets(m, commands))
  {
    if commands != [] {
      CommandsArePermanent(m, commands[1..]);
      var rel := ".cursor/commands/" + commands[0].path;
      assert rel[|rel| - 1] == commands[0].path[|commands[0].path| - 1];
    }
  }

  lemma AdapterIsPermanent(m: Manifest, a: Adapter)
    ensures AllPermanent(TargetsOf(m, a))
  {
    hide RoleTargets, CommandTargets;
    match a
    case Codex => RolesArePermanent(m, ".codex", ".toml", ROLE_ORDER);
    case Claude => RolesArePermanent(m, ".claude", ".md", ROLE_ORDER);
    case Cursor => RolesArePermanent(m, ".cursor", ".md", ROLE_ORDER); CommandsArePermanent(m, CURSOR_COMMANDS);
    case OpenCode => RolesArePermanent(m, ".opencode", ".md", ROLE_ORDER);
  }

  lemma TargetsArePermanent(m: Manifest)
    ensures AllPermanent(Targets(m))
  {
    hide TargetsOf, IsActive;
    AdapterIsPermanent(m, Codex);
    AdapterIsPermanent(m, Claude);
    AdapterIsPermanent(m, Cursor);
    AdapterIsPermanent(m, OpenCode);
    assert Permanent("CLAUDE.md");
  }

  lemma {:induction false} RenderedKeys(targets: seq<Target>, fp: string, render: Renderer)
    ensures forall rel :: rel in RenderAll(targets, fp, render) <==> exists t :: t in targets && t.rel == rel
  {
    if targets != [] {
      var n := |targets| - 1;
      RenderedKeys(targets[..n], fp, render);
      assert targets == targets[..n] + [targets[n]];
    }
  }

  // No expected path is the temporary name of any path.
  lemma ExpectedAreNotTemporary(m: Manifest, fp: string, render: Renderer)
    ensures forall rel, p :: rel in ExpectedFiles(m, fp, render) ==> rel != p + TMP
  {
    TargetsArePermanent(m);
    RenderedKeys(Targets(m), fp, render);
    forall rel, p | rel in ExpectedFiles(m, fp, render) ensures rel != p + TMP {
      var t :| t in Targets(m) && t.rel == rel;
      assert (p + TMP)[|p + TMP| - 1] == 'p';
    }
  }

  // ---------------------------------------------------------------- core fingerprint

  // Everything the fingerprint is computed from, in manifest order.
  function CanonicalPaths(manifestRel: string, m: Manifest): seq<string>
  {
    [manifestRel, m.coreProtocol, m.orchestratorRole] + PathsOf(m.roles) + PathsOf(m.workflows) + m.policies
  }

  function PathsOf(bs: seq<Binding>): seq<string>
  {
    if bs == [] then [] else [bs[0].path] + PathsOf(bs[1..])
  }

  // locate tells which file a path of the manifest leads to, however it is spelled; encode is the UTF-8
  // encoding, digest the shortened SHA-256 of the stream.
  datatype Hashing = Hashing(locate: string -> string, encode: string -> Bytes, digest: Bytes -> string)

  datatype Fingerprint = MissingFile(rel: string) | Core(fp: string)

  datatype Stream = Broken(rel: string) | Stream(bytes: Bytes)

  // The concatenation of path, zero, contents, zero; stops at the first missing file.
  function StreamOf(files: Files, rels: seq<string>, h: Hashing): Stream
  {
    if rels == [] then Stream([])
    else if h.locate(rels[0]) !in files then Broken(rels[0])
    else
      match StreamOf(files, rels[1..], h)
      case Broken(r) => Broken(r)
      case Stream(bytes) => Stream(h.encode(rels[0]) + [0] + files[h.locate(rels[0])] + [0] + bytes)
  }

  function SortedRels(manifestRel: string, m: Manifest): seq<string>
  {
    SortBy(StringLess, Distincts(CanonicalPaths(manifestRel, m)))
  }

  function CoreFingerprint(files: Files, manifestRel: string, m: Manifest, h: Hashing): Fingerprint
  {
    match StreamOf(files, SortedRels(manifestRel, m), h)
    case Broken(rel) => MissingFile(rel)
    case Stream(bytes) => Core(h.digest(bytes))
  }

  // The hashing loop.
  method ComputeFingerprint(files: Files, manifestRel: string, m: Manifest, h: Hashing) returns (r: Fingerprint)
    ensures r == CoreFingerprint(files, manifestRel, m, h)
  {
    var rels := SortedRels(manifestRel, m);
    var bytes: Bytes := [];
    var k := 0;
    while k < |rels|
      invariant 0 <= k <= |rels|
      invariant StreamOf(files, rels, h) ==
        match StreamOf(files, rels[k..], h)
        case Broken(x) => Broken(x)
        case Stream(rest) => Stream(bytes + rest)
    {
      assert rels[k..][0] == rels[k] && rels[k..][1..] == rels[k + 1..];
      if h.locate(rels[k]) !in files {
        return MissingFile(rels[k]);
      }
      StreamStep(bytes, h.encode(rels[k]), files[h.locate(rels[k])], files, rels[k + 1..], h);
      bytes := bytes + h.encode(rels[k]);
      bytes := bytes + [0];
      bytes := bytes + files[h.locate(rels[k])];
      bytes := bytes + [0];
      k := k + 1;
    }
    assert rels[k..] == [] && bytes + [] == bytes;
    return Core(h.digest(bytes));
  }

  lemma StreamStep(bytes: Bytes, name: Bytes, data: Bytes, files: Files, rest: seq<string>, h: Hashing)
    ensures
      match StreamOf(files, rest, h)
      case Broken(_) => true
      case Stream(b) => bytes + (name + [0] + data + [0] + b) == (bytes + name + [0] + data + [0]) + b
  {
  }

  // The fingerprint depends on the set of canonical paths only: neither the order of the manifest's
  // entries nor repeating one changes it.
  lemma FingerprintIgnoresOrder(files: Files, manifestRel: string, m: Manifest, m': Manifest, h: Hashing)
    requires forall p :: p in CanonicalPaths(manifestRel, m) <==> p in CanonicalPaths(manifestRel, m')
    ensures CoreFingerprint(files, manifestRel, m, h) == CoreFingerprint(files, manifestRel, m', h)
  {
    var a, b := Distincts(CanonicalPaths(manifestRel, m)), Distincts(CanonicalPaths(manifestRel, m'));
    StringsAreOrdered();
    SortBySorted(StringLess, a);
    SortBySorted(StringLess, b);
    SortByCounts(StringLess, a);
    SortByCounts(StringLess, b);
    SortedUnique(StringLess, SortBy(StringLess, a), SortBy(StringLess, b));
  }

  predicate SameFile(files: Files, files': Files, p: string)
  {
    (p in files <==> p in files') && (p in files ==> files[p] == files'[p])
  }

  // It depends on the canonical files only.
  lemma FingerprintReadsCanonicalFiles(files: Files, files': Files, manifestRel: string, m: Manifest, h: Hashing)
    requires forall p :: p in CanonicalPaths(manifestRel, m) ==> SameFile(files, files', h.locate(p))
    ensures CoreFingerprint(files, manifestRel, m, h) == CoreFingerprint(files', manifestRel, m, h)
  {
    SortByCounts(StringLess, Distincts(CanonicalPaths(manifestRel, m)));
    StreamReads(files, files', SortedRels(manifestRel, m), h);
  }

  lemma {:induction false} StreamReads(files: Files, files': Files, rels: seq<string>, h: Hashing)
    requires forall p :: p in rels ==> SameFile(files, files', h.locate(p))
    ensures StreamOf(files, rels, h) == StreamOf(files', rels, h)
  {
    if rels != [] {
      assert rels[0] in rels;
      StreamReads(files, files', rels[1..], h);
    }
  }

  // It is defined exactly when every canonical file is there.
  lemma FingerprintNeedsEveryFile(files: Files, manifestRel: string, m: Manifest, h: Hashing)
    ensures CoreFingerprint(files, manifestRel, m, h).Core? <==>
      forall p :: p in CanonicalPaths(manifestRel, m) ==> h.locate(p) in files
  {
    SortByCounts(StringLess, Distincts(CanonicalPaths(manifestRel, m)));
    StreamNeeds(files, SortedRels(manifestRel, m), h);
  }

  lemma {:induction false} StreamNeeds(files: Files, rels: seq<string>, h: Hashing)
    ensures StreamOf(files, rels, h).Stream? <==> forall p :: p in rels ==> h.locate(p) in files
  {
    if rels != [] {
      StreamNeeds(files, rels[1..], h);
      assert rels == [rels[0]] + rels[1..];
    }
  }
}
