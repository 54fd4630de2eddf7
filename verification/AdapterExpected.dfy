// Which files the generator expects, as a plain list of paths, and what each one is rendered from; and which
// other files are stale.
module AdapterExpected {
  import opened Options
  import opened AdapterFiles
  import opened AdapterRegenerate

  // A generated file: of an adapter alone, of one of its roles, or of a Cursor command for a workflow.
  // fallback is the role's path when the manifest gives none.
  datatype Row =
    | Fixed(rel: string, adapter: string)
    | OfRole(rel: string, adapter: string, role: string, fallback: string)
    | OfWorkflow(rel: string, key: string)

  const CODEX_FILES: seq<Row> := [
    Fixed(".codex/config.toml", "codex"),
    Fixed(".codex/README.md", "codex"),
    OfRole(".codex/agents/adversary.toml", "codex", "adversary", ".rad/roles/adversary.md"),
    OfRole(".codex/agents/backend-dev.toml", "codex", "backend-dev", ".rad/roles/backend-dev.md"),
    OfRole(".codex/agents/frontend-dev.toml", "codex", "frontend-dev", ".rad/roles/frontend-dev.md"),
    OfRole(".codex/agents/qa.toml", "codex", "qa", ".rad/roles/qa.md")]

  const CLAUDE_FILES: seq<Row> := [
    Fixed(".claude/README.md", "claude"),
    OfRole(".claude/agents/adversary.md", "claude", "adversary", ".rad/roles/adversary.md"),
    OfRole(".claude/agents/backend-dev.md", "claude", "backend-dev", ".rad/roles/backend-dev.md"),
    OfRole(".claude/agents/frontend-dev.md", "claude", "frontend-dev", ".rad/roles/frontend-dev.md"),
    OfRole(".claude/agents/qa.md", "claude", "qa", ".rad/roles/qa.md")]

  const CURSOR_FILES: seq<Row> := [
    Fixed(".cursor/README.md", "cursor"),
    OfRole(".cursor/agents/adversary.md", "cursor", "adversary", ".rad/roles/adversary.md"),
    OfRole(".cursor/agents/backend-dev.md", "cursor", "backend-dev", ".rad/roles/backend-dev.md"),
    OfRole(".cursor/agents/frontend-dev.md", "cursor", "frontend-dev", ".rad/roles/frontend-dev.md"),
    OfRole(".cursor/agents/qa.md", "cursor", "qa", ".rad/roles/qa.md")]

  const COMMAND_FILES: seq<Row> := [
    OfWorkflow(".cursor/commands/rad-preflight.md", "preflight"),
    OfWorkflow(".cursor/commands/rad-audit.md", "architecture_audit"),
    OfWorkflow(".cursor/commands/rad-build.md", "implementation"),
    OfWorkflow(".cursor/commands/rad-release.md", "final_release"),
    OfWorkflow(".cursor/commands/rad-resume.md", "resume")]

  const OPENCODE_FILES: seq<Row> := [
    Fixed(".opencode/README.md", "opencode"),
    Fixed(".opencode/agents/orchestrator.md", "opencode"),
    OfRole(".opencode/agents/adversary.md", "opencode", "adversary", ".rad/roles/adversary.md"),
    OfRole(".opencode/agents/backend-dev.md", "opencode", "backend-dev", ".rad/roles/backend-dev.md"),
    OfRole(".opencode/agents/frontend-dev.md", "opencode", "frontend-dev", ".rad/roles/frontend-dev.md"),
    OfRole(".opencode/agents/qa.md", "opencode", "qa", ".rad/roles/qa.md")]

  const ROOT_FILES: seq<Row> := [Fixed("CLAUDE.md", "claude")]

  predicate Listed(row: Row)
  {
    || row in ROOT_FILES || row in CODEX_FILES || row in CLAUDE_FILES
    || row in CURSOR_FILES || row in COMMAND_FILES || row in OPENCODE_FILES
  }

  ghost predicate FirstBinding(bs: seq<Binding>, key: string, i: int)
  {
    0 <= i < |bs| && bs[i].key == key && forall j :: 0 <= j < i ==> bs[j].key != key
  }

  // The row is rendered, from the path src: its adapter is active, and its workflow is in the manifest.
  ghost predicate Wanted(m: Manifest, row: Row, src: string)
  {
    match row
    case Fixed(_, adapter) => adapter in m.generatedAdapters && src == ""
    case OfRole(_, adapter, role, fallback) =>
      && adapter in m.generatedAdapters
      && (|| (exists i :: FirstBinding(m.roles, role, i) && m.roles[i].path != "" && src == m.roles[i].path)
          || (src == fallback && forall i :: FirstBinding(m.roles, role, i) ==> m.roles[i].path == ""))
    case OfWorkflow(_, key) =>
      && "cursor" in m.generatedAdapters
      && exists i :: FirstBinding(m.workflows, key, i) && src == m.workflows[i].path
  }

  lemma {:induction false} LookupFinds(bs: seq<Binding>, key: string)
    ensures Lookup(bs, key).Some? <==> exists i :: FirstBinding(bs, key, i)
    ensures forall i :: FirstBinding(bs, key, i) ==> Lookup(bs, key) == Some(bs[i].path)
  {
    if bs != [] {
      if bs[0].key == key {
        assert FirstBinding(bs, key, 0);
      } else {
        LookupFinds(bs[1..], key);
        assert forall j :: 0 < j < |bs| ==> bs[j] == bs[1..][j - 1];
        forall i | FirstBinding(bs[1..], key, i) ensures FirstBinding(bs, key, i + 1) {
        }
        forall i | FirstBinding(bs, key, i) ensures i > 0 && FirstBinding(bs[1..], key, i - 1) {
        }
      }
    }
  }

  lemma RoleIsWanted(m: Manifest, row: Row, adapter: Adapter, src: string)
    requires row.OfRole? && row.adapter == NameOf(adapter) && row.fallback == ".rad/roles/" + row.role + ".md"
    ensures Wanted(m, row, src) <==> IsActive(m, adapter) && src == RolePath(m, row.role)
  {
    hide Lookup;
    LookupFinds(m.roles, row.role);
    if i :| FirstBinding(m.roles, row.role, i) {
      assert Lookup(m.roles, row.role) == Some(m.roles[i].path);
    }
  }

  lemma WorkflowIsWanted(m: Manifest, row: Row, src: string)
    requires row.OfWorkflow?
    ensures Wanted(m, row, src) <==> IsActive(m, Cursor) && Lookup(m.workflows, row.key) == Some(src)
  {
    hide Lookup;
    LookupFinds(m.workflows, row.key);
    if i :| FirstBinding(m.workflows, row.key, i) {
      assert Lookup(m.workflows, row.key) == Some(m.workflows[i].path);
    }
  }

  // ---------------------------------------------------------------- row by row

  // Target by target the rows of an active adapter.
  ghost predicate Renders(m: Manifest, a: Adapter, ts: seq<Target>, rows: seq<Row>)
  {
    && |ts| == |rows|
    && forall i :: 0 <= i < |rows| ==>
         ts[i].rel == rows[i].rel && forall src :: Wanted(m, rows[i], src) <==> IsActive(m, a) && src == ts[i].source
  }

  function RoleRow(a: Adapter, dir: string, extension: string, role: string): Row
  {
    OfRole(dir + "/agents/" + role + extension, NameOf(a), role, ".rad/roles/" + role + ".md")
  }

  function RoleRows(a: Adapter, dir: string, extension: string, roles: seq<string>): (r: seq<Row>)
    ensures |r| == |roles| && forall i :: 0 <= i < |roles| ==> r[i] == RoleRow(a, dir, extension, roles[i])
  {
    if roles == [] then [] else [RoleRow(a, dir, extension, roles[0])] + RoleRows(a, dir, extension, roles[1..])
  }

  lemma {:induction false} RolesRendered(m: Manifest, a: Adapter, dir: string, extension: string, roles: seq<string>)
    ensures Renders(m, a, RoleTargets(m, dir, extension, roles), RoleRows(a, dir, extension, roles))
  {
    hide Wanted, RolePath, IsActive;
    if roles != [] {
      RolesRendered(m, a, dir, extension, roles[1..]);
      var row := RoleRow(a, dir, extension, roles[0]);
      forall src ensures Wanted(m, row, src) <==> IsActive(m, a) && src == RolePath(m, roles[0]) {
        RoleIsWanted(m, row, a, src);
      }
      RendersCons(m, a, Target(row.rel, RolePath(m, roles[0])), row,
        RoleTargets(m, dir, extension, roles[1..]), RoleRows(a, dir, extension, roles[1..]));
    }
  }

  lemma RendersCons(m: Manifest, a: Adapter, t: Target, row: Row, ts: seq<Target>, rows: seq<Row>)
    requires t.rel == row.rel && forall src :: Wanted(m, row, src) <==> IsActive(m, a) && src == t.source
    requires Renders(m, a, ts, rows)
    ensures Renders(m, a, [t] + ts, [row] + rows)
  {
  }

  // An active adapter's fixed file.
  lemma FixedCons(m: Manifest, a: Adapter, rel: string, ts: seq<Target>, rows: seq<Row>)
    requires Renders(m, a, ts, rows)
    ensures Renders(m, a, [Target(rel, "")] + ts, [Fixed(rel, NameOf(a))] + rows)
  {
    hide Renders;
    RendersCons(m, a, Target(rel, ""), Fixed(rel, NameOf(a)), ts, rows);
  }

  lemma RolesListed(a: Adapter, dir: string, extension: string)
    ensures RoleRows(a, dir, extension, ROLE_ORDER) == [
      OfRole(dir + "/agents/" + "adversary" + extension, NameOf(a), "adversary", ".rad/roles/adversary.md"),
      OfRole(dir + "/agents/" + "backend-dev" + extension, NameOf(a), "backend-dev", ".rad/roles/backend-dev.md"),
      OfRole(dir + "/agents/" + "frontend-dev" + extension, NameOf(a), "frontend-dev", ".rad/roles/frontend-dev.md"),
      OfRole(dir + "/agents/" + "qa" + extension, NameOf(a), "qa", ".rad/roles/qa.md")]
  {
    hide RoleRows;
    FallbackPaths();
  }

  lemma FallbackPaths()
    ensures ".rad/roles/" + "adversary" + ".md" == ".rad/roles/adversary.md"
    ensures ".rad/roles/" + "backend-dev" + ".md" == ".rad/roles/backend-dev.md"
    ensures ".rad/roles/" + "frontend-dev" + ".md" == ".rad/roles/frontend-dev.md"
    ensures ".rad/roles/" + "qa" + ".md" == ".rad/roles/qa.md"
  {
  }

  lemma CodexRendered(m: Manifest)
    ensures Renders(m, Codex, TargetsOf(m, Codex), CODEX_FILES)
  {
    hide Renders, RoleTargets, RoleRows;
    var roles, rows := RoleTargets(m, ".codex", ".toml", ROLE_ORDER), RoleRows(Codex, ".codex", ".toml", ROLE_ORDER);
    RolesRendered(m, Codex, ".codex", ".toml", ROLE_ORDER);
    RolesListed(Codex, ".codex", ".toml");
    CodexPaths();
    FixedCons(m, Codex, ".codex/README.md", roles, rows);
    FixedCons(m, Codex, ".codex/config.toml",
      [Target(".codex/README.md", "")] + roles, [Fixed(".codex/README.md", "codex")] + rows);
    assert TargetsOf(m, Codex) == [Target(".codex/config.toml", "")] + ([Target(".codex/README.md", "")] + roles);
    assert CODEX_FILES == [Fixed(".codex/config.toml", "codex")] + ([Fixed(".codex/README.md", "codex")] + rows);
  }

  lemma CodexPaths()
    ensures ".codex" + "/agents/" + "adversary" + ".toml" == ".codex/agents/adversary.toml"
    ensures ".codex" + "/agents/" + "backend-dev" + ".toml" == ".codex/agents/backend-dev.toml"
    ensures ".codex" + "/agents/" + "frontend-dev" + ".toml" == ".codex/agents/frontend-dev.toml"
    ensures ".codex" + "/agents/" + "qa" + ".toml" == ".codex/agents/qa.toml"
  {
    CodexLongPaths();
  }

  lemma CodexLongPaths()
    ensures ".codex" + "/agents/" + "backend-dev" + ".toml" == ".codex/agents/backend-dev.toml"
    ensures ".codex" + "/agents/" + "frontend-dev" + ".toml" == ".codex/agents/frontend-dev.toml"
  {
  }

  lemma ClaudeRendered(m: Manifest)
    ensures Renders(m, Claude, TargetsOf(m, Claude), CLAUDE_FILES)
  {
    hide Renders, RoleTargets, RoleRows;
    var roles, rows := RoleTargets(m, ".claude", ".md", ROLE_ORDER), RoleRows(Claude, ".claude", ".md", ROLE_ORDER);
    RolesRendered(m, Claude, ".claude", ".md", ROLE_ORDER);
    RolesListed(Claude, ".claude", ".md");
    ClaudePaths();
    FixedCons(m, Claude, ".claude/README.md", roles, rows);
    assert CLAUDE_FILES == [Fixed(".claude/README.md", "claude")] + rows;
  }

  lemma ClaudePaths()
    ensures ".claude" + "/agents/" + "adversary" + ".md" == ".claude/agents/adversary.md"
    ensures ".claude" + "/agents/" + "backend-dev" + ".md" == ".claude/agents/backend-dev.md"
    ensures ".claude" + "/agents/" + "frontend-dev" + ".md" == ".claude/agents/frontend-dev.md"
    ensures ".claude" + "/agents/" + "qa" + ".md" == ".claude/agents/qa.md"
  {
    ClaudeLongPaths();
  }

  lemma ClaudeLongPaths()
    ensures ".claude" + "/agents/" + "backend-dev" + ".md" == ".claude/agents/backend-dev.md"
    ensures ".claude" + "/agents/" + "frontend-dev" + ".md" == ".claude/agents/frontend-dev.md"
  {
  }

  lemma CursorRendered(m: Manifest)
    ensures Renders(m, Cursor,
      [Target(".cursor/README.md", "")] + RoleTargets(m, ".cursor", ".md", ROLE_ORDER), CURSOR_FILES)
  {
    hide Renders, RoleTargets, RoleRows;
    var roles, rows := RoleTargets(m, ".cursor", ".md", ROLE_ORDER), RoleRows(Cursor, ".cursor", ".md", ROLE_ORDER);
    RolesRendered(m, Cursor, ".cursor", ".md", ROLE_ORDER);
    RolesListed(Cursor, ".cursor", ".md");
    CursorPaths();
    FixedCons(m, Cursor, ".cursor/README.md", roles, rows);
    assert CURSOR_FILES == [Fixed(".cursor/README.md", "cursor")] + rows;
  }

  lemma CursorPaths()
    ensures ".cursor" + "/agents/" + "adversary" + ".md" == ".cursor/agents/adversary.md"
    ensures ".cursor" + "/agents/" + "backend-dev" + ".md" == ".cursor/agents/backend-dev.md"
    ensures ".cursor" + "/agents/" + "frontend-dev" + ".md" == ".cursor/agents/frontend-dev.md"
    ensures ".cursor" + "/agents/" + "qa" + ".md" == ".cursor/agents/qa.md"
  {
    CursorLongPaths();
  }

  lemma CursorLongPaths()
    ensures ".cursor" + "/agents/" + "backend-dev" + ".md" == ".cursor/agents/backend-dev.md"
    ensures ".cursor" + "/agents/" + "frontend-dev" + ".md" == ".cursor/agents/frontend-dev.md"
  {
  }

  lemma OpenCodeRendered(m: Manifest)
    ensures Renders(m, OpenCode, TargetsOf(m, OpenCode), OPENCODE_FILES)
  {
    hide Renders, RoleTargets, RoleRows;
    var roles := RoleTargets(m, ".opencode", ".md", ROLE_ORDER);
    var rows := RoleRows(OpenCode, ".opencode", ".md", ROLE_ORDER);
    var lead := ".opencode/agents/orchestrator.md";
    RolesRendered(m, OpenCode, ".opencode", ".md", ROLE_ORDER);
    RolesListed(OpenCode, ".opencode", ".md");
    OpenCodePaths();
    FixedCons(m, OpenCode, lead, roles, rows);
    FixedCons(m, OpenCode, ".opencode/README.md", [Target(lead, "")] + roles, [Fixed(lead, "opencode")] + rows);
    assert TargetsOf(m, OpenCode) == [Target(".opencode/README.md", "")] + ([Target(lead, "")] + roles);
    assert OPENCODE_FILES == [Fixed(".opencode/README.md", "opencode")] + ([Fixed(lead, "opencode")] + rows);
  }

  lemma OpenCodePaths()
    ensures ".opencode" + "/agents/" + "adversary" + ".md" == ".opencode/agents/adversary.md"
    ensures ".opencode" + "/agents/" + "backend-dev" + ".md" == ".opencode/agents/backend-dev.md"
    ensures ".opencode" + "/agents/" + "frontend-dev" + ".md" == ".opencode/agents/frontend-dev.md"
    ensures ".opencode" + "/agents/" + "qa" + ".md" == ".opencode/agents/qa.md"
  {
    OpenCodeLongPaths();
  }

  lemma OpenCodeLongPaths()
    ensures ".opencode" + "/agents/" + "backend-dev" + ".md" == ".opencode/agents/backend-dev.md"
    ensures ".opencode" + "/agents/" + "frontend-dev" + ".md" == ".opencode/agents/frontend-dev.md"
  {
  }

  // ---------------------------------------------------------------- commands

  function CommandRows(commands: seq<Binding>): (r: seq<Row>)
    ensures |r| == |commands|
    ensures forall i :: 0 <= i < |r| ==> r[i] == OfWorkflow(".cursor/commands/" + commands[i].path, commands[i].key)
  {
    if commands == [] then []
    else [OfWorkflow(".cursor/commands/" + commands[0].path, commands[0].key)] + CommandRows(commands[1..])
  }

  lemma {:induction false} CommandsRendered(m: Manifest, commands: seq<Binding>, t: Target)
    requires IsActive(m, Cursor)
    ensures t in CommandTargets(m, commands) <==>
      exists row :: row in CommandRows(commands) && row.rel == t.rel && Wanted(m, row, t.source)
  {
    hide Wanted, Lookup;
    if commands != [] {
      var rest := commands[1..];
      CommandsRendered(m, rest, t);
      var row := OfWorkflow(".cursor/commands/" + commands[0].path, commands[0].key);
      assert CommandRows(commands) == [row] + CommandRows(rest);
      WorkflowIsWanted(m, row, t.source);
      var workflow := Lookup(m.workflows, commands[0].key);
      assert CommandTargets(m, commands) ==
        (if workflow.Some? then [Target(row.rel, workflow.value)] else []) + CommandTargets(m, rest);
    }
  }

  lemma CommandsListed()
    ensures CommandRows(CURSOR_COMMANDS) == COMMAND_FILES
  {
    hide CommandRows;
    CommandPaths();
  }

  lemma CommandPaths()
    ensures ".cursor/commands/" + "rad-preflight.md" == ".cursor/commands/rad-preflight.md"
    ensures ".cursor/commands/" + "rad-audit.md" == ".cursor/commands/rad-audit.md"
    ensures ".cursor/commands/" + "rad-build.md" == ".cursor/commands/rad-build.md"
    ensures ".cursor/commands/" + "rad-release.md" == ".cursor/commands/rad-release.md"
    ensures ".cursor/commands/" + "rad-resume.md" == ".cursor/commands/rad-resume.md"
  {
  }

  // ---------------------------------------------------------------- all files

  ghost predicate FromRows(m: Manifest, t: Target, rows: seq<Row>)
  {
    exists row :: row in rows && row.rel == t.rel && Wanted(m, row, t.source)
  }

  lemma RowsOfAdapter(m: Manifest, a: Adapter, ts: seq<Target>, rows: seq<Row>, t: Target)
    requires Renders(m, a, ts, rows)
    ensures (IsActive(m, a) && t in ts) <==> FromRows(m, t, rows)
  {
    hide Wanted, IsActive;
    if IsActive(m, a) && t in ts {
      var i :| 0 <= i < |ts| && ts[i] == t;
      assert rows[i] in rows;
    }
    if FromRows(m, t, rows) {
      var row :| row in rows && row.rel == t.rel && Wanted(m, row, t.source);
      var i :| 0 <= i < |rows| && rows[i] == row;
      assert ts[i] == t;
    }
  }

  lemma CursorRowsExactly(m: Manifest, t: Target)
    ensures t in WhenActive(m, Cursor) <==> FromRows(m, t, CURSOR_FILES) || FromRows(m, t, COMMAND_FILES)
  {
    hide RoleTargets, CommandTargets, Wanted, Renders, Lookup;
    var own := [Target(".cursor/README.md", "")] + RoleTargets(m, ".cursor", ".md", ROLE_ORDER);
    CursorRendered(m);
    RowsOfAdapter(m, Cursor, own, CURSOR_FILES, t);
    CommandsListed();
    if IsActive(m, Cursor) {
      CommandsRendered(m, CURSOR_COMMANDS, t);
    } else {
      forall row | row in COMMAND_FILES ensures !Wanted(m, row, t.source) {
        WorkflowIsWanted(m, row, t.source);
      }
    }
  }

  lemma TargetsExactly(m: Manifest, t: Target)
    ensures t in Targets(m) <==> exists row :: Listed(row) && row.rel == t.rel && Wanted(m, row, t.source)
  {
    hide TargetsOf, Wanted, Renders, IsActive;
    CodexRendered(m);
    RowsOfAdapter(m, Codex, TargetsOf(m, Codex), CODEX_FILES, t);
    ClaudeRendered(m);
    RowsOfAdapter(m, Claude, TargetsOf(m, Claude), CLAUDE_FILES, t);
    CursorRowsExactly(m, t);
    OpenCodeRendered(m);
    RowsOfAdapter(m, OpenCode, TargetsOf(m, OpenCode), OPENCODE_FILES, t);
    RootExactly(m, t);
  }

  lemma RootExactly(m: Manifest, t: Target)
    ensures IsActive(m, Claude) && t == Target("CLAUDE.md", "") <==> FromRows(m, t, ROOT_FILES)
  {
    assert ROOT_FILES[0] in ROOT_FILES;
  }

  lemma {:induction false} RenderedFrom(targets: seq<Target>, fp: string, render: Renderer, rel: string)
    requires rel in RenderAll(targets, fp, render)
    ensures exists src :: Target(rel, src) in targets && RenderAll(targets, fp, render)[rel] == render(rel, fp, src)
  {
    var n := |targets| - 1;
    if targets[n].rel == rel {
      assert targets[n] == Target(rel, targets[n].source);
    } else {
      RenderedFrom(targets[..n], fp, render, rel);
      var src :| Target(rel, src) in targets[..n] && RenderAll(targets[..n], fp, render)[rel] == render(rel, fp, src);
      assert Target(rel, src) in targets;
    }
  }

  // The expected files are exactly the listed ones whose adapter is active, and whose workflow is there; each
  // is rendered from the path it refers to.
  lemma ExpectedExactly(m: Manifest, fp: string, render: Renderer, rel: string)
    ensures rel in ExpectedFiles(m, fp, render) <==>
      exists row, src :: Listed(row) && row.rel == rel && Wanted(m, row, src)
    ensures rel in ExpectedFiles(m, fp, render) ==>
      exists row, src ::
        && Listed(row) && row.rel == rel && Wanted(m, row, src)
        && ExpectedFiles(m, fp, render)[rel] == render(rel, fp, src)
  {
    hide Targets, RenderAll, Wanted, Listed;
    var files := ExpectedFiles(m, fp, render);
    RenderedKeys(Targets(m), fp, render);
    if rel in files {
      RenderedFrom(Targets(m), fp, render, rel);
      var src :| Target(rel, src) in Targets(m) && files[rel] == render(rel, fp, src);
      TargetsExactly(m, Target(rel, src));
    }
    if row, src :| Listed(row) && row.rel == rel && Wanted(m, row, src) {
      TargetsExactly(m, Target(rel, src));
    }
  }

  // ---------------------------------------------------------------- the order of the files

  // The paths of the rows that are rendered, in the order of the rows.
  ghost function ActiveRels(m: Manifest, rows: seq<Row>): seq<string>
  {
    if rows == [] then []
    else (if exists src :: Wanted(m, rows[0], src) then [rows[0].rel] else []) + ActiveRels(m, rows[1..])
  }

  lemma {:induction false} RelsJoin(a: seq<Target>, b: seq<Target>)
    ensures Rels(a + b) == Rels(a) + Rels(b)
  {
    if a == [] {
      assert a + b == b;
    } else {
      RelsJoin(a[1..], b);
      assert (a + b)[1..] == a[1..] + b;
    }
  }

  lemma {:induction false} ActiveJoin(m: Manifest, a: seq<Row>, b: seq<Row>)
    ensures ActiveRels(m, a + b) == ActiveRels(m, a) + ActiveRels(m, b)
  {
    hide Wanted;
    if a == [] {
      assert a + b == b;
    } else {
      ActiveJoin(m, a[1..], b);
      assert (a + b)[1..] == a[1..] + b;
    }
  }

  lemma {:induction false} RelsOfAdapter(m: Manifest, a: Adapter, ts: seq<Target>, rows: seq<Row>)
    requires Renders(m, a, ts, rows)
    ensures (if IsActive(m, a) then Rels(ts) else []) == ActiveRels(m, rows)
    decreases |ts|
  {
    hide Wanted, IsActive;
    if rows != [] {
      assert Renders(m, a, ts[1..], rows[1..]) by {
        assert forall i :: 0 <= i < |rows| - 1 ==> ts[1..][i] == ts[i + 1] && rows[1..][i] == rows[i + 1];
      }
      RelsOfAdapter(m, a, ts[1..], rows[1..]);
      assert Wanted(m, rows[0], ts[0].source) <==> IsActive(m, a);
    }
  }

  lemma {:induction false} RelsOfCommands(m: Manifest, commands: seq<Binding>)
    ensures (if IsActive(m, Cursor) then Rels(CommandTargets(m, commands)) else []) ==
      ActiveRels(m, CommandRows(commands))
  {
    hide Wanted, Lookup, IsActive;
    if commands != [] {
      RelsOfCommands(m, commands[1..]);
      var row := OfWorkflow(".cursor/commands/" + commands[0].path, commands[0].key);
      var workflow := Lookup(m.workflows, commands[0].key);
      forall src { WorkflowIsWanted(m, row, src); }
      assert (exists src :: Wanted(m, row, src)) <==> IsActive(m, Cursor) && workflow.Some? by {
        if workflow.Some? { assert Wanted(m, row, workflow.value) <==> IsActive(m, Cursor); }
      }
      assert CommandRows(commands) == [row] + CommandRows(commands[1..]);
      assert CommandRows(commands)[1..] == CommandRows(commands[1..]);
      var head := if workflow.Some? then [Target(row.rel, workflow.value)] else [];
      assert CommandTargets(m, commands) == head + CommandTargets(m, commands[1..]);
      RelsJoin(head, CommandTargets(m, commands[1..]));
      OneRel(Target(row.rel, ""));
      if workflow.Some? { OneRel(Target(row.rel, workflow.value)); }
    }
  }

  lemma OneRel(t: Target)
    ensures Rels([t]) == [t.rel] && Rels([]) == []
  {
    assert [t][1..] == [];
  }

  lemma RelsOfCursor(m: Manifest)
    ensures Rels(WhenActive(m, Cursor)) == ActiveRels(m, CURSOR_FILES) + ActiveRels(m, COMMAND_FILES)
  {
    hide RoleTargets, CommandTargets, Renders, IsActive, ActiveRels;
    var own := [Target(".cursor/README.md", "")] + RoleTargets(m, ".cursor", ".md", ROLE_ORDER);
    CursorRendered(m);
    RelsOfAdapter(m, Cursor, own, CURSOR_FILES);
    CommandsListed();
    RelsOfCommands(m, CURSOR_COMMANDS);
    RelsJoin(own, CommandTargets(m, CURSOR_COMMANDS));
    OneRel(Target("", ""));
  }

  // The files are produced, and so written and reported, in the order of the list: the root file first.
  lemma OrderExactly(m: Manifest)
    ensures Rels(Targets(m)) ==
      ActiveRels(m, ROOT_FILES + CODEX_FILES + CLAUDE_FILES + CURSOR_FILES + COMMAND_FILES + OPENCODE_FILES)
  {
    hide TargetsOf, Renders, IsActive, ActiveRels, Rels, WhenActive;
    var root := if IsActive(m, Claude) then [Target("CLAUDE.md", "")] else [];
    RootOrder(m);
    RelsWhenActive(m);
    RelsOfCursor(m);
    OneRel(Target("", ""));
    RelsOfFive(root, WhenActive(m, Codex), WhenActive(m, Claude), WhenActive(m, Cursor), WhenActive(m, OpenCode));
    ActiveOfSix(m, ROOT_FILES, CODEX_FILES, CLAUDE_FILES, CURSOR_FILES, COMMAND_FILES, OPENCODE_FILES);
  }

  lemma RelsWhenActive(m: Manifest)
    ensures Rels(WhenActive(m, Codex)) == ActiveRels(m, CODEX_FILES)
    ensures Rels(WhenActive(m, Claude)) == ActiveRels(m, CLAUDE_FILES)
    ensures Rels(WhenActive(m, OpenCode)) == ActiveRels(m, OPENCODE_FILES)
  {
    hide TargetsOf, Renders, IsActive, ActiveRels, Rels;
    CodexRendered(m);
    RelsOfAdapter(m, Codex, TargetsOf(m, Codex), CODEX_FILES);
    ClaudeRendered(m);
    RelsOfAdapter(m, Claude, TargetsOf(m, Claude), CLAUDE_FILES);
    OpenCodeRendered(m);
    RelsOfAdapter(m, OpenCode, TargetsOf(m, OpenCode), OPENCODE_FILES);
    OneRel(Target("", ""));
  }

  lemma RelsOfFive(a: seq<Target>, b: seq<Target>, c: seq<Target>, d: seq<Target>, e: seq<Target>)
    ensures Rels(a + b + c + d + e) == Rels(a) + Rels(b) + Rels(c) + Rels(d) + Rels(e)
  {
    hide Rels;
    RelsJoin(a, b);
    RelsJoin(a + b, c);
    RelsJoin(a + b + c, d);
    RelsJoin(a + b + c + d, e);
  }

  lemma ActiveOfSix(
    m: Manifest, a: seq<Row>, b: seq<Row>, c: seq<Row>, d: seq<Row>, e: seq<Row>, f: seq<Row>)
    ensures ActiveRels(m, a + b + c + d + e + f) ==
      ActiveRels(m, a) + ActiveRels(m, b) + ActiveRels(m, c) + (ActiveRels(m, d) + ActiveRels(m, e)) + ActiveRels(m, f)
  {
    hide ActiveRels;
    ActiveJoin(m, a, b);
    ActiveJoin(m, a + b, c);
    ActiveJoin(m, a + b + c, d);
    ActiveJoin(m, a + b + c + d, e);
    ActiveJoin(m, a + b + c + d + e, f);
  }

  lemma RootOrder(m: Manifest)
    ensures (if IsActive(m, Claude) then Rels([Target("CLAUDE.md", "")]) else []) == ActiveRels(m, ROOT_FILES)
  {
    OneRel(Target("CLAUDE.md", ""));
    assert ROOT_FILES[1..] == [] && ActiveRels(m, []) == [];
    assert Wanted(m, ROOT_FILES[0], "") <==> IsActive(m, Claude);
  }

  // ---------------------------------------------------------------- stale files

  // The plugin's own files, which live in the OpenCode directory only.
  predicate Kept(dir: string, short: string, fnmatch: (string, string) -> bool)
  {
    && dir == ".opencode"
    && (|| short == "node_modules" || "node_modules/" <= short
        || fnmatch(short, "package.json") || fnmatch(short, "package-lock.json") || fnmatch(short, ".gitignore"))
  }

  lemma AllowedExactly(a: Adapter, short: string, fnmatch: (string, string) -> bool)
    ensures IsAllowlisted(short, AllowList(a), fnmatch) <==> Kept(DirOf(a), short, fnmatch)
  {
    DirsDiffer();
    if a.OpenCode? {
      var allow := AllowList(a);
      var item := "node_modules/**";
      assert item[|item| - |"/**"|..] == "/**" && item[..|item| - 3] == "node_modules";
      assert "node_modules" + "/" == "node_modules/";
      assert allow[1..] == ["package.json", "package-lock.json", ".gitignore"];
      assert ItemCovers(short, item, fnmatch) <==> short == "node_modules" || "node_modules/" <= short;
      PatternsCover(short, fnmatch);
    }
  }

  lemma DirsDiffer()
    ensures DirOf(Codex) == ".codex" && DirOf(Claude) == ".claude"
    ensures DirOf(Cursor) == ".cursor" && DirOf(OpenCode) == ".opencode"
    ensures DirOf(Codex) != ".opencode" && DirOf(Claude) != ".opencode" && DirOf(Cursor) != ".opencode"
  {
  }

  lemma PatternsCover(short: string, fnmatch: (string, string) -> bool)
    ensures IsAllowlisted(short, ["package.json", "package-lock.json", ".gitignore"], fnmatch) <==>
      fnmatch(short, "package.json") || fnmatch(short, "package-lock.json") || fnmatch(short, ".gitignore")
  {
    var items := ["package.json", "package-lock.json", ".gitignore"];
    assert items[1..] == ["package-lock.json", ".gitignore"] && items[1..][1..] == [".gitignore"];
    assert [".gitignore"][1..] == [];
    assert IsAllowlisted(short, [".gitignore"], fnmatch) <==> ItemCovers(short, ".gitignore", fnmatch);
    NotADirectory("package.json", 'n');
    NotADirectory("package-lock.json", 'n');
    NotADirectory(".gitignore", 'e');
  }

  lemma NotADirectory(item: string, last: char)
    requires |item| >= 3 && item[|item| - 1] == last && last != '*'
    ensures !EndsWith(item, "/**")
  {
    assert item[|item| - |"/**"|..][2] == last && "/**"[2] == '*';
  }

  // A stale file of the directory dir: not expected, not the plugin's, not behind a link out of the directory,
  // and no directory on the way to it is the plugin's or leads out.
  ghost predicate StaleIn(dir: string, short: string, expected: set<string>, host: Host)
  {
    && dir + "/" + short !in expected && !Kept(dir, short, host.fnmatch)
    && host.inside(dir) && host.inside(dir + "/" + short)
    && forall i :: 0 <= i < |short| && short[i] == '/' ==>
         !Kept(dir, short[..i], host.fnmatch) && host.inside(dir + "/" + short[..i])
  }

  lemma StaleInAdapter(a: Adapter, rel: string, expected: set<string>, host: Host)
    ensures StaleUnder(a, rel, expected, host) <==>
      exists short :: rel == DirOf(a) + "/" + short && StaleIn(DirOf(a), short, expected, host)
  {
    hide Kept, IsAllowlisted, AllowList, DirOf;
    var base := DirOf(a) + "/";
    forall short { AllowedExactly(a, short, host.fnmatch); }
    if base <= rel {
      assert rel == base + rel[|base|..];
    }
    forall short | rel == DirOf(a) + "/" + short ensures base <= rel && rel[|base|..] == short {
      assert rel == base + short;
    }
  }

  // Every directory is scanned, whether its adapter is active or not; CLAUDE.md is stale without claude.
  lemma StaleExactly(files: Files, m: Manifest, expected: set<string>, host: Host, rel: string)
    ensures rel in Stale(files, m, expected, host) <==>
      && rel in files
      && (|| (rel == "CLAUDE.md" && "claude" !in m.generatedAdapters && rel !in expected)
          || exists dir, short ::
               && dir in [".codex", ".opencode", ".claude", ".cursor"]
               && rel == dir + "/" + short && StaleIn(dir, short, expected, host))
  {
    hide StaleUnder, StaleIn;
    DirsDiffer();
    forall a: Adapter { StaleInAdapter(a, rel, expected, host); }
    forall dir | dir in [".codex", ".opencode", ".claude", ".cursor"] ensures exists a: Adapter :: dir == DirOf(a) {
      assert dir == DirOf(Codex) || dir == DirOf(OpenCode) || dir == DirOf(Claude) || dir == DirOf(Cursor);
    }
    assert DirOf(Codex) in [".codex", ".opencode", ".claude", ".cursor"];
  }
}
