/**
 Every field of a plan, stated from the changed files and the dependencies alone (scripts/ci-test-plan.ts):
 which file selects what, when everything is selected, and which lane a tested package is in.
 */
module PlanFields {
  import opened Outcomes
  import opened WorkspaceGraph
  import opened TestPlan
  import opened PlanTheorems

  ghost predicate SomeFile(files: seq<Path>, p: Path -> bool) {
    exists f :: f in files && p(f)
  }

  // ----- One file -----

  /** The longest workspace directory around the file is that of a package of this name. */
  ghost predicate OwnedBy(ws: seq<Workspace>, f: Path, name: string) {
    exists p :: LongestOwner(ws, p, f) && p.name == name
  }

  lemma OwnerNamed(ws: seq<Workspace>, f: Path, name: string)
    requires DistinctDirs(ws)
    ensures name in OwnerName(ws, f) <==> OwnedBy(ws, f, name)
  {
    OwnerExact(ws, f);
    forall p | LongestOwner(ws, p, f) ensures Owner(ws, f) == Option.Some(p) {
      OwnerUnique(ws, p, Owner(ws, f).value, f);
    }
  }

  /** The packages that read a file although no workspace edge says so. */
  predicate ReadBy(r: Rules, f: Path, name: string) {
    || (name == "@internal/website" && r.website(f))
    || (name == "@internal/desktop-server" && (r.desktopScript(f) || r.desktopContract(f) || f == "apps/server/web/src/types/permissions.ts"))
    || (name == "@internal/desktop-client" && (r.desktopScript(f) || r.desktopContract(f) || f == "apps/server/web/src/styles.css"))
    || (name == "@internal/subshell-protocol" && r.licence(f))
  }

  lemma ReadersExact(r: Rules, f: Path, name: string)
    ensures name in Readers(r, f) <==> ReadBy(r, f, name)
  {
    assert |WEBSITE| == 17 && |DESKTOP_SERVER| == 24 && |DESKTOP_CLIENT| == 24 && |PROTOCOL| == 27;
    assert DESKTOP_SERVER[18] == 's' && DESKTOP_CLIENT[18] == 'c';
  }

  /** A file selects its owner and its readers, unless it is documentation. */
  lemma DirectExact(ws: seq<Workspace>, r: Rules, f: Path, name: string)
    requires DistinctDirs(ws)
    ensures name in DirectOf(ws, r, f) <==> !r.documentation(f) && (OwnedBy(ws, f, name) || ReadBy(r, f, name))
  {
    hide Readers;
    OwnerNamed(ws, f, name);
    ReadersExact(r, f, name);
  }

  lemma IncludesExact(f: Path, part: string)
    ensures Includes(f, part) <==> exists a, b :: f == a + part + b
  {
    if at :| 0 <= at <= |f| && Within(f, part, at) {
      assert f == f[..at] + part + f[at + |part|..];
    }
    forall a, b | f == a + part + b ensures Includes(f, part) {
      assert Within(f, part, |a|);
    }
  }

  /** It changes its owner's code unless it is a test input or lies in a native source directory. */
  lemma ChangedExact(ws: seq<Workspace>, r: Rules, f: Path, name: string)
    requires DistinctDirs(ws)
    ensures name in ChangedOf(ws, r, f)
        <==> !r.documentation(f) && !r.test(f) && !(exists a, b :: f == a + "/src-tauri/" + b) && OwnedBy(ws, f, name)
  {
    hide Includes;
    IncludesExact(f, "/src-tauri/");
    OwnerNamed(ws, f, name);
  }

  // ----- Everything -----

  /** Nothing accounts for the file: no documentation, no workspace around it, not classified. */
  ghost predicate Unaccounted(ws: seq<Workspace>, r: Rules, f: Path) {
    !r.documentation(f) && !r.classified(f) && forall p :: p in ws ==> !(p.dir + "/" <= f)
  }

  lemma StrayExact(ws: seq<Workspace>, r: Rules, f: Path)
    ensures Stray(ws, r, f) <==> Unaccounted(ws, r, f)
  {
    OwnerExact(ws, f);
  }

  ghost predicate FirstUnaccounted(ws: seq<Workspace>, r: Rules, files: seq<Path>, f: Path) {
    exists k :: 0 <= k < |files| && files[k] == f && Unaccounted(ws, r, f) && forall j :: 0 <= j < k ==> !Unaccounted(ws, r, files[j])
  }

  lemma {:induction false} FirstStrayIs(ws: seq<Workspace>, r: Rules, files: seq<Path>)
    ensures FirstStray(ws, r, files).Some? <==> exists f :: f in files && Unaccounted(ws, r, f)
    ensures FirstStray(ws, r, files).Some? ==> FirstUnaccounted(ws, r, files, FirstStray(ws, r, files).value)
  {
    hide Unaccounted;
    if files != [] {
      var front, last := files[..|files| - 1], files[|files| - 1];
      assert files == front + [last];
      FirstStrayIs(ws, r, front);
      StrayExact(ws, r, last);
      if FirstStray(ws, r, front).Some? {
        var f := FirstStray(ws, r, front).value;
        var k :| 0 <= k < |front| && front[k] == f && Unaccounted(ws, r, f) && forall j :: 0 <= j < k ==> !Unaccounted(ws, r, front[j]);
        assert files[k] == f && forall j :: 0 <= j < k ==> files[j] == front[j];
      } else if Stray(ws, r, last) {
        assert files[|front|] == last && forall j :: 0 <= j < |front| ==> files[j] == front[j] && front[j] in front;
      }
    }
  }

  /**
   A plan is full exactly when a file is a global input or nothing accounts for it; it then selects every
   workspace, every crate and every check, and names the first unaccounted file if no input is global.
   */
  lemma FullPlanExact(ws: seq<Workspace>, r: Rules, files: seq<Path>)
    ensures var p := Planned(ws, r, files);
            && (p.full <==> SomeFile(files, r.global) || exists f :: f in files && Unaccounted(ws, r, f))
            && (p.full ==>
                  && (forall name :: name in p.packages <==> exists w :: w in ws && w.name == name)
                  && p.scripts && p.e2e && p.e2eFiles == {} && p.smoke && p.cli && p.audit
                  && p.rust == {"crates/desktop-core", "apps/server/desktop/src-tauri", "apps/client/desktop/src-tauri"}
                  && (if SomeFile(files, r.global) then p.reason == SharedInputs
                      else p.reason.Unclassified? && FirstUnaccounted(ws, r, files, p.reason.file)))
  {
    hide Closure, FirstStray, Unaccounted, FirstUnaccounted;
    FirstStrayIs(ws, r, files);
    AnyIs(files, r.global);
  }

  lemma AnyIs(files: seq<Path>, p: Path -> bool)
    ensures Any(files, p) <==> SomeFile(files, p)
  {
  }

  // ----- The checks of a partial plan -----

  lemma RustExact(r: Rules, files: seq<Path>, dir: Path)
    ensures dir in RustTouched(r, files)
        <==> && dir in {"crates/desktop-core", "apps/server/desktop/src-tauri", "apps/client/desktop/src-tauri"}
             && exists f :: f in files && !r.documentation(f) && (r.rustShared(f) || dir + "/" <= f)
  {
  }

  lemma SpecsExact(r: Rules, files: seq<Path>, code: bool, x: Path)
    ensures Specs(r, files) != {} <==> SomeFile(files, r.spec)
    ensures SelectedSpecs(r, files, code) == {}
        <==> code || !SomeFile(files, r.spec) || exists f :: f in files && "e2e/" <= f && !r.documentation(f) && !r.spec(f)
    ensures SelectedSpecs(r, files, code) != {} ==>
              (x in SelectedSpecs(r, files, code) <==> x == "e2e/tests/01-setup-wizard.spec.ts" || (x in files && r.spec(x)))
  {
    if SomeFile(files, r.spec) {
      var f :| f in files && r.spec(f);
      assert f in Specs(r, files);
    }
    if Specs(r, files) != {} {
      var f :| f in Specs(r, files);
    }
    var chosen := {SETUP_SPEC} + Specs(r, files);
    assert SETUP_SPEC in chosen;
  }

  /** The plan's checks, from the files and from the chains of dependencies. */
  lemma ChecksExact(ws: seq<Workspace>, r: Rules, files: seq<Path>)
    requires !Planned(ws, r, files).full
    ensures var p := Planned(ws, r, files);
            && (p.smoke <==> Reached(ws, r, files, "@internal/server") || SomeFile(files, r.smoke))
            && (p.cli <==> exists f :: f in files && r.cli(f) && !r.test(f))
            && (p.audit <==> SomeFile(files, r.audit))
            && (p.scripts <==> exists f :: f in files && (r.scriptContract(f) || (("scripts/" <= f || !r.test(f)) && r.scriptSurface(f))))
            && (p.reason == Selected <==> p.packages != {}) && (p.reason == RepositoryOnly <==> p.packages == {})
  {
    hide Closure, Reached, RustTouched, SelectedSpecs, Specs, Direct, Changed;
    ReachedExact(ws, r, files, SERVER);
  }

  /** The crates: all for shared Rust input, and otherwise those with a changed file, documentation aside. */
  lemma CratesExact(ws: seq<Workspace>, r: Rules, files: seq<Path>, dir: Path)
    requires !Planned(ws, r, files).full
    ensures dir in Planned(ws, r, files).rust
        <==> && dir in {"crates/desktop-core", "apps/server/desktop/src-tauri", "apps/client/desktop/src-tauri"}
             && exists f :: f in files && !r.documentation(f) && (r.rustShared(f) || dir + "/" <= f)
  {
    hide Closure, RustTouched, ScriptsTouched, SelectedSpecs, Specs, Direct, Changed;
    RustExact(r, files, dir);
  }

  /** The browser tests: whether any run, and which when not all do. */
  lemma BrowserExact(ws: seq<Workspace>, r: Rules, files: seq<Path>, x: Path)
    requires !Planned(ws, r, files).full
    ensures var p := Planned(ws, r, files);
            && (p.e2e <==> Reached(ws, r, files, "@internal/e2e") || SomeFile(files, r.spec))
            && (p.e2eFiles == {}
                <==> || Reached(ws, r, files, "@internal/e2e") || !SomeFile(files, r.spec)
                     || exists f :: f in files && "e2e/" <= f && !r.documentation(f) && !r.spec(f))
            && (p.e2eFiles != {} ==>
                  (x in p.e2eFiles <==> x == "e2e/tests/01-setup-wizard.spec.ts" || (x in files && r.spec(x))))
  {
    hide Closure, Reached, RustTouched, ScriptsTouched, SelectedSpecs, Specs, Direct, Changed, SomeFile;
    ReachedExact(ws, r, files, E2E);
    SpecsExact(r, files, E2E in Closure(ws, Changed(ws, r, files)), x);
  }

  /** A changed file under a crate is checked as Rust, also when its workspace's own tests cover it. */
  lemma CrateFileChecked(ws: seq<Workspace>, r: Rules, files: seq<Path>, f: Path, dir: Path)
    requires f in files && !r.documentation(f) && dir + "/" <= f
    requires dir in {"crates/desktop-core", "apps/server/desktop/src-tauri", "apps/client/desktop/src-tauri"}
    ensures dir in Planned(ws, r, files).rust
  {
    hide Closure;
    if Planned(ws, r, files).full { FullPlanExact(ws, r, files); } else { CratesExact(ws, r, files, dir); }
  }

  // ----- Lanes -----

  lemma {:induction false} FindNamedFirst(ws: seq<Workspace>, name: string)
    ensures FindNamed(ws, name).Some? <==> exists w :: w in ws && w.name == name
    ensures FindNamed(ws, name).Some? ==>
              exists k :: 0 <= k < |ws| && ws[k] == FindNamed(ws, name).value && ws[k].name == name && forall j :: 0 <= j < k ==> ws[j].name != name
  {
    if ws != [] && ws[0].name != name {
      FindNamedFirst(ws[1..], name);
      assert ws == [ws[0]] + ws[1..];
      if FindNamed(ws[1..], name).Some? {
        var k :| 0 <= k < |ws[1..]| && ws[1..][k] == FindNamed(ws[1..], name).value && forall j :: 0 <= j < k ==> ws[1..][j].name != name;
        assert ws[k + 1] == FindNamed(ws, name).value;
        forall j | 0 <= j < k + 1 ensures ws[j].name != name { if j > 0 { assert ws[j] == ws[1..][j - 1]; } }
      }
    }
  }

  /** A selected package is tested exactly when the first workspace of its name has a test script. */
  lemma TestedExact(p: Plan, ws: seq<Workspace>, name: string)
    ensures name in Tested(p, ws)
        <==> name in p.packages
             && exists k :: 0 <= k < |ws| && ws[k].name == name && ws[k].hasTest && forall j :: 0 <= j < k ==> ws[j].name != name
  {
    FindNamedFirst(ws, name);
    forall k | 0 <= k < |ws| && ws[k].name == name && ws[k].hasTest && forall j :: 0 <= j < k ==> ws[j].name != name
      ensures FindNamed(ws, name) == Option.Some(ws[k])
    {
      assert ws[k] in ws;
      var m :| 0 <= m < |ws| && ws[m] == FindNamed(ws, name).value && ws[m].name == name && forall j :: 0 <= j < m ==> ws[j].name != name;
      assert m == k;
    }
  }

  /** The server lane tests the server and the node, the web lane the server's web pages, and the third everything else and the scripts. */
  lemma LaneExact(p: Plan, ws: seq<Workspace>, lane: Lane, name: string)
    requires lane in UnitLanes(p, ws)
    ensures lane.name in {"server", "web", "other"}
    ensures name in lane.packages <==> && name in Tested(p, ws)
                                       && (lane.name == "server" <==> name == "@internal/server" || name == "@internal/node")
                                       && (lane.name == "web" <==> name == "@internal/server-web")
    ensures lane.scripts <==> p.scripts && lane.name == "other"
  {
    hide Tested;
    var tested := Tested(p, ws);
    var all := [
      Lane("server", tested * {SERVER, NODE}, false),
      Lane("web", tested * {SERVER_WEB}, false),
      Lane("other", tested - {SERVER, NODE, SERVER_WEB}, p.scripts)];
    NonemptyFrom(all, lane);
    assert lane == all[0] || lane == all[1] || lane == all[2];
    assert |"server"| == 6 && |"web"| == 3 && |"other"| == 5;
    assert |SERVER| == 16 && |NODE| == 14 && |SERVER_WEB| == 20;
  }

  lemma {:induction false} NonemptyFrom(lanes: seq<Lane>, lane: Lane)
    requires lane in Nonempty(lanes)
    ensures lane in lanes
  {
    if lanes != [] && lane != lanes[0] {
      NonemptyFrom(lanes[1..], lane);
    }
  }
}
