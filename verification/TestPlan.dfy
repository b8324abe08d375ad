/**
 The change planner (scripts/ci-test-plan.ts): what a list of changed files selects. The planner's regular
 expressions are arbitrary predicates on paths here.
 */
module TestPlan {
  import opened Outcomes
  import opened WorkspaceGraph

  datatype Rules = Rules(
    global: Path -> bool,
    test: Path -> bool,
    documentation: Path -> bool,
    website: Path -> bool,
    desktopScript: Path -> bool,
    licence: Path -> bool,
    desktopContract: Path -> bool,
    classified: Path -> bool,
    spec: Path -> bool,
    cli: Path -> bool,
    smoke: Path -> bool,
    audit: Path -> bool,
    scriptContract: Path -> bool,
    scriptSurface: Path -> bool,
    rustShared: Path -> bool)

  datatype Reason = SharedInputs | Unclassified(file: Path) | Selected | RepositoryOnly

  datatype Plan = Plan(
    full: bool, reason: Reason, packages: set<string>, scripts: bool, e2e: bool, e2eFiles: set<Path>,
    smoke: bool, cli: bool, rust: set<Path>, audit: bool)

  const CRATES: set<Path> := {"crates/desktop-core", "apps/server/desktop/src-tauri", "apps/client/desktop/src-tauri"}
  const WEBSITE := "@internal/website"
  const DESKTOP_SERVER := "@internal/desktop-server"
  const DESKTOP_CLIENT := "@internal/desktop-client"
  const PROTOCOL := "@internal/subshell-protocol"
  const E2E := "@internal/e2e"
  const SERVER := "@internal/server"
  const NODE := "@internal/node"
  const SERVER_WEB := "@internal/server-web"
  const SETUP_SPEC := "e2e/tests/01-setup-wizard.spec.ts"
  const STYLES := "apps/server/web/src/styles.css"
  const PERMISSIONS := "apps/server/web/src/types/permissions.ts"

  function FullPlan(ws: seq<Workspace>, reason: Reason): Plan {
    Plan(true, reason, Names(ws), true, true, {}, true, true, CRATES, true)
  }

  // ----- What one file selects -----

  predicate StartsWith(f: Path, prefix: string) {
    prefix <= f
  }

  predicate Within(f: Path, part: string, at: int) {
    0 <= at && at + |part| <= |f| && f[at..at + |part|] == part
  }

  predicate Includes(f: Path, part: string) {
    exists at | 0 <= at <= |f| :: Within(f, part, at)
  }

  /** Packages that read the file without a workspace edge. */
  function Readers(r: Rules, f: Path): set<string> {
    (if r.website(f) then {WEBSITE} else {})
    + (if r.desktopScript(f) || r.desktopContract(f) then {DESKTOP_SERVER, DESKTOP_CLIENT} else {})
    + (if r.licence(f) then {PROTOCOL} else {})
    + (if f == STYLES then {DESKTOP_CLIENT} else {})
    + (if f == PERMISSIONS then {DESKTOP_SERVER} else {})
  }

  function OwnerName(ws: seq<Workspace>, f: Path): set<string> {
    var o := Owner(ws, f);
    if o.Some? then {o.value.name} else {}
  }

  /** Test files and native sources select their package, but not its dependents. */
  predicate Propagates(r: Rules, f: Path) {
    !r.test(f) && !Includes(f, "/src-tauri/")
  }

  predicate Stray(ws: seq<Workspace>, r: Rules, f: Path) {
    !r.documentation(f) && Owner(ws, f).None? && !r.classified(f)
  }

  /** A change to this file alone selects everything. */
  predicate Everything(ws: seq<Workspace>, r: Rules, f: Path) {
    r.global(f) || Stray(ws, r, f)
  }

  function DirectOf(ws: seq<Workspace>, r: Rules, f: Path): set<string> {
    if r.documentation(f) then {} else Readers(r, f) + OwnerName(ws, f)
  }

  function ChangedOf(ws: seq<Workspace>, r: Rules, f: Path): set<string> {
    if !r.documentation(f) && Propagates(r, f) then OwnerName(ws, f) else {}
  }

  function Direct(ws: seq<Workspace>, r: Rules, files: seq<Path>): set<string> {
    set f, n | f in files && n in DirectOf(ws, r, f) :: n
  }

  function Changed(ws: seq<Workspace>, r: Rules, files: seq<Path>): set<string> {
    set f, n | f in files && n in ChangedOf(ws, r, f) :: n
  }

  // ----- What all files together select -----

  predicate Any(files: seq<Path>, p: Path -> bool) {
    exists f | f in files :: p(f)
  }

  function Specs(r: Rules, files: seq<Path>): set<Path> {
    set f | f in files && r.spec(f)
  }

  predicate Fixture(r: Rules, f: Path) {
    StartsWith(f, "e2e/") && !r.documentation(f) && !r.spec(f)
  }

  predicate ScriptsTouched(r: Rules, files: seq<Path>) {
    Any(files, f => r.scriptContract(f) || ((StartsWith(f, "scripts/") || !r.test(f)) && r.scriptSurface(f)))
  }

  function RustTouched(r: Rules, files: seq<Path>): set<Path> {
    if Any(files, f => r.rustShared(f) && !r.documentation(f)) then CRATES
    else set dir | dir in CRATES && Any(files, f => StartsWith(f, dir + "/") && !r.documentation(f))
  }

  function SelectedSpecs(r: Rules, files: seq<Path>, code: bool): set<Path> {
    var specs := Specs(r, files);
    if !code && specs != {} && !Any(files, f => Fixture(r, f)) then {SETUP_SPEC} + specs else {}
  }

  function PartialPlan(ws: seq<Workspace>, r: Rules, files: seq<Path>): Plan {
    var affected := Closure(ws, Changed(ws, r, files));
    var packages := Direct(ws, r, files) + affected;
    var code := E2E in affected;
    Plan(
      false,
      if packages != {} then Selected else RepositoryOnly,
      packages,
      ScriptsTouched(r, files),
      code || Specs(r, files) != {},
      SelectedSpecs(r, files, code),
      SERVER in affected || Any(files, r.smoke),
      Any(files, f => r.cli(f) && !r.test(f)),
      RustTouched(r, files),
      Any(files, r.audit))
  }

  function FirstStray(ws: seq<Workspace>, r: Rules, files: seq<Path>): Option<Path> {
    if files == [] then None
    else
      var earlier := FirstStray(ws, r, files[..|files| - 1]);
      if earlier.None? && Stray(ws, r, files[|files| - 1]) then Some(files[|files| - 1]) else earlier
  }

  function Planned(ws: seq<Workspace>, r: Rules, files: seq<Path>): Plan {
    if Any(files, r.global) then FullPlan(ws, SharedInputs)
    else match FirstStray(ws, r, files)
      case Some(file) => FullPlan(ws, Unclassified(file))
      case None => PartialPlan(ws, r, files)
  }

  lemma {:induction false} FirstStrayExact(ws: seq<Workspace>, r: Rules, files: seq<Path>)
    ensures FirstStray(ws, r, files).Some? <==> exists f :: f in files && Stray(ws, r, f)
    ensures FirstStray(ws, r, files).Some? ==> FirstStray(ws, r, files).value in files
  {
    if files != [] {
      FirstStrayExact(ws, r, files[..|files| - 1]);
      assert files == files[..|files| - 1] + [files[|files| - 1]];
    }
  }

  /** The plan is full exactly when one of the files alone selects everything. */
  lemma FullExact(ws: seq<Workspace>, r: Rules, files: seq<Path>)
    ensures Planned(ws, r, files).full <==> exists f :: f in files && Everything(ws, r, f)
  {
    FirstStrayExact(ws, r, files);
  }

  // ----- Order -----

  ghost predicate SameMembers<T(!new)>(a: seq<T>, b: seq<T>) {
    forall x :: x in a <==> x in b
  }

  lemma SameOwner(ws: seq<Workspace>, vs: seq<Workspace>, f: Path)
    requires SameMembers(ws, vs) && DistinctDirs(ws)
    ensures Owner(ws, f) == Owner(vs, f)
  {
    OwnerExact(ws, f);
    OwnerExact(vs, f);
    if Owner(ws, f).Some? && Owner(vs, f).Some? {
      OwnerUnique(ws, Owner(ws, f).value, Owner(vs, f).value, f);
    }
  }

  lemma SameClosure(ws: seq<Workspace>, vs: seq<Workspace>, changed: set<string>)
    requires SameMembers(ws, vs)
    ensures Closure(ws, changed) == Closure(vs, changed)
  {
    ClosureLeast(ws, changed);
    ClosureLeast(vs, changed);
    forall s ensures Dependents(ws, s) == Dependents(vs, s) {}
  }

  lemma SameSelection(ws: seq<Workspace>, vs: seq<Workspace>, r: Rules, files: seq<Path>, others: seq<Path>)
    requires SameMembers(ws, vs) && DistinctDirs(ws) && SameMembers(files, others)
    ensures Direct(ws, r, files) == Direct(vs, r, others) && Changed(ws, r, files) == Changed(vs, r, others)
  {
    forall f ensures DirectOf(ws, r, f) == DirectOf(vs, r, f) && ChangedOf(ws, r, f) == ChangedOf(vs, r, f) { SameOwner(ws, vs, f); }
    assert Direct(ws, r, files) == Direct(vs, r, others);
    assert Changed(ws, r, files) == Changed(vs, r, others);
  }

  lemma SameFull(ws: seq<Workspace>, vs: seq<Workspace>, r: Rules, files: seq<Path>, others: seq<Path>)
    requires SameMembers(ws, vs) && DistinctDirs(ws) && SameMembers(files, others)
    ensures Planned(ws, r, files).full == Planned(vs, r, others).full
  {
    forall f ensures Owner(ws, f) == Owner(vs, f) { SameOwner(ws, vs, f); }
    FullExact(ws, r, files);
    FullExact(vs, r, others);
  }

  lemma SameRepository(r: Rules, files: seq<Path>, others: seq<Path>, code: bool)
    requires SameMembers(files, others)
    ensures ScriptsTouched(r, files) == ScriptsTouched(r, others) && RustTouched(r, files) == RustTouched(r, others)
    ensures Specs(r, files) == Specs(r, others) && SelectedSpecs(r, files, code) == SelectedSpecs(r, others, code)
  {
    forall p: Path -> bool ensures Any(files, p) == Any(others, p) {}
  }

  /** The plan does not depend on the order of the files or of the workspaces, except for its reason. */
  lemma OrderIrrelevant(ws: seq<Workspace>, vs: seq<Workspace>, r: Rules, files: seq<Path>, others: seq<Path>)
    requires SameMembers(ws, vs) && DistinctDirs(ws) && SameMembers(files, others)
    ensures Planned(ws, r, files) == Planned(vs, r, others).(reason := Planned(ws, r, files).reason)
    ensures !Planned(ws, r, files).full ==> Planned(ws, r, files) == Planned(vs, r, others)
  {
    hide Closure, ScriptsTouched, RustTouched, SelectedSpecs, Direct, Changed, Specs;
    SameFull(ws, vs, r, files, others);
    if !Planned(ws, r, files).full {
      SameSelection(ws, vs, r, files, others);
      SameClosure(ws, vs, Changed(ws, r, files));
      SameRepository(r, files, others, E2E in Closure(ws, Changed(ws, r, files)));
    }
  }
}
