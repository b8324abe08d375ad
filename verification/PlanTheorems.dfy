/** What the change planner promises: nothing changed is dropped, and more changes never select less. */
module PlanTheorems {
  import opened Outcomes
  import opened WorkspaceGraph
  import opened TestPlan

  // ----- Nothing is dropped -----

  ghost predicate DirectlySelected(ws: seq<Workspace>, r: Rules, files: seq<Path>, name: string) {
    exists f :: f in files && name in DirectOf(ws, r, f)
  }

  /** The file's owner changed, and the package is at the end of a chain of dependencies from it. */
  ghost predicate SelectedThrough(ws: seq<Workspace>, r: Rules, files: seq<Path>, name: string, f: Path, chain: seq<string>) {
    f in files && Chain(ws, chain) && chain[0] in ChangedOf(ws, r, f) && chain[|chain| - 1] == name
  }

  ghost predicate Reached(ws: seq<Workspace>, r: Rules, files: seq<Path>, name: string) {
    exists f, chain :: SelectedThrough(ws, r, files, name, f, chain)
  }

  lemma ReachedExact(ws: seq<Workspace>, r: Rules, files: seq<Path>, name: string)
    ensures name in Closure(ws, Changed(ws, r, files)) <==> Reached(ws, r, files, name)
  {
    var changed := Changed(ws, r, files);
    ClosureIsReachability(ws, changed, name);
    if name in Closure(ws, changed) {
      var chain :| ChainTo(ws, changed, name, chain);
      var f :| f in files && chain[0] in ChangedOf(ws, r, f);
      assert SelectedThrough(ws, r, files, name, f, chain);
    }
    if Reached(ws, r, files, name) {
      var f, chain :| SelectedThrough(ws, r, files, name, f, chain);
      assert chain[0] in changed;
      assert ChainTo(ws, changed, name, chain);
    }
  }

  /** A package is selected exactly when a file selects it directly, or a chain leads to it from a changed owner. */
  lemma PackagesExact(ws: seq<Workspace>, r: Rules, files: seq<Path>, name: string)
    requires !Planned(ws, r, files).full
    ensures name in Planned(ws, r, files).packages
        <==> DirectlySelected(ws, r, files, name) || Reached(ws, r, files, name)
  {
    ReachedExact(ws, r, files, name);
  }

  /** Every file of a partial plan is documentation, or in a selected package, or classified without one. */
  lemma NothingDropped(ws: seq<Workspace>, r: Rules, files: seq<Path>, f: Path)
    requires !Planned(ws, r, files).full && f in files && !r.documentation(f)
    ensures Owner(ws, f).Some? ==>
              LongestOwner(ws, Owner(ws, f).value, f) && Owner(ws, f).value.name in Planned(ws, r, files).packages
    ensures Owner(ws, f).None? ==> r.classified(f) && forall p :: p in ws ==> !Owns(p, f)
  {
    hide Closure;
    FullExact(ws, r, files);
    OwnerExact(ws, f);
    if Owner(ws, f).Some? {
      assert Owner(ws, f).value.name in DirectOf(ws, r, f);
    }
  }

  /** Changes to tests and native sources alone select no dependents. */
  lemma TestsStayLocal(ws: seq<Workspace>, r: Rules, files: seq<Path>)
    requires !Planned(ws, r, files).full
    requires forall f :: f in files ==> r.documentation(f) || !Propagates(r, f)
    ensures Planned(ws, r, files).packages == Direct(ws, r, files)
  {
    assert Changed(ws, r, files) == {};
    ClosureInside(ws, {}, {});
  }

  // ----- More changes never select less -----

  predicate Runs(p: Plan, spec: Path) {
    p.e2e && (p.e2eFiles == {} || spec in p.e2eFiles)
  }

  ghost predicate Covers(p: Plan, q: Plan) {
    && p.packages <= q.packages
    && (p.scripts ==> q.scripts) && (p.smoke ==> q.smoke) && (p.cli ==> q.cli) && (p.audit ==> q.audit)
    && p.rust <= q.rust
    && forall spec :: Runs(p, spec) ==> Runs(q, spec)
  }

  ghost predicate Among(files: seq<Path>, more: seq<Path>) {
    forall f :: f in files ==> f in more
  }

  lemma FullCovers(ws: seq<Workspace>, p: Plan, reason: Reason)
    requires p.packages <= Names(ws) && p.rust <= CRATES
    ensures Covers(p, FullPlan(ws, reason))
  {
  }

  lemma SelectionGrows(ws: seq<Workspace>, r: Rules, files: seq<Path>, more: seq<Path>)
    requires Among(files, more)
    ensures Direct(ws, r, files) <= Direct(ws, r, more) && Changed(ws, r, files) <= Changed(ws, r, more)
    ensures Closure(ws, Changed(ws, r, files)) <= Closure(ws, Changed(ws, r, more))
  {
    ClosureGrows(ws, Changed(ws, r, files), Changed(ws, r, more));
  }

  lemma RepositoryGrows(r: Rules, files: seq<Path>, more: seq<Path>)
    requires Among(files, more)
    ensures ScriptsTouched(r, files) ==> ScriptsTouched(r, more)
    ensures RustTouched(r, files) <= RustTouched(r, more)
    ensures forall p: Path -> bool :: Any(files, p) ==> Any(more, p)
  {
    forall p: Path -> bool ensures Any(files, p) ==> Any(more, p) {}
  }

  lemma SpecsGrow(r: Rules, files: seq<Path>, more: seq<Path>, code: bool, moreCode: bool, spec: Path)
    requires Among(files, more) && (code ==> moreCode)
    requires (code || Specs(r, files) != {}) && (SelectedSpecs(r, files, code) == {} || spec in SelectedSpecs(r, files, code))
    ensures (moreCode || Specs(r, more) != {}) && (SelectedSpecs(r, more, moreCode) == {} || spec in SelectedSpecs(r, more, moreCode))
  {
    assert Specs(r, files) <= Specs(r, more);
    RepositoryGrows(r, files, more);
  }

  lemma PartialCovers(ws: seq<Workspace>, r: Rules, files: seq<Path>, more: seq<Path>)
    requires Among(files, more)
    ensures Covers(PartialPlan(ws, r, files), PartialPlan(ws, r, more))
  {
    hide Closure, ScriptsTouched, RustTouched, SelectedSpecs, Direct, Changed, Specs;
    SelectionGrows(ws, r, files, more);
    RepositoryGrows(r, files, more);
    var p, q := PartialPlan(ws, r, files), PartialPlan(ws, r, more);
    forall spec | Runs(p, spec) ensures Runs(q, spec) {
      SpecsGrow(r, files, more, E2E in Closure(ws, Changed(ws, r, files)), E2E in Closure(ws, Changed(ws, r, more)), spec);
    }
  }

  lemma OwnersNamed(ws: seq<Workspace>, f: Path)
    ensures OwnerName(ws, f) <= Names(ws)
  {
    OwnerExact(ws, f);
  }

  /** Every package that a partial plan can add by name is a workspace. */
  ghost predicate ReadersExist(ws: seq<Workspace>, r: Rules) {
    forall f :: !Everything(ws, r, f) && !r.documentation(f) ==> Readers(r, f) <= Names(ws)
  }

  lemma PartialNamed(ws: seq<Workspace>, r: Rules, files: seq<Path>)
    requires ReadersExist(ws, r) && !Planned(ws, r, files).full
    ensures PartialPlan(ws, r, files).packages <= Names(ws) && PartialPlan(ws, r, files).rust <= CRATES
  {
    FullExact(ws, r, files);
    forall f | f in files ensures DirectOf(ws, r, f) <= Names(ws) && ChangedOf(ws, r, f) <= Names(ws) { OwnersNamed(ws, f); }
    ClosureNamed(ws, Changed(ws, r, files));
  }

  ghost predicate Monotone(ws: seq<Workspace>, r: Rules) {
    forall files, more :: Among(files, more) ==> Covers(Planned(ws, r, files), Planned(ws, r, more))
  }

  lemma PlannedShape(ws: seq<Workspace>, r: Rules, files: seq<Path>)
    ensures var p := Planned(ws, r, files);
            p == if p.full then FullPlan(ws, p.reason) else PartialPlan(ws, r, files)
  {
  }

  lemma CoversWhenNamed(ws: seq<Workspace>, r: Rules, files: seq<Path>, more: seq<Path>)
    requires Among(files, more)
    requires ReadersExist(ws, r) || forall f :: !Everything(ws, r, f)
    ensures Covers(Planned(ws, r, files), Planned(ws, r, more))
  {
    hide Planned, PartialPlan, Everything;
    PlannedShape(ws, r, files);
    PlannedShape(ws, r, more);
    FullExact(ws, r, files);
    FullExact(ws, r, more);
    var p, q := Planned(ws, r, files), Planned(ws, r, more);
    if p.full {
      assert q.full;
      FullCovers(ws, p, q.reason);
    } else if q.full {
      PartialNamed(ws, r, files);
      FullCovers(ws, p, q.reason);
    } else {
      PartialCovers(ws, r, files, more);
    }
  }

  /** A named reader that is no workspace is lost as soon as another file selects everything. */
  lemma MissingReaderIsLost(ws: seq<Workspace>, r: Rules, f: Path, g: Path)
    requires !Everything(ws, r, f) && !r.documentation(f) && !(Readers(r, f) <= Names(ws)) && Everything(ws, r, g)
    ensures !Covers(Planned(ws, r, [f]), Planned(ws, r, [f, g]))
  {
    hide Closure, Everything;
    FullExact(ws, r, [f]);
    FullExact(ws, r, [f, g]);
    assert g in [f, g];
    var name :| name in Readers(r, f) && name !in Names(ws);
    assert name in DirectOf(ws, r, f) && f in [f];
    assert name in Planned(ws, r, [f]).packages;
  }

  /**
   Adding changed files never removes a package, crate, check or browser test, exactly when every package
   the planner names itself is a workspace, or no file at all selects everything.
   */
  lemma MonotoneExact(ws: seq<Workspace>, r: Rules)
    ensures Monotone(ws, r) <==> ReadersExist(ws, r) || forall f :: !Everything(ws, r, f)
  {
    hide Planned, Everything, Readers, Covers;
    if ReadersExist(ws, r) || forall f :: !Everything(ws, r, f) {
      forall files, more | Among(files, more) ensures Covers(Planned(ws, r, files), Planned(ws, r, more)) {
        CoversWhenNamed(ws, r, files, more);
      }
    } else {
      var f :| !Everything(ws, r, f) && !r.documentation(f) && !(Readers(r, f) <= Names(ws));
      var g :| Everything(ws, r, g);
      MissingReaderIsLost(ws, r, f, g);
      assert Among([f], [f, g]);
    }
  }

  const NO_RULE: Path -> bool := _ => false

  const NO_RULES := Rules(NO_RULE, NO_RULE, NO_RULE, NO_RULE, NO_RULE, NO_RULE, NO_RULE, NO_RULE, NO_RULE, NO_RULE, NO_RULE, NO_RULE, NO_RULE, NO_RULE, NO_RULE)

  /** With no website workspace, adding the lock file to a changed install script removes the website. */
  lemma AddingTheLockRemovesTheWebsite()
    ensures var install: Path -> bool := f => f == "install-server.sh";
            var r := NO_RULES.(global := f => f == "bun.lock", website := install, classified := install);
            !Covers(Planned([], r, ["install-server.sh"]), Planned([], r, ["install-server.sh", "bun.lock"]))
  {
    var install: Path -> bool := f => f == "install-server.sh";
    var r := NO_RULES.(global := f => f == "bun.lock", website := install, classified := install);
    assert "install-server.sh"[0] != "bun.lock"[0];
    assert WEBSITE in Readers(r, "install-server.sh") && WEBSITE !in Names([]);
    MissingReaderIsLost([], r, "install-server.sh", "bun.lock");
  }

  // ----- The browser suite -----

  /** A changed fixture selects the whole browser suite only beside a changed spec or an affected e2e package. */
  lemma FixtureExact(ws: seq<Workspace>, r: Rules, files: seq<Path>, fixture: Path)
    requires !Planned(ws, r, files).full && fixture in files && Fixture(r, fixture)
    ensures (forall spec :: Runs(Planned(ws, r, files), spec))
        <==> Reached(ws, r, files, E2E) || exists f :: f in files && r.spec(f)
  {
    hide Closure, ScriptsTouched, RustTouched, Direct, Changed, Reached;
    ReachedExact(ws, r, files, E2E);
    var p := Planned(ws, r, files);
    if Reached(ws, r, files, E2E) || exists f :: f in files && r.spec(f) {
      if f :| f in files && r.spec(f) { assert f in Specs(r, files); }
      assert p.e2e && p.e2eFiles == {};
    } else {
      assert !Runs(p, fixture);
    }
  }

  /** A changed helper under `e2e/tests`, a test input by its path, runs no browser test at all. */
  lemma TestHelperRunsNothing(spec: Path)
    ensures var r := NO_RULES.(test := f => StartsWith(f, "e2e/tests/"));
            var ws := [Workspace(E2E, "e2e", [], true)];
            !Planned(ws, r, ["e2e/tests/helper.ts"]).full && !Runs(Planned(ws, r, ["e2e/tests/helper.ts"]), spec)
  {
    var r := NO_RULES.(test := f => StartsWith(f, "e2e/tests/"));
    var e2e := Workspace(E2E, "e2e", [], true);
    var ws, file := [e2e], "e2e/tests/helper.ts";
    assert Owns(e2e, file);
    OwnerExact(ws, file);
    assert ws[0] == e2e && e2e in ws;
    FullExact(ws, r, [file]);
    assert StartsWith(file, "e2e/tests/") && !Propagates(r, file);
    assert Changed(ws, r, [file]) == {};
    ClosureInside(ws, {}, {});
    assert Specs(r, [file]) == {};
  }

  // ----- Unit lanes -----

  datatype Lane = Lane(name: string, packages: set<string>, scripts: bool)

  function FindNamed(ws: seq<Workspace>, name: string): Option<Workspace> {
    if ws == [] then None else if ws[0].name == name then Some(ws[0]) else FindNamed(ws[1..], name)
  }

  function Tested(p: Plan, ws: seq<Workspace>): set<string> {
    set n | n in p.packages && FindNamed(ws, n).Some? && FindNamed(ws, n).value.hasTest
  }

  function Nonempty(lanes: seq<Lane>): seq<Lane> {
    if lanes == [] then []
    else if lanes[0].packages != {} || lanes[0].scripts then [lanes[0]] + Nonempty(lanes[1..])
    else Nonempty(lanes[1..])
  }

  function UnitLanes(p: Plan, ws: seq<Workspace>): seq<Lane> {
    var tested := Tested(p, ws);
    Nonempty([
      Lane("server", tested * {SERVER, NODE}, false),
      Lane("web", tested * {SERVER_WEB}, false),
      Lane("other", tested - {SERVER, NODE, SERVER_WEB}, p.scripts)])
  }

  predicate Apart(lanes: seq<Lane>) {
    forall i, j :: 0 <= i < j < |lanes| ==>
      lanes[i].packages !! lanes[j].packages && lanes[i].name != lanes[j].name && !(lanes[i].scripts && lanes[j].scripts)
  }

  lemma {:induction false} NonemptyKeeps(lanes: seq<Lane>)
    requires Apart(lanes)
    ensures var kept := Nonempty(lanes);
            && Apart(kept) && |kept| <= |lanes|
            && (forall k :: k in kept <==> k in lanes && (k.packages != {} || k.scripts))
  {
    if lanes != [] {
      assert lanes == [lanes[0]] + lanes[1..];
      NonemptyKeeps(lanes[1..]);
      var kept := Nonempty(lanes[1..]);
      forall k | k in kept ensures k.packages !! lanes[0].packages && k.name != lanes[0].name && !(k.scripts && lanes[0].scripts) {
        var i :| 0 <= i < |lanes[1..]| && lanes[1..][i] == k;
        assert lanes[i + 1] == k;
      }
    }
  }

  /** At most three lanes with something to do; every tested package in exactly one, and the scripts in one. */
  lemma LanesPartition(p: Plan, ws: seq<Workspace>)
    ensures var lanes := UnitLanes(p, ws);
            && Apart(lanes) && |lanes| <= 3
            && (forall k :: k in lanes ==> k.packages != {} || k.scripts)
            && (forall n :: n in Tested(p, ws) <==> exists k :: k in lanes && n in k.packages)
            && (p.scripts <==> exists k :: k in lanes && k.scripts)
  {
    var tested := Tested(p, ws);
    var server, web, other := Lane("server", tested * {SERVER, NODE}, false), Lane("web", tested * {SERVER_WEB}, false), Lane("other", tested - {SERVER, NODE, SERVER_WEB}, p.scripts);
    var all := [server, web, other];
    assert SERVER != SERVER_WEB && NODE != SERVER_WEB by { assert NODE[10] == 'n' && SERVER_WEB[10] == 's' && |SERVER| != |SERVER_WEB|; }
    assert server.name != web.name && web.name != other.name && server.name != other.name by { assert server.name[0] == 's' && web.name[0] == 'w'; }
    NonemptyKeeps(all);
    var lanes := UnitLanes(p, ws);
    assert lanes == Nonempty(all);
    assert server in all && web in all && other in all;
    forall n | n in tested ensures exists k :: k in lanes && n in k.packages {
      var k := if n in server.packages then server else if n in web.packages then web else other;
      assert k in lanes && n in k.packages;
    }
    if p.scripts { assert other in lanes; }
  }
}
