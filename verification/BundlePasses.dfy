/**
 The build step run again and again (native/display-helper/build_support.rs): a completed pass is a fixed
 point, and whether the next ones still compile is decided by the gate alone.
 */
module BundlePasses {
  import opened Outcomes
  import opened PanelStaging
  import opened PathOrder
  import opened BundleBuild

  // ----- Repeated passes -----

  lemma {:induction false} CopyAllSettled(v: Tree, copies: seq<Copy>)
    requires forall c :: c in copies ==> Reading(v, c.to) == Some(c.from)
    ensures CopyAll(v, copies) == Some(v)
  {
    if copies != [] {
      var front, last := copies[..|copies| - 1], copies[|copies| - 1];
      assert last in copies && forall c :: c in front ==> c in copies;
      CopyAllSettled(v, front);
    }
  }

  lemma KeptByDrop(u: Tree, bundle: Path, stage: Stage, removable: set<Path>, c: Copy)
    requires c in Copies(bundle, stage)
    ensures At(u - (OldSeal(u, bundle, stage) * removable), c.to) == At(u, c.to)
  {
    hide Copies;
    assert c.to in Targets(Copies(bundle, stage));
  }

  /** After a completed build every copy reads as its source. */
  lemma CopiesStay(fs: Tree, bundle: Path, panel: seq<PanelFile>, stage: Stage, removable: set<Path>, c: Copy)
    requires Grounded(fs) && DistinctSeal(stage) && Named(panel) && Copying(fs, bundle, stage, removable).Some?
    requires Sync(Copying(fs, bundle, stage, removable).value, PanelPath(bundle), panel, removable).Some?
    requires c in Copies(bundle, stage)
    ensures Reading(Sync(Copying(fs, bundle, stage, removable).value, PanelPath(bundle), panel, removable).value.fs, c.to) == Some(c.from)
  {
    hide CopyAll, Copies, OldSeal, Sync, Grounded;
    var u := CopyAll(fs, Copies(bundle, stage)).value;
    CopiesSeparate(bundle, stage);
    CopyAllEffect(fs, Copies(bundle, stage));
    assert CopiedOne(u, c);
    KeptByDrop(u, bundle, stage, removable, c);
    assert c.to in Targets(Copies(bundle, stage));
    SyncLocal(Copying(fs, bundle, stage, removable).value, PanelPath(bundle), panel, removable, c.to);
  }

  /** What of an older seal is still there afterwards could not be removed. */
  lemma OldSealAfter(u: Tree, bundle: Path, panel: seq<PanelFile>, stage: Stage, removable: set<Path>)
    requires Named(panel)
    requires Sync(u - (OldSeal(u, bundle, stage) * removable), PanelPath(bundle), panel, removable).Some?
    ensures OldSeal(Sync(u - (OldSeal(u, bundle, stage) * removable), PanelPath(bundle), panel, removable).value.fs, bundle, stage) * removable == {}
  {
    hide Sync, Copies;
    var w := u - (OldSeal(u, bundle, stage) * removable);
    var v := Sync(w, PanelPath(bundle), panel, removable).value.fs;
    PartsApart(bundle);
    forall p | p in OldSeal(v, bundle, stage) ensures p !in removable {
      SyncLocal(w, PanelPath(bundle), panel, removable, p);
      assert IsRegular(w, p) || IsLink(w, p);
      assert p in OldSeal(u, bundle, stage);
    }
  }

  /**
   What a completed build leaves in its bundle: the property list, the executable and every part of the seal
   as they were compiled and signed, each page's bytes in the panel, no older seal but what could not be removed,
   and the stamp of its inputs.
   */
  lemma BundleHolds(fs: Tree, bundle: Path, stamp: Option<string>, value: string, panel: seq<PanelFile>, stage: Stage, removable: set<Path>)
    requires Grounded(fs) && DistinctSeal(stage) && Named(panel) && Consistent(panel) && !Current(fs, bundle, stamp, value)
    requires RunBuild(fs, bundle, stamp, value, panel, stage, removable).Some?
    ensures var b := RunBuild(fs, bundle, stamp, value, panel, stage, removable).value;
            && b.compiled && b.stamp == Some(value)
            && Reading(b.fs, bundle + ["Contents", "Info.plist"]) == Some(stage.plist)
            && Reading(b.fs, bundle + ["Contents", "MacOS", "subshell-display-helper"]) == Some(stage.binary)
            && (forall k :: 0 <= k < |stage.signature| ==>
                  Reading(b.fs, bundle + ["Contents", "_CodeSignature", stage.signature[k].name]) == Some(stage.signature[k].content))
            && (forall k :: 0 <= k < |panel| ==>
                  Holds(b.fs, bundle + ["Contents", "Resources", "panel"] + panel[k].name, panel[k].bytes))
            && (forall name :: SealEntry(b.fs, bundle, name) && !SealNames(stage, name) ==> bundle + ["Contents", "_CodeSignature", name] !in removable)
  {
    hide Sync, CopyAll, OldSeal, Grounded, Current, Named, Consistent, Holds, Wanted, Copies;
    var b := RunBuild(fs, bundle, stamp, value, panel, stage, removable).value;
    var w := Copying(fs, bundle, stage, removable).value;
    var copies := Copies(bundle, stage);
    SealCopied(bundle, stage);
    forall c | c in copies ensures Reading(b.fs, c.to) == Some(c.from) { CopiesStay(fs, bundle, panel, stage, removable, c); }
    forall k | 0 <= k < |stage.signature|
      ensures Reading(b.fs, bundle + ["Contents", "_CodeSignature", stage.signature[k].name]) == Some(stage.signature[k].content)
    {
      assert Copy(stage.signature[k].content, bundle + ["Contents", "_CodeSignature", stage.signature[k].name]) in copies;
    }
    forall k | 0 <= k < |panel| ensures Holds(b.fs, PanelPath(bundle) + panel[k].name, panel[k].bytes) {
      WantedHas(PanelPath(bundle), panel, k);
      SyncHolds(w, PanelPath(bundle), panel, removable, PanelPath(bundle) + panel[k].name);
    }
    OldSealAfter(CopyAll(fs, copies).value, bundle, panel, stage, removable);
    Disjoint(OldSeal(b.fs, bundle, stage), removable);
    forall name | SealEntry(b.fs, bundle, name) && !SealNames(stage, name)
      ensures bundle + ["Contents", "_CodeSignature", name] !in removable
    {
      OldSealExact(b.fs, bundle, stage, name);
    }
  }

  /** Something in the bundle's seal directory, other than a directory. */
  predicate SealEntry(fs: Tree, bundle: Path, name: string) {
    var p := bundle + ["Contents", "_CodeSignature", name];
    p in fs && !fs[p].Directory?
  }

  predicate SealNames(stage: Stage, name: string) {
    exists k :: 0 <= k < |stage.signature| && stage.signature[k].name == name
  }

  /** The old seal is every entry of the seal directory that the new one does not name. */
  lemma OldSealExact(fs: Tree, bundle: Path, stage: Stage, name: string)
    ensures bundle + ["Contents", "_CodeSignature", name] in OldSeal(fs, bundle, stage)
        <==> SealEntry(fs, bundle, name) && !SealNames(stage, name)
  {
    var p, seal := bundle + ["Contents", "_CodeSignature", name], SealPath(bundle);
    assert p == seal + [name] && p[..|seal|] == seal && |p| == |seal| + 1 && p[|seal|] == name;
    TargetNamed(bundle, stage, name);
  }

  lemma TargetNamed(bundle: Path, stage: Stage, name: string)
    ensures SealPath(bundle) + [name] in Targets(Copies(bundle, stage)) <==> SealNames(stage, name)
  {
    var p, seal, copies := SealPath(bundle) + [name], SealPath(bundle), Copies(bundle, stage);
    assert p[..|seal|] == seal && p[|seal|] == name && Below(seal, p);
    PartsApart(bundle);
    hide SealPath, BinaryPath, PlistPath;
    if SealNames(stage, name) {
      var k :| 0 <= k < |stage.signature| && stage.signature[k].name == name;
      assert copies[k + 2].to == p && copies[k + 2] in copies;
    }
    if p in Targets(copies) {
      var c :| c in copies && c.to == p;
      var i :| 0 <= i < |copies| && copies[i] == c;
      assert copies[0].to == PlistPath(bundle) && copies[1].to == BinaryPath(bundle);
      assert i != 0 && i != 1;
      assert copies[i].to == seal + [stage.signature[i - 2].name];
      assert copies[i].to[|seal|] == stage.signature[i - 2].name;
    }
  }

  lemma Disjoint(a: set<Path>, b: set<Path>)
    requires a * b == {}
    ensures forall p :: p in a ==> p !in b
  {
    assert forall p :: p in a && p in b ==> p in a * b;
  }

  lemma SealCopied(bundle: Path, stage: Stage)
    ensures Copy(stage.plist, bundle + ["Contents", "Info.plist"]) in Copies(bundle, stage)
    ensures Copy(stage.binary, bundle + ["Contents", "MacOS", "subshell-display-helper"]) in Copies(bundle, stage)
    ensures forall k :: 0 <= k < |stage.signature| ==>
              Copy(stage.signature[k].content, bundle + ["Contents", "_CodeSignature", stage.signature[k].name]) in Copies(bundle, stage)
  {
    var copies := Copies(bundle, stage);
    assert copies[0] in copies && copies[1] in copies;
    forall k | 0 <= k < |stage.signature|
      ensures Copy(stage.signature[k].content, bundle + ["Contents", "_CodeSignature", stage.signature[k].name]) in copies
    {
      assert SealPath(bundle) + [stage.signature[k].name] == bundle + ["Contents", "_CodeSignature", stage.signature[k].name];
      assert copies[k + 2] in copies;
    }
  }

  /** Any of the three execute bits makes a file executable. */
  lemma ExecutableBits(mode: nat)
    requires mode < 512
    ensures Executable(mode) <==> (mode as bv9 & 0x49) != 0
  {
  }

  /**
   Building again from the same inputs, whatever the stamp says by then, leaves the tree exactly as the
   first build did, and compiles again exactly when the bundle is not current.
   */
  lemma RebuildFixpoint(fs: Tree, bundle: Path, stamp: Option<string>, later: Option<string>, value: string, panel: seq<PanelFile>, stage: Stage, removable: set<Path>)
    requires Grounded(fs) && DistinctSeal(stage) && Named(panel) && Consistent(panel) && !Current(fs, bundle, stamp, value)
    requires RunBuild(fs, bundle, stamp, value, panel, stage, removable).Some?
    ensures var v := RunBuild(fs, bundle, stamp, value, panel, stage, removable).value.fs;
            RunBuild(v, bundle, later, value, panel, stage, removable)
            == if Current(v, bundle, later, value) then Some(Build(v, later, false)) else Some(Build(v, Some(value), true))
  {
    hide Sync, CopyAll, Copies, OldSeal, Grounded, Current, Named, Consistent;
    var u, w := CopyAll(fs, Copies(bundle, stage)).value, Copying(fs, bundle, stage, removable).value;
    var v := RunBuild(fs, bundle, stamp, value, panel, stage, removable).value.fs;
    forall c | c in Copies(bundle, stage) ensures Reading(v, c.to) == Some(c.from) {
      CopiesStay(fs, bundle, panel, stage, removable, c);
    }
    CopyAllSettled(v, Copies(bundle, stage));
    OldSealAfter(u, bundle, panel, stage, removable);
    assert v - {} == v;
    SyncFixpoint(w, PanelPath(bundle), panel, removable);
  }

  // ----- Passes that read the pages anew -----

  /** Neither path is on the way to the other. */
  predicate Apart(a: Path, b: Path) {
    !(a <= b) && !(b <= a)
  }

  lemma PrefixesOfOne(a: Path, b: Path, p: Path)
    requires a <= p && b <= p
    ensures a <= b || b <= a
  {
    if |a| <= |b| { assert a == p[..|a|] == b[..|a|]; } else { assert b == p[..|b|] == a[..|b|]; }
  }

  lemma TargetsInside(bundle: Path, stage: Stage, q: Path)
    requires q in Targets(Copies(bundle, stage))
    ensures bundle <= q
  {
  }

  /** A build changes nothing outside its bundle. */
  lemma BuildLocal(fs: Tree, bundle: Path, stamp: Option<string>, value: string, panel: seq<PanelFile>, stage: Stage, removable: set<Path>, q: Path)
    requires Grounded(fs) && DistinctSeal(stage) && Named(panel)
    requires RunBuild(fs, bundle, stamp, value, panel, stage, removable).Some?
    requires !(bundle <= q)
    ensures var v := RunBuild(fs, bundle, stamp, value, panel, stage, removable).value.fs;
            Reading(v, q) == Reading(fs, q) && (IsRegular(v, q) <==> IsRegular(fs, q)) && (IsLink(v, q) <==> IsLink(fs, q))
  {
    hide Sync, CopyAll, Copies, OldSeal, Grounded, Current;
    if !Current(fs, bundle, stamp, value) {
      CopiesSeparate(bundle, stage);
      CopyAllEffect(fs, Copies(bundle, stage));
      if q in Targets(Copies(bundle, stage)) { TargetsInside(bundle, stage, q); }
      var u := CopyAll(fs, Copies(bundle, stage)).value;
      if Below(SealPath(bundle), q) { BelowInside(bundle, SealPath(bundle), q); }
      if Below(PanelPath(bundle), q) { BelowInside(bundle, PanelPath(bundle), q); }
      DroppingSeal(u, bundle, stage, removable, q);
      SyncLocal(u - (OldSeal(u, bundle, stage) * removable), PanelPath(bundle), panel, removable, q);
    }
  }

  lemma BelowInside(bundle: Path, dir: Path, q: Path)
    requires bundle <= dir && Below(dir, q)
    ensures bundle <= q
  {
    assert q[..|bundle|] == dir[..|bundle|] == bundle;
  }

  /** The built pages, outside the bundle, are read the same after a build. */
  lemma PagesStay(fs: Tree, v: Tree, dist: Path, order: seq<Path>, release: bool, placeholder: Bytes)
    requires Lists(order, RegularBelow(fs, dist))
    requires forall q :: dist <= q ==> Reading(v, q) == Reading(fs, q) && (IsRegular(v, q) <==> IsRegular(fs, q))
    ensures RegularBelow(v, dist) == RegularBelow(fs, dist)
    ensures Pages(v, dist, order, release, placeholder) == Pages(fs, dist, order, release, placeholder)
  {
    forall p | Below(dist, p) ensures dist <= p {}
    assert dist <= dist + [INDEX];
    assert RegularBelow(v, dist) == RegularBelow(fs, dist);
    forall i | 0 <= i < |order| ensures Reading(v, order[i]) == Reading(fs, order[i]) {
      assert order[i] in RegularBelow(fs, dist);
    }
    assert PagesOf(v, dist, order) == PagesOf(fs, dist, order);
  }

  /** What the passes share: `order` is the listing of the built pages. */
  datatype Inputs = Inputs(bundle: Path, dist: Path, order: seq<Path>, release: bool, placeholder: Bytes, value: string, stage: Stage, removable: set<Path>)

  /** One pass from reading the pages on; without a listing of them there is none. */
  function Pass(fs: Tree, stamp: Option<string>, i: Inputs): Option<Build> {
    if !Lists(i.order, RegularBelow(fs, i.dist)) then None
    else match Pages(fs, i.dist, i.order, i.release, i.placeholder)
      case None => None
      case Some(panel) => RunBuild(fs, i.bundle, stamp, i.value, panel, i.stage, i.removable)
  }

  /** The first pass starts from the tree as it is; each next one from what the last one left. */
  function Passes(fs: Tree, stamp: Option<string>, i: Inputs, count: nat): Option<Build> {
    if count == 0 then Some(Build(fs, stamp, false))
    else match Passes(fs, stamp, i, count - 1)
      case None => None
      case Some(b) => Pass(b.fs, b.stamp, i)
  }

  predicate FirstPass(fs: Tree, stamp: Option<string>, i: Inputs) {
    && Grounded(fs) && DistinctSeal(i.stage) && Apart(i.bundle, i.dist)
    && !Current(fs, i.bundle, stamp, i.value) && Pass(fs, stamp, i).Some?
  }

  /** A pass on the tree a completed pass left, whatever the stamp says. */
  lemma NextPass(fs: Tree, stamp: Option<string>, later: Option<string>, i: Inputs)
    requires FirstPass(fs, stamp, i)
    ensures var v := Pass(fs, stamp, i).value.fs;
            Pass(v, later, i) == if Current(v, i.bundle, later, i.value) then Some(Build(v, later, false)) else Some(Build(v, Some(i.value), true))
  {
    hide Pages, RunBuild, Current, Grounded, Lists, Named, Consistent;
    var panel := Pages(fs, i.dist, i.order, i.release, i.placeholder).value;
    PagesExact(fs, i.dist, i.order, i.release, i.placeholder);
    var v := Pass(fs, stamp, i).value.fs;
    forall q | i.dist <= q ensures Reading(v, q) == Reading(fs, q) && (IsRegular(v, q) <==> IsRegular(fs, q)) {
      if i.bundle <= q { PrefixesOfOne(i.bundle, i.dist, q); }
      BuildLocal(fs, i.bundle, stamp, i.value, panel, i.stage, i.removable, q);
    }
    PagesStay(fs, v, i.dist, i.order, i.release, i.placeholder);
    RebuildFixpoint(fs, i.bundle, stamp, later, i.value, panel, i.stage, i.removable);
  }

  /** However many passes follow a completed one: they all complete, and the tree stays exactly as that one left it. */
  lemma {:induction false} PassesSettle(fs: Tree, stamp: Option<string>, i: Inputs, more: nat)
    requires FirstPass(fs, stamp, i)
    ensures var v := Pass(fs, stamp, i).value.fs;
            Passes(fs, stamp, i, more + 1) == Some(Build(v, Some(i.value), more == 0 || !Current(v, i.bundle, Some(i.value), i.value)))
  {
    hide Current, FirstPass, Pass;
    if more == 0 {
      assert Passes(fs, stamp, i, 0) == Some(Build(fs, stamp, false));
      FirstPassCompiles(fs, stamp, i);
    } else {
      PassesSettle(fs, stamp, i, more - 1);
      NextPass(fs, stamp, Some(i.value), i);
    }
  }

  lemma FirstPassCompiles(fs: Tree, stamp: Option<string>, i: Inputs)
    requires FirstPass(fs, stamp, i)
    ensures Pass(fs, stamp, i) == Some(Build(Pass(fs, stamp, i).value.fs, Some(i.value), true))
  {
    hide Current;
  }

  /**
   With an executable and a seal: every pass after a completed one compiles again, for ever, exactly when
   the built index is a link to a file (and no earlier index stays in the bundle).
   */
  lemma LinkedIndexNeverSettles(fs: Tree, stamp: Option<string>, i: Inputs, more: nat)
    requires FirstPass(fs, stamp, i) && more > 0
    requires i.stage.signature != [] && Executable(i.stage.binary.mode)
    requires !IndexStays(fs, PanelPath(i.bundle) + [INDEX], i.removable)
    ensures Passes(fs, stamp, i, more + 1).Some?
    ensures Passes(fs, stamp, i, more + 1).value.fs == Pass(fs, stamp, i).value.fs
    ensures Passes(fs, stamp, i, more + 1).value.compiled <==> IsLink(fs, i.dist + [INDEX]) && IsFile(fs, i.dist + [INDEX])
  {
    hide RunBuild, Pages, HasIndex, Grounded, Current;
    PassesSettle(fs, stamp, i, more);
    var panel := Pages(fs, i.dist, i.order, i.release, i.placeholder).value;
    PagesExact(fs, i.dist, i.order, i.release, i.placeholder);
    NextPassExact(fs, i.bundle, stamp, i.value, panel, i.stage, i.removable);
    NextPass(fs, stamp, Some(i.value), i);
    CurrentByNextPass(fs, stamp, i);
  }

  lemma CurrentByNextPass(fs: Tree, stamp: Option<string>, i: Inputs)
    requires FirstPass(fs, stamp, i)
    ensures var b := Pass(fs, stamp, i).value;
            var panel := Pages(fs, i.dist, i.order, i.release, i.placeholder).value;
            Current(b.fs, i.bundle, Some(i.value), i.value)
            <==> RunBuild(b.fs, i.bundle, b.stamp, i.value, panel, i.stage, i.removable) == Some(Build(b.fs, b.stamp, false))
  {
    hide Current, CopyAll, Sync, Copies, OldSeal, Grounded;
  }

  // ----- A concrete tree -----

  predicate Unrelated(p: Path, q: Path) {
    p != q && !Below(p, q) && !Below(q, p)
  }

  lemma CopyKeepsWritable(fs: Tree, from: Content, p: Path, q: Path)
    requires Writable(fs, p) && Writable(fs, q) && Unrelated(p, q)
    ensures CopyIfChanged(fs, from, p).Some? && Writable(CopyIfChanged(fs, from, p).value.fs, q)
  {
    WriteEffect(fs, p, from.bytes);
    var v := CopyIfChanged(fs, from, p).value.fs;
    forall k | 0 <= k < |q| && q[..k] in v ensures v[q[..k]].Directory? {
      assert q[..k] != p;
    }
  }

  /** Copies to writable places that do not overlap all succeed. */
  lemma {:induction false} CopyAllCompletes(fs: Tree, copies: seq<Copy>)
    requires forall c :: c in copies ==> Writable(fs, c.to)
    requires forall i, j :: 0 <= i < j < |copies| ==> Unrelated(copies[i].to, copies[j].to)
    ensures CopyAll(fs, copies).Some?
    ensures forall q :: Writable(fs, q) && (forall c :: c in copies ==> Unrelated(c.to, q)) ==> Writable(CopyAll(fs, copies).value, q)
  {
    hide Writable, Unrelated, CopyIfChanged;
    if copies != [] {
      var front, last := copies[..|copies| - 1], copies[|copies| - 1];
      assert copies == front + [last] && last in copies;
      forall c | c in front ensures c in copies && Unrelated(c.to, last.to) {
        var i :| 0 <= i < |front| && front[i] == c;
        assert copies[i] == c && copies[|front|] == last;
      }
      CopyAllCompletes(fs, front);
      var u := CopyAll(fs, front).value;
      Completes(u, last.from, last.to);
      forall q | Writable(fs, q) && (forall c :: c in copies ==> Unrelated(c.to, q)) ensures Writable(CopyAll(fs, copies).value, q) {
        assert forall c :: c in front ==> Unrelated(c.to, q);
        CopyKeepsWritable(u, last.from, last.to, q);
      }
    }
  }

  lemma Completes(u: Tree, from: Content, p: Path)
    requires Writable(u, p)
    ensures CopyIfChanged(u, from, p).Some?
  {
  }

  const DIST: Path := ["dist"]

  const BUNDLE: Path := ["bundle"]

  /** A repository whose built index is a link, and no bundle yet. */
  function Linked(page: Content): Tree {
    map[[] := Directory, DIST := Directory, DIST + [INDEX] := Link(Some(page))]
  }

  function LinkedInputs(file: Content, binary: Content, value: string): Inputs {
    Inputs(BUNDLE, DIST, [], true, [], value, Stage(file, binary, [Signature("CodeResources", file)]), {})
  }

  lemma BundleRoom(page: Content, file: Content, binary: Content, value: string)
    ensures CopyAll(Linked(page), Copies(BUNDLE, LinkedInputs(file, binary, value).stage)).Some?
  {
    var fs, stage := Linked(page), LinkedInputs(file, binary, value).stage;
    var copies := Copies(BUNDLE, stage);
    var seal := SealPath(BUNDLE) + ["CodeResources"];
    assert copies == [Copy(file, PlistPath(BUNDLE)), Copy(binary, BinaryPath(BUNDLE)), Copy(file, seal)];
    forall p | p == PlistPath(BUNDLE) || p == BinaryPath(BUNDLE) || p == seal ensures Writable(fs, p) {
      RoomAt(page, p);
    }
    ThirdApart(PlistPath(BUNDLE), BinaryPath(BUNDLE));
    ThirdApart(PlistPath(BUNDLE), seal);
    ThirdApart(BinaryPath(BUNDLE), seal);
    CopyAllCompletes(fs, copies);
  }

  lemma RoomAt(page: Content, p: Path)
    requires |p| > 1 && p[0] == "bundle"
    ensures Writable(Linked(page), p)
  {
    forall k | 0 < k <= |p| ensures p[..k] !in Linked(page) {
      assert p[..k][0] == "bundle" && DIST[0] == "dist" && (DIST + [INDEX])[0] == "dist";
    }
  }

  lemma ThirdApart(p: Path, q: Path)
    requires |p| > 2 && |q| > 2 && |p[2]| != |q[2]|
    ensures Unrelated(p, q)
  {
  }

  lemma LinkedPages(page: Content)
    ensures Grounded(Linked(page)) && Lists([], RegularBelow(Linked(page), DIST))
    ensures Pages(Linked(page), DIST, [], true, []) == Some([])
    ensures IsLink(Linked(page), DIST + [INDEX]) && IsFile(Linked(page), DIST + [INDEX])
    ensures forall p :: p in Linked(page) && p != [] ==> p[0] == "dist"
  {
    assert DIST[..0] == [] && (DIST + [INDEX])[..1] == DIST;
    assert RegularBelow(Linked(page), DIST) == {};
    assert PagesOf(Linked(page), DIST, []) == [];
  }

  lemma LinkedFirstPass(page: Content, file: Content, binary: Content, value: string)
    ensures FirstPass(Linked(page), None, LinkedInputs(file, binary, value))
    ensures !IndexStays(Linked(page), PanelPath(BUNDLE) + [INDEX], {})
  {
    hide CopyAll, Copies, Pages, RunBuild, Grounded, Linked, Lists;
    LinkedPages(page);
    BundleRoom(page, file, binary, value);
    NoPanel(Linked(page), None, LinkedInputs(file, binary, value));
    assert (PanelPath(BUNDLE) + [INDEX])[0] == "bundle";
    assert !(BUNDLE <= DIST) && !(DIST <= BUNDLE);
  }

  /** A first pass over such a tree completes; whatever number of passes follows, each compiles again. */
  lemma LinkedIndexExample(page: Content, file: Content, binary: Content, value: string, more: nat)
    requires Executable(binary.mode)
    ensures var fs, i := Linked(page), LinkedInputs(file, binary, value);
            FirstPass(fs, None, i) && Passes(fs, None, i, more + 1).Some? && Passes(fs, None, i, more + 1).value.compiled
  {
    hide FirstPass, Passes, Pass, IndexStays, IsLink, IsFile, Executable, Current;
    var fs, i := Linked(page), LinkedInputs(file, binary, value);
    assert IsLink(fs, DIST + [INDEX]) && IsFile(fs, DIST + [INDEX]) by { LinkedPages(page); }
    LinkedFirstPass(page, file, binary, value);
    if more == 0 {
      PassesSettle(fs, None, i, 0);
    } else {
      LinkedIndexNeverSettles(fs, None, i, more);
    }
  }

  /** With nothing to stage, a pass completes once the copies do. */
  lemma NoPanel(fs: Tree, stamp: Option<string>, i: Inputs)
    requires Lists(i.order, RegularBelow(fs, i.dist)) && Pages(fs, i.dist, i.order, i.release, i.placeholder) == Some([])
    requires CopyAll(fs, Copies(i.bundle, i.stage)).Some?
    ensures Pass(fs, stamp, i).Some?
  {
    hide CopyAll, Copies, Pages, OldSeal, Current;
    forall w: Tree ensures Sync(w, PanelPath(i.bundle), [], i.removable).Some? { NothingWritten(w, PanelPath(i.bundle)); }
  }

  lemma NothingWritten(w: Tree, to: Path)
    ensures WriteAll(w, to, []) == Some(Staged(w, false))
  {
  }
}
