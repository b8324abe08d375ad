/**
 The build step around the panel (native/display-helper/build_support.rs): which pages it stages, what it
 copies into the bundle, and the gate by which a later pass recognises a finished bundle.
 */
module BundleBuild {
  import opened Outcomes
  import opened PanelStaging
  import opened PathOrder

  // ----- The pages -----

  const INDEX := "index.html"

  predicate IsFile(fs: Tree, p: Path) {
    Reading(fs, p).Some?
  }

  function PagesOf(fs: Tree, dist: Path, order: seq<Path>): seq<PanelFile>
    requires Lists(order, RegularBelow(fs, dist))
  {
    seq(|order|, i requires 0 <= i < |order| =>
      assert order[i] in RegularBelow(fs, dist);
      PanelFile(order[i][|dist|..], Reading(fs, order[i]).value.bytes))
  }

  /** A release without a built page is refused; a debug build carries the placeholder. */
  function Pages(fs: Tree, dist: Path, order: seq<Path>, release: bool, placeholder: Bytes): Option<seq<PanelFile>>
    requires Lists(order, RegularBelow(fs, dist))
  {
    if IsFile(fs, dist + [INDEX]) then Some(PagesOf(fs, dist, order))
    else if release then None
    else Some([PanelFile([INDEX], placeholder)])
  }

  predicate HasIndex(files: seq<PanelFile>) {
    exists k :: 0 <= k < |files| && files[k].name == [INDEX]
  }

  /** The staged pages have distinct names, and an index unless the built one is a link, which is not copied. */
  lemma PagesExact(fs: Tree, dist: Path, order: seq<Path>, release: bool, placeholder: Bytes)
    requires Lists(order, RegularBelow(fs, dist)) && Pages(fs, dist, order, release, placeholder).Some?
    ensures var files := Pages(fs, dist, order, release, placeholder).value;
            Named(files) && Consistent(files) && (HasIndex(files) <==> !IsLink(fs, dist + [INDEX]) || Reading(fs, dist + [INDEX]).None?)
  {
    var files := Pages(fs, dist, order, release, placeholder).value;
    var index := dist + [INDEX];
    ListsOnce(order, RegularBelow(fs, dist));
    if IsFile(fs, index) {
      forall k | 0 <= k < |files| ensures files[k].name != [] && order[k] == dist + files[k].name {
        assert order[k] in RegularBelow(fs, dist);
      }
      assert index[|dist|..] == [INDEX];
      if index in order {
        var k :| 0 <= k < |order| && order[k] == index;
        assert files[k].name == [INDEX];
      }
      assert HasIndex(files) <==> index in order;
    } else {
      assert files[0].name == [INDEX];
    }
  }

  /** The page a path below the built directory becomes. */
  predicate Listed(files: seq<PanelFile>, name: Path, bytes: Bytes) {
    exists k :: 0 <= k < |files| && files[k] == PanelFile(name, bytes)
  }

  /**
   Pages are refused exactly for a release without a built index; a debug build without one stages the
   placeholder alone; and a built directory is staged as exactly its regular files with their bytes.
   */
  lemma PagesContents(fs: Tree, dist: Path, order: seq<Path>, release: bool, placeholder: Bytes, name: Path, bytes: Bytes)
    requires Lists(order, RegularBelow(fs, dist))
    ensures Pages(fs, dist, order, release, placeholder).None? <==> release && !IsFile(fs, dist + [INDEX])
    ensures !release && !IsFile(fs, dist + [INDEX]) ==>
              Pages(fs, dist, order, release, placeholder) == Some([PanelFile(["index.html"], placeholder)])
    ensures IsFile(fs, dist + [INDEX]) ==>
              (Listed(Pages(fs, dist, order, release, placeholder).value, name, bytes)
               <==> name != [] && IsRegular(fs, dist + name) && Holds(fs, dist + name, bytes))
  {
    if IsFile(fs, dist + [INDEX]) {
      var files := Pages(fs, dist, order, release, placeholder).value;
      forall k | 0 <= k < |files|
        ensures files[k].name != [] && order[k] == dist + files[k].name && IsRegular(fs, order[k]) && Holds(fs, order[k], files[k].bytes)
      {
        assert order[k] in RegularBelow(fs, dist);
      }
      if name != [] && IsRegular(fs, dist + name) && Holds(fs, dist + name, bytes) {
        assert dist + name in RegularBelow(fs, dist);
        var k :| 0 <= k < |order| && order[k] == dist + name;
        assert files[k].name == name;
        assert files[k] == PanelFile(name, bytes);
      }
    }
  }

  // ----- Copying -----

  function WithMode(fs: Tree, p: Path, mode: nat): Tree
    requires p in fs && Reading(fs, p).Some?
  {
    var content := Reading(fs, p).value.(mode := mode);
    fs[p := if fs[p].Link? then Link(Some(content)) else Regular(content)]
  }

  function CopyIfChanged(fs: Tree, from: Content, p: Path): Option<Staged> {
    match WriteIfChanged(fs, p, from.bytes)
    case None => None
    case Some(s) =>
      WriteEffect(fs, p, from.bytes);
      if Reading(s.fs, p).value.mode != from.mode then Some(Staged(WithMode(s.fs, p, from.mode), true)) else Some(s)
  }

  /** A copy has the bytes and the permissions of its source, and reports whether either differed. */
  lemma CopyEffect(fs: Tree, from: Content, p: Path)
    requires CopyIfChanged(fs, from, p).Some?
    ensures var s := CopyIfChanged(fs, from, p).value;
            && Reading(s.fs, p) == Some(from)
            && (s.wrote <==> Reading(fs, p) != Some(from))
            && (!s.wrote ==> s.fs == fs)
            && (IsLink(s.fs, p) <==> IsLink(fs, p)) && (IsRegular(s.fs, p) <==> !IsLink(fs, p))
            && OnlyPaths(fs, s.fs, {p})
  {
    WriteEffect(fs, p, from.bytes);
    var v := CopyIfChanged(fs, from, p).value.fs;
    forall q | q in v && q !in fs ensures AboveSome(q, {p}) {
      assert p in {p};
    }
  }

  lemma CopyGrounded(fs: Tree, from: Content, p: Path)
    requires Grounded(fs) && p != [] && CopyIfChanged(fs, from, p).Some?
    ensures var v := CopyIfChanged(fs, from, p).value.fs;
            Grounded(v) && IsDirectory(v, p[..|p| - 1])
  {
    WriteGrounded(fs, p, from.bytes);
    WriteEffect(fs, p, from.bytes);
    var u, v := WriteIfChanged(fs, p, from.bytes).value.fs, CopyIfChanged(fs, from, p).value.fs;
    forall q | q in v && q != [] ensures q[..|q| - 1] in v && v[q[..|q| - 1]].Directory? {
      assert q in u && u[q[..|q| - 1]].Directory?;
    }
  }

  predicate IsDirectory(fs: Tree, p: Path) {
    p in fs && fs[p].Directory?
  }

  /** Only these paths read differently; elsewhere nothing but directories may be new. */
  ghost predicate OnlyPaths(fs: Tree, v: Tree, paths: set<Path>) {
    && (forall q :: q !in paths ==> Reading(v, q) == Reading(fs, q) && (IsRegular(v, q) <==> IsRegular(fs, q)) && (IsLink(v, q) <==> IsLink(fs, q)))
    && (forall q :: q !in paths && IsDirectory(fs, q) ==> IsDirectory(v, q))
    && (forall q :: q in v && q !in fs ==> AboveSome(q, paths))
  }

  ghost predicate AboveSome(q: Path, paths: set<Path>) {
    exists p :: p in paths && (q == p || Below(q, p))
  }

  datatype Copy = Copy(from: Content, to: Path)

  function CopyAll(fs: Tree, copies: seq<Copy>): Option<Tree> {
    if copies == [] then Some(fs)
    else
      match CopyAll(fs, copies[..|copies| - 1])
      case None => None
      case Some(u) =>
        match CopyIfChanged(u, copies[|copies| - 1].from, copies[|copies| - 1].to)
        case None => None
        case Some(s) => Some(s.fs)
  }

  function Targets(copies: seq<Copy>): set<Path> {
    set c | c in copies :: c.to
  }

  predicate Separate(copies: seq<Copy>) {
    && (forall c :: c in copies ==> c.to != [])
    && (forall i, j :: 0 <= i < j < |copies| ==> copies[i].to != copies[j].to)
  }

  /** The copy reads as its source, below a directory. */
  predicate CopiedOne(v: Tree, c: Copy) {
    c.to != [] && Reading(v, c.to) == Some(c.from) && IsDirectory(v, c.to[..|c.to| - 1])
  }

  predicate Copied(v: Tree, copies: seq<Copy>) {
    forall c :: c in copies ==> CopiedOne(v, c)
  }

  lemma CopyKeeps(u: Tree, front: seq<Copy>, last: Copy)
    requires Separate(front + [last]) && Grounded(u) && Copied(u, front) && CopyIfChanged(u, last.from, last.to).Some?
    ensures Copied(CopyIfChanged(u, last.from, last.to).value.fs, front + [last])
  {
    hide CopyIfChanged, Grounded;
    var all, v := front + [last], CopyIfChanged(u, last.from, last.to).value.fs;
    CopyEffect(u, last.from, last.to);
    assert all[|front|] == last && last in all;
    CopyGrounded(u, last.from, last.to);
    forall c | c in front ensures CopiedOne(v, c) {
      var k :| 0 <= k < |front| && front[k] == c;
      assert all[k] == c && all[k].to != all[|front|].to;
      var parent := c.to[..|c.to| - 1];
      assert IsDirectory(u, parent);
      if parent == last.to { assert IsDirectory(u, last.to); StaysDirectory(u, last.from, last.to); }
    }
  }

  lemma StaysDirectory(u: Tree, from: Content, p: Path)
    requires IsDirectory(u, p)
    ensures CopyIfChanged(u, from, p).None?
  {
  }

  lemma OnlyPathsExtend(fs: Tree, u: Tree, v: Tree, paths: set<Path>, p: Path)
    requires OnlyPaths(fs, u, paths) && OnlyPaths(u, v, {p})
    ensures OnlyPaths(fs, v, paths + {p})
  {
    forall q | q in v && q !in fs ensures AboveSome(q, paths + {p}) {
      if q in u {
        assert AboveSome(q, paths);
        var t :| t in paths && (q == t || Below(q, t));
        assert t in paths + {p};
      }
    }
  }

  /** Afterwards every target is as its source, and nothing else reads differently. */
  lemma {:induction false} CopyAllEffect(fs: Tree, copies: seq<Copy>)
    requires Grounded(fs) && Separate(copies) && CopyAll(fs, copies).Some?
    ensures var v := CopyAll(fs, copies).value;
            Grounded(v) && OnlyPaths(fs, v, Targets(copies)) && Copied(v, copies)
  {
    hide CopyIfChanged, Grounded, OnlyPaths, Copied;
    if copies == [] {
      NothingCopied(fs);
    } else {
      var front, last := copies[..|copies| - 1], copies[|copies| - 1];
      assert copies == front + [last];
      CopyAllEffect(fs, front);
      var u := CopyAll(fs, front).value;
      CopyEffect(u, last.from, last.to);
      CopyGrounded(u, last.from, last.to);
      CopyKeeps(u, front, last);
      OnlyPathsExtend(fs, u, CopyAll(fs, copies).value, Targets(front), last.to);
      assert Targets(copies) == Targets(front) + {last.to};
    }
  }

  lemma NothingCopied(fs: Tree)
    ensures OnlyPaths(fs, fs, Targets([])) && Copied(fs, [])
  {
  }

  // ----- The bundle -----

  datatype Signature = Signature(name: string, content: Content)

  /** What compiling and signing produced outside the bundle. */
  datatype Stage = Stage(plist: Content, binary: Content, signature: seq<Signature>)

  datatype Build = Build(fs: Tree, stamp: Option<string>, compiled: bool)

  function BinaryPath(bundle: Path): Path { bundle + ["Contents", "MacOS", "subshell-display-helper"] }

  function PlistPath(bundle: Path): Path { bundle + ["Contents", "Info.plist"] }

  function SealPath(bundle: Path): Path { bundle + ["Contents", "_CodeSignature"] }

  function PanelPath(bundle: Path): Path { bundle + ["Contents", "Resources", "panel"] }

  predicate Executable(mode: nat) {
    mode % 2 == 1 || mode / 8 % 2 == 1 || mode / 64 % 2 == 1
  }

  predicate IsExecutable(fs: Tree, p: Path) {
    IsFile(fs, p) && Executable(Reading(fs, p).value.mode)
  }

  /** Whether the last pass on the same inputs left nothing to do. */
  predicate Current(fs: Tree, bundle: Path, stamp: Option<string>, value: string) {
    && stamp == Some(value)
    && IsExecutable(fs, BinaryPath(bundle))
    && IsFile(fs, PlistPath(bundle))
    && IsFile(fs, PanelPath(bundle) + [INDEX])
    && IsDirectory(fs, SealPath(bundle))
  }

  function Copies(bundle: Path, stage: Stage): seq<Copy> {
    [Copy(stage.plist, PlistPath(bundle)), Copy(stage.binary, BinaryPath(bundle))]
    + seq(|stage.signature|, i requires 0 <= i < |stage.signature| =>
        Copy(stage.signature[i].content, SealPath(bundle) + [stage.signature[i].name]))
  }

  /** Entries of an older seal that the new one does not have. */
  function OldSeal(fs: Tree, bundle: Path, stage: Stage): set<Path> {
    set p | p in fs && |p| == |SealPath(bundle)| + 1 && Below(SealPath(bundle), p) && !fs[p].Directory?
            && p !in Targets(Copies(bundle, stage))
  }

  function RunBuild(fs: Tree, bundle: Path, stamp: Option<string>, value: string, panel: seq<PanelFile>, stage: Stage, removable: set<Path>): Option<Build> {
    if Current(fs, bundle, stamp, value) then Some(Build(fs, stamp, false))
    else
      match CopyAll(fs, Copies(bundle, stage))
      case None => None
      case Some(u) =>
        match Sync(u - (OldSeal(u, bundle, stage) * removable), PanelPath(bundle), panel, removable)
        case None => None
        case Some(s) => Some(Build(s.fs, Some(value), true))
  }

  predicate DistinctSeal(stage: Stage) {
    forall i, j :: 0 <= i < j < |stage.signature| ==> stage.signature[i].name != stage.signature[j].name
  }

  /** The parts of the bundle do not overlap. */
  lemma PartsApart(bundle: Path)
    ensures BinaryPath(bundle) != PlistPath(bundle)
    ensures forall q :: Below(SealPath(bundle), q) ==> !Below(PanelPath(bundle), q) && q != BinaryPath(bundle) && q != PlistPath(bundle)
    ensures forall q :: q == BinaryPath(bundle) || q == PlistPath(bundle) || q == SealPath(bundle) ==> !Below(PanelPath(bundle), q)
  {
    var n := |bundle| + 1;
    assert BinaryPath(bundle)[n] == "MacOS" && PlistPath(bundle)[n] == "Info.plist";
    assert |"MacOS"| == 5 && |"Info.plist"| == 10 && |"_CodeSignature"| == 14 && |"Resources"| == 9;
    forall q | Below(SealPath(bundle), q) ensures q[n] == "_CodeSignature" {
      assert SealPath(bundle)[n] == "_CodeSignature" && q[..|SealPath(bundle)|][n] == q[n];
    }
    forall q | Below(PanelPath(bundle), q) ensures q[n] == "Resources" {
      assert PanelPath(bundle)[n] == "Resources" && q[..|PanelPath(bundle)|][n] == q[n];
    }
  }

  lemma CopiesSeparate(bundle: Path, stage: Stage)
    requires DistinctSeal(stage)
    ensures Separate(Copies(bundle, stage))
    ensures forall q :: Below(PanelPath(bundle), q) || q == SealPath(bundle) ==> q !in Targets(Copies(bundle, stage))
  {
    PartsApart(bundle);
    var copies, seal := Copies(bundle, stage), SealPath(bundle);
    forall k | 2 <= k < |copies| ensures Below(seal, copies[k].to) && copies[k].to[|seal|] == stage.signature[k - 2].name {}
    assert |PlistPath(bundle)| == |seal| && PlistPath(bundle)[|bundle| + 1] == "Info.plist" && seal[|bundle| + 1] == "_CodeSignature";
    assert |"Info.plist"| == 10 && |"_CodeSignature"| == 14;
    assert |BinaryPath(bundle)| == |seal| + 1;
  }

  // ----- The gate after a build -----

  /** What an earlier bundle left as the panel's index stays only if it is a link, or cannot be removed. */
  predicate IndexStays(fs: Tree, index: Path, removable: set<Path>) {
    IsFile(fs, index) && (IsLink(fs, index) || index !in removable)
  }

  lemma {:induction false} WantedOnly(to: Path, files: seq<PanelFile>, name: Path)
    requires to + name in Wanted(to, files)
    ensures exists k :: 0 <= k < |files| && files[k].name == name
  {
    var front, last := files[..|files| - 1], files[|files| - 1];
    if to + name == to + last.name {
      assert (to + name)[|to|..] == name && (to + last.name)[|to|..] == last.name;
    } else {
      WantedOnly(to, front, name);
      var k :| 0 <= k < |front| && front[k].name == name;
      assert files[k].name == name;
    }
  }

  lemma IndexAfterSync(fs: Tree, to: Path, files: seq<PanelFile>, removable: set<Path>)
    requires Named(files) && Sync(fs, to, files, removable).Some?
    ensures IsFile(Sync(fs, to, files, removable).value.fs, to + [INDEX])
        <==> HasIndex(files) || IndexStays(fs, to + [INDEX], removable)
  {
    hide Wanted, WriteAll;
    var index := to + [INDEX];
    if HasIndex(files) {
      var k :| 0 <= k < |files| && files[k].name == [INDEX];
      WantedHas(to, files, k);
      SyncHolds(fs, to, files, removable, index);
    } else {
      if index in Wanted(to, files) { WantedOnly(to, files, [INDEX]); }
      WriteAllEffect(fs, to, files);
    }
  }

  lemma SealExact(fs: Tree, bundle: Path, stage: Stage)
    requires Grounded(fs) && DistinctSeal(stage) && CopyAll(fs, Copies(bundle, stage)).Some?
    ensures IsDirectory(CopyAll(fs, Copies(bundle, stage)).value, SealPath(bundle))
        <==> stage.signature != [] || IsDirectory(fs, SealPath(bundle))
  {
    hide CopyAll, Grounded;
    var copies, seal := Copies(bundle, stage), SealPath(bundle);
    CopiesSeparate(bundle, stage);
    CopyAllEffect(fs, copies);
    var v := CopyAll(fs, copies).value;
    assert IsLink(v, seal) == IsLink(fs, seal) && IsRegular(v, seal) == IsRegular(fs, seal);
    if stage.signature != [] {
      assert copies[2] in copies;
      assert CopiedOne(v, copies[2]);
      assert copies[2].to[..|copies[2].to| - 1] == seal;
    } else if IsDirectory(v, seal) && seal !in fs {
      assert AboveSome(seal, Targets(copies));
      SealNotAbove(bundle, stage);
    }
  }

  lemma SealNotAbove(bundle: Path, stage: Stage)
    requires stage.signature == []
    ensures !AboveSome(SealPath(bundle), Targets(Copies(bundle, stage)))
  {
    var n := |bundle| + 1;
    assert BinaryPath(bundle)[n] == "MacOS" && PlistPath(bundle)[n] == "Info.plist" && SealPath(bundle)[n] == "_CodeSignature";
    assert |"MacOS"| == 5 && |"Info.plist"| == 10 && |"_CodeSignature"| == 14;
    forall p | p in Targets(Copies(bundle, stage)) ensures p[n] != SealPath(bundle)[n] {
      assert p == BinaryPath(bundle) || p == PlistPath(bundle);
    }
  }

  /** After copying and dropping the old seal, before the panel. */
  function Copying(fs: Tree, bundle: Path, stage: Stage, removable: set<Path>): Option<Tree> {
    match CopyAll(fs, Copies(bundle, stage))
    case None => None
    case Some(u) => Some(u - (OldSeal(u, bundle, stage) * removable))
  }

  lemma DroppingSeal(u: Tree, bundle: Path, stage: Stage, removable: set<Path>, q: Path)
    requires !Below(SealPath(bundle), q)
    ensures At(u - (OldSeal(u, bundle, stage) * removable), q) == At(u, q)
  {
  }

  lemma CopiedParts(fs: Tree, bundle: Path, stage: Stage)
    requires Grounded(fs) && DistinctSeal(stage) && CopyAll(fs, Copies(bundle, stage)).Some?
    ensures var u := CopyAll(fs, Copies(bundle, stage)).value;
            && Reading(u, BinaryPath(bundle)) == Some(stage.binary) && Reading(u, PlistPath(bundle)) == Some(stage.plist)
            && (forall q :: Below(PanelPath(bundle), q) ==> Reading(u, q) == Reading(fs, q) && (IsLink(u, q) <==> IsLink(fs, q)))
  {
    hide CopyAll, Grounded;
    var copies := Copies(bundle, stage);
    CopiesSeparate(bundle, stage);
    CopyAllEffect(fs, copies);
    var u := CopyAll(fs, copies).value;
    assert copies[0] in copies && copies[1] in copies;
    assert CopiedOne(u, copies[0]) && CopiedOne(u, copies[1]);
  }

  lemma CopyingExact(fs: Tree, bundle: Path, stage: Stage, removable: set<Path>)
    requires Grounded(fs) && DistinctSeal(stage) && Copying(fs, bundle, stage, removable).Some?
    ensures var w := Copying(fs, bundle, stage, removable).value;
            && Reading(w, BinaryPath(bundle)) == Some(stage.binary) && Reading(w, PlistPath(bundle)) == Some(stage.plist)
            && (IsDirectory(w, SealPath(bundle)) <==> stage.signature != [] || IsDirectory(fs, SealPath(bundle)))
            && (forall q :: Below(PanelPath(bundle), q) ==> Reading(w, q) == Reading(fs, q) && (IsLink(w, q) <==> IsLink(fs, q)))
  {
    hide CopyAll, Grounded, Copies, OldSeal;
    CopiedParts(fs, bundle, stage);
    SealExact(fs, bundle, stage);
    var u := CopyAll(fs, Copies(bundle, stage)).value;
    var w := Copying(fs, bundle, stage, removable).value;
    forall q | q == BinaryPath(bundle) || q == PlistPath(bundle) || q == SealPath(bundle) || Below(PanelPath(bundle), q)
      ensures At(w, q) == At(u, q)
    {
      PartsApart(bundle);
      DroppingSeal(u, bundle, stage, removable, q);
    }
    assert At(w, SealPath(bundle)) == At(u, SealPath(bundle));
  }

  /**
   After a completed build the next pass on the same inputs does nothing, exactly when the compiler made
   an executable, there is a seal, and the panel has an index. Otherwise every pass compiles again.
   */
  lemma NextPassExact(fs: Tree, bundle: Path, stamp: Option<string>, value: string, panel: seq<PanelFile>, stage: Stage, removable: set<Path>)
    requires Grounded(fs) && DistinctSeal(stage) && Named(panel) && !Current(fs, bundle, stamp, value)
    requires RunBuild(fs, bundle, stamp, value, panel, stage, removable).Some?
    ensures var b := RunBuild(fs, bundle, stamp, value, panel, stage, removable).value;
            RunBuild(b.fs, bundle, b.stamp, value, panel, stage, removable) == Some(Build(b.fs, b.stamp, false))
            <==> && Executable(stage.binary.mode)
                 && (stage.signature != [] || IsDirectory(fs, SealPath(bundle)))
                 && (HasIndex(panel) || IndexStays(fs, PanelPath(bundle) + [INDEX], removable))
  {
    hide Sync, CopyAll, Copies, OldSeal, HasIndex, Grounded;
    var w := Copying(fs, bundle, stage, removable).value;
    var b := RunBuild(fs, bundle, stamp, value, panel, stage, removable).value;
    CopyingExact(fs, bundle, stage, removable);
    PartsApart(bundle);
    forall q | q == BinaryPath(bundle) || q == PlistPath(bundle) || q == SealPath(bundle)
      ensures Reading(b.fs, q) == Reading(w, q) && (IsDirectory(b.fs, q) <==> IsDirectory(w, q))
    {
      SyncLocal(w, PanelPath(bundle), panel, removable, q);
      SealNotAbovePanel(bundle, q);
    }
    IndexAfterSync(w, PanelPath(bundle), panel, removable);
  }

  lemma SealNotAbovePanel(bundle: Path, q: Path)
    requires q == BinaryPath(bundle) || q == PlistPath(bundle) || q == SealPath(bundle)
    ensures q != PanelPath(bundle) && !Below(q, PanelPath(bundle))
  {
    var n := |bundle| + 1;
    assert PanelPath(bundle)[n] == "Resources";
    assert |q[n]| != |"Resources"|;
  }

  /** Only leaves are dropped. */
  lemma OldSealGrounded(fs: Tree, bundle: Path, stage: Stage, removable: set<Path>)
    requires Grounded(fs)
    ensures Grounded(fs - (OldSeal(fs, bundle, stage) * removable))
  {
    hide Copies;
    var v := fs - (OldSeal(fs, bundle, stage) * removable);
    forall p | p in v && p != [] ensures p[..|p| - 1] in v && v[p[..|p| - 1]].Directory? {
      assert p in fs && fs[p[..|p| - 1]].Directory?;
    }
  }
}
