/**
 Staging of the helper's panel (native/display-helper/build_support.rs): writing what differs, removing
 what is stale, and what is on disk afterwards. A failed read, write or directory creation ends the build.
 */
module PanelStaging {
  import opened Outcomes

  /** A path from the root, one name per level. */
  type Path = seq<string>

  type Bytes = seq<int>

  datatype Content = Content(bytes: Bytes, mode: nat)

  /** A link is followed by reads and writes; its target is a file of its own, or missing. */
  datatype Node = Directory | Regular(content: Content) | Link(target: Option<Content>)

  type Tree = map<Path, Node>

  const DEFAULT_MODE := 420

  datatype PanelFile = PanelFile(name: Path, bytes: Bytes)

  predicate Grounded(fs: Tree) {
    forall p :: p in fs && p != [] ==> p[..|p| - 1] in fs && fs[p[..|p| - 1]].Directory?
  }

  predicate Below(dir: Path, p: Path) {
    |dir| < |p| && dir == p[..|dir|]
  }

  lemma {:induction false} GroundedPrefix(fs: Tree, p: Path, k: nat)
    requires Grounded(fs) && p in fs && k < |p|
    ensures p[..k] in fs && fs[p[..k]].Directory?
  {
    if k < |p| - 1 {
      GroundedPrefix(fs, p[..|p| - 1], k);
      assert p[..|p| - 1][..k] == p[..k];
    }
  }

  function At(fs: Tree, p: Path): Option<Node> {
    if p in fs then Some(fs[p]) else None
  }

  predicate IsRegular(fs: Tree, p: Path) {
    p in fs && fs[p].Regular?
  }

  predicate IsLink(fs: Tree, p: Path) {
    p in fs && fs[p].Link?
  }

  /** What reading the path yields. */
  function Reading(fs: Tree, p: Path): Option<Content> {
    if p !in fs then None
    else match fs[p]
      case Directory => None
      case Regular(content) => Some(content)
      case Link(target) => target
  }

  predicate Holds(fs: Tree, p: Path, bytes: Bytes) {
    Reading(fs, p).Some? && Reading(fs, p).value.bytes == bytes
  }

  function RegularBelow(fs: Tree, dir: Path): set<Path> {
    set p | p in fs && IsRegular(fs, p) && Below(dir, p)
  }

  // ----- Writing one file -----

  /** Creating the directories above `p` fails on anything else in their place; so does writing over a directory. */
  predicate Writable(fs: Tree, p: Path) {
    && (forall k :: 0 <= k < |p| && p[..k] in fs ==> fs[p[..k]].Directory?)
    && (p in fs ==> !fs[p].Directory?)
  }

  function WithParents(fs: Tree, p: Path): Tree {
    fs + map k | 0 <= k < |p| && p[..k] !in fs :: p[..k] := Directory
  }

  function Written(fs: Tree, p: Path, bytes: Bytes): Tree {
    var mode := if Reading(fs, p).Some? then Reading(fs, p).value.mode else DEFAULT_MODE;
    var content := Content(bytes, mode);
    WithParents(fs, p)[p := if IsLink(fs, p) then Link(Some(content)) else Regular(content)]
  }

  datatype Staged = Staged(fs: Tree, wrote: bool)

  function WriteIfChanged(fs: Tree, p: Path, bytes: Bytes): Option<Staged> {
    if Holds(fs, p, bytes) then Some(Staged(fs, false))
    else if !Writable(fs, p) then None
    else Some(Staged(Written(fs, p, bytes), true))
  }

  /** What a write leaves: the bytes, no new link, and nothing else but directories. */
  lemma WriteEffect(fs: Tree, p: Path, bytes: Bytes)
    requires WriteIfChanged(fs, p, bytes).Some?
    ensures var v := WriteIfChanged(fs, p, bytes).value.fs;
            && Holds(v, p, bytes)
            && (forall q :: q != p ==> Reading(v, q) == Reading(fs, q))
            && (forall q :: IsLink(v, q) <==> IsLink(fs, q))
            && (forall q :: IsRegular(v, q) <==> IsRegular(fs, q) || (q == p && !IsLink(fs, p)))
            && (forall q :: q in fs && q != p ==> q in v && v[q] == fs[q])
            && (forall q :: q in v && q !in fs ==> q == p || Below(q, p))
  {
  }

  lemma WriteGrounded(fs: Tree, p: Path, bytes: Bytes)
    requires Grounded(fs) && WriteIfChanged(fs, p, bytes).Some?
    ensures Grounded(WriteIfChanged(fs, p, bytes).value.fs)
  {
    var v := WriteIfChanged(fs, p, bytes).value.fs;
    forall q | q in v && q != [] ensures q[..|q| - 1] in v && v[q[..|q| - 1]].Directory? {
      if !Holds(fs, p, bytes) { ParentWritten(fs, p, bytes, q); }
    }
  }

  lemma ParentWritten(fs: Tree, p: Path, bytes: Bytes, q: Path)
    requires Grounded(fs) && Writable(fs, p) && q in Written(fs, p, bytes) && q != []
    ensures var v := Written(fs, p, bytes); q[..|q| - 1] in v && v[q[..|q| - 1]].Directory?
  {
    var parent := q[..|q| - 1];
    if q in fs && q != p {
      assert parent in fs && fs[parent].Directory?;
    } else {
      assert |q| <= |p| && q == p[..|q|];
      assert parent == p[..|q| - 1];
    }
  }

  // ----- Writing them all -----

  function WriteAll(fs: Tree, to: Path, files: seq<PanelFile>): Option<Staged> {
    if files == [] then Some(Staged(fs, false))
    else
      var last := files[|files| - 1];
      match WriteAll(fs, to, files[..|files| - 1])
      case None => None
      case Some(s) =>
        match WriteIfChanged(s.fs, to + last.name, last.bytes)
        case None => None
        case Some(t) => Some(Staged(t.fs, t.wrote || s.wrote))
  }

  /** The wanted files by path; of two with one name, the last is written last. */
  function Wanted(to: Path, files: seq<PanelFile>): map<Path, Bytes> {
    if files == [] then map[]
    else Wanted(to, files[..|files| - 1])[to + files[|files| - 1].name := files[|files| - 1].bytes]
  }

  lemma {:induction false} WriteAllEffect(fs: Tree, to: Path, files: seq<PanelFile>)
    requires WriteAll(fs, to, files).Some?
    ensures var v, w := WriteAll(fs, to, files).value.fs, Wanted(to, files);
            && (forall q :: q in w ==> Holds(v, q, w[q]))
            && (forall q :: q !in w ==> Reading(v, q) == Reading(fs, q))
            && (forall q :: IsLink(v, q) <==> IsLink(fs, q))
            && (forall q :: IsRegular(v, q) <==> IsRegular(fs, q) || (q in w && !IsLink(fs, q)))
            && (forall q :: q in fs && q !in w ==> q in v && v[q] == fs[q])
  {
    if files != [] {
      var front, last := files[..|files| - 1], files[|files| - 1];
      WriteAllEffect(fs, to, front);
      WriteEffect(WriteAll(fs, to, front).value.fs, to + last.name, last.bytes);
    }
  }

  /** Whatever appears is above the directory, or in it. */
  lemma {:induction false} WriteAllNew(fs: Tree, to: Path, files: seq<PanelFile>)
    requires WriteAll(fs, to, files).Some?
    ensures forall q :: q in WriteAll(fs, to, files).value.fs && q !in fs ==> Below(q, to) || to <= q
  {
    if files != [] {
      var front, last := files[..|files| - 1], files[|files| - 1];
      WriteAllNew(fs, to, front);
      WriteEffect(WriteAll(fs, to, front).value.fs, to + last.name, last.bytes);
      forall q | Below(q, to + last.name) ensures Below(q, to) || to <= q { PrefixOfJoin(to, last.name, q); }
    }
  }

  lemma PrefixOfJoin(to: Path, name: Path, q: Path)
    requires Below(q, to + name)
    ensures Below(q, to) || to <= q
  {
    if |q| < |to| {
      assert to[..|q|] == (to + name)[..|q|];
    } else {
      assert q[..|to|] == (to + name)[..|to|] == to;
    }
  }

  predicate AllHeld(fs: Tree, to: Path, files: seq<PanelFile>) {
    forall k :: 0 <= k < |files| ==> Holds(fs, to + files[k].name, files[k].bytes)
  }

  /** No write happened exactly when every listed file was already there. */
  lemma {:induction false} WriteAllReports(fs: Tree, to: Path, files: seq<PanelFile>)
    ensures var s := WriteAll(fs, to, files);
            && (AllHeld(fs, to, files) <==> s == Some(Staged(fs, false)))
            && (s.Some? && !s.value.wrote ==> s.value.fs == fs)
  {
    if files != [] {
      var front, last := files[..|files| - 1], files[|files| - 1];
      WriteAllReports(fs, to, front);
      assert files == front + [last];
      assert AllHeld(fs, to, files) <==> AllHeld(fs, to, front) && Holds(fs, to + last.name, last.bytes);
    }
  }

  lemma {:induction false} WriteAllGrounded(fs: Tree, to: Path, files: seq<PanelFile>)
    requires Grounded(fs) && WriteAll(fs, to, files).Some?
    ensures Grounded(WriteAll(fs, to, files).value.fs)
  {
    if files != [] {
      var front, last := files[..|files| - 1], files[|files| - 1];
      WriteAllGrounded(fs, to, front);
      WriteGrounded(WriteAll(fs, to, front).value.fs, to + last.name, last.bytes);
    }
  }

  // ----- The whole sync -----

  function Stale(fs: Tree, to: Path, files: seq<PanelFile>): set<Path> {
    RegularBelow(fs, to) - Wanted(to, files).Keys
  }

  /** `removable` tells which files the system lets go of; a refusal is ignored. */
  function Sync(fs: Tree, to: Path, files: seq<PanelFile>, removable: set<Path>): Option<Staged> {
    match WriteAll(fs, to, files)
    case None => None
    case Some(s) =>
      var stale := Stale(s.fs, to, files);
      Some(Staged(s.fs - (stale * removable), s.wrote || stale != {}))
  }

  predicate Named(files: seq<PanelFile>) {
    forall k :: 0 <= k < |files| ==> files[k].name != []
  }

  /** No two entries give one name different bytes. */
  predicate Consistent(files: seq<PanelFile>) {
    forall i, j :: 0 <= i < |files| && 0 <= j < |files| && files[i].name == files[j].name ==> files[i].bytes == files[j].bytes
  }

  lemma {:induction false} WantedBelow(to: Path, files: seq<PanelFile>)
    requires Named(files)
    ensures forall q :: q in Wanted(to, files) ==> Below(to, q)
  {
    if files != [] { WantedBelow(to, files[..|files| - 1]); }
  }

  /** The directory holds exactly the wanted files, as regular files. */
  predicate Mirrors(fs: Tree, to: Path, files: seq<PanelFile>) {
    && RegularBelow(fs, to) == Wanted(to, files).Keys
    && forall q :: q in Wanted(to, files) ==> Holds(fs, q, Wanted(to, files)[q])
  }

  lemma StaleUnchanged(fs: Tree, to: Path, files: seq<PanelFile>)
    requires WriteAll(fs, to, files).Some?
    ensures Stale(WriteAll(fs, to, files).value.fs, to, files) == Stale(fs, to, files)
  {
    WriteAllEffect(fs, to, files);
  }

  /** In any case, every wanted name then reads as the wanted bytes. */
  lemma SyncHolds(fs: Tree, to: Path, files: seq<PanelFile>, removable: set<Path>, q: Path)
    requires Sync(fs, to, files, removable).Some? && q in Wanted(to, files)
    ensures Holds(Sync(fs, to, files, removable).value.fs, q, Wanted(to, files)[q])
  {
    hide Wanted, WriteAll;
    WriteAllEffect(fs, to, files);
    assert q !in Stale(WriteAll(fs, to, files).value.fs, to, files);
  }

  lemma SyncRegular(fs: Tree, to: Path, files: seq<PanelFile>, removable: set<Path>)
    requires Named(files) && Sync(fs, to, files, removable).Some?
    ensures var v, w := Sync(fs, to, files, removable).value.fs, Wanted(to, files).Keys;
            RegularBelow(v, to) == (Stale(fs, to, files) - removable) + (set q | q in w && !IsLink(fs, q))
  {
    hide Wanted, WriteAll;
    WantedBelow(to, files);
    WriteAllEffect(fs, to, files);
    var u, v := WriteAll(fs, to, files).value.fs, Sync(fs, to, files, removable).value.fs;
    StaleUnchanged(fs, to, files);
    assert RegularBelow(v, to) == RegularBelow(u, to) - (Stale(fs, to, files) * removable);
  }

  /**
   After a sync the directory mirrors the list exactly when every stale file could be removed and no
   wanted name was a link.
   */
  lemma SyncExact(fs: Tree, to: Path, files: seq<PanelFile>, removable: set<Path>)
    requires Named(files) && Sync(fs, to, files, removable).Some?
    ensures Mirrors(Sync(fs, to, files, removable).value.fs, to, files)
        <==> Stale(fs, to, files) <= removable && forall q :: q in Wanted(to, files) ==> !IsLink(fs, q)
  {
    hide Wanted, WriteAll, Sync, Holds;
    SyncRegular(fs, to, files, removable);
    var v, w := Sync(fs, to, files, removable).value.fs, Wanted(to, files).Keys;
    forall q | q in w ensures Holds(v, q, Wanted(to, files)[q]) { SyncHolds(fs, to, files, removable, q); }
    var left := Stale(fs, to, files) - removable;
    var linked := set q | q in w && IsLink(fs, q);
    assert left * w == {};
    assert RegularBelow(v, to) == left + (w - linked);
    assert left == {} <==> Stale(fs, to, files) <= removable by { SubsetByDifference(Stale(fs, to, files), removable); }
    forall q | q in w ensures IsLink(fs, q) <==> q in linked {}
  }

  lemma SubsetByDifference<T>(a: set<T>, b: set<T>)
    ensures a - b == {} <==> a <= b
  {
    if a - b == {} {
      forall x | x in a ensures x in b { assert x !in a - b; }
    }
  }

  /** Nothing outside the directory is touched, except that missing directories above it appear. */
  lemma SyncLocal(fs: Tree, to: Path, files: seq<PanelFile>, removable: set<Path>, q: Path)
    requires Named(files) && Sync(fs, to, files, removable).Some? && !Below(to, q)
    ensures var v := Sync(fs, to, files, removable).value.fs;
            && (q in fs ==> q in v && v[q] == fs[q])
            && Reading(v, q) == Reading(fs, q) && (IsRegular(v, q) <==> IsRegular(fs, q)) && (IsLink(v, q) <==> IsLink(fs, q))
            && (q in v && q !in fs ==> q == to || Below(q, to))
  {
    hide Wanted, WriteAll;
    WriteAllNew(fs, to, files);
    WantedBelow(to, files);
    WriteAllEffect(fs, to, files);
  }

  /** No report of a change means the tree is untouched, and was already as wanted. */
  lemma SyncReports(fs: Tree, to: Path, files: seq<PanelFile>, removable: set<Path>)
    ensures Sync(fs, to, files, removable) == Some(Staged(fs, false))
        <==> AllHeld(fs, to, files) && Stale(fs, to, files) == {}
    ensures Sync(fs, to, files, removable).Some? && !Sync(fs, to, files, removable).value.wrote
        ==> Sync(fs, to, files, removable).value.fs == fs
  {
    hide Wanted, WriteAll, Holds;
    WriteAllReports(fs, to, files);
    if WriteAll(fs, to, files).Some? {
      StaleUnchanged(fs, to, files);
      var u, stale := WriteAll(fs, to, files).value.fs, Stale(fs, to, files);
      if stale == {} { assert stale * removable == {} && u - (stale * removable) == u; }
    }
  }

  lemma {:induction false} WantedHas(to: Path, files: seq<PanelFile>, k: nat)
    requires k < |files|
    ensures to + files[k].name in Wanted(to, files)
    ensures Consistent(files) ==> Wanted(to, files)[to + files[k].name] == files[k].bytes
  {
    var front, last := files[..|files| - 1], files[|files| - 1];
    if k < |front| {
      WantedHas(to, front, k);
      assert (to + files[k].name)[|to|..] == files[k].name && (to + last.name)[|to|..] == last.name;
    }
  }

  lemma HeldIsConsistent(fs: Tree, to: Path, files: seq<PanelFile>)
    requires AllHeld(fs, to, files)
    ensures Consistent(files)
  {
  }

  /** A second sync writes nothing exactly when no name was listed twice with different bytes and nothing stale is left. */
  lemma SecondSyncExact(fs: Tree, to: Path, files: seq<PanelFile>, removable: set<Path>)
    requires Named(files) && Sync(fs, to, files, removable).Some?
    ensures var v := Sync(fs, to, files, removable).value.fs;
            Sync(v, to, files, removable) == Some(Staged(v, false))
            <==> Consistent(files) && Stale(fs, to, files) <= removable
  {
    hide Wanted, WriteAll, Holds, Sync;
    var v := Sync(fs, to, files, removable).value.fs;
    forall q | q in Wanted(to, files) ensures Holds(v, q, Wanted(to, files)[q]) { SyncHolds(fs, to, files, removable, q); }
    SyncReports(v, to, files, removable);
    StaleAfter(fs, to, files, removable);
    SubsetByDifference(Stale(fs, to, files), removable);
    if AllHeld(v, to, files) { HeldIsConsistent(v, to, files); }
    if Consistent(files) {
      forall k | 0 <= k < |files| ensures Holds(v, to + files[k].name, files[k].bytes) { WantedHas(to, files, k); }
    }
  }

  lemma StaleAfter(fs: Tree, to: Path, files: seq<PanelFile>, removable: set<Path>)
    requires Sync(fs, to, files, removable).Some?
    ensures Stale(Sync(fs, to, files, removable).value.fs, to, files) == Stale(fs, to, files) - removable
  {
    hide Wanted, WriteAll;
    StaleUnchanged(fs, to, files);
    WriteAllEffect(fs, to, files);
  }

  // ----- When the report is truthful -----

  predicate WantedHeld(fs: Tree, to: Path, files: seq<PanelFile>) {
    forall q :: q in Wanted(to, files) ==> Holds(fs, q, Wanted(to, files)[q])
  }

  /** The node with other bytes in it: of the same kind, and with the same permissions. */
  function WithBytes(n: Node, bytes: Bytes): Node {
    match n
    case Directory => Directory
    case Regular(content) => Regular(content.(bytes := bytes))
    case Link(target) => if target.Some? then Link(Some(target.value.(bytes := bytes))) else n
  }

  lemma WriteNode(fs: Tree, p: Path, bytes: Bytes)
    requires WriteIfChanged(fs, p, bytes).Some? && Reading(fs, p).Some?
    ensures At(WriteIfChanged(fs, p, bytes).value.fs, p) == Some(WithBytes(fs[p], bytes))
  {
  }

  /** A listed file that is there keeps its kind and permissions, however often it is rewritten. */
  lemma {:induction false} WriteAllNode(fs: Tree, to: Path, files: seq<PanelFile>, q: Path)
    requires WriteAll(fs, to, files).Some? && q in Wanted(to, files) && Reading(fs, q).Some?
    ensures At(WriteAll(fs, to, files).value.fs, q) == Some(WithBytes(fs[q], Wanted(to, files)[q]))
  {
    hide WriteIfChanged;
    var front, last := files[..|files| - 1], files[|files| - 1];
    var u := WriteAll(fs, to, front).value.fs;
    WriteEffect(u, to + last.name, last.bytes);
    if q in Wanted(to, front) {
      WriteAllNode(fs, to, front, q);
    } else {
      WriteAllEffect(fs, to, front);
    }
    if q == to + last.name { WriteNode(u, q, last.bytes); }
  }

  /** What appears is a wanted file or above one. */
  lemma {:induction false} WriteAllAppears(fs: Tree, to: Path, files: seq<PanelFile>, q: Path)
    requires WriteAll(fs, to, files).Some? && q in WriteAll(fs, to, files).value.fs && q !in fs
    ensures exists w :: w in Wanted(to, files) && (q == w || Below(q, w))
  {
    hide WriteIfChanged;
    var front, last := files[..|files| - 1], files[|files| - 1];
    var u, p := WriteAll(fs, to, front).value.fs, to + last.name;
    assert p in Wanted(to, files);
    WriteEffect(u, p, last.bytes);
    if q in u {
      WriteAllAppears(fs, to, front, q);
      var w :| w in Wanted(to, front) && (q == w || Below(q, w));
      assert w in Wanted(to, files);
    }
  }

  /** Writing what is wanted over itself leaves the tree as it was, also when a name is listed twice. */
  lemma WriteAllOverItself(fs: Tree, to: Path, files: seq<PanelFile>)
    requires Grounded(fs) && WantedHeld(fs, to, files) && WriteAll(fs, to, files).Some?
    ensures WriteAll(fs, to, files).value.fs == fs
  {
    hide Wanted, WriteAll;
    var v := WriteAll(fs, to, files).value.fs;
    WriteAllEffect(fs, to, files);
    forall q ensures At(v, q) == At(fs, q) {
      if q in Wanted(to, files) {
        assert Holds(fs, q, Wanted(to, files)[q]);
        WriteAllNode(fs, to, files, q);
      } else if q in v && q !in fs {
        WriteAllAppears(fs, to, files, q);
        var w :| w in Wanted(to, files) && (q == w || Below(q, w));
        assert Holds(fs, w, Wanted(to, files)[w]);
        if q != w { GroundedPrefix(fs, w, |q|); }
      }
    }
    SameTree(v, fs);
  }

  lemma SameTree(u: Tree, v: Tree)
    requires forall q :: At(u, q) == At(v, q)
    ensures u == v
  {
    forall q ensures q in u <==> q in v { assert At(u, q) == At(v, q); }
    forall q | q in u ensures u[q] == v[q] { assert At(u, q) == At(v, q); }
  }

  /** The tree is as before exactly when everything wanted was there and nothing stale could be removed. */
  lemma UnchangedExact(fs: Tree, to: Path, files: seq<PanelFile>, removable: set<Path>)
    requires Grounded(fs) && Sync(fs, to, files, removable).Some?
    ensures Sync(fs, to, files, removable).value.fs == fs
        <==> WantedHeld(fs, to, files) && Stale(fs, to, files) * removable == {}
  {
    hide Wanted, WriteAll, Holds;
    var u, v, stale := WriteAll(fs, to, files).value.fs, Sync(fs, to, files, removable).value.fs, Stale(fs, to, files);
    StaleUnchanged(fs, to, files);
    forall q | q in stale * removable ensures q in fs && q !in v {}
    if v == fs {
      forall q | q in Wanted(to, files) ensures Holds(fs, q, Wanted(to, files)[q]) { SyncHolds(fs, to, files, removable, q); }
    }
    if WantedHeld(fs, to, files) && stale * removable == {} {
      WriteAllOverItself(fs, to, files);
      assert u - (stale * removable) == u;
    }
  }

  predicate Truthful(fs: Tree, s: Staged) {
    s.wrote <==> s.fs != fs
  }

  /**
   The report is truthful exactly unless the tree stayed as it was although a name was listed with two
   contents or something stale could not be removed.
   */
  lemma TruthfulExact(fs: Tree, to: Path, files: seq<PanelFile>, removable: set<Path>)
    requires Grounded(fs) && Sync(fs, to, files, removable).Some?
    ensures Truthful(fs, Sync(fs, to, files, removable).value)
        <==> (WantedHeld(fs, to, files) && Stale(fs, to, files) * removable == {} ==>
                Consistent(files) && Stale(fs, to, files) == {})
  {
    hide Wanted, WriteAll, Holds, Sync;
    UnchangedExact(fs, to, files, removable);
    SyncReports(fs, to, files, removable);
    if AllHeld(fs, to, files) { HeldIsConsistent(fs, to, files); }
    if WantedHeld(fs, to, files) && Consistent(files) {
      forall k | 0 <= k < |files| ensures Holds(fs, to + files[k].name, files[k].bytes) { WantedHas(to, files, k); }
    }
  }

  /** Where nothing refuses to be removed, a list without contradictions is reported truthfully. */
  lemma TruthfulWhenRemovable(fs: Tree, to: Path, files: seq<PanelFile>, removable: set<Path>)
    requires Grounded(fs) && Sync(fs, to, files, removable).Some?
    requires Consistent(files) && Stale(fs, to, files) <= removable
    ensures Truthful(fs, Sync(fs, to, files, removable).value)
  {
    hide Sync, Stale, Wanted;
    TruthfulExact(fs, to, files, removable);
    assert Stale(fs, to, files) * removable == Stale(fs, to, files);
  }

  /** Syncing again, with the same files refusing to go, leaves the tree exactly as the first sync did. */
  lemma SyncFixpoint(fs: Tree, to: Path, files: seq<PanelFile>, removable: set<Path>)
    requires Named(files) && Consistent(files) && Sync(fs, to, files, removable).Some?
    ensures var v := Sync(fs, to, files, removable).value.fs;
            Sync(v, to, files, removable) == Some(Staged(v, Stale(v, to, files) != {}))
  {
    hide Wanted, WriteAll, Holds, Stale;
    var v := Sync(fs, to, files, removable).value.fs;
    forall q | q in Wanted(to, files) ensures Holds(v, q, Wanted(to, files)[q]) { SyncHolds(fs, to, files, removable, q); }
    forall k | 0 <= k < |files| ensures Holds(v, to + files[k].name, files[k].bytes) { WantedHas(to, files, k); }
    WriteAllReports(v, to, files);
    StaleAfter(fs, to, files, removable);
    assert Stale(v, to, files) * removable == {};
    assert v - {} == v;
  }

  // ----- Concrete trees -----

  const PANEL: Path := ["panel"]

  const OLD_PAGE: Path := ["panel", "old.js"]

  const NEW_PAGE: Path := ["panel", "index.html"]

  /** A panel directory with one entry. */
  function Single(p: Path, node: Node): Tree {
    map[[] := Directory, PANEL := Directory, p := node]
  }

  /** A stale file that cannot be removed is reported as a change of a tree that did not change. */
  lemma RefusedRemovalReported(content: Content)
    ensures var fs := Single(OLD_PAGE, Regular(content));
            Grounded(fs) && Sync(fs, PANEL, [], {}) == Some(Staged(fs, true))
  {
    var fs := Single(OLD_PAGE, Regular(content));
    assert OLD_PAGE[..1] == PANEL && PANEL[..0] == [];
    assert OLD_PAGE in Stale(fs, PANEL, []);
    assert fs - (Stale(fs, PANEL, []) * {}) == fs;
  }

  /** A name listed twice is written twice on every call, and the tree ends as it began. */
  lemma TwoContentsReported(content: Content, other: Bytes)
    requires other != content.bytes
    ensures var fs, files := Single(NEW_PAGE, Regular(content)), [PanelFile(["index.html"], other), PanelFile(["index.html"], content.bytes)];
            Sync(fs, PANEL, files, {}) == Some(Staged(fs, true))
  {
    var fs, one, two := Single(NEW_PAGE, Regular(content)), PanelFile(["index.html"], other), PanelFile(["index.html"], content.bytes);
    var files := [one, two];
    assert NEW_PAGE[..1] == PANEL && PANEL[..0] == [];
    assert PANEL + ["index.html"] == NEW_PAGE;
    hide WriteAll, Wanted, WriteIfChanged, Sync;
    WrittenTwice(fs, PANEL, one, two);
    assert Grounded(fs) && Stale(fs, PANEL, files) == {};
    assert files[0].name == files[1].name && files[0].bytes != files[1].bytes;
    UnchangedExact(fs, PANEL, files, {});
    TruthfulExact(fs, PANEL, files, {});
  }

  lemma WrittenTwice(fs: Tree, to: Path, one: PanelFile, two: PanelFile)
    requires one.name == two.name && Writable(fs, to + one.name)
    ensures WriteAll(fs, to, [one, two]).Some? && Wanted(to, [one, two]) == map[to + one.name := two.bytes]
  {
    hide Written, Holds, Writable;
    assert [one, two][..1] == [one] && [one][..0] == [];
    StaysWritable(fs, to + one.name, one.bytes);
    StaysWritable(WriteIfChanged(fs, to + one.name, one.bytes).value.fs, to + one.name, two.bytes);
    assert WriteAll(fs, to, []) == Some(Staged(fs, false)) && Wanted(to, []) == map[];
    assert WriteAll(fs, to, [one]).Some? && Wanted(to, [one]) == map[to + one.name := one.bytes];
  }

  lemma StaysWritable(fs: Tree, p: Path, bytes: Bytes)
    requires Writable(fs, p)
    ensures WriteIfChanged(fs, p, bytes).Some? && Writable(WriteIfChanged(fs, p, bytes).value.fs, p)
  {
    var v := Written(fs, p, bytes);
    forall k | 0 <= k < |p| && p[..k] in v ensures v[p[..k]].Directory? {}
  }

  /** A wanted name that is a link reads as wanted afterwards, but is no regular file of the directory. */
  lemma LinkedPageNotMirrored(content: Content, wanted: Bytes)
    ensures var fs, files := Single(NEW_PAGE, Link(Some(content))), [PanelFile(["index.html"], wanted)];
            var s := Sync(fs, PANEL, files, {});
            s.Some? && Holds(s.value.fs, NEW_PAGE, wanted) && !Mirrors(s.value.fs, PANEL, files)
  {
    var fs, one := Single(NEW_PAGE, Link(Some(content))), PanelFile(["index.html"], wanted);
    assert NEW_PAGE[..1] == PANEL && PANEL[..0] == [];
    assert PANEL + ["index.html"] == NEW_PAGE;
    assert [one][..0] == [];
    StaysWritable(fs, NEW_PAGE, wanted);
    assert WriteAll(fs, PANEL, [one]).Some?;
    assert Wanted(PANEL, [one]) == map[NEW_PAGE := wanted];
    assert IsLink(fs, NEW_PAGE);
    SyncHolds(fs, PANEL, [one], {}, NEW_PAGE);
    SyncExact(fs, PANEL, [one], {});
  }
}
