/** The staging loops (native/display-helper/build_support.rs), each proved against what it leaves on disk. */
module StagingObject {
  import opened Outcomes
  import opened PanelStaging
  import opened PathOrder
  import opened BundleBuild

  // ----- Walking a directory -----

  predicate UnderSome(p: Path, stack: seq<Path>) {
    exists k :: 0 <= k < |stack| && stack[k] <= p
  }

  function Pending(fs: Tree, stack: seq<Path>): set<Path> {
    set p | p in fs && UnderSome(p, stack)
  }

  function Children(fs: Tree, dir: Path): set<Path> {
    if dir in fs && fs[dir].Directory? then set p | p in fs && |p| == |dir| + 1 && dir <= p else {}
  }

  function ChildDirectories(fs: Tree, dir: Path): set<Path> {
    set c | c in Children(fs, dir) && IsDirectory(fs, c)
  }

  function ChildFiles(fs: Tree, dir: Path): set<Path> {
    set c | c in Children(fs, dir) && IsRegular(fs, c)
  }

  /** Directories still to be read are distinct subtrees of the one walked. */
  predicate Subtrees(fs: Tree, dir: Path, stack: seq<Path>) {
    && (forall k :: 0 <= k < |stack| ==> dir <= stack[k] && (stack[k] == dir || IsDirectory(fs, stack[k])))
    && (forall i, j :: 0 <= i < |stack| && 0 <= j < |stack| && i != j ==> !(stack[i] <= stack[j]))
  }

  /** Every regular file has been found, or is still under a directory to be read, and never both. */
  predicate Walked(fs: Tree, dir: Path, stack: seq<Path>, found: seq<Path>) {
    && (forall p :: p in found ==> p in RegularBelow(fs, dir) && !UnderSome(p, stack))
    && (forall p :: p in RegularBelow(fs, dir) ==> p in found || UnderSome(p, stack))
    && (forall i, j :: 0 <= i < j < |found| ==> found[i] != found[j])
  }

  lemma PrefixOfChild(b: Path, cur: Path, c: Path)
    requires |c| == |cur| + 1 && cur <= c && b <= c
    ensures b <= cur || b == c
  {
    if |b| <= |cur| { assert b == c[..|b|] == cur[..|b|]; }
  }

  lemma SubtreesExpand(fs: Tree, dir: Path, base: seq<Path>, cur: Path, dirs: seq<Path>)
    requires Subtrees(fs, dir, base + [cur])
    requires Finds(dirs, ChildDirectories(fs, cur))
    ensures Subtrees(fs, dir, base + dirs)
  {
    var was, now := base + [cur], base + dirs;
    assert was[|base|] == cur;
    forall k | 0 <= k < |now| ensures dir <= now[k] && (now[k] == dir || IsDirectory(fs, now[k])) {
      if k < |base| { assert now[k] == was[k]; } else { assert now[k] in dirs; }
    }
    forall i, j | 0 <= i < |now| && 0 <= j < |now| && i != j ensures !(now[i] <= now[j]) {
      if i < |base| { assert now[i] == was[i]; } else { assert now[i] in dirs; }
      if j < |base| { assert now[j] == was[j]; } else { assert now[j] in dirs; if now[i] <= now[j] { PrefixOfChild(now[i], cur, now[j]); } }
    }
  }

  lemma UnderJoin(p: Path, a: seq<Path>, b: seq<Path>)
    ensures UnderSome(p, a + b) <==> UnderSome(p, a) || UnderSome(p, b)
  {
    var all := a + b;
    if k :| 0 <= k < |a| && a[k] <= p { assert all[k] <= p; }
    if k :| 0 <= k < |b| && b[k] <= p { assert all[|a| + k] <= p; }
  }

  /** A regular file under a directory is one of its children, or under one of its child directories. */
  lemma UnderChild(fs: Tree, cur: Path, p: Path)
    requires Grounded(fs) && IsRegular(fs, p) && Below(cur, p)
    ensures p[..|cur| + 1] in Children(fs, cur)
    ensures p in Children(fs, cur) || IsDirectory(fs, p[..|cur| + 1])
  {
    GroundedPrefix(fs, p, |cur|);
    if |p| > |cur| + 1 { GroundedPrefix(fs, p, |cur| + 1); } else { assert p[..|cur| + 1] == p; }
  }

  lemma UnderExpand(fs: Tree, cur: Path, dirs: seq<Path>, p: Path)
    requires Grounded(fs) && IsRegular(fs, p) && p != cur
    requires Finds(dirs, ChildDirectories(fs, cur))
    ensures cur <= p <==> p in Children(fs, cur) || UnderSome(p, dirs)
    ensures !(p in Children(fs, cur) && UnderSome(p, dirs))
  {
    if cur <= p && p !in Children(fs, cur) {
      UnderChild(fs, cur, p);
      assert p[..|cur| + 1] in ChildDirectories(fs, cur);
      var k :| 0 <= k < |dirs| && dirs[k] == p[..|cur| + 1];
    }
    if UnderSome(p, dirs) { NotChild(fs, cur, dirs, p); }
  }

  lemma NotChild(fs: Tree, cur: Path, dirs: seq<Path>, p: Path)
    requires IsRegular(fs, p) && Finds(dirs, ChildDirectories(fs, cur)) && UnderSome(p, dirs)
    ensures cur <= p && p !in Children(fs, cur)
  {
    var k :| 0 <= k < |dirs| && dirs[k] <= p;
    assert dirs[k] in ChildDirectories(fs, cur);
    assert cur == dirs[k][..|cur|] == p[..|cur|];
    assert dirs[k] != p;
  }

  lemma WalkedExpand(fs: Tree, dir: Path, base: seq<Path>, cur: Path, found: seq<Path>, dirs: seq<Path>, files: seq<Path>)
    requires Grounded(fs) && Subtrees(fs, dir, base + [cur]) && Walked(fs, dir, base + [cur], found)
    requires Finds(dirs, ChildDirectories(fs, cur))
    requires Finds(files, ChildFiles(fs, cur))
    ensures Walked(fs, dir, base + dirs, found + files)
  {
    CurAlone(fs, dir, base, cur);
    forall p | p in RegularBelow(fs, dir)
      ensures UnderSome(p, base + [cur]) <==> UnderSome(p, base + dirs) || p in files
      ensures p in files ==> !UnderSome(p, base + dirs) && UnderSome(p, base + [cur])
    {
      UnderJoin(p, base, [cur]);
      UnderJoin(p, base, dirs);
      assert UnderSome(p, [cur]) <==> cur <= p by { assert [cur][0] == cur; }
      UnderExpand(fs, cur, dirs, p);
      if p in files && UnderSome(p, base) { NotUnderBase(fs, dir, base, cur, p); }
    }
    forall p | p in files ensures p in RegularBelow(fs, dir) {
      assert dir <= cur <= p && |cur| < |p|;
    }
    DisjointJoin(found, files);
  }

  lemma CurAlone(fs: Tree, dir: Path, base: seq<Path>, cur: Path)
    requires Subtrees(fs, dir, base + [cur])
    ensures dir <= cur && (cur == dir || IsDirectory(fs, cur))
    ensures forall k :: 0 <= k < |base| ==> !(base[k] <= cur) && (base[k] == dir || IsDirectory(fs, base[k]))
  {
    var all := base + [cur];
    assert all[|base|] == cur;
    forall k | 0 <= k < |base| ensures all[k] == base[k] {}
  }

  lemma NotUnderBase(fs: Tree, dir: Path, base: seq<Path>, cur: Path, p: Path)
    requires Subtrees(fs, dir, base + [cur]) && p in Children(fs, cur) && IsRegular(fs, p)
    ensures !UnderSome(p, base)
  {
    CurAlone(fs, dir, base, cur);
    forall k | 0 <= k < |base| ensures !(base[k] <= p) {
      if base[k] <= p { PrefixOfChild(base[k], cur, p); }
    }
  }

  lemma DisjointJoin(a: seq<Path>, b: seq<Path>)
    requires forall i, j :: 0 <= i < j < |a| ==> a[i] != a[j]
    requires forall i, j :: 0 <= i < j < |b| ==> b[i] != b[j]
    requires forall p :: p in a ==> p !in b
    ensures forall i, j :: 0 <= i < j < |a + b| ==> (a + b)[i] != (a + b)[j]
  {
    var all := a + b;
    forall i, j | 0 <= i < j < |all| ensures all[i] != all[j] {
      if i < |a| <= j { assert all[i] in a && all[j] in b; }
    }
  }

  lemma PendingShrinks(fs: Tree, base: seq<Path>, cur: Path, dirs: seq<Path>)
    requires Finds(dirs, ChildDirectories(fs, cur))
    requires !UnderSome(cur, base)
    ensures Pending(fs, base + dirs) <= Pending(fs, base + [cur])
    ensures dirs != [] ==> |Pending(fs, base + dirs)| < |Pending(fs, base + [cur])|
  {
    forall p | p in Pending(fs, base + dirs) ensures p in Pending(fs, base + [cur]) {
      UnderJoin(p, base, [cur]);
      UnderJoin(p, base, dirs);
      if k :| 0 <= k < |dirs| && dirs[k] <= p {
        assert dirs[k] in Children(fs, cur);
        assert cur <= dirs[k] <= p;
        assert [cur][0] <= p;
      }
    }
    if dirs != [] {
      assert dirs[0] in Children(fs, cur) && cur in fs;
      UnderJoin(cur, base, [cur]);
      UnderJoin(cur, base, dirs);
      assert [cur][0] <= cur;
      forall k | 0 <= k < |dirs| ensures !(dirs[k] <= cur) { assert dirs[k] in Children(fs, cur); }
      Smaller(Pending(fs, base + dirs), Pending(fs, base + [cur]), cur);
    }
  }

  lemma Smaller(a: set<Path>, b: set<Path>, x: Path)
    requires a <= b && x in b && x !in a
    ensures |a| < |b|
  {
    assert a <= b - {x};
    var rest := (b - {x}) - a;
    assert b - {x} == a + rest;
  }

  lemma WalkStarts(fs: Tree, dir: Path)
    ensures Subtrees(fs, dir, [dir]) && Walked(fs, dir, [dir], [])
  {
    forall p | p in RegularBelow(fs, dir) ensures UnderSome(p, [dir]) { assert [dir][0] <= p; }
  }

  lemma WalkContinues(fs: Tree, dir: Path, base: seq<Path>, cur: Path, found: seq<Path>, dirs: seq<Path>, files: seq<Path>)
    requires Grounded(fs) && Subtrees(fs, dir, base + [cur]) && Walked(fs, dir, base + [cur], found)
    requires Finds(dirs, ChildDirectories(fs, cur)) && Finds(files, ChildFiles(fs, cur))
    ensures Subtrees(fs, dir, base + dirs) && Walked(fs, dir, base + dirs, found + files)
    ensures |Pending(fs, base + dirs)| <= |Pending(fs, base + [cur])|
    ensures dirs != [] ==> |Pending(fs, base + dirs)| < |Pending(fs, base + [cur])|
  {
    SubtreesExpand(fs, dir, base, cur, dirs);
    WalkedExpand(fs, dir, base, cur, found, dirs, files);
    CurAlone(fs, dir, base, cur);
    PendingShrinks(fs, base, cur, dirs);
    if dirs == [] { NoLarger(Pending(fs, base + dirs), Pending(fs, base + [cur])); }
  }

  lemma NoLarger(a: set<Path>, b: set<Path>)
    requires a <= b
    ensures |a| <= |b|
  {
    assert b == a + (b - a);
  }

  lemma WalkEnds(fs: Tree, dir: Path, found: seq<Path>)
    requires Walked(fs, dir, [], found)
    ensures Finds(found, RegularBelow(fs, dir))
  {
  }

  lemma FindsAppend(order: seq<Path>, paths: set<Path>, p: Path)
    requires Finds(order, paths) && p !in paths
    ensures Finds(order + [p], paths + {p})
  {
  }

  class Disk {
    var fs: Tree

    constructor (fs: Tree)
      ensures this.fs == fs
    {
      this.fs := fs;
    }

    /** Reads one directory, sorting its entries into directories and regular files. */
    method ReadDirectory(dir: Path) returns (dirs: seq<Path>, files: seq<Path>)
      ensures Finds(dirs, ChildDirectories(fs, dir)) && Finds(files, ChildFiles(fs, dir))
    {
      var entries := Children(fs, dir);
      dirs, files := [], [];
      while entries != {}
        invariant entries <= Children(fs, dir)
        invariant Finds(dirs, ChildDirectories(fs, dir) - entries)
        invariant Finds(files, ChildFiles(fs, dir) - entries)
        decreases entries
      {
        var entry :| entry in entries;
        if fs[entry].Directory? {
          FindsAppend(dirs, ChildDirectories(fs, dir) - entries, entry);
          assert ChildDirectories(fs, dir) - (entries - {entry}) == (ChildDirectories(fs, dir) - entries) + {entry};
          dirs := dirs + [entry];
        } else if fs[entry].Regular? {
          FindsAppend(files, ChildFiles(fs, dir) - entries, entry);
          assert ChildFiles(fs, dir) - (entries - {entry}) == (ChildFiles(fs, dir) - entries) + {entry};
          files := files + [entry];
        }
        assert !IsDirectory(fs, entry) ==> ChildDirectories(fs, dir) - (entries - {entry}) == ChildDirectories(fs, dir) - entries;
        assert !IsRegular(fs, entry) ==> ChildFiles(fs, dir) - (entries - {entry}) == ChildFiles(fs, dir) - entries;
        entries := entries - {entry};
      }
      assert ChildDirectories(fs, dir) - {} == ChildDirectories(fs, dir);
      assert ChildFiles(fs, dir) - {} == ChildFiles(fs, dir);
    }

    /** Every regular file below the directory, once each and sorted, in whatever order directories are read. */
    method TreeFiles(dir: Path) returns (found: seq<Path>)
      requires Grounded(fs)
      ensures Lists(found, RegularBelow(fs, dir))
    {
      hide Grounded, Subtrees, Walked, Pending, Lists, Finds, Sorted, RegularBelow, ChildDirectories, ChildFiles;
      found := [];
      var stack := [dir];
      WalkStarts(fs, dir);
      while stack != []
        invariant Subtrees(fs, dir, stack) && Walked(fs, dir, stack, found)
        decreases |Pending(fs, stack)|, |stack|
      {
        var base, current := stack[..|stack| - 1], stack[|stack| - 1];
        assert stack == base + [current];
        var dirs, files := ReadDirectory(current);
        WalkContinues(fs, dir, base, current, found, dirs, files);
        stack := base + dirs;
        found := found + files;
      }
      WalkEnds(fs, dir, found);
      SortedLists(found, RegularBelow(fs, dir));
      found := Sorted(found);
    }

    method WriteChanged(wanted: Bytes, to: Path) returns (ok: bool, wrote: bool)
      modifies this
      ensures ok <==> WriteIfChanged(old(fs), to, wanted).Some?
      ensures ok ==> Staged(fs, wrote) == WriteIfChanged(old(fs), to, wanted).value
      ensures !ok ==> fs == old(fs)
    {
      if Holds(fs, to, wanted) {
        return true, false;
      }
      if !Writable(fs, to) {
        return false, false;
      }
      fs := Written(fs, to, wanted);
      return true, true;
    }

    method CopyChanged(from: Content, to: Path) returns (ok: bool, wrote: bool)
      modifies this
      ensures ok <==> CopyIfChanged(old(fs), from, to).Some?
      ensures ok ==> Staged(fs, wrote) == CopyIfChanged(old(fs), from, to).value
    {
      ok, wrote := WriteChanged(from.bytes, to);
      if ok {
        WriteEffect(old(fs), to, from.bytes);
        if Reading(fs, to).value.mode != from.mode {
          fs := WithMode(fs, to, from.mode);
          wrote := true;
        }
      }
    }

    method WriteFiles(files: seq<PanelFile>, to: Path) returns (ok: bool, wrote: bool)
      modifies this
      ensures ok <==> WriteAll(old(fs), to, files).Some?
      ensures ok ==> Staged(fs, wrote) == WriteAll(old(fs), to, files).value
    {
      ok, wrote := true, false;
      for i := 0 to |files|
        invariant ok && WriteAll(old(fs), to, files[..i]) == Some(Staged(fs, wrote))
      {
        assert files[..i + 1][..i] == files[..i];
        var changed;
        ok, changed := WriteChanged(files[i].bytes, to + files[i].name);
        if !ok {
          NoneStays(old(fs), to, files, i + 1);
          return;
        }
        wrote := changed || wrote;
      }
      assert files[..|files|] == files;
    }

    /** Makes the directory hold the files; a refused removal is ignored, and still reported as a change. */
    method SyncPanel(files: seq<PanelFile>, to: Path, removable: set<Path>) returns (ok: bool, wrote: bool)
      requires Grounded(fs)
      modifies this
      ensures ok <==> Sync(old(fs), to, files, removable).Some?
      ensures ok ==> Staged(fs, wrote) == Sync(old(fs), to, files, removable).value
    {
      ok, wrote := WriteFiles(files, to);
      if ok {
        WriteAllGrounded(old(fs), to, files);
        var removed := RemoveStale(files, to, removable);
        wrote := removed || wrote;
      }
    }

    method RemoveStale(files: seq<PanelFile>, to: Path, removable: set<Path>) returns (wrote: bool)
      requires Grounded(fs)
      modifies this
      ensures fs == old(fs) - (Stale(old(fs), to, files) * removable)
      ensures wrote <==> Stale(old(fs), to, files) != {}
    {
      hide Grounded, Stale, Wanted, Lists;
      var present := TreeFiles(to);
      ghost var was, stale := fs, Stale(fs, to, files);
      wrote := false;
      for i := 0 to |present|
        invariant fs == was - (Chosen(present[..i], stale) * removable)
        invariant wrote <==> Chosen(present[..i], stale) != {}
      {
        assert present[..i + 1] == present[..i] + [present[i]];
        ChosenAppends(present[..i], stale, present[i]);
        StaleExact(was, to, files, present, i);
        if present[i] !in Wanted(to, files) {
          if present[i] in removable {
            fs := fs - {present[i]};
          }
          wrote := true;
        }
      }
      assert present[..|present|] == present;
      StaleListed(was, to, files, present);
    }

    method CopyFiles(copies: seq<Copy>) returns (ok: bool)
      modifies this
      ensures ok <==> CopyAll(old(fs), copies).Some?
      ensures ok ==> fs == CopyAll(old(fs), copies).value
    {
      hide CopyIfChanged;
      for i := 0 to |copies|
        invariant CopyAll(old(fs), copies[..i]) == Some(fs)
      {
        assert copies[..i + 1][..i] == copies[..i];
        var wrote;
        ok, wrote := CopyChanged(copies[i].from, copies[i].to);
        if !ok {
          NoCopyStays(old(fs), copies, i + 1);
          return;
        }
      }
      assert copies[..|copies|] == copies;
      return true;
    }

    /** Drops what an older seal left; directories in it, and files that cannot be removed, stay. */
    method DropOldSeal(bundle: Path, stage: Stage, removable: set<Path>)
      requires Grounded(fs)
      modifies this
      ensures fs == old(fs) - (OldSeal(old(fs), bundle, stage) * removable)
    {
      hide Copies, Grounded, OldSeal;
      ghost var was, stale := fs, OldSeal(fs, bundle, stage);
      var entries := Children(fs, SealPath(bundle));
      ghost var all := entries;
      OldSealEntries(fs, bundle, stage);
      while entries != {}
        invariant entries <= all && fs == was - ((stale - entries) * removable)
        decreases entries
      {
        var entry :| entry in entries;
        OldSealEntry(was, bundle, stage, entry);
        assert entry in fs && fs[entry] == was[entry];
        if entry !in Targets(Copies(bundle, stage)) && !fs[entry].Directory? && entry in removable {
          fs := fs - {entry};
        }
        entries := entries - {entry};
      }
      assert stale - {} == stale;
    }

    /** One pass of the build: nothing at all when the bundle is current, or else copies, seal, panel and stamp. */
    method BuildBundle(bundle: Path, stamp: Option<string>, value: string, panel: seq<PanelFile>, stage: Stage, removable: set<Path>)
      returns (built: Option<Build>)
      requires Grounded(fs) && DistinctSeal(stage)
      modifies this
      ensures built == RunBuild(old(fs), bundle, stamp, value, panel, stage, removable)
      ensures built.Some? ==> fs == built.value.fs
    {
      hide Sync, CopyAll, Copies, OldSeal, Grounded;
      if Current(fs, bundle, stamp, value) {
        return Some(Build(fs, stamp, false));
      }
      var ok := CopyFiles(Copies(bundle, stage));
      if !ok {
        return None;
      }
      CopiesSeparate(bundle, stage);
      CopyAllEffect(old(fs), Copies(bundle, stage));
      OldSealGrounded(fs, bundle, stage, removable);
      DropOldSeal(bundle, stage, removable);
      var wrote;
      ok, wrote := SyncPanel(panel, PanelPath(bundle), removable);
      return if ok then Some(Build(fs, Some(value), true)) else None;
    }
  }

  lemma OldSealEntries(fs: Tree, bundle: Path, stage: Stage)
    requires Grounded(fs)
    ensures OldSeal(fs, bundle, stage) <= Children(fs, SealPath(bundle))
  {
    var seal := SealPath(bundle);
    forall p | p in OldSeal(fs, bundle, stage) ensures p in Children(fs, seal) {
      assert p[..|p| - 1] == seal;
    }
  }

  lemma OldSealEntry(fs: Tree, bundle: Path, stage: Stage, entry: Path)
    requires entry in Children(fs, SealPath(bundle))
    ensures entry in OldSeal(fs, bundle, stage) <==> entry !in Targets(Copies(bundle, stage)) && !fs[entry].Directory?
  {
  }

  lemma {:induction false} NoCopyStays(fs: Tree, copies: seq<Copy>, k: nat)
    requires k <= |copies| && CopyAll(fs, copies[..k]).None?
    ensures CopyAll(fs, copies).None?
    decreases |copies|
  {
    if k < |copies| {
      assert copies[..|copies| - 1][..k] == copies[..k];
      NoCopyStays(fs, copies[..|copies| - 1], k);
    } else {
      assert copies[..k] == copies;
    }
  }

  lemma StaleExact(fs: Tree, to: Path, files: seq<PanelFile>, present: seq<Path>, i: nat)
    requires Lists(present, RegularBelow(fs, to)) && i < |present|
    ensures present[i] in Stale(fs, to, files) <==> present[i] !in Wanted(to, files)
  {
  }

  lemma StaleListed(fs: Tree, to: Path, files: seq<PanelFile>, present: seq<Path>)
    requires Lists(present, RegularBelow(fs, to))
    ensures Chosen(present, Stale(fs, to, files)) == Stale(fs, to, files)
  {
  }

  function Chosen(paths: seq<Path>, among: set<Path>): set<Path> {
    set p | p in paths && p in among
  }

  lemma ChosenAppends(paths: seq<Path>, among: set<Path>, p: Path)
    ensures Chosen(paths + [p], among) == Chosen(paths, among) + if p in among then {p} else {}
  {
  }

  lemma {:induction false} NoneStays(fs: Tree, to: Path, files: seq<PanelFile>, k: nat)
    requires k <= |files| && WriteAll(fs, to, files[..k]).None?
    ensures WriteAll(fs, to, files).None?
    decreases |files|
  {
    if k < |files| {
      assert files[..|files| - 1][..k] == files[..k];
      NoneStays(fs, to, files[..|files| - 1], k);
    } else {
      assert files[..k] == files;
    }
  }
}
