/**
 Workspaces of the repository (scripts/ci-test-plan.ts): which of them owns a file, and which of them are
 affected, through dependencies, by a change to others.
 */
module WorkspaceGraph {
  import opened Outcomes

  type Path = string

  datatype Workspace = Workspace(name: string, dir: Path, dependencies: seq<string>, hasTest: bool)

  function Names(ws: seq<Workspace>): set<string> {
    set p | p in ws :: p.name
  }

  // ----- Ownership by the longest directory -----

  predicate Owns(p: Workspace, file: Path) {
    p.dir + "/" <= file
  }

  function InsertByLength(p: Workspace, sorted: seq<Workspace>): seq<Workspace> {
    if sorted == [] || |p.dir| >= |sorted[0].dir| then [p] + sorted
    else [sorted[0]] + InsertByLength(p, sorted[1..])
  }

  /** The stable sort by descending directory length. */
  function ByLength(ws: seq<Workspace>): seq<Workspace> {
    if ws == [] then [] else InsertByLength(ws[0], ByLength(ws[1..]))
  }

  function FirstOwner(ws: seq<Workspace>, file: Path): Option<Workspace> {
    if ws == [] then None
    else if Owns(ws[0], file) then Some(ws[0])
    else FirstOwner(ws[1..], file)
  }

  function Owner(ws: seq<Workspace>, file: Path): Option<Workspace> {
    FirstOwner(ByLength(ws), file)
  }

  predicate Descending(ws: seq<Workspace>) {
    forall i, j :: 0 <= i <= j < |ws| ==> |ws[i].dir| >= |ws[j].dir|
  }

  lemma {:induction false} InsertKeeps(p: Workspace, ws: seq<Workspace>)
    ensures multiset(InsertByLength(p, ws)) == multiset(ws) + multiset{p}
  {
    if !(ws == [] || |p.dir| >= |ws[0].dir|) {
      InsertKeeps(p, ws[1..]);
      assert ws == [ws[0]] + ws[1..];
    }
  }

  lemma {:induction false} InsertSorts(p: Workspace, ws: seq<Workspace>)
    requires Descending(ws)
    ensures Descending(InsertByLength(p, ws))
  {
    if !(ws == [] || |p.dir| >= |ws[0].dir|) {
      InsertSorts(p, ws[1..]);
      InsertKeeps(p, ws[1..]);
      var rest := InsertByLength(p, ws[1..]);
      forall j | 0 <= j < |rest| ensures |rest[j].dir| <= |ws[0].dir| {
        assert rest[j] in multiset(rest);
      }
    }
  }

  lemma {:induction false} ByLengthSorts(ws: seq<Workspace>)
    ensures Descending(ByLength(ws)) && multiset(ByLength(ws)) == multiset(ws)
  {
    if ws != [] {
      ByLengthSorts(ws[1..]);
      InsertSorts(ws[0], ByLength(ws[1..]));
      InsertKeeps(ws[0], ByLength(ws[1..]));
      assert ws == [ws[0]] + ws[1..];
    }
  }

  lemma {:induction false} FirstOwnerIsFirst(ws: seq<Workspace>, file: Path)
    ensures var o := FirstOwner(ws, file);
            && (o.None? ==> forall k :: 0 <= k < |ws| ==> !Owns(ws[k], file))
            && (o.Some? ==> exists k :: 0 <= k < |ws| && ws[k] == o.value && Owns(ws[k], file) && forall m :: 0 <= m < k ==> !Owns(ws[m], file))
  {
    if ws != [] && !Owns(ws[0], file) {
      FirstOwnerIsFirst(ws[1..], file);
      var o := FirstOwner(ws[1..], file);
      if o.Some? {
        var k :| 0 <= k < |ws[1..]| && ws[1..][k] == o.value && Owns(ws[1..][k], file) && forall m :: 0 <= m < k ==> !Owns(ws[1..][m], file);
        assert ws[k + 1] == o.value;
        forall m | 0 <= m < k + 1 ensures !Owns(ws[m], file) { if m > 0 { assert ws[m] == ws[1..][m - 1]; } }
      } else {
        forall m | 0 <= m < |ws| ensures !Owns(ws[m], file) { if m > 0 { assert ws[m] == ws[1..][m - 1]; } }
      }
    }
  }

  predicate LongestOwner(ws: seq<Workspace>, p: Workspace, file: Path) {
    p in ws && Owns(p, file) && forall q :: q in ws && Owns(q, file) ==> |q.dir| <= |p.dir|
  }

  /** A file's owner is the workspace with the longest directory around it, if there is any. */
  lemma OwnerExact(ws: seq<Workspace>, file: Path)
    ensures Owner(ws, file).None? <==> forall p :: p in ws ==> !Owns(p, file)
    ensures Owner(ws, file).Some? ==> LongestOwner(ws, Owner(ws, file).value, file)
  {
    var sorted := ByLength(ws);
    ByLengthSorts(ws);
    FirstOwnerIsFirst(sorted, file);
    forall p ensures p in ws <==> p in sorted { assert p in multiset(ws) <==> p in multiset(sorted); }
  }

  /** Workspaces are directories, so no two of them share one. */
  predicate DistinctDirs(ws: seq<Workspace>) {
    forall p, q :: p in ws && q in ws && p.dir == q.dir ==> p == q
  }

  lemma OwnerUnique(ws: seq<Workspace>, p: Workspace, q: Workspace, file: Path)
    requires DistinctDirs(ws) && LongestOwner(ws, p, file) && LongestOwner(ws, q, file)
    ensures p == q
  {
    assert p.dir == (p.dir + "/")[..|p.dir|] == file[..|p.dir|];
    assert q.dir == (q.dir + "/")[..|q.dir|] == file[..|q.dir|];
  }

  // ----- The reverse-dependency closure -----

  predicate DependsOn(p: Workspace, s: set<string>) {
    exists d :: d in p.dependencies && d in s
  }

  function Dependents(ws: seq<Workspace>, s: set<string>): set<string> {
    set p | p in ws && DependsOn(p, s) :: p.name
  }

  predicate Closed(ws: seq<Workspace>, s: set<string>) {
    Dependents(ws, s) <= s
  }

  /** The reference: all dependents added at once, until there are no more. */
  function Closure(ws: seq<Workspace>, s: set<string>): set<string>
    decreases |Names(ws) - s|
  {
    if Closed(ws, s) then s
    else
      ClosureShrinks(ws, s);
      Closure(ws, s + Dependents(ws, s))
  }

  lemma ClosureShrinks(ws: seq<Workspace>, s: set<string>)
    requires !Closed(ws, s)
    ensures |Names(ws) - (s + Dependents(ws, s))| < |Names(ws) - s|
  {
    var name :| name in Dependents(ws, s) && name !in s;
    assert name in Names(ws) - s;
    ProperSubset(Names(ws) - (s + Dependents(ws, s)), Names(ws) - s);
  }

  lemma ProperSubset<T>(a: set<T>, b: set<T>)
    requires a < b
    ensures |a| < |b|
  {
    var rest := b - a;
    assert b == a + rest;
    assert rest != {};
  }

  ghost predicate Least(ws: seq<Workspace>, changed: set<string>, s: set<string>) {
    && changed <= s && Closed(ws, s)
    && forall t :: changed <= t && Closed(ws, t) ==> s <= t
  }

  lemma DependentsGrow(ws: seq<Workspace>, s: set<string>, t: set<string>)
    requires s <= t
    ensures Dependents(ws, s) <= Dependents(ws, t)
  {
  }

  lemma {:induction false} ClosureInside(ws: seq<Workspace>, s: set<string>, t: set<string>)
    requires s <= t && Closed(ws, t)
    ensures Closure(ws, s) <= t
    decreases |Names(ws) - s|
  {
    if !Closed(ws, s) {
      ClosureShrinks(ws, s);
      DependentsGrow(ws, s, t);
      ClosureInside(ws, s + Dependents(ws, s), t);
    }
  }

  lemma {:induction false} ClosureClosed(ws: seq<Workspace>, s: set<string>)
    ensures s <= Closure(ws, s) && Closed(ws, Closure(ws, s))
    decreases |Names(ws) - s|
  {
    if !Closed(ws, s) {
      ClosureShrinks(ws, s);
      ClosureClosed(ws, s + Dependents(ws, s));
    }
  }

  /** The closure is the least set with the changed packages that every dependent of a member is in. */
  lemma ClosureLeast(ws: seq<Workspace>, changed: set<string>)
    ensures Least(ws, changed, Closure(ws, changed))
    ensures forall s :: Least(ws, changed, s) ==> s == Closure(ws, changed)
  {
    ClosureClosed(ws, changed);
    forall t | changed <= t && Closed(ws, t) ensures Closure(ws, changed) <= t { ClosureInside(ws, changed, t); }
  }

  lemma ClosureGrows(ws: seq<Workspace>, a: set<string>, b: set<string>)
    requires a <= b
    ensures Closure(ws, a) <= Closure(ws, b)
  {
    ClosureClosed(ws, b);
    ClosureInside(ws, a, Closure(ws, b));
  }

  lemma ClosureNamed(ws: seq<Workspace>, s: set<string>)
    requires s <= Names(ws)
    ensures Closure(ws, s) <= Names(ws)
  {
    ClosureInside(ws, s, Names(ws));
  }

  ghost predicate Linked(ws: seq<Workspace>, from: string, to: string) {
    exists p :: p in ws && p.name == to && from in p.dependencies
  }

  /** Each package of a chain is depended on by the next one. */
  ghost predicate Chain(ws: seq<Workspace>, names: seq<string>) {
    |names| > 0 && forall k :: 0 < k < |names| ==> Linked(ws, names[k - 1], names[k])
  }

  ghost predicate ChainTo(ws: seq<Workspace>, changed: set<string>, name: string, names: seq<string>) {
    Chain(ws, names) && names[0] in changed && names[|names| - 1] == name
  }

  lemma {:induction false} ChainReaches(ws: seq<Workspace>, s: set<string>, names: seq<string>)
    requires Chain(ws, names) && names[0] in s && Closed(ws, s)
    ensures names[|names| - 1] in s
    decreases |names|
  {
    if |names| > 1 {
      var front := names[..|names| - 1];
      ChainReaches(ws, s, front);
      assert Linked(ws, names[|names| - 2], names[|names| - 1]);
      var p :| p in ws && p.name == names[|names| - 1] && front[|front| - 1] in p.dependencies;
      assert DependsOn(p, s);
      assert p.name in Dependents(ws, s);
    }
  }

  ghost predicate Chained(ws: seq<Workspace>, changed: set<string>, s: set<string>) {
    forall name :: name in s ==> exists names :: ChainTo(ws, changed, name, names)
  }

  lemma ChainExtends(ws: seq<Workspace>, changed: set<string>, s: set<string>, name: string) returns (names: seq<string>)
    requires Chained(ws, changed, s) && name in Dependents(ws, s)
    ensures ChainTo(ws, changed, name, names)
  {
    var p :| p in ws && DependsOn(p, s) && p.name == name;
    var d :| d in p.dependencies && d in s;
    var front :| ChainTo(ws, changed, d, front);
    names := front + [name];
    assert Linked(ws, d, name);
    forall k | 0 < k < |names| ensures Linked(ws, names[k - 1], names[k]) {
      if k < |front| { assert Linked(ws, front[k - 1], front[k]); }
    }
  }

  lemma {:induction false} ClosureChained(ws: seq<Workspace>, changed: set<string>, s: set<string>)
    requires Chained(ws, changed, s)
    ensures Chained(ws, changed, Closure(ws, s))
    decreases |Names(ws) - s|
  {
    if !Closed(ws, s) {
      ClosureShrinks(ws, s);
      var t := s + Dependents(ws, s);
      forall name | name in t ensures exists names :: ChainTo(ws, changed, name, names) {
        if name !in s { var names := ChainExtends(ws, changed, s, name); }
      }
      ClosureChained(ws, changed, t);
    }
  }

  /** A package is affected exactly when a chain of dependencies leads to it from a changed one. */
  lemma ClosureIsReachability(ws: seq<Workspace>, changed: set<string>, name: string)
    ensures name in Closure(ws, changed) <==> exists names :: ChainTo(ws, changed, name, names)
  {
    forall n | n in changed ensures exists names :: ChainTo(ws, changed, n, names) {
      assert ChainTo(ws, changed, n, [n]);
    }
    ClosureChained(ws, changed, changed);
    ClosureClosed(ws, changed);
    forall names | ChainTo(ws, changed, name, names) ensures name in Closure(ws, changed) {
      ChainReaches(ws, Closure(ws, changed), names);
    }
  }
}
