/** The planner's loops, proved against what they are to compute. */
module PlanMethods {
  import opened Outcomes
  import opened WorkspaceGraph
  import opened TestPlan
  import opened PlanTheorems

  /** Nothing outside the closure is ever affected, and everything changed is. */
  ghost predicate Between(ws: seq<Workspace>, changed: set<string>, affected: set<string>) {
    changed <= affected && affected <= Closure(ws, changed)
  }

  ghost predicate Stable(ws: seq<Workspace>, count: nat, affected: set<string>)
    requires count <= |ws|
  {
    forall k :: 0 <= k < count ==> ws[k].name in affected || !DependsOn(ws[k], affected)
  }

  lemma AddDependent(ws: seq<Workspace>, changed: set<string>, affected: set<string>, p: Workspace)
    requires Between(ws, changed, affected) && p in ws && DependsOn(p, affected)
    ensures Between(ws, changed, affected + {p.name})
  {
    ClosureClosed(ws, changed);
    var all := Closure(ws, changed);
    DependentsGrow(ws, affected, all);
    assert p.name in Dependents(ws, affected);
  }

  lemma StableIsClosure(ws: seq<Workspace>, changed: set<string>, affected: set<string>)
    requires Between(ws, changed, affected) && Stable(ws, |ws|, affected)
    ensures affected == Closure(ws, changed)
  {
    forall name | name in Dependents(ws, affected) ensures name in affected {
      var p :| p in ws && DependsOn(p, affected) && p.name == name;
      var k :| 0 <= k < |ws| && ws[k] == p;
    }
    ClosureInside(ws, changed, affected);
  }

  lemma FewerLeft(ws: seq<Workspace>, affected: set<string>, p: Workspace)
    requires p in ws && p.name !in affected
    ensures |Names(ws) - (affected + {p.name})| < |Names(ws) - affected|
  {
    assert p.name in Names(ws);
    ProperSubset(Names(ws) - (affected + {p.name}), Names(ws) - affected);
  }

  /** The growing set, extended in place while a pass over the workspaces still finds a dependent. */
  method GrowAffected(ws: seq<Workspace>, changed: set<string>) returns (affected: set<string>)
    ensures affected == Closure(ws, changed)
  {
    ClosureClosed(ws, changed);
    affected := changed;
    var growing := true;
    while growing
      invariant Between(ws, changed, affected)
      invariant !growing ==> Stable(ws, |ws|, affected)
      decreases |Names(ws) - affected|, growing
    {
      growing := false;
      ghost var before := affected;
      for i := 0 to |ws|
        invariant Between(ws, changed, affected)
        invariant growing ==> |Names(ws) - affected| < |Names(ws) - before|
        invariant !growing ==> affected == before && Stable(ws, i, affected)
      {
        var p := ws[i];
        if p.name !in affected && DependsOn(p, affected) {
          AddDependent(ws, changed, affected, p);
          FewerLeft(ws, affected, p);
          affected := affected + {p.name};
          growing := true;
        }
      }
    }
    StableIsClosure(ws, changed, affected);
  }

  lemma DirectAppends(ws: seq<Workspace>, r: Rules, files: seq<Path>, f: Path)
    ensures Direct(ws, r, files + [f]) == Direct(ws, r, files) + DirectOf(ws, r, f)
    ensures Changed(ws, r, files + [f]) == Changed(ws, r, files) + ChangedOf(ws, r, f)
  {
  }

  lemma StrayAppends(ws: seq<Workspace>, r: Rules, files: seq<Path>, f: Path)
    ensures FirstStray(ws, r, files + [f])
         == if FirstStray(ws, r, files).Some? then FirstStray(ws, r, files)
            else if Stray(ws, r, f) then Some(f) else None
  {
    assert (files + [f])[..|files|] == files;
  }

  lemma {:induction false} StrayStays(ws: seq<Workspace>, r: Rules, files: seq<Path>, k: nat)
    requires k <= |files| && FirstStray(ws, r, files[..k]).Some?
    ensures FirstStray(ws, r, files) == FirstStray(ws, r, files[..k])
    decreases |files|
  {
    if k < |files| {
      var front := files[..|files| - 1];
      assert front[..k] == files[..k];
      StrayStays(ws, r, front, k);
      assert files == front + [files[|files| - 1]];
      StrayAppends(ws, r, front, files[|files| - 1]);
    } else {
      assert files[..k] == files;
    }
  }

  /** Adds what one file selects, or reports that nothing accounts for it. */
  method Select(ws: seq<Workspace>, owners: seq<Workspace>, r: Rules, file: Path, direct: set<string>, changed: set<string>)
    returns (stray: bool, nextDirect: set<string>, nextChanged: set<string>)
    requires owners == ByLength(ws)
    ensures stray <==> Stray(ws, r, file)
    ensures !stray ==> nextDirect == direct + DirectOf(ws, r, file) && nextChanged == changed + ChangedOf(ws, r, file)
  {
    stray, nextDirect, nextChanged := false, direct, changed;
    if r.documentation(file) {
      return;
    }
    nextDirect := direct + Readers(r, file);
    var owner := FirstOwner(owners, file);
    if owner.Some? {
      nextDirect := nextDirect + {owner.value.name};
      if Propagates(r, file) {
        nextChanged := changed + {owner.value.name};
      }
      return;
    }
    stray := !r.classified(file);
  }

  method ComputePlan(ws: seq<Workspace>, files: seq<Path>, r: Rules) returns (plan: Plan)
    ensures plan == Planned(ws, r, files)
  {
    hide Stray, DirectOf, ChangedOf, Closure, Direct, Changed;
    if Any(files, r.global) {
      return FullPlan(ws, SharedInputs);
    }
    var direct, changed := {}, {};
    var owners := ByLength(ws);
    NothingSelected(ws, r);
    for i := 0 to |files|
      invariant direct == Direct(ws, r, files[..i]) && changed == Changed(ws, r, files[..i])
      invariant FirstStray(ws, r, files[..i]).None?
    {
      assert files[..i + 1] == files[..i] + [files[i]];
      DirectAppends(ws, r, files[..i], files[i]);
      StrayAppends(ws, r, files[..i], files[i]);
      var stray;
      stray, direct, changed := Select(ws, owners, r, files[i], direct, changed);
      if stray {
        StrayStays(ws, r, files, i + 1);
        return FullPlan(ws, Unclassified(files[i]));
      }
    }
    assert files[..|files|] == files;
    var affected := GrowAffected(ws, changed);
    var packages := direct + affected;
    var code := E2E in affected;
    var specs := Specs(r, files);
    var e2e := code || specs != {};
    var whole := code || Any(files, f => Fixture(r, f));
    plan := Plan(
      false,
      if packages != {} then Selected else RepositoryOnly,
      packages,
      ScriptsTouched(r, files),
      e2e,
      if e2e && !whole then {SETUP_SPEC} + specs else {},
      SERVER in affected || Any(files, r.smoke),
      Any(files, f => r.cli(f) && !r.test(f)),
      RustTouched(r, files),
      Any(files, r.audit));
  }

  lemma NothingSelected(ws: seq<Workspace>, r: Rules)
    ensures Direct(ws, r, []) == {} && Changed(ws, r, []) == {}
  {
  }
}
