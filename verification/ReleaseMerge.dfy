/** Merging the manifests of a release's build shards into one (scripts/merge-release-manifest.ts). */
module ReleaseMerge {
  import opened Outcomes
  import opened ObjectNames

  type Name = string

  type Digest = string

  datatype Header = Header(component: string, version: string, nodeProtocol: int, minNodeVersion: string, commit: string)

  datatype Manifest = Manifest(header: Header, assets: map<Name, Digest>)

  datatype Refusal = NoShards | Disagreement | TwoDigests | MissingAssets(names: set<Name>)

  const TARGETS: set<string> := {"linux-x64", "linux-arm64", "darwin-arm64", "darwin-x64"}

  /** The binaries a release of a command-line component must name; the desktop ones have no such list. */
  function Required(component: string): set<Name> {
    if component == "cli-node" then set t | t in TARGETS :: "subshell-node-cli-" + t
    else if component == "cli-server" then set t | t in TARGETS :: "subshell-server-cli-" + t
    else {}
  }

  predicate Agree(shards: seq<Manifest>) {
    forall i :: 0 <= i < |shards| ==> shards[i].header == shards[0].header
  }

  /** One name is added unless it already stands for another digest; an inherited name stands for something else. */
  predicate Clashes(merged: map<Name, Digest>, name: Name, digest: Digest) {
    if name in merged then merged[name] != digest else Inherited(name)
  }

  predicate Fits(merged: map<Name, Digest>, assets: map<Name, Digest>) {
    forall name | name in assets :: !Clashes(merged, name, assets[name])
  }

  function Union(shards: seq<Manifest>): Option<map<Name, Digest>> {
    if shards == [] then Some(map[])
    else
      match Union(shards[..|shards| - 1])
      case None => None
      case Some(merged) =>
        var assets := shards[|shards| - 1].assets;
        if Fits(merged, assets) then Some(merged + assets) else None
  }

  /** The merge before its completeness check. */
  function Combine(shards: seq<Manifest>): Result<Manifest, Refusal> {
    if shards == [] then Err(NoShards)
    else if !Agree(shards) then Err(Disagreement)
    else match Union(shards)
      case None => Err(TwoDigests)
      case Some(assets) => Ok(Manifest(shards[0].header, assets))
  }

  function Merge(shards: seq<Manifest>): Result<Manifest, Refusal> {
    match Combine(shards)
    case Err(e) => Err(e)
    case Ok(m) =>
      var missing := Required(m.header.component) - m.assets.Keys;
      if missing == {} then Ok(m) else Err(MissingAssets(missing))
  }

  // ----- Exactly the union -----

  predicate Says(shards: seq<Manifest>, name: Name, digest: Digest) {
    exists i :: 0 <= i < |shards| && name in shards[i].assets && shards[i].assets[name] == digest
  }

  ghost predicate Compatible(shards: seq<Manifest>) {
    && (forall name, d, e :: Says(shards, name, d) && Says(shards, name, e) ==> d == e)
    && (forall name, d :: Says(shards, name, d) ==> !Inherited(name))
  }

  ghost predicate Collects(merged: map<Name, Digest>, shards: seq<Manifest>) {
    forall name, d :: (name in merged && merged[name] == d) <==> Says(shards, name, d)
  }

  lemma SaysAppends(shards: seq<Manifest>, last: Manifest, name: Name, d: Digest)
    ensures Says(shards + [last], name, d) <==> Says(shards, name, d) || (name in last.assets && last.assets[name] == d)
  {
    var all := shards + [last];
    if i :| 0 <= i < |shards| && name in shards[i].assets && shards[i].assets[name] == d { assert all[i] == shards[i]; }
    assert all[|shards|] == last;
  }

  lemma CompatibleAppends(shards: seq<Manifest>, last: Manifest, merged: map<Name, Digest>)
    requires Collects(merged, shards) && Compatible(shards)
    ensures Compatible(shards + [last]) <==> Fits(merged, last.assets)
    ensures Fits(merged, last.assets) ==> Collects(merged + last.assets, shards + [last])
  {
    hide Says, Inherited;
    var all := shards + [last];
    forall name, d ensures Says(all, name, d) <==> (name in merged && merged[name] == d) || (name in last.assets && last.assets[name] == d) {
      SaysAppends(shards, last, name, d);
    }
    if Compatible(all) {
      forall name | name in last.assets ensures !Clashes(merged, name, last.assets[name]) {
        assert Says(all, name, last.assets[name]);
        if name in merged { assert Says(all, name, merged[name]); }
      }
    }
    if Fits(merged, last.assets) {
      forall name, d | Says(all, name, d) ensures !Inherited(name) {
        if name in merged { assert Says(shards, name, merged[name]); }
      }
    }
  }

  lemma FrontCompatible(shards: seq<Manifest>, last: Manifest)
    requires Compatible(shards + [last])
    ensures Compatible(shards)
  {
    hide Says, Inherited;
    forall name, d | Says(shards, name, d) ensures Says(shards + [last], name, d) { SaysAppends(shards, last, name, d); }
  }

  /** Combining assets succeeds exactly when the shards are compatible, and then loses and invents nothing. */
  lemma {:induction false} UnionExact(shards: seq<Manifest>)
    ensures Union(shards).Some? <==> Compatible(shards)
    ensures Union(shards).Some? ==> Collects(Union(shards).value, shards)
  {
    hide Inherited;
    if shards != [] {
      var front, last := shards[..|shards| - 1], shards[|shards| - 1];
      assert shards == front + [last];
      UnionExact(front);
      if Union(front).Some? {
        CompatibleAppends(front, last, Union(front).value);
      } else if Compatible(shards) {
        FrontCompatible(front, last);
      }
    }
  }

  ghost predicate Complete(shards: seq<Manifest>)
    requires shards != []
  {
    forall name :: name in Required(shards[0].header.component) ==> exists d :: Says(shards, name, d)
  }

  /**
   A merge succeeds exactly when there is a shard, all headers agree, no name has two digests or is one
   every object inherits, and every required binary is named; its assets are then exactly the shards'.
   */
  lemma MergeExact(shards: seq<Manifest>)
    ensures Merge(shards).Ok? <==> shards != [] && Agree(shards) && Compatible(shards) && Complete(shards)
    ensures Merge(shards).Ok? ==> Merge(shards).value.header == shards[0].header && Collects(Merge(shards).value.assets, shards)
  {
    hide Union, Compatible, Says, Required, Inherited;
    UnionExact(shards);
    if shards != [] && Agree(shards) && Union(shards).Some? {
      var m := Union(shards).value;
      var required := Required(shards[0].header.component);
      forall name ensures name in m.Keys <==> exists d :: Says(shards, name, d) {
        if name in m { assert Says(shards, name, m[name]); }
      }
      if required - m.Keys == {} {
        forall name | name in required ensures exists d :: Says(shards, name, d) { assert name !in required - m.Keys; }
      }
    }
  }

  lemma NodeNames()
    ensures Required("cli-node") == {
              "subshell-node-cli-linux-x64", "subshell-node-cli-linux-arm64",
              "subshell-node-cli-darwin-arm64", "subshell-node-cli-darwin-x64"}
  {
    assert "subshell-node-cli-" + "linux-x64" == "subshell-node-cli-linux-x64";
    assert "subshell-node-cli-" + "linux-arm64" == "subshell-node-cli-linux-arm64";
    assert "subshell-node-cli-" + "darwin-arm64" == "subshell-node-cli-darwin-arm64";
    assert "subshell-node-cli-" + "darwin-x64" == "subshell-node-cli-darwin-x64";
  }

  lemma ServerNames()
    ensures Required("cli-server") == {
              "subshell-server-cli-linux-x64", "subshell-server-cli-linux-arm64",
              "subshell-server-cli-darwin-arm64", "subshell-server-cli-darwin-x64"}
  {
    assert "cli-server"[4] == 's' && "cli-node"[4] == 'n';
    assert "subshell-server-cli-" + "linux-x64" == "subshell-server-cli-linux-x64";
    assert "subshell-server-cli-" + "linux-arm64" == "subshell-server-cli-linux-arm64";
    assert "subshell-server-cli-" + "darwin-arm64" == "subshell-server-cli-darwin-arm64";
    assert "subshell-server-cli-" + "darwin-x64" == "subshell-server-cli-darwin-x64";
  }

  /** The four binaries each command-line component must name, and none for a desktop one. */
  lemma RequiredNames()
    ensures Required("cli-node") == {
              "subshell-node-cli-linux-x64", "subshell-node-cli-linux-arm64",
              "subshell-node-cli-darwin-arm64", "subshell-node-cli-darwin-x64"}
    ensures Required("cli-server") == {
              "subshell-server-cli-linux-x64", "subshell-server-cli-linux-arm64",
              "subshell-server-cli-darwin-arm64", "subshell-server-cli-darwin-x64"}
    ensures Required("desktop-server") == {} && Required("desktop-client") == {}
  {
    NodeNames();
    ServerNames();
    OtherNames("desktop-server");
    OtherNames("desktop-client");
  }

  lemma OtherNames(component: string)
    requires component != [] && component[0] == 'd'
    ensures Required(component) == {}
  {
  }

  ghost predicate Names(shards: seq<Manifest>, name: Name) {
    exists d :: Says(shards, name, d)
  }

  /** Which refusal is reported: no shard before disagreement before two digests before missing binaries, which are all listed. */
  lemma RefusalExact(shards: seq<Manifest>)
    requires Merge(shards).Err?
    ensures var e := Merge(shards).error;
            && (e == NoShards <==> shards == [])
            && (e == Disagreement <==> shards != [] && !Agree(shards))
            && (e == TwoDigests <==> shards != [] && Agree(shards) && !Compatible(shards))
            && (e.MissingAssets? ==>
                  shards != [] && forall name :: name in e.names <==> name in Required(shards[0].header.component) && !Names(shards, name))
  {
    hide Union, Compatible, Says, Required, Inherited;
    UnionExact(shards);
    if shards != [] && Agree(shards) && Union(shards).Some? {
      var m := Union(shards).value;
      forall name ensures name in m.Keys <==> Names(shards, name) {
        if name in m { assert Says(shards, name, m[name]); }
      }
    }
  }

  // ----- Order and grouping -----

  lemma SameAssets(shards: seq<Manifest>, others: seq<Manifest>, m: map<Name, Digest>, n: map<Name, Digest>)
    requires Collects(m, shards) && Collects(n, others)
    requires forall name, d :: Says(shards, name, d) <==> Says(others, name, d)
    ensures m == n
  {
    hide Says;
    forall name ensures name in m <==> name in n {
      if name in m { assert Says(others, name, m[name]); }
      if name in n { assert Says(shards, name, n[name]); }
    }
    forall name | name in m ensures m[name] == n[name] { assert Says(others, name, m[name]); }
  }

  /** Two lists of shards that say the same combine to the same assets, or are both refused. */
  lemma UnionBySayings(shards: seq<Manifest>, others: seq<Manifest>)
    requires forall name, d :: Says(shards, name, d) <==> Says(others, name, d)
    ensures Union(shards) == Union(others)
  {
    hide Says, Inherited, Union;
    UnionExact(shards);
    UnionExact(others);
    assert Compatible(shards) <==> Compatible(others);
    if Union(shards).Some? { SameAssets(shards, others, Union(shards).value, Union(others).value); }
  }

  ghost predicate SameShards(shards: seq<Manifest>, others: seq<Manifest>) {
    forall m :: m in shards <==> m in others
  }

  lemma SameSayings(shards: seq<Manifest>, others: seq<Manifest>, name: Name, d: Digest)
    requires SameShards(shards, others) && Says(shards, name, d)
    ensures Says(others, name, d)
  {
    var i :| 0 <= i < |shards| && name in shards[i].assets && shards[i].assets[name] == d;
    assert shards[i] in others;
    var j :| 0 <= j < |others| && others[j] == shards[i];
  }

  lemma SameAgreement(shards: seq<Manifest>, others: seq<Manifest>)
    requires SameShards(shards, others)
    ensures (shards == []) <==> (others == [])
    ensures Agree(shards) <==> Agree(others)
    ensures shards != [] && Agree(shards) ==> shards[0].header == others[0].header
  {
    if shards != [] { assert shards[0] in others; }
    if others != [] { assert others[0] in shards; }
    forall i | 0 <= i < |shards| ensures shards[i] in others {}
    forall i | 0 <= i < |others| ensures others[i] in shards {}
  }

  /** The order of the shards, and repeating one, changes neither the merge nor the kind of refusal. */
  lemma MergeOrderIrrelevant(shards: seq<Manifest>, others: seq<Manifest>)
    requires SameShards(shards, others)
    ensures Merge(shards) == Merge(others)
  {
    hide Union, Says, Required;
    SameAgreement(shards, others);
    forall name, d ensures Says(shards, name, d) <==> Says(others, name, d) {
      if Says(shards, name, d) { SameSayings(shards, others, name, d); }
      if Says(others, name, d) { SameSayings(others, shards, name, d); }
    }
    UnionBySayings(shards, others);
  }

  function Flatten(groups: seq<seq<Manifest>>): seq<Manifest> {
    if groups == [] then [] else Flatten(groups[..|groups| - 1]) + groups[|groups| - 1]
  }

  /** The groups combined one by one, or nothing if one of them is refused. */
  function CombineEach(groups: seq<seq<Manifest>>): Option<seq<Manifest>> {
    if groups == [] then Some([])
    else
      match CombineEach(groups[..|groups| - 1])
      case None => None
      case Some(done) =>
        match Combine(groups[|groups| - 1])
        case Err(_) => None
        case Ok(m) => Some(done + [m])
  }

  lemma SaysJoin(a: seq<Manifest>, b: seq<Manifest>, name: Name, d: Digest)
    ensures Says(a + b, name, d) <==> Says(a, name, d) || Says(b, name, d)
  {
    var all := a + b;
    if i :| 0 <= i < |a| && name in a[i].assets && a[i].assets[name] == d { assert all[i] == a[i]; }
    if i :| 0 <= i < |b| && name in b[i].assets && b[i].assets[name] == d { assert all[|a| + i] == b[i]; }
  }

  lemma CombineSays(group: seq<Manifest>, name: Name, d: Digest)
    requires Combine(group).Ok?
    ensures Says([Combine(group).value], name, d) <==> Says(group, name, d)
  {
    UnionExact(group);
    var m := Combine(group).value;
    assert [m][0] == m;
  }

  lemma {:induction false} EachSays(groups: seq<seq<Manifest>>, name: Name, d: Digest)
    requires CombineEach(groups).Some?
    ensures Says(CombineEach(groups).value, name, d) <==> Says(Flatten(groups), name, d)
  {
    if groups != [] {
      var front, last := groups[..|groups| - 1], groups[|groups| - 1];
      EachSays(front, name, d);
      CombineSays(last, name, d);
      SaysJoin(Flatten(front), last, name, d);
      SaysJoin(CombineEach(front).value, [Combine(last).value], name, d);
    }
  }

  /** The headers of the combined groups are those of the shards in them. */
  lemma {:induction false} EachHeaders(groups: seq<seq<Manifest>>, header: Header)
    requires CombineEach(groups).Some?
    ensures (forall m :: m in CombineEach(groups).value ==> m.header == header) <==> forall m :: m in Flatten(groups) ==> m.header == header
  {
    if groups != [] {
      var front, last := groups[..|groups| - 1], groups[|groups| - 1];
      EachHeaders(front, header);
      var m := Combine(last).value;
      forall k | k in last ensures k.header == m.header {
        var i :| 0 <= i < |last| && last[i] == k;
      }
      assert last[0] in last;
      assert CombineEach(groups).value == CombineEach(front).value + [m];
    }
  }

  ghost predicate AllHave(shards: seq<Manifest>, header: Header) {
    forall m :: m in shards ==> m.header == header
  }

  lemma AgreeByHeader(shards: seq<Manifest>)
    requires shards != []
    ensures Agree(shards) <==> AllHave(shards, shards[0].header)
  {
    if AllHave(shards, shards[0].header) {
      forall i | 0 <= i < |shards| ensures shards[i].header == shards[0].header { assert shards[i] in shards; }
    }
  }

  lemma SameHeaders(shards: seq<Manifest>, others: seq<Manifest>)
    requires forall header :: AllHave(shards, header) <==> AllHave(others, header)
    requires shards != [] && others != []
    ensures Agree(shards) <==> Agree(others)
    ensures Agree(shards) ==> shards[0].header == others[0].header
  {
    AgreeByHeader(shards);
    AgreeByHeader(others);
    assert shards[0] in shards && others[0] in others;
    if Agree(shards) { assert AllHave(others, shards[0].header); }
    if Agree(others) { assert AllHave(shards, others[0].header); }
  }

  lemma {:induction false} EachNonempty(groups: seq<seq<Manifest>>)
    requires CombineEach(groups).Some?
    ensures CombineEach(groups).value == [] <==> Flatten(groups) == []
  {
    if groups != [] { EachNonempty(groups[..|groups| - 1]); }
  }

  /** Merging shards group by group, before the completeness check, gives the same merge as all at once. */
  lemma GroupingIrrelevant(groups: seq<seq<Manifest>>)
    requires CombineEach(groups).Some?
    ensures Merge(CombineEach(groups).value) == Merge(Flatten(groups))
  {
    hide Union, Says, Required, Agree, AllHave;
    var each, all := CombineEach(groups).value, Flatten(groups);
    EachNonempty(groups);
    forall name, d ensures Says(each, name, d) <==> Says(all, name, d) { EachSays(groups, name, d); }
    UnionBySayings(each, all);
    if each != [] {
      forall header ensures AllHave(each, header) <==> AllHave(all, header) { HeadersOfEach(groups, header); }
      SameHeaders(each, all);
    }
  }

  lemma HeadersOfEach(groups: seq<seq<Manifest>>, header: Header)
    requires CombineEach(groups).Some?
    ensures AllHave(CombineEach(groups).value, header) <==> AllHave(Flatten(groups), header)
  {
    EachHeaders(groups, header);
  }

  lemma CombinesWithin(a: seq<Manifest>, b: seq<Manifest>, c: seq<Manifest>)
    requires Combine(a + b + c).Ok? && b != []
    ensures Combine(b).Ok?
  {
    hide Says;
    var all := a + b + c;
    forall i | 0 <= i < |b| ensures b[i].header == all[0].header { assert b[i] == all[|a| + i]; }
    forall name, d | Says(b, name, d) ensures Says(all, name, d) {
      SaysJoin(a, b, name, d);
      SaysJoin(a + b, c, name, d);
    }
    UnionExact(all);
    UnionExact(b);
  }

  /** Shards that can be merged at once can be merged in any groups. */
  lemma {:induction false} GroupsCombine(groups: seq<seq<Manifest>>, rest: seq<Manifest>)
    requires Combine(Flatten(groups) + rest).Ok? && forall k :: 0 <= k < |groups| ==> groups[k] != []
    ensures CombineEach(groups).Some?
    decreases |groups|
  {
    if groups != [] {
      var front, last := groups[..|groups| - 1], groups[|groups| - 1];
      assert Flatten(groups) + rest == Flatten(front) + (last + rest);
      GroupsCombine(front, last + rest);
      CombinesWithin(Flatten(front), last, rest);
    }
  }

  // ----- The loops -----

  method MergeManifests(shards: seq<Manifest>) returns (merged: Result<Manifest, Refusal>)
    ensures merged == Merge(shards)
  {
    hide Inherited, Required;
    if |shards| == 0 {
      return Err(NoShards);
    }
    var first := shards[0].header;
    for i := 0 to |shards|
      invariant forall k :: 0 <= k < i ==> shards[k].header == first
    {
      if shards[i].header != first {
        return Err(Disagreement);
      }
    }
    var assets: map<Name, Digest> := map[];
    for i := 0 to |shards|
      invariant Union(shards[..i]) == Some(assets)
    {
      assert shards[..i + 1][..i] == shards[..i];
      var ok;
      ok, assets := AddAssets(assets, shards[i].assets);
      if !ok {
        RefusedStays(shards, i + 1);
        return Err(TwoDigests);
      }
    }
    assert shards[..|shards|] == shards;
    var missing := Required(first.component) - assets.Keys;
    if missing != {} {
      return Err(MissingAssets(missing));
    }
    return Ok(Manifest(first, assets));
  }

  method AddAssets(merged: map<Name, Digest>, assets: map<Name, Digest>) returns (ok: bool, next: map<Name, Digest>)
    ensures ok <==> Fits(merged, assets)
    ensures ok ==> next == merged + assets
  {
    hide Inherited;
    next := merged;
    var names := assets.Keys;
    while names != {}
      invariant names <= assets.Keys
      invariant next == merged + (assets - names)
      invariant forall name :: name in assets && name !in names ==> !Clashes(merged, name, assets[name])
      decreases names
    {
      var name :| name in names;
      if Clashes(next, name, assets[name]) {
        return false, next;
      }
      next := next[name := assets[name]];
      names := names - {name};
    }
    assert assets - {} == assets;
    return true, next;
  }

  lemma {:induction false} RefusedStays(shards: seq<Manifest>, k: nat)
    requires k <= |shards| && Union(shards[..k]).None?
    ensures Union(shards).None?
    decreases |shards|
  {
    if k < |shards| {
      assert shards[..|shards| - 1][..k] == shards[..k];
      RefusedStays(shards[..|shards| - 1], k);
    } else {
      assert shards[..k] == shards;
    }
  }

  // ----- Publishing the merged pair -----

  /** The published manifest and its signature, by what they were made from. */
  datatype Pair<T> = Pair(manifest: T, signature: T)

  datatype Signing = Signed | NoKey | SignerFailed

  /** Which step of publishing fails, if any, or after how many steps the process is killed. */
  datatype Fate = Fate(written: bool, signing: Signing, firstRename: bool, secondRename: bool, killedAfter: Option<nat>)

  predicate Survives(f: Fate, step: nat) {
    f.killedAfter.Some? ==> step <= f.killedAfter.value
  }

  /** Staging, signing, then renaming both files into place: what is at the destination in the end. */
  function Publish<T>(before: Pair<T>, staged: T, f: Fate): Pair<T> {
    if !(Survives(f, 1) && f.written && Survives(f, 2) && f.signing.Signed? && Survives(f, 3) && f.firstRename) then before
    else if !(Survives(f, 4) && f.secondRename) then Pair(staged, before.signature)
    else Pair(staged, staged)
  }

  ghost predicate Matched<T>(p: Pair<T>) {
    p.manifest == p.signature
  }

  datatype Attempt<T> = Attempt(staged: T, fate: Fate)

  function PublishAll<T>(before: Pair<T>, attempts: seq<Attempt<T>>): Pair<T> {
    if attempts == [] then before
    else
      var last := attempts[|attempts| - 1];
      Publish(PublishAll(before, attempts[..|attempts| - 1]), last.staged, last.fate)
  }

  /** The run came past its first rename. */
  predicate Replaced(f: Fate) {
    Survives(f, 3) && f.written && f.signing.Signed? && f.firstRename
  }

  predicate Finished(f: Fate) {
    Replaced(f) && Survives(f, 4) && f.secondRename
  }

  /** Only refused runs and finished ones have followed the latest finished run. */
  predicate Settled<T(!new)>(attempts: seq<Attempt<T>>) {
    forall k :: 0 <= k < |attempts| && Replaced(attempts[k].fate) && !Finished(attempts[k].fate) ==>
      exists m :: k < m < |attempts| && Finished(attempts[m].fate)
  }

  lemma SettledFront<T(!new)>(attempts: seq<Attempt<T>>, last: Attempt<T>)
    ensures Settled(attempts + [last])
        <==> Finished(last.fate) || (Settled(attempts) && !Replaced(last.fate))
  {
    var all := attempts + [last];
    assert all[|attempts|] == last;
    if Settled(all) && !Finished(last.fate) {
      forall k | 0 <= k < |attempts| && Replaced(attempts[k].fate) && !Finished(attempts[k].fate)
        ensures exists m :: k < m < |attempts| && Finished(attempts[m].fate)
      {
        assert all[k] == attempts[k];
        var m :| k < m < |all| && Finished(all[m].fate);
        assert all[m] == attempts[m];
      }
    }
    if Settled(attempts) && !Replaced(last.fate) {
      forall k | 0 <= k < |all| && Replaced(all[k].fate) && !Finished(all[k].fate)
        ensures exists m :: k < m < |all| && Finished(all[m].fate)
      {
        var m :| k < m < |attempts| && Finished(attempts[m].fate);
        assert all[m] == attempts[m];
      }
    }
  }

  /** The bytes staged by the latest run that came past its first rename. */
  function Newest<T>(start: T, attempts: seq<Attempt<T>>): T {
    if attempts == [] then start
    else if Replaced(attempts[|attempts| - 1].fate) then attempts[|attempts| - 1].staged
    else Newest(start, attempts[..|attempts| - 1])
  }

  /** The bytes staged by the latest run that finished. */
  function NewestDone<T>(start: T, attempts: seq<Attempt<T>>): T {
    if attempts == [] then start
    else if Finished(attempts[|attempts| - 1].fate) then attempts[|attempts| - 1].staged
    else NewestDone(start, attempts[..|attempts| - 1])
  }

  predicate SomeFinished<T(!new)>(attempts: seq<Attempt<T>>) {
    exists k :: 0 <= k < |attempts| && Finished(attempts[k].fate)
  }

  /** Once the latest run to replace anything has finished, both files are of that run. */
  lemma {:induction false} SettledAgrees<T(!new)>(start: T, other: T, attempts: seq<Attempt<T>>)
    requires Settled(attempts) && (start == other || SomeFinished(attempts))
    ensures Newest(start, attempts) == NewestDone(other, attempts)
  {
    if attempts != [] {
      var front, last := attempts[..|attempts| - 1], attempts[|attempts| - 1];
      assert attempts == front + [last];
      SettledFront(front, last);
      if !Finished(last.fate) {
        if start != other {
          var k :| 0 <= k < |attempts| && Finished(attempts[k].fate);
          assert front[k] == attempts[k];
        }
        SettledAgrees(start, other, front);
      }
    }
  }

  /**
   Over any number of runs, refused, failed or killed at any point, and whatever they stage: the published
   manifest is of the latest run to come past its first rename, the signature of the latest to finish, and
   the pair belongs together exactly when those two staged the same bytes. It does whenever no run that
   stopped between its renames is left unrepaired by a later one that finished.
   */
  lemma {:induction false} PairStaysMatched<T(!new)>(before: Pair<T>, attempts: seq<Attempt<T>>)
    ensures var after := PublishAll(before, attempts);
            && after == Pair(Newest(before.manifest, attempts), NewestDone(before.signature, attempts))
            && (Matched(after) <==> Newest(before.manifest, attempts) == NewestDone(before.signature, attempts))
            && (Settled(attempts) && (Matched(before) || SomeFinished(attempts)) ==> Matched(after))
  {
    if attempts != [] {
      PairStaysMatched(before, attempts[..|attempts| - 1]);
    }
    if Settled(attempts) && (Matched(before) || SomeFinished(attempts)) {
      SettledAgrees(before.manifest, before.signature, attempts);
    }
  }

  lemma {:induction false} DoneIsStaged<T(!new)>(start: T, attempts: seq<Attempt<T>>)
    ensures NewestDone(start, attempts) == start
         || exists k :: 0 <= k < |attempts| && attempts[k].staged == NewestDone(start, attempts)
  {
    if attempts != [] && !Finished(attempts[|attempts| - 1].fate) {
      var front := attempts[..|attempts| - 1];
      DoneIsStaged(start, front);
      if k :| 0 <= k < |front| && front[k].staged == NewestDone(start, front) {
        assert attempts[k].staged == NewestDone(start, attempts);
      }
    }
  }

  /** When every run stages bytes of its own, an unrepaired half-finished run is the only way to a mismatch. */
  lemma {:induction false} MismatchOfDistinctRuns<T(!new)>(before: Pair<T>, attempts: seq<Attempt<T>>)
    requires Matched(before)
    requires forall k :: 0 <= k < |attempts| ==> attempts[k].staged != before.manifest
    requires forall i, j :: 0 <= i < j < |attempts| ==> attempts[i].staged != attempts[j].staged
    ensures Matched(PublishAll(before, attempts)) <==> Settled(attempts)
  {
    if attempts != [] {
      var front, last := attempts[..|attempts| - 1], attempts[|attempts| - 1];
      assert attempts == front + [last];
      forall k | 0 <= k < |front| ensures front[k] == attempts[k] {}
      MismatchOfDistinctRuns(before, front);
      SettledFront(front, last);
      PairStaysMatched(before, front);
      DoneIsStaged(before.signature, front);
    }
  }

  /** Repeating a release on the same shards stages the published bytes again, and no fate of it can mismatch the pair. */
  lemma {:induction false} RepeatsNeverMismatch<T(!new)>(before: Pair<T>, attempts: seq<Attempt<T>>)
    requires Matched(before) && forall k :: 0 <= k < |attempts| ==> attempts[k].staged == before.manifest
    ensures PublishAll(before, attempts) == before
  {
    if attempts != [] {
      RepeatsNeverMismatch(before, attempts[..|attempts| - 1]);
    }
  }

  // ----- Inherited names -----

  /** One shard alone is refused as if two disagreed, when it names an asset every object inherits. */
  lemma ConstructorRefused(header: Header, digest: Digest)
    ensures Merge([Manifest(header, map["constructor" := digest])]) == Err(TwoDigests)
  {
    var shard := Manifest(header, map["constructor" := digest]);
    assert shard.assets["constructor"] == digest && Inherited("constructor");
    assert Says([shard], "constructor", digest) by { assert [shard][0] == shard; }
    UnionExact([shard]);
  }
}
