/** The desktop updater's manifest: one per build shard, and their merge (scripts/updater-manifest.ts). */
module UpdaterMerge {
  import opened Outcomes
  import opened ObjectNames

  type Key = string

  datatype Platform = Platform(signature: string, url: string)

  datatype Manifest = Manifest(version: string, notes: string, pubDate: string, platforms: map<Key, Platform>)

  datatype Refusal = NoShards | VersionDisagreement | ClaimedTwice | NoPlatform | Missing(keys: set<Key>) | NoSignature | UnknownTarget

  // ----- The merge -----

  predicate Claimable(merged: map<Key, Platform>, platforms: map<Key, Platform>) {
    forall key | key in platforms :: key !in merged && !Inherited(key)
  }

  /** The platforms of the shards so far; the first offending shard decides the refusal. */
  function Gather(shards: seq<Manifest>): Result<map<Key, Platform>, Refusal> {
    if shards == [] then Ok(map[])
    else
      var last := shards[|shards| - 1];
      match Gather(shards[..|shards| - 1])
      case Err(e) => Err(e)
      case Ok(merged) =>
        if last.version != shards[0].version then Err(VersionDisagreement)
        else if !Claimable(merged, last.platforms) then Err(ClaimedTwice)
        else Ok(merged + last.platforms)
  }

  /** A key that every object inherits never reads as missing. */
  function Absent(expected: set<Key>, platforms: map<Key, Platform>): set<Key> {
    set key | key in expected && key !in platforms && !Inherited(key)
  }

  function Merge(shards: seq<Manifest>, expected: set<Key>): Result<Manifest, Refusal> {
    if shards == [] then Err(NoShards)
    else match Gather(shards)
      case Err(e) => Err(e)
      case Ok(platforms) =>
        if platforms == map[] then Err(NoPlatform)
        else if Absent(expected, platforms) != {} then Err(Missing(Absent(expected, platforms)))
        else Ok(Manifest(shards[0].version, shards[0].notes, shards[0].pubDate, platforms))
  }

  // ----- Exactly the union -----

  predicate OneVersion(shards: seq<Manifest>) {
    forall i :: 0 <= i < |shards| ==> shards[i].version == shards[0].version
  }

  /** How many shards claim the platform. */
  function Claims(shards: seq<Manifest>, key: Key): nat {
    if shards == [] then 0
    else Claims(shards[..|shards| - 1], key) + if key in shards[|shards| - 1].platforms then 1 else 0
  }

  predicate Says(shards: seq<Manifest>, key: Key, value: Platform) {
    exists i :: 0 <= i < |shards| && key in shards[i].platforms && shards[i].platforms[key] == value
  }

  ghost predicate Exclusive(shards: seq<Manifest>) {
    && (forall key :: Claims(shards, key) <= 1)
    && (forall key :: Claims(shards, key) > 0 ==> !Inherited(key))
  }

  ghost predicate Collects(merged: map<Key, Platform>, shards: seq<Manifest>) {
    && (forall key :: key in merged <==> Claims(shards, key) > 0)
    && (forall key, value :: (key in merged && merged[key] == value) <==> Says(shards, key, value))
  }

  lemma ClaimsAppends(shards: seq<Manifest>, last: Manifest, key: Key)
    ensures Claims(shards + [last], key) == Claims(shards, key) + if key in last.platforms then 1 else 0
  {
    assert (shards + [last])[..|shards|] == shards;
  }

  lemma SaysAppends(shards: seq<Manifest>, last: Manifest, key: Key, value: Platform)
    ensures Says(shards + [last], key, value) <==> Says(shards, key, value) || (key in last.platforms && last.platforms[key] == value)
  {
    var all := shards + [last];
    if i :| 0 <= i < |shards| && key in shards[i].platforms && shards[i].platforms[key] == value { assert all[i] == shards[i]; }
    assert all[|shards|] == last;
  }

  lemma GatherStep(shards: seq<Manifest>, last: Manifest, merged: map<Key, Platform>)
    requires Collects(merged, shards) && Exclusive(shards)
    ensures Exclusive(shards + [last]) <==> Claimable(merged, last.platforms)
    ensures Claimable(merged, last.platforms) ==> Collects(merged + last.platforms, shards + [last])
  {
    hide Says, Claims, Inherited;
    var all := shards + [last];
    forall key ensures Claims(all, key) == Claims(shards, key) + if key in last.platforms then 1 else 0 { ClaimsAppends(shards, last, key); }
    forall key, value ensures Says(all, key, value) <==> Says(shards, key, value) || (key in last.platforms && last.platforms[key] == value) {
      SaysAppends(shards, last, key, value);
    }
    if Exclusive(all) {
      forall key | key in last.platforms ensures key !in merged && !Inherited(key) { assert Claims(all, key) > 0; }
    }
  }

  lemma FrontExclusive(shards: seq<Manifest>, last: Manifest)
    requires Exclusive(shards + [last])
    ensures Exclusive(shards)
  {
    hide Claims, Inherited;
    forall key ensures Claims(shards, key) <= Claims(shards + [last], key) { ClaimsAppends(shards, last, key); }
  }

  lemma {:induction false} GatherExact(shards: seq<Manifest>)
    ensures Gather(shards).Ok? <==> OneVersion(shards) && Exclusive(shards)
    ensures Gather(shards).Ok? ==> Collects(Gather(shards).value, shards)
  {
    hide Inherited, Claimable;
    if shards != [] {
      var front, last := shards[..|shards| - 1], shards[|shards| - 1];
      assert shards == front + [last];
      GatherExact(front);
      assert OneVersion(shards) <==> OneVersion(front) && last.version == shards[0].version;
      if Gather(front).Ok? {
        GatherStep(front, last, Gather(front).value);
      } else if Exclusive(shards) {
        FrontExclusive(front, last);
      }
    }
  }

  ghost predicate Enough(shards: seq<Manifest>, expected: set<Key>) {
    && (exists key :: Claims(shards, key) > 0)
    && (forall key :: key in expected ==> Claims(shards, key) > 0 || Inherited(key))
  }

  /**
   A merge succeeds exactly when there are shards of one version, each platform is claimed once and by no
   inherited name, some platform is, and every expected one is (an inherited name always counts); its
   platforms are then exactly the shards'.
   */
  lemma MergeExact(shards: seq<Manifest>, expected: set<Key>)
    ensures Merge(shards, expected).Ok? <==> shards != [] && OneVersion(shards) && Exclusive(shards) && Enough(shards, expected)
    ensures Merge(shards, expected).Ok? ==> Collects(Merge(shards, expected).value.platforms, shards)
    ensures Merge(shards, expected).Ok? ==>
              var m := Merge(shards, expected).value;
              m.version == shards[0].version && m.notes == shards[0].notes && m.pubDate == shards[0].pubDate
  {
    hide Gather, Says, Claims, Inherited;
    GatherExact(shards);
    if shards != [] && Gather(shards).Ok? {
      var platforms := Gather(shards).value;
      assert platforms == map[] <==> forall key :: Claims(shards, key) == 0 by { Emptiness(platforms, shards); }
      if Absent(expected, platforms) == {} {
        forall key | key in expected ensures Claims(shards, key) > 0 || Inherited(key) { assert key !in Absent(expected, platforms); }
      }
    }
  }

  lemma Emptiness(platforms: map<Key, Platform>, shards: seq<Manifest>)
    requires Collects(platforms, shards)
    ensures platforms == map[] <==> forall key :: Claims(shards, key) == 0
  {
    hide Says, Claims;
    if platforms != map[] {
      var key :| key in platforms;
      assert Claims(shards, key) > 0;
    }
  }

  /** One shard alone is refused as if two claimed its platform, when every object inherits that name. */
  lemma ConstructorRefused(version: string, notes: string, date: string, value: Platform, expected: set<Key>)
    ensures Merge([Manifest(version, notes, date, map["constructor" := value])], expected) == Err(ClaimedTwice)
  {
    var shard := Manifest(version, notes, date, map["constructor" := value]);
    assert Inherited("constructor") && "constructor" in shard.platforms;
    assert [shard][..0] == [];
    assert Gather([]) == Ok(map[]);
  }

  /** A platform that was expected under such a name is never missed. */
  lemma ConstructorNeverMissing(version: string, notes: string, date: string, key: Key, value: Platform)
    requires !Inherited(key)
    ensures Merge([Manifest(version, notes, date, map[key := value])], {"constructor"}).Ok?
  {
    var shard := Manifest(version, notes, date, map[key := value]);
    assert Inherited("constructor") && key in shard.platforms;
    assert [shard][..0] == [];
    assert Gather([]) == Ok(map[]);
  }

  // ----- Order -----

  lemma {:induction false} ClaimsJoin(a: seq<Manifest>, b: seq<Manifest>, key: Key)
    ensures Claims(a + b, key) == Claims(a, key) + Claims(b, key)
    decreases |b|
  {
    if b == [] {
      assert a + b == a;
    } else {
      var front := b[..|b| - 1];
      assert (a + b)[..|a + b| - 1] == a + front;
      ClaimsJoin(a, front, key);
    }
  }

  lemma ClaimsWithout(shards: seq<Manifest>, j: nat, key: Key)
    requires j < |shards|
    ensures Claims(shards, key) == Claims(shards[..j] + shards[j + 1..], key) + if key in shards[j].platforms then 1 else 0
  {
    assert shards == shards[..j] + [shards[j]] + shards[j + 1..];
    ClaimsJoin(shards[..j] + [shards[j]], shards[j + 1..], key);
    ClaimsAppends(shards[..j], shards[j], key);
    ClaimsJoin(shards[..j], shards[j + 1..], key);
  }

  lemma WithoutOne(shards: seq<Manifest>, j: nat)
    requires j < |shards|
    ensures multiset(shards[..j] + shards[j + 1..]) == multiset(shards) - multiset{shards[j]}
  {
    assert shards == shards[..j] + [shards[j]] + shards[j + 1..];
  }

  lemma {:induction false} ClaimsPermute(shards: seq<Manifest>, others: seq<Manifest>, key: Key)
    requires multiset(shards) == multiset(others)
    ensures Claims(shards, key) == Claims(others, key)
    decreases |shards|
  {
    if shards == [] {
      assert |multiset(others)| == 0;
    } else {
      var front, last := shards[..|shards| - 1], shards[|shards| - 1];
      assert shards == front + [last];
      assert last in multiset(others);
      var j :| 0 <= j < |others| && others[j] == last;
      var rest := others[..j] + others[j + 1..];
      WithoutOne(others, j);
      assert multiset(shards) == multiset(front) + multiset{last};
      assert multiset(front) == multiset(shards) - multiset{last};
      ClaimsPermute(front, rest, key);
      ClaimsWithout(others, j, key);
    }
  }

  lemma SaysPermute(shards: seq<Manifest>, others: seq<Manifest>, key: Key, value: Platform)
    requires multiset(shards) == multiset(others) && Says(shards, key, value)
    ensures Says(others, key, value)
  {
    var i :| 0 <= i < |shards| && key in shards[i].platforms && shards[i].platforms[key] == value;
    assert shards[i] in multiset(others);
    var j :| 0 <= j < |others| && others[j] == shards[i];
  }

  lemma OneVersionPermute(shards: seq<Manifest>, others: seq<Manifest>)
    requires multiset(shards) == multiset(others) && OneVersion(shards) && shards != []
    ensures others != [] && OneVersion(others) && others[0].version == shards[0].version
  {
    assert shards[0] in multiset(others);
    forall j | 0 <= j < |others| ensures others[j].version == shards[0].version {
      assert others[j] in multiset(shards);
      var i :| 0 <= i < |shards| && shards[i] == others[j];
    }
  }

  lemma ConditionsPermute(shards: seq<Manifest>, others: seq<Manifest>, expected: set<Key>)
    requires multiset(shards) == multiset(others) && Merge(shards, expected).Ok?
    ensures Merge(others, expected).Ok?
  {
    hide Merge, Claims, Inherited;
    MergeExact(shards, expected);
    MergeExact(others, expected);
    OneVersionPermute(shards, others);
    forall key ensures Claims(shards, key) == Claims(others, key) { ClaimsPermute(shards, others, key); }
  }

  /** Reordering shards changes neither success, nor the version, nor the platforms; notes and date are the first's. */
  lemma MergePermute(shards: seq<Manifest>, others: seq<Manifest>, expected: set<Key>)
    requires multiset(shards) == multiset(others)
    ensures Merge(shards, expected).Ok? <==> Merge(others, expected).Ok?
    ensures Merge(shards, expected).Ok? ==>
              Merge(shards, expected).value
              == Merge(others, expected).value.(notes := shards[0].notes, pubDate := shards[0].pubDate)
  {
    hide Says, Claims, Inherited;
    if Merge(shards, expected).Ok? { ConditionsPermute(shards, others, expected); }
    if Merge(others, expected).Ok? { ConditionsPermute(others, shards, expected); }
    if Merge(shards, expected).Ok? {
      var m, n := Merge(shards, expected).value, Merge(others, expected).value;
      MergeExact(shards, expected);
      MergeExact(others, expected);
      OneVersionPermute(shards, others);
      SamePlatforms(m.platforms, n.platforms, shards, others);
    }
  }

  lemma SamePlatforms(m: map<Key, Platform>, n: map<Key, Platform>, shards: seq<Manifest>, others: seq<Manifest>)
    requires multiset(shards) == multiset(others) && Collects(m, shards) && Collects(n, others)
    ensures m == n
  {
    hide Says, Claims;
    forall key ensures key in m <==> key in n { ClaimsPermute(shards, others, key); }
    forall key | key in m ensures m[key] == n[key] { SaysPermute(shards, others, key, m[key]); }
  }

  // ----- From the shards -----

  /** Tauri's name for a target of this repository. */
  function PlatformKey(target: string): Option<Key> {
    if target == "darwin-arm64" then Some("darwin-aarch64")
    else if target == "darwin-x64" then Some("darwin-x86_64")
    else if target == "linux-x64" then Some("linux-x86_64")
    else None
  }

  /** `signature` is already trimmed. */
  datatype Built = Built(version: string, notes: string, publishedAt: string, target: string, url: string, signature: string)

  function BuildShard(b: Built): Result<Manifest, Refusal> {
    if b.signature == "" then Err(NoSignature)
    else match PlatformKey(b.target)
      case None => Err(UnknownTarget)
      case Some(key) => Ok(Manifest(b.version, b.notes, b.publishedAt, map[key := Platform(b.signature, b.url)]))
  }

  predicate Buildable(builds: seq<Built>) {
    forall i :: 0 <= i < |builds| ==> BuildShard(builds[i]).Ok?
  }

  function BuildAll(builds: seq<Built>): seq<Manifest>
    requires Buildable(builds)
  {
    seq(|builds|, i requires 0 <= i < |builds| => BuildShard(builds[i]).value)
  }

  lemma KeysApart(s: string, t: string)
    requires PlatformKey(s).Some? && PlatformKey(t).Some?
    ensures PlatformKey(s) == PlatformKey(t) <==> s == t
    ensures !Inherited(PlatformKey(s).value)
  {
    assert "darwin-aarch64"[7] == 'a' && "darwin-x86_64"[7] == 'x' && "linux-x86_64"[0] == 'l';
    var key := PlatformKey(s).value;
    assert key[0] == 'd' || key[0] == 'l';
    forall name | Inherited(name) ensures name[0] != 'd' && name[0] != 'l' {}
  }

  /** Tauri's spelling of an architecture. */
  function TauriArch(arch: string): string {
    if arch == "arm64" then "aarch64" else if arch == "x64" then "x86_64" else arch
  }

  ghost predicate Spells(target: string, key: Key) {
    exists os, arch :: target == os + "-" + arch && key == os + "-" + TauriArch(arch) && '-' !in os && '-' !in arch
  }

  lemma SpelledSo(os: string, arch: string, tauri: string, target: string, key: Key)
    requires target == os + "-" + arch && key == os + "-" + tauri && tauri == TauriArch(arch) && '-' !in os && '-' !in arch
    ensures Spells(target, key)
  {
  }

  /** A key keeps the system's name and spells the architecture as Tauri does; only the three desktop targets have one. */
  lemma KeySpelling(target: string)
    ensures PlatformKey(target).Some? <==> target in {"darwin-arm64", "darwin-x64", "linux-x64"}
    ensures PlatformKey(target).Some? ==> Spells(target, PlatformKey(target).value)
  {
    if PlatformKey(target).Some? {
      assert "arm64" != "x64" && "darwin-arm64"[7] == 'a' && "darwin-x64"[7] == 'x' && "linux-x64"[0] == 'l';
      if target == "darwin-arm64" {
        SpelledSo("darwin", "arm64", "aarch64", target, "darwin-aarch64");
      } else if target == "darwin-x64" {
        SpelledSo("darwin", "x64", "x86_64", target, "darwin-x86_64");
      } else {
        SpelledSo("linux", "x64", "x86_64", target, "linux-x86_64");
      }
    }
  }

  /** A shard is refused exactly for an empty signature or a target without a key, and otherwise holds the build's own entry. */
  lemma ShardExact(b: Built, key: Key)
    ensures BuildShard(b).Ok? <==> b.signature != "" && PlatformKey(b.target).Some?
    ensures BuildShard(b).Ok? ==>
              var m := BuildShard(b).value;
              && m.version == b.version && m.notes == b.notes && m.pubDate == b.publishedAt
              && (key in m.platforms <==> PlatformKey(b.target) == Some(key))
              && (key in m.platforms ==> m.platforms[key] == Platform(b.signature, b.url))
  {
  }

  /** A merge of built shards carries, for each build, that build's signature and address under its target's key. */
  lemma BuiltMergeContents(builds: seq<Built>, expected: set<Key>, i: nat)
    requires Buildable(builds) && Merge(BuildAll(builds), expected).Ok? && i < |builds|
    ensures PlatformKey(builds[i].target).Some?
    ensures var m, key := Merge(BuildAll(builds), expected).value, PlatformKey(builds[i].target).value;
            && m.version == builds[i].version
            && key in m.platforms && m.platforms[key] == Platform(builds[i].signature, builds[i].url)
  {
    hide Claims, Inherited, Gather, PlatformKey;
    var shards := BuildAll(builds);
    MergeExact(shards, expected);
    ShardKey(builds[i]);
    var key := PlatformKey(builds[i].target).value;
    assert shards[i] == BuildShard(builds[i]).value;
    assert Says(shards, key, Platform(builds[i].signature, builds[i].url));
    assert shards[i].version == shards[0].version;
  }

  lemma ShardKey(b: Built)
    requires BuildShard(b).Ok?
    ensures PlatformKey(b.target).Some?
    ensures BuildShard(b).value.platforms == map[PlatformKey(b.target).value := Platform(b.signature, b.url)] && BuildShard(b).value.version == b.version
  {
  }

  predicate Targets(builds: seq<Built>, target: string) {
    exists i :: 0 <= i < |builds| && builds[i].target == target
  }

  predicate DistinctTargets(builds: seq<Built>) {
    forall i, j :: 0 <= i < j < |builds| ==> builds[i].target != builds[j].target
  }

  lemma BuildAppends(front: seq<Built>, last: Built, key: Key)
    requires Buildable(front + [last]) && Buildable(front)
    ensures PlatformKey(last.target).Some?
    ensures Claims(BuildAll(front + [last]), key)
         == Claims(BuildAll(front), key) + if PlatformKey(last.target) == Some(key) then 1 else 0
  {
    var builds := front + [last];
    assert builds[|front|] == last;
    assert BuildAll(builds) == BuildAll(front) + [BuildShard(last).value];
    ClaimsAppends(BuildAll(front), BuildShard(last).value, key);
  }

  /** A platform is claimed exactly when its target was built. */
  lemma {:induction false} BuiltClaims(builds: seq<Built>, target: string)
    requires Buildable(builds) && PlatformKey(target).Some?
    ensures Claims(BuildAll(builds), PlatformKey(target).value) > 0 <==> Targets(builds, target)
  {
    if builds != [] {
      var front, last := builds[..|builds| - 1], builds[|builds| - 1];
      assert builds == front + [last];
      BuiltClaims(front, target);
      BuildAppends(front, last, PlatformKey(target).value);
      TargetsAppend(front, last, target);
      KeysApart(target, last.target);
    }
  }

  lemma DistinctAppends(front: seq<Built>, last: Built)
    ensures DistinctTargets(front + [last]) <==> DistinctTargets(front) && !Targets(front, last.target)
  {
    var all := front + [last];
    assert all[|front|] == last;
    forall i | 0 <= i < |front| ensures all[i] == front[i] {}
  }

  lemma {:induction false} BuiltExclusive(builds: seq<Built>)
    requires Buildable(builds)
    ensures Exclusive(BuildAll(builds)) <==> DistinctTargets(builds)
  {
    hide Inherited, PlatformKey;
    if builds != [] {
      var front, last := builds[..|builds| - 1], builds[|builds| - 1];
      assert builds == front + [last];
      BuiltExclusive(front);
      DistinctAppends(front, last);
      var before, after := BuildAll(front), BuildAll(builds);
      forall key ensures Claims(after, key) == Claims(before, key) + if PlatformKey(last.target) == Some(key) then 1 else 0 {
        BuildAppends(front, last, key);
      }
      BuildAppends(front, last, "");
      KeysApart(last.target, last.target);
      BuiltClaims(front, last.target);
      ExclusiveStep(before, after, PlatformKey(last.target).value);
    }
  }

  lemma ExclusiveStep(was: seq<Manifest>, now: seq<Manifest>, added: Key)
    requires forall key :: Claims(now, key) == Claims(was, key) + if key == added then 1 else 0
    requires !Inherited(added)
    ensures Exclusive(now) <==> Exclusive(was) && Claims(was, added) == 0
  {
    hide Claims, Inherited;
    assert Claims(now, added) == Claims(was, added) + 1;
  }

  predicate OneBuildVersion(builds: seq<Built>) {
    forall i :: 0 <= i < |builds| ==> builds[i].version == builds[0].version
  }

  function KeysOf(targets: set<string>): set<Key> {
    set t | t in targets && PlatformKey(t).Some? :: PlatformKey(t).value
  }

  /**
   What the build shards of a release wrote merges exactly when there is one, they are of one version, no
   target was built twice, and every wanted target was built.
   */
  lemma BuiltMergeExact(builds: seq<Built>, wanted: set<string>)
    requires Buildable(builds) && forall t :: t in wanted ==> PlatformKey(t).Some?
    ensures Merge(BuildAll(builds), KeysOf(wanted)).Ok?
        <==> builds != [] && OneBuildVersion(builds) && DistinctTargets(builds) && forall t :: t in wanted ==> Targets(builds, t)
  {
    hide Merge, Claims, Inherited, PlatformKey;
    var shards := BuildAll(builds);
    MergeExact(shards, KeysOf(wanted));
    BuiltExclusive(builds);
    forall i | 0 <= i < |builds| ensures shards[i].version == builds[i].version && PlatformKey(builds[i].target).Some? {
      Versions(builds, i);
    }
    forall t | t in wanted ensures Claims(shards, PlatformKey(t).value) > 0 <==> Targets(builds, t)
      ensures !Inherited(PlatformKey(t).value) && PlatformKey(t).value in KeysOf(wanted)
    {
      BuiltClaims(builds, t);
      KeysApart(t, t);
    }
    if builds != [] {
      assert Targets(builds, builds[0].target);
      BuiltClaims(builds, builds[0].target);
    }
  }

  lemma Versions(builds: seq<Built>, i: nat)
    requires Buildable(builds) && i < |builds|
    ensures BuildAll(builds)[i].version == builds[i].version && PlatformKey(builds[i].target).Some?
  {
  }

  lemma TargetsAppend(front: seq<Built>, last: Built, target: string)
    ensures Targets(front + [last], target) <==> Targets(front, target) || last.target == target
  {
    var all := front + [last];
    if i :| 0 <= i < |front| && front[i].target == target { assert all[i] == front[i]; }
    assert all[|front|] == last;
  }

  // ----- The loop -----

  method MergeManifests(shards: seq<Manifest>, expected: set<Key>) returns (merged: Result<Manifest, Refusal>)
    ensures merged == Merge(shards, expected)
  {
    hide Inherited;
    if |shards| == 0 {
      return Err(NoShards);
    }
    var first := shards[0];
    var platforms: map<Key, Platform> := map[];
    for i := 0 to |shards|
      invariant Gather(shards[..i]) == Ok(platforms)
    {
      assert shards[..i + 1][..i] == shards[..i];
      if shards[i].version != first.version {
        RefusedStays(shards, i + 1);
        return Err(VersionDisagreement);
      }
      var ok;
      ok, platforms := Claim(platforms, shards[i].platforms);
      if !ok {
        RefusedStays(shards, i + 1);
        return Err(ClaimedTwice);
      }
    }
    assert shards[..|shards|] == shards;
    if platforms == map[] {
      return Err(NoPlatform);
    }
    var missing := Absent(expected, platforms);
    if missing != {} {
      return Err(Missing(missing));
    }
    return Ok(Manifest(first.version, first.notes, first.pubDate, platforms));
  }

  method Claim(merged: map<Key, Platform>, platforms: map<Key, Platform>) returns (ok: bool, next: map<Key, Platform>)
    ensures ok <==> Claimable(merged, platforms)
    ensures ok ==> next == merged + platforms
  {
    hide Inherited;
    next := merged;
    var keys := platforms.Keys;
    while keys != {}
      invariant keys <= platforms.Keys
      invariant next == merged + (platforms - keys)
      invariant forall key :: key in platforms && key !in keys ==> key !in merged && !Inherited(key)
      decreases keys
    {
      var key :| key in keys;
      if key in next || Inherited(key) {
        return false, next;
      }
      next := next[key := platforms[key]];
      keys := keys - {key};
    }
    assert platforms - {} == platforms;
    return true, next;
  }

  lemma {:induction false} RefusedStays(shards: seq<Manifest>, k: nat)
    requires 0 < k <= |shards| && Gather(shards[..k]).Err?
    ensures Gather(shards) == Gather(shards[..k])
    decreases |shards|
  {
    if k < |shards| {
      assert shards[..|shards| - 1][..k] == shards[..k];
      RefusedStays(shards[..|shards| - 1], k);
    } else {
      assert shards[..k] == shards;
    }
  }
}
