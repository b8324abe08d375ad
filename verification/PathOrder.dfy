/**
 The order of paths, name by name (native/display-helper/build_support.rs), and sorted listings: what is
 made from one does not depend on the order in which a directory was read.
 */
module PathOrder {
  import opened PanelStaging

  /** Strictly before, character by character. */
  predicate NameBefore(s: string, t: string) {
    t != "" && (s == "" || s[0] < t[0] || (s[0] == t[0] && NameBefore(s[1..], t[1..])))
  }

  predicate Before(p: Path, q: Path) {
    q != [] && (p == [] || NameBefore(p[0], q[0]) || (p[0] == q[0] && Before(p[1..], q[1..])))
  }

  lemma {:induction false} NamesCompare(s: string, t: string)
    ensures NameBefore(s, t) || NameBefore(t, s) || s == t
    ensures !(NameBefore(s, t) && NameBefore(t, s)) && !NameBefore(s, s)
  {
    if s != "" {
      NamesCompare(s[1..], s[1..]);
      if t != "" && s[0] == t[0] {
        NamesCompare(s[1..], t[1..]);
        if s[1..] == t[1..] { assert s == [s[0]] + s[1..] && t == [t[0]] + t[1..]; }
      }
    }
  }

  lemma {:induction false} NamesChain(s: string, t: string, u: string)
    requires NameBefore(s, t) && NameBefore(t, u)
    ensures NameBefore(s, u)
  {
    if s != "" && s[0] == t[0] && t[0] == u[0] { NamesChain(s[1..], t[1..], u[1..]); }
  }

  lemma {:induction false} PathsCompare(p: Path, q: Path)
    ensures Before(p, q) || Before(q, p) || p == q
    ensures !(Before(p, q) && Before(q, p)) && !Before(p, p)
  {
    if p != [] {
      PathsCompare(p[1..], p[1..]);
      NamesCompare(p[0], p[0]);
      if q != [] {
        NamesCompare(p[0], q[0]);
        if p[0] == q[0] {
          PathsCompare(p[1..], q[1..]);
          if p[1..] == q[1..] { assert p == [p[0]] + p[1..] && q == [q[0]] + q[1..]; }
        }
      }
    }
  }

  lemma {:induction false} PathsChain(p: Path, q: Path, r: Path)
    requires Before(p, q) && Before(q, r)
    ensures Before(p, r)
  {
    if p != [] {
      if p[0] == q[0] && q[0] == r[0] {
        NamesCompare(p[0], p[0]);
        PathsChain(p[1..], q[1..], r[1..]);
      } else if NameBefore(p[0], q[0]) && NameBefore(q[0], r[0]) {
        NamesChain(p[0], q[0], r[0]);
      }
    }
  }

  /** A directory comes before what is in it, and names compare character by character, a prefix first. */
  lemma OrderExact(p: Path, a: string, b: string, rest: string, c: char, d: char)
    requires c < d
    ensures Before(p, p + [a])
    ensures Before(p + [rest + [c] + a], p + [rest + [d] + b]) && Before(p + [rest], p + [rest + [c]])
    ensures !Before(p + [a], p)
  {
    BelowBefore(p, [], [a]);
    NameLess(rest, [c] + a, [d] + b);
    NameLess(rest, "", [c]);
    assert rest + ([c] + a) == rest + [c] + a && rest + ([d] + b) == rest + [d] + b && rest + "" == rest;
    BelowBefore(p, [rest + [c] + a], [rest + [d] + b]);
    BelowBefore(p, [rest], [rest + [c]]);
    assert p + [] == p;
    PathsCompare(p, p + [a]);
  }

  lemma {:induction false} BelowBefore(p: Path, q: Path, r: Path)
    requires Before(q, r)
    ensures Before(p + q, p + r)
  {
    if p == [] {
      assert p + q == q && p + r == r;
    } else {
      BelowBefore(p[1..], q, r);
      assert (p + q)[1..] == p[1..] + q && (p + r)[1..] == p[1..] + r;
    }
  }

  lemma {:induction false} NameLess(p: string, s: string, t: string)
    requires NameBefore(s, t)
    ensures NameBefore(p + s, p + t)
  {
    if p == "" {
      assert p + s == s && p + t == t;
    } else {
      NameLess(p[1..], s, t);
      assert (p + s)[1..] == p[1..] + s && (p + t)[1..] == p[1..] + t;
    }
  }

  predicate Ascending(order: seq<Path>) {
    forall i, j :: 0 <= i < j < |order| ==> Before(order[i], order[j])
  }

  /** Each of the paths once, in order. */
  predicate Lists(order: seq<Path>, paths: set<Path>) {
    && (forall k :: 0 <= k < |order| ==> order[k] in paths)
    && (forall p | p in paths :: p in order)
    && Ascending(order)
  }

  lemma ListsOnce(order: seq<Path>, paths: set<Path>)
    requires Lists(order, paths)
    ensures forall i, j :: 0 <= i < j < |order| ==> order[i] != order[j]
  {
    forall i, j | 0 <= i < j < |order| ensures order[i] != order[j] { PathsCompare(order[i], order[i]); }
  }

  lemma ListsRest(order: seq<Path>, paths: set<Path>)
    requires Lists(order, paths) && order != []
    ensures Lists(order[1..], paths - {order[0]})
  {
    ListsOnce(order, paths);
    forall p | p in paths - {order[0]} ensures p in order[1..] {
      var k :| 0 <= k < |order| && order[k] == p;
      assert order[1..][k - 1] == p;
    }
  }

  lemma SameFirst(a: seq<Path>, b: seq<Path>, paths: set<Path>)
    requires Lists(a, paths) && Lists(b, paths) && a != [] && b != []
    ensures a[0] == b[0]
  {
    var i :| 0 <= i < |b| && b[i] == a[0];
    var j :| 0 <= j < |a| && a[j] == b[0];
    PathsCompare(a[0], b[0]);
  }

  /** A set of paths has only one listing. */
  lemma {:induction false} ListingUnique(a: seq<Path>, b: seq<Path>, paths: set<Path>)
    requires Lists(a, paths) && Lists(b, paths)
    ensures a == b
    decreases |a|
  {
    if a != [] {
      assert a[0] in b;
      SameFirst(a, b, paths);
      ListsRest(a, paths);
      ListsRest(b, paths);
      ListingUnique(a[1..], b[1..], paths - {a[0]});
      assert a == [a[0]] + a[1..] && b == [b[0]] + b[1..];
    }
  }

  function Insert(p: Path, order: seq<Path>): seq<Path> {
    if order == [] || Before(p, order[0]) then [p] + order else [order[0]] + Insert(p, order[1..])
  }

  function Sorted(found: seq<Path>): seq<Path> {
    if found == [] then [] else Insert(found[0], Sorted(found[1..]))
  }

  lemma ListsCons(p: Path, order: seq<Path>, paths: set<Path>)
    requires Lists(order, paths)
    requires forall q :: q in paths ==> Before(p, q)
    ensures Lists([p] + order, paths + {p})
  {
  }

  lemma {:induction false} InsertLists(p: Path, order: seq<Path>, paths: set<Path>)
    requires Lists(order, paths) && p !in paths
    ensures Lists(Insert(p, order), paths + {p})
    decreases |order|
  {
    if order == [] || Before(p, order[0]) {
      forall q | q in paths ensures Before(p, q) {
        var k :| 0 <= k < |order| && order[k] == q;
        if k > 0 { PathsChain(p, order[0], q); }
      }
      ListsCons(p, order, paths);
    } else {
      var first := order[0];
      ListsOnce(order, paths);
      ListsRest(order, paths);
      InsertLists(p, order[1..], paths - {first});
      PathsCompare(p, first);
      forall q | q in paths - {first} + {p} ensures Before(first, q) {
        if q != p { var k :| 0 <= k < |order| && order[k] == q; }
      }
      ListsCons(first, Insert(p, order[1..]), paths - {first} + {p});
      assert paths - {first} + {p} + {first} == paths + {p};
    }
  }

  predicate Finds(found: seq<Path>, paths: set<Path>) {
    && (forall k :: 0 <= k < |found| ==> found[k] in paths)
    && (forall p | p in paths :: p in found)
    && (forall i, j :: 0 <= i < j < |found| ==> found[i] != found[j])
  }

  /** Sorting what was found, in whatever order, gives the listing. */
  lemma {:induction false} SortedLists(found: seq<Path>, paths: set<Path>)
    requires Finds(found, paths)
    ensures Lists(Sorted(found), paths)
    decreases |found|
  {
    if found != [] {
      var rest := paths - {found[0]};
      forall p | p in rest ensures p in found[1..] {
        var k :| 0 <= k < |found| && found[k] == p;
        assert found[1..][k - 1] == p;
      }
      SortedLists(found[1..], rest);
      InsertLists(found[0], Sorted(found[1..]), rest);
      assert rest + {found[0]} == paths;
    }
  }
}
