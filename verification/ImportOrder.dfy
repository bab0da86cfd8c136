/** When the importers come out "by distance, then by name", as the search documents, and a
    graph for which they do not. */
module ImportOrder {
  import opened Options
  import opened Sequences
  import opened ImportGraph

  /** The modules at distance `n` are listed by name. */
  ghost predicate LevelSorted(g: Graph, start: string, modules: seq<string>, n: nat) {
    forall i, j :: 0 <= i < j < |modules| && AtDistance(g, start, modules[i], n) && AtDistance(g, start, modules[j], n) ==>
      NameBefore(modules[i], modules[j])
  }

  ghost predicate NamesInOrder(g: Graph, start: string, modules: seq<string>) {
    forall n: nat :: LevelSorted(g, start, modules, n)
  }

  /** `y` is a module at distance `n` that `x` imports. */
  ghost predicate IsParent(g: Graph, start: string, x: string, y: string, n: nat) {
    Imports(g, x, y) && AtDistance(g, start, y, n)
  }

  /** The first such module by name. */
  ghost predicate LeastParent(g: Graph, start: string, x: string, y: string, n: nat) {
    IsParent(g, start, x, y, n) && forall z :: IsParent(g, start, x, z, n) ==> LessEq(y, z)
  }

  ghost predicate Agree(g: Graph, start: string, n: nat, x: string, y: string) {
    forall p, q :: LeastParent(g, start, x, p, n) && LeastParent(g, start, y, q, n) ==> LessEq(p, q)
  }

  /** Of two modules at the same distance, the one that is first by name has the first
      parent by name.  This can be read off the graph before any search. */
  ghost predicate ParentsAgree(g: Graph, start: string, cap: Option<int>) {
    forall n: nat, x, y ::
      AtMost(cap, n + 1) && AtDistance(g, start, x, n + 1) && AtDistance(g, start, y, n + 1) && NameBefore(x, y) ==>
        Agree(g, start, n, x, y)
  }

  /* ---- distances of listed modules ---- */

  lemma {:induction false} HasDistance(g: Graph, start: string, k: nat, x: string) returns (n: nat)
    requires x in Within(g, start, k)
    ensures n <= k && AtDistance(g, start, x, n)
  {
    if k > 0 && x in Within(g, start, k - 1) {
      n := HasDistance(g, start, k - 1, x);
    } else {
      n := k;
    }
  }

  lemma DistanceIsUnique(g: Graph, start: string, x: string, m: nat, n: nat)
    requires AtDistance(g, start, x, m) && AtDistance(g, start, x, n)
    ensures m == n
  {
    hide Within;
    DistanceIsLeast(g, start, x, m, n);
    DistanceIsLeast(g, start, x, n, m);
  }

  lemma StartIsAtZero(g: Graph, start: string, x: string, n: nat)
    requires AtDistance(g, start, x, n)
    ensures n == 0 <==> x == start
  {
    if x == start {
      assert AtDistance(g, start, x, 0);
      DistanceIsUnique(g, start, x, 0, n);
    }
  }

  /** What is listed has a distance within the cap, and everything else within it is listed. */
  lemma ListedDistance(g: Graph, start: string, cap: Option<int>, modules: seq<string>, x: string) returns (n: nat)
    requires Listing(g, start, cap, modules) && x in modules
    ensures AtDistance(g, start, x, n) && AtMost(cap, n) && n > 0
  {
    hide ListedBefore, AtDistance, Within, ReachesBy;
    var k: nat :| AtMost(cap, k) && ReachesBy(g, x, start, k);
    WithinIsReachability(g, start, k, x);
    n := HasDistance(g, start, k, x);
    StartIsAtZero(g, start, x, n);
  }

  lemma InList(g: Graph, start: string, cap: Option<int>, modules: seq<string>, x: string, n: nat) returns (p: nat)
    requires Listing(g, start, cap, modules) && AtDistance(g, start, x, n) && AtMost(cap, n)
    ensures p <= |modules| && ([start] + modules)[p] == x
  {
    hide ListedBefore, AtDistance, ReachesBy;
    if x == start {
      p := 0;
    } else {
      DistanceIsReach(g, start, x, n);
      assert x in modules;
      var i :| 0 <= i < |modules| && modules[i] == x;
      p := i + 1;
    }
  }

  lemma ListIsDistinct(g: Graph, start: string, cap: Option<int>, modules: seq<string>)
    requires Listing(g, start, cap, modules)
    ensures Distinct([start] + modules)
  {
    hide ListedBefore, ReachesBy;
    assert start !in modules;
  }

  /** Nearer modules come first. */
  lemma FartherLater(g: Graph, start: string, cap: Option<int>, modules: seq<string>, p: nat, q: nat, m: nat, n: nat)
    requires Listing(g, start, cap, modules) && p < q <= |modules|
    requires AtDistance(g, start, ([start] + modules)[p], m) && AtDistance(g, start, ([start] + modules)[q], n)
    ensures m <= n
  {
    hide ListedBefore, AtDistance, ReachesBy, Within;
    if p == 0 {
      StartIsAtZero(g, start, start, m);
    } else {
      DistanceIsReach(g, start, modules[q - 1], n);
      assert ReachesBy(g, modules[p - 1], start, n);
      HopLeast(g, start, modules[p - 1], m, n);
    }
  }

  /* ---- the first listed import is a parent ---- */

  lemma HasParent(g: Graph, start: string, x: string, n: nat) returns (y: string)
    requires AtDistance(g, start, x, n + 1)
    ensures IsParent(g, start, x, y, n)
  {
    y :| y in Within(g, start, n) && Imports(g, x, y);
    var m := HasDistance(g, start, n, y);
    ImportIsNear(g, start, x, y, m, n);
  }

  lemma ParentPlace(g: Graph, start: string, cap: Option<int>, modules: seq<string>, x: string, n: nat)
    requires Listing(g, start, cap, modules) && AtDistance(g, start, x, n + 1) && AtMost(cap, n + 1)
    ensures var list := [start] + modules; var p := FirstImported(g, list, x);
            p < |list| && IsParent(g, start, x, list[p], n)
  {
    hide Listing, AtDistance, FirstImported, Imports, Within;
    var list := [start] + modules;
    var p := FirstImported(g, list, x);
    FirstImportedMeans(g, list, x);
    var y := HasParent(g, start, x, n);
    var r := InList(g, start, cap, modules, y, n);
    var m := PlaceDistance(g, start, cap, modules, p);
    ImportIsNear(g, start, x, list[p], m, n);
    assert Imports(g, x, list[r]);
    if p < r { FartherLater(g, start, cap, modules, p, r, m, n); } else { DistanceIsUnique(g, start, y, m, n); }
    assert m == n;
  }

  lemma PlaceDistance(g: Graph, start: string, cap: Option<int>, modules: seq<string>, p: nat) returns (m: nat)
    requires Listing(g, start, cap, modules) && p <= |modules|
    ensures AtDistance(g, start, ([start] + modules)[p], m)
  {
    hide ListedBefore, ReachesBy;
    if p == 0 {
      m := 0;
    } else {
      assert modules[p - 1] in modules;
      m := ListedDistance(g, start, cap, modules, modules[p - 1]);
    }
  }

  lemma ImportIsNear(g: Graph, start: string, x: string, y: string, m: nat, n: nat)
    requires AtDistance(g, start, x, n + 1) && AtDistance(g, start, y, m) && Imports(g, x, y)
    ensures n <= m
  {
    hide Imports;
    WithinStep(g, start, m, x, y);
    DistanceIsLeast(g, start, x, n + 1, m + 1);
  }

  /** Two places of a level that is sorted by name. */
  lemma LevelPair(g: Graph, start: string, cap: Option<int>, modules: seq<string>, n: nat, p: nat, q: nat)
    requires Listing(g, start, cap, modules) && LevelSorted(g, start, modules, n) && p < q <= |modules|
    requires AtDistance(g, start, ([start] + modules)[p], n) && AtDistance(g, start, ([start] + modules)[q], n)
    ensures NameBefore(([start] + modules)[p], ([start] + modules)[q])
  {
    hide ListedBefore, AtDistance, ReachesBy, Within, NameBefore;
    ListIsDistinct(g, start, cap, modules);
    StartIsAtZero(g, start, ([start] + modules)[p], n);
    StartIsAtZero(g, start, ([start] + modules)[q], n);
    if p > 0 {
      assert ([start] + modules)[p] == modules[p - 1] && ([start] + modules)[q] == modules[q - 1];
    }
  }

  lemma FirstIsLeast(g: Graph, start: string, cap: Option<int>, modules: seq<string>, x: string, n: nat)
    requires Listing(g, start, cap, modules) && LevelSorted(g, start, modules, n)
    requires AtDistance(g, start, x, n + 1) && AtMost(cap, n + 1)
    ensures var list := [start] + modules; var p := FirstImported(g, list, x);
            p < |list| && LeastParent(g, start, x, list[p], n)
  {
    hide Listing, AtDistance, FirstImported, Imports, Within, LevelSorted;
    var list := [start] + modules;
    var p := FirstImported(g, list, x);
    ParentPlace(g, start, cap, modules, x, n);
    FirstImportedMeans(g, list, x);
    forall z | IsParent(g, start, x, z, n) ensures LessEq(list[p], z) {
      var r := InList(g, start, cap, modules, z, n);
      if p < r { LevelPair(g, start, cap, modules, n, p, r); } else { LessEqTotal(z, z); }
    }
  }

  /* ---- the condition ---- */

  lemma LevelFollows(g: Graph, start: string, cap: Option<int>, modules: seq<string>, n: nat, i: nat, j: nat)
    requires Listing(g, start, cap, modules) && ParentsAgree(g, start, cap) && LevelSorted(g, start, modules, n)
    requires i < j < |modules|
    requires AtDistance(g, start, modules[i], n + 1) && AtDistance(g, start, modules[j], n + 1)
    ensures NameBefore(modules[i], modules[j])
  {
    hide AtDistance, FirstImported, Imports, Within, LevelSorted, ReachesBy, LessEq, LeastParent;
    var list, x, y := [start] + modules, modules[i], modules[j];
    var p, q := FirstImported(g, list, x), FirstImported(g, list, y);
    assert x in modules && ListedBefore(g, list, x, y);
    var k := ListedDistance(g, start, cap, modules, x);
    DistanceIsUnique(g, start, x, k, n + 1);
    if !NameBefore(x, y) {
      LessEqTotal(x, y);
      assert NameBefore(y, x) && p < q;
      FirstIsLeast(g, start, cap, modules, x, n);
      FirstIsLeast(g, start, cap, modules, y, n);
      assert Agree(g, start, n, y, x);
      assert LessEq(list[q], list[p]);
      LeastIsAtDistance(g, start, x, list[p], n);
      LeastIsAtDistance(g, start, y, list[q], n);
      LevelPair(g, start, cap, modules, n, p, q);
      LessEqAntisymmetric(list[p], list[q]);
    }
  }

  lemma LeastIsAtDistance(g: Graph, start: string, x: string, y: string, n: nat)
    requires LeastParent(g, start, x, y, n)
    ensures AtDistance(g, start, y, n)
  {}

  lemma NoneAtZero(g: Graph, start: string, cap: Option<int>, modules: seq<string>)
    requires Listing(g, start, cap, modules)
    ensures forall i :: 0 <= i < |modules| ==> !AtDistance(g, start, modules[i], 0)
  {
    hide AtDistance, Listing;
    forall i | 0 <= i < |modules| ensures !AtDistance(g, start, modules[i], 0) {
      var k := ListedDistance(g, start, cap, modules, modules[i]);
      if AtDistance(g, start, modules[i], 0) { DistanceIsUnique(g, start, modules[i], k, 0); }
    }
  }

  /** What the listing says about two of its places. */
  lemma PlacesOrdered(g: Graph, start: string, cap: Option<int>, modules: seq<string>, i: nat, j: nat)
    requires Listing(g, start, cap, modules) && 0 < i < j <= |modules|
    ensures var list := [start] + modules; ListedBefore(g, list, list[i], list[j])
  {
    hide ListedBefore, ReachesBy;
    assert ListedBefore(g, [start] + modules, modules[i - 1], modules[j - 1]);
  }

  lemma {:induction false} LevelsSorted(g: Graph, start: string, cap: Option<int>, modules: seq<string>, n: nat)
    requires Listing(g, start, cap, modules) && ParentsAgree(g, start, cap)
    ensures LevelSorted(g, start, modules, n)
  {
    hide AtDistance, Listing, ParentsAgree, NameBefore;
    if n == 0 {
      NoneAtZero(g, start, cap, modules);
    } else {
      LevelsSorted(g, start, cap, modules, n - 1);
      forall i, j | 0 <= i < j < |modules| && AtDistance(g, start, modules[i], n) && AtDistance(g, start, modules[j], n)
        ensures NameBefore(modules[i], modules[j])
      {
        LevelFollows(g, start, cap, modules, n - 1, i, j);
      }
    }
  }

  lemma LeastIsUnique(g: Graph, start: string, x: string, y: string, z: string, n: nat)
    requires LeastParent(g, start, x, y, n) && LeastParent(g, start, x, z, n)
    ensures y == z
  {
    LessEqAntisymmetric(y, z);
  }

  lemma SortedMeansAgree(g: Graph, start: string, cap: Option<int>, modules: seq<string>, n: nat, x: string, y: string,
                         px: string, py: string)
    requires Listing(g, start, cap, modules) && NamesInOrder(g, start, modules) && AtMost(cap, n + 1)
    requires AtDistance(g, start, x, n + 1) && AtDistance(g, start, y, n + 1) && NameBefore(x, y)
    requires LeastParent(g, start, x, px, n) && LeastParent(g, start, y, py, n)
    ensures LessEq(px, py)
  {
    hide AtDistance, FirstImported, LessEq, LeastParent, Listing, LevelSorted;
    var list := [start] + modules;
    var i := InList(g, start, cap, modules, x, n + 1);
    var j := InList(g, start, cap, modules, y, n + 1);
    var p, q := FirstImported(g, list, x), FirstImported(g, list, y);
    assert LevelSorted(g, start, modules, n) && LevelSorted(g, start, modules, n + 1);
    FirstIsLeast(g, start, cap, modules, x, n);
    FirstIsLeast(g, start, cap, modules, y, n);
    LeastIsUnique(g, start, x, px, list[p], n);
    LeastIsUnique(g, start, y, py, list[q], n);
    LeastIsAtDistance(g, start, x, px, n);
    LeastIsAtDistance(g, start, y, py, n);
    LessEqTotal(px, px);
    StartIsAtZero(g, start, x, n + 1);
    StartIsAtZero(g, start, y, n + 1);
    if j < i {
      LevelPair(g, start, cap, modules, n + 1, j, i);
      LessEqAntisymmetric(x, y);
    } else {
      PlacesOrdered(g, start, cap, modules, i, j);
      if p < q { LevelPair(g, start, cap, modules, n, p, q); }
    }
  }

  /** The documented order, by distance and then by name, holds exactly when parents agree. */
  lemma NamesInOrderIff(g: Graph, start: string, cap: Option<int>, modules: seq<string>)
    requires Listing(g, start, cap, modules)
    ensures NamesInOrder(g, start, modules) <==> ParentsAgree(g, start, cap)
  {
    hide Listing, AtDistance, LeastParent, LevelSorted, NameBefore;
    if ParentsAgree(g, start, cap) {
      forall n: nat ensures LevelSorted(g, start, modules, n) { LevelsSorted(g, start, cap, modules, n); }
    }
    if NamesInOrder(g, start, modules) {
      forall n: nat, x, y |
        AtMost(cap, n + 1) && AtDistance(g, start, x, n + 1) && AtDistance(g, start, y, n + 1) && NameBefore(x, y)
        ensures Agree(g, start, n, x, y)
      {
        forall p, q | LeastParent(g, start, x, p, n) && LeastParent(g, start, y, q, n) ensures LessEq(p, q) {
          SortedMeansAgree(g, start, cap, modules, n, x, y, p, q);
        }
      }
    }
  }

  /* ---- a graph that comes out in another order ---- */

  /** `p` and `q` import `s`, `z` imports `p` and `a` imports `q`. */
  function Crossing(): Graph {
    [ModuleNode("s", []), ModuleNode("p", ["s"]), ModuleNode("q", ["s"]), ModuleNode("z", ["p"]), ModuleNode("a", ["q"])]
  }

  predicate Crosses(x: string, y: string) {
    (x == "p" && y == "s") || (x == "q" && y == "s") || (x == "z" && y == "p") || (x == "a" && y == "q")
  }

  lemma CrossingImports(x: string, y: string)
    ensures Imports(Crossing(), x, y) <==> Crosses(x, y)
  {
    var g := Crossing();
    assert g[1].imports == ["s"] && g[2].imports == ["s"] && g[3].imports == ["p"] && g[4].imports == ["q"];
  }

  /** A module of the crossing at distance 1 or 2. */
  lemma CrossingDistance(x: string, y: string, n: nat)
    requires AtDistance(Crossing(), "s", y, n) && Crosses(x, y) && (n == 0 || y == "p" || y == "q")
    ensures AtDistance(Crossing(), "s", x, n + 1)
  {
    hide Imports, Crossing, Within;
    var g := Crossing();
    CrossingImports(x, y);
    WithinStep(g, "s", n, x, y);
    var m := HasDistance(g, "s", n + 1, x);
    StartIsAtZero(g, "s", x, m);
    var parent := HasParent(g, "s", x, m - 1);
    CrossingImports(x, parent);
    DistanceIsUnique(g, "s", y, n, m - 1);
  }

  lemma CrossingDistances()
    ensures AtDistance(Crossing(), "s", "p", 1) && AtDistance(Crossing(), "s", "q", 1)
    ensures AtDistance(Crossing(), "s", "z", 2) && AtDistance(Crossing(), "s", "a", 2)
  {
    hide Crossing;
    assert AtDistance(Crossing(), "s", "s", 0);
    CrossingDistance("p", "s", 0);
    CrossingDistance("q", "s", 0);
    CrossingDistance("z", "p", 1);
    CrossingDistance("a", "q", 1);
  }

  lemma CrossingPlace(modules: seq<string>, x: string, n: nat) returns (i: nat)
    requires Listing(Crossing(), "s", None, modules) && x != "s" && AtDistance(Crossing(), "s", x, n)
    ensures i < |modules| && modules[i] == x
  {
    hide Listing, Crossing, AtDistance;
    var p := InList(Crossing(), "s", None, modules, x, n);
    i := p - 1;
  }

  lemma CrossingOnly(modules: seq<string>, i: nat)
    requires Listing(Crossing(), "s", None, modules) && i < |modules|
    ensures modules[i] == "p" || modules[i] == "q" || modules[i] == "z" || modules[i] == "a"
  {
    hide Listing, Crossing, AtDistance;
    assert modules[i] in modules;
    var n := ListedDistance(Crossing(), "s", None, modules, modules[i]);
    var y := HasParent(Crossing(), "s", modules[i], n - 1);
    CrossingImports(modules[i], y);
  }

  /** The place of the one module that `x` imports. */
  lemma CrossingFirst(list: seq<string>, x: string, y: string, p: nat)
    requires Distinct(list) && p < |list| && list[p] == y && Crosses(x, y)
    ensures FirstImported(Crossing(), list, x) == p
  {
    hide Crossing, Imports, FirstImported;
    CrossingImports(x, y);
    forall q | 0 <= q < p ensures !Imports(Crossing(), x, list[q]) { CrossingImports(x, list[q]); }
    FirstImportedIs(Crossing(), list, x, p);
  }

  /** Two modules of a listing stand in the order of the listing. */
  lemma CrossingOrder(modules: seq<string>, i: nat, j: nat)
    requires Listing(Crossing(), "s", None, modules) && i < |modules| && j < |modules| && i != j
    requires !ListedBefore(Crossing(), ["s"] + modules, modules[j], modules[i])
    ensures i < j
  {
    hide ListedBefore, Crossing, ReachesBy;
  }

  lemma CrossingIsListed(modules: seq<string>)
    requires Listing(Crossing(), "s", None, modules)
    ensures modules == ["p", "q", "z", "a"]
  {
    hide Listing, Crossing, AtDistance, FirstImported;
    var list := ["s"] + modules;
    CrossingDistances();
    ListIsDistinct(Crossing(), "s", None, modules);
    var p := CrossingPlace(modules, "p", 1);
    var q := CrossingPlace(modules, "q", 1);
    var z := CrossingPlace(modules, "z", 2);
    var a := CrossingPlace(modules, "a", 2);
    CrossingFirst(list, "p", "s", 0);
    CrossingFirst(list, "q", "s", 0);
    CrossingFirst(list, "z", "p", p + 1);
    CrossingFirst(list, "a", "q", q + 1);
    CrossingOrder(modules, p, q);
    CrossingOrder(modules, q, z);
    CrossingOrder(modules, z, a);
    forall i | 0 <= i < |modules| ensures OneOfFour(modules[i]) { CrossingOnly(modules, i); }
    assert Distinct(modules) by { TailIsDistinct("s", modules); }
    FourPlaces(modules, p, q, z, a);
  }

  predicate OneOfFour(x: string) { x == "p" || x == "q" || x == "z" || x == "a" }

  lemma TailIsDistinct(x: string, s: seq<string>)
    requires Distinct([x] + s)
    ensures Distinct(s)
  {
    assert forall i :: 0 <= i < |s| ==> ([x] + s)[i + 1] == s[i];
  }

  lemma FourPlaces(s: seq<string>, p: nat, q: nat, z: nat, a: nat)
    requires p < q < z < a < |s| && Distinct(s) && forall i :: 0 <= i < |s| ==> OneOfFour(s[i])
    requires s[p] == "p" && s[q] == "q" && s[z] == "z" && s[a] == "a"
    ensures s == ["p", "q", "z", "a"]
  {
    assert OneOfFour(s[0]) && OneOfFour(s[1]) && OneOfFour(s[2]) && OneOfFour(s[3]);
    assert |s| > 4 ==> OneOfFour(s[4]);
  }

  lemma CrossingNotByName()
    ensures !NamesInOrder(Crossing(), "s", ["p", "q", "z", "a"])
  {
    hide Crossing, AtDistance;
    CrossingDistances();
    var modules := ["p", "q", "z", "a"];
    assert !NameBefore(modules[2], modules[3]);
    assert !LevelSorted(Crossing(), "s", modules, 2);
  }

  /** The search lists `z` before `a`, both at distance 2: parents count before names. */
  method SearchOfCrossing() returns (r: Found)
    ensures r == Found(["p", "q", "z", "a"]) && !NamesInOrder(Crossing(), "s", r.modules)
  {
    hide Crossing, AtDistance, Listing;
    r := TransitiveImporters(Crossing(), "s", None);
    CrossingIsListed(r.modules);
    CrossingNotByName();
  }
}
