/** The module import graph: breadth-first search over reverse imports with a depth cap,
    and the separate breadth-first search that labels its results with hop counts. */
module ImportGraph {
  import opened Sequences
  import opened Options

  datatype ModuleNode = ModuleNode(name: string, imports: seq<string>)

  type Graph = seq<ModuleNode>

  /** Some module of that name imports `target`. */
  predicate Imports(g: Graph, importer: string, target: string) {
    exists i :: 0 <= i < |g| && g[i].name == importer && target in g[i].imports
  }

  function Names(g: Graph): set<string> { set i | 0 <= i < |g| :: g[i].name }

  /* ---- direct importers, sorted by name ---- */

  predicate LessEq(a: string, b: string) {
    a == [] || (b != [] && (a[0] < b[0] || (a[0] == b[0] && LessEq(a[1..], b[1..]))))
  }

  predicate NameBefore(a: string, b: string) { a != b && LessEq(a, b) }

  lemma {:induction false} LessEqTotal(a: string, b: string)
    ensures LessEq(a, b) || LessEq(b, a)
  {
    if a != [] && b != [] && a[0] == b[0] { LessEqTotal(a[1..], b[1..]); }
  }

  lemma {:induction false} LessEqTransitive(a: string, b: string, c: string)
    requires LessEq(a, b) && LessEq(b, c)
    ensures LessEq(a, c)
  {
    if a != [] && a[0] == b[0] == c[0] { LessEqTransitive(a[1..], b[1..], c[1..]); }
  }

  lemma {:induction false} LessEqAntisymmetric(a: string, b: string)
    requires LessEq(a, b) && LessEq(b, a)
    ensures a == b
  {
    if a != [] && b != [] {
      LessEqAntisymmetric(a[1..], b[1..]);
      assert a == [a[0]] + a[1..] && b == [b[0]] + b[1..];
    }
  }

  predicate SortedNames(s: seq<string>) { forall i, j :: 0 <= i < j < |s| ==> LessEq(s[i], s[j]) }

  function Insert(x: string, s: seq<string>): (r: seq<string>)
    ensures forall y :: y in r <==> y == x || y in s
  {
    if s == [] || LessEq(x, s[0]) then [x] + s
    else
      assert s == [s[0]] + s[1..];
      [s[0]] + Insert(x, s[1..])
  }

  function ImportersOf(g: Graph, target: string): seq<string> {
    if g == [] then []
    else
      var rest := ImportersOf(g[1..], target);
      if target in g[0].imports then Insert(g[0].name, rest) else rest
  }

  lemma {:induction false} ImportersAre(g: Graph, target: string)
    ensures forall x :: x in ImportersOf(g, target) <==> Imports(g, x, target)
  {
    if g != [] {
      ImportersAre(g[1..], target);
      forall x ensures x in ImportersOf(g, target) <==> Imports(g, x, target) {
        if Imports(g[1..], x, target) {
          var i :| 0 <= i < |g[1..]| && g[1..][i].name == x && target in g[1..][i].imports;
          assert g[i + 1] == g[1..][i];
        }
        if Imports(g, x, target) {
          var i :| 0 <= i < |g| && g[i].name == x && target in g[i].imports;
          if i > 0 { assert g[1..][i - 1] == g[i]; }
        }
      }
    }
  }

  lemma {:induction false} InsertSorted(x: string, s: seq<string>)
    requires SortedNames(s)
    ensures SortedNames(Insert(x, s))
  {
    hide LessEq;
    if s == [] {
    } else if LessEq(x, s[0]) {
      forall i | 0 < i < |s| ensures LessEq(x, s[i]) { LessEqTransitive(x, s[0], s[i]); }
    } else {
      LessEqTotal(x, s[0]);
      var rest := Insert(x, s[1..]);
      InsertSorted(x, s[1..]);
      forall i | 0 <= i < |rest| ensures LessEq(s[0], rest[i]) {
        assert rest[i] in rest;
        if rest[i] != x {
          var k :| 0 <= k < |s[1..]| && s[1..][k] == rest[i];
          assert s[k + 1] == rest[i];
        }
      }
    }
  }

  lemma {:induction false} ImportersSorted(g: Graph, target: string)
    ensures SortedNames(ImportersOf(g, target))
  {
    hide LessEq, Insert;
    if g != [] {
      ImportersSorted(g[1..], target);
      InsertSorted(g[0].name, ImportersOf(g[1..], target));
    }
  }

  /* ---- reachability and distance ---- */

  /** The modules that reach `start` by at most `k` import edges. */
  ghost function Within(g: Graph, start: string, k: nat): set<string> {
    if k == 0 then {start}
    else
      var near := Within(g, start, k - 1);
      near + set x | x in Names(g) && exists y :: y in near && Imports(g, x, y)
  }

  lemma WithinStep(g: Graph, start: string, k: nat, x: string, y: string)
    requires y in Within(g, start, k) && Imports(g, x, y)
    ensures x in Within(g, start, k + 1)
  {
    var i :| 0 <= i < |g| && g[i].name == x && y in g[i].imports;
    assert x in Names(g);
  }

  lemma {:induction false} WithinGrows(g: Graph, start: string, j: nat, k: nat)
    requires j <= k
    ensures Within(g, start, j) <= Within(g, start, k)
    decreases k - j
  {
    if j < k { WithinGrows(g, start, j, k - 1); }
  }

  /** A chain of imports: each module imports the next. */
  predicate Chain(g: Graph, p: seq<string>) {
    p != [] && forall i :: 0 <= i < |p| - 1 ==> Imports(g, p[i], p[i + 1])
  }

  ghost predicate ReachesBy(g: Graph, x: string, start: string, k: nat) {
    exists p :: Chain(g, p) && p[0] == x && p[|p| - 1] == start && |p| - 1 <= k
  }

  lemma {:induction false} ChainIsWithin(g: Graph, p: seq<string>)
    requires Chain(g, p)
    ensures p[0] in Within(g, p[|p| - 1], |p| - 1)
  {
    if |p| > 1 {
      var q := p[1..];
      forall i | 0 <= i < |q| - 1 ensures Imports(g, q[i], q[i + 1]) {
        assert Imports(g, p[i + 1], p[i + 1 + 1]);
      }
      ChainIsWithin(g, q);
      assert Imports(g, p[0], p[0 + 1]);
      WithinStep(g, p[|p| - 1], |p| - 2, p[0], p[1]);
    }
  }

  lemma {:induction false} WithinHasChain(g: Graph, start: string, k: nat, x: string) returns (p: seq<string>)
    requires x in Within(g, start, k)
    ensures Chain(g, p) && p[0] == x && p[|p| - 1] == start && |p| - 1 <= k
  {
    if k == 0 {
      p := [x];
    } else if x in Within(g, start, k - 1) {
      p := WithinHasChain(g, start, k - 1, x);
    } else {
      var y :| y in Within(g, start, k - 1) && Imports(g, x, y);
      var q := WithinHasChain(g, start, k - 1, y);
      p := [x] + q;
      forall i | 0 <= i < |p| - 1 ensures Imports(g, p[i], p[i + 1]) {
        if i > 0 { assert Imports(g, q[i - 1], q[i - 1 + 1]); }
      }
    }
  }

  /** The level sets are exactly reachability by chains of imports. */
  lemma WithinIsReachability(g: Graph, start: string, k: nat, x: string)
    ensures x in Within(g, start, k) <==> ReachesBy(g, x, start, k)
  {
    if x in Within(g, start, k) {
      var p := WithinHasChain(g, start, k, x);
    }
    if ReachesBy(g, x, start, k) {
      var p :| Chain(g, p) && p[0] == x && p[|p| - 1] == start && |p| - 1 <= k;
      ChainIsWithin(g, p);
      WithinGrows(g, start, |p| - 1, k);
    }
  }

  /** `k` is the length of a shortest chain from `x` to `start`. */
  ghost predicate AtDistance(g: Graph, start: string, x: string, k: nat) {
    x in Within(g, start, k) && (k > 0 ==> x !in Within(g, start, k - 1))
  }

  lemma DistanceIsLeast(g: Graph, start: string, x: string, k: nat, j: nat)
    requires AtDistance(g, start, x, k)
    ensures x in Within(g, start, j) <==> k <= j
  {
    if k <= j { WithinGrows(g, start, k, j); }
    if j < k { WithinGrows(g, start, j, k - 1); }
  }

  /* ---- the invariant of both searches ---- */

  predicate Below(cap: Option<int>, depth: nat) { cap.None? || depth < cap.value }

  predicate AtMost(cap: Option<int>, depth: nat) { cap.None? || depth <= cap.value }

  type Depths = map<string, nat>

  ghost predicate Exact(g: Graph, start: string, d: Depths) {
    start in d && d[start] == 0 && forall x :: x in d ==> AtDistance(g, start, x, d[x])
  }

  ghost predicate Expanded(g: Graph, d: Depths, y: string)
    requires y in d
  {
    forall x :: Imports(g, x, y) ==> x in d && d[x] <= d[y] + 1
  }

  /** The queue is sorted by depth and spans at most two levels, the deepest known ones. */
  predicate Layered(d: Depths, queue: seq<string>) {
    (forall i :: 0 <= i < |queue| ==> queue[i] in d) &&
    (forall i, j :: 0 <= i < j < |queue| ==> d[queue[i]] <= d[queue[j]]) &&
    (queue != [] ==> forall x :: x in d ==> d[x] <= d[queue[0]] + 1)
  }

  ghost predicate SearchInv(g: Graph, start: string, cap: Option<int>, d: Depths, queue: seq<string>) {
    Exact(g, start, d) && Layered(d, queue) &&
    (forall x :: x in d ==> AtMost(cap, d[x])) &&
    (forall y :: y in d && y !in queue && Below(cap, d[y]) ==> Expanded(g, d, y))
  }

  /** Once every module above level `n` has been expanded, the first `n` levels are known. */
  lemma {:induction false} LevelsComplete(g: Graph, start: string, d: Depths, n: nat)
    requires start in d && d[start] == 0
    requires forall y :: y in d && d[y] < n ==> Expanded(g, d, y)
    ensures forall x :: x in Within(g, start, n) ==> x in d && d[x] <= n
  {
    if n > 0 {
      LevelsComplete(g, start, d, n - 1);
      forall x | x in Within(g, start, n) ensures x in d && d[x] <= n {
        if x !in Within(g, start, n - 1) {
          var y :| y in Within(g, start, n - 1) && Imports(g, x, y);
          assert Expanded(g, d, y);
        }
      }
    }
  }

  lemma NewIsFarther(g: Graph, start: string, cap: Option<int>, d: Depths, queue: seq<string>, z: string)
    requires SearchInv(g, start, cap, d, queue) && queue != []
    requires Below(cap, d[queue[0]]) && z !in d
    ensures z !in Within(g, start, d[queue[0]])
  {
    hide Imports, Within, AtDistance;
    var n := d[queue[0]];
    forall y | y in d && d[y] < n ensures Expanded(g, d, y) {
      assert y !in queue by {
        assert forall i :: 0 < i < |queue| ==> d[queue[0]] <= d[queue[i]];
      }
    }
    LevelsComplete(g, start, d, n);
  }

  lemma ExpandedStays(g: Graph, d: Depths, y: string, z: string, n: nat)
    requires y in d && Expanded(g, d, y) && z !in d
    ensures Expanded(g, d[z := n], y)
  {}

  /** A new importer of the module in front of the queue joins its end one level deeper. */
  lemma Discover(g: Graph, start: string, cap: Option<int>, d: Depths, queue: seq<string>, z: string)
    requires SearchInv(g, start, cap, d, queue) && queue != []
    requires Below(cap, d[queue[0]]) && z !in d && Imports(g, z, queue[0])
    ensures SearchInv(g, start, cap, d[z := d[queue[0]] + 1], queue + [z])
  {
    hide Imports, Within, Expanded;
    var n := d[queue[0]];
    var e := d[z := n + 1];
    NewIsFarther(g, start, cap, d, queue, z);
    WithinStep(g, start, n, z, queue[0]);
    assert AtDistance(g, start, z, n + 1);
    forall y | y in e && y !in queue + [z] && Below(cap, e[y]) ensures Expanded(g, e, y) {
      ExpandedStays(g, d, y, z, n + 1);
    }
    assert Layered(e, queue + [z]);
  }

  lemma RetireLayered(d: Depths, queue: seq<string>)
    requires queue != [] && Layered(d, queue)
    ensures Layered(d, queue[1..])
  {
    var q := queue[1..];
    assert forall i :: 0 <= i < |q| ==> q[i] == queue[i + 1];
    if q != [] { assert d[queue[0]] <= d[queue[1]]; }
  }

  /** The module in front may leave the queue once it is expanded or too deep. */
  lemma Retire(g: Graph, start: string, cap: Option<int>, d: Depths, queue: seq<string>)
    requires SearchInv(g, start, cap, d, queue) && queue != []
    requires !Below(cap, d[queue[0]]) || Expanded(g, d, queue[0])
    ensures SearchInv(g, start, cap, d, queue[1..])
  {
    hide Imports, Expanded, AtDistance, Layered;
    assert queue == [queue[0]] + queue[1..];
    RetireLayered(d, queue);
  }

  /** With an empty queue the search has found exactly what lies within the cap. */
  lemma SearchIsComplete(g: Graph, start: string, cap: Option<int>, d: Depths, k: nat, x: string)
    requires SearchInv(g, start, cap, d, []) && AtMost(cap, k) && x in Within(g, start, k)
    ensures x in d && d[x] <= k
  {
    hide Imports, Within, AtDistance;
    forall y | y in d && d[y] < k ensures Expanded(g, d, y) {}
    LevelsComplete(g, start, d, k);
  }

  lemma DepthsAreModules(g: Graph, start: string, d: Depths)
    requires Exact(g, start, d)
    ensures d.Keys <= Names(g) + {start}
  {
    forall x | x in d ensures x in Names(g) + {start} { WithinAreModules(g, start, d[x], x); }
  }

  lemma {:induction false} WithinAreModules(g: Graph, start: string, k: nat, x: string)
    requires x in Within(g, start, k)
    ensures x in Names(g) + {start}
  {
    if k > 0 && x in Within(g, start, k - 1) { WithinAreModules(g, start, k - 1, x); }
  }

  lemma SearchStart(g: Graph, start: string, cap: Option<int>)
    requires AtMost(cap, 0)
    ensures SearchInv(g, start, cap, map[start := 0], [start])
  {}

  /* ---- transitive_importers_of ---- */

  predicate ByDepth(d: Depths, s: seq<string>) {
    (forall i :: 0 <= i < |s| ==> s[i] in d) &&
    forall i, j :: 0 <= i < j < |s| ==> d[s[i]] <= d[s[j]]
  }

  /** `result` lists what has been found besides the start, shallow first. */
  predicate Lists(start: string, d: Depths, result: seq<string>) {
    Distinct(result) && ByDepth(d, result) && start !in result &&
    forall x :: x in d.Keys ==> x == start || x in result
  }

  lemma ListsGrow(start: string, d: Depths, result: seq<string>, z: string, n: nat)
    requires Lists(start, d, result) && z !in d && start in d && forall x :: x in d ==> d[x] <= n
    ensures Lists(start, d[z := n], result + [z])
  {
    assert forall i :: 0 <= i < |result| ==> result[i] in d;
  }

  lemma ListsStart(start: string)
    ensures Lists(start, map[start := 0], [])
  {}

  lemma ListsAre(start: string, d: Depths, result: seq<string>)
    requires Lists(start, d, result)
    ensures Distinct(result) && ByDepth(d, result)
  {}

  /* ---- the order inside one distance ---- */

  /** The position in `list` of the first module that `x` imports, or its length. */
  function FirstImported(g: Graph, list: seq<string>, x: string): nat {
    if list == [] || Imports(g, x, list[0]) then 0 else 1 + FirstImported(g, list[1..], x)
  }

  lemma {:induction false} FirstImportedMeans(g: Graph, list: seq<string>, x: string)
    ensures var p := FirstImported(g, list, x);
            p <= |list| && (forall q :: 0 <= q < p ==> !Imports(g, x, list[q])) &&
            (p < |list| ==> Imports(g, x, list[p]))
  {
    hide Imports;
    if list != [] && !Imports(g, x, list[0]) {
      FirstImportedMeans(g, list[1..], x);
      assert forall q :: 0 < q < |list| ==> list[q] == list[1..][q - 1];
    }
  }

  lemma FirstImportedIs(g: Graph, list: seq<string>, x: string, p: nat)
    requires p < |list| && Imports(g, x, list[p]) && forall q :: 0 <= q < p ==> !Imports(g, x, list[q])
    ensures FirstImported(g, list, x) == p
  {
    hide Imports, FirstImported;
    FirstImportedMeans(g, list, x);
  }

  /** By the position of the first listed module it imports, then by name. */
  predicate ListedBefore(g: Graph, list: seq<string>, x: string, y: string) {
    var p, q := FirstImported(g, list, x), FirstImported(g, list, y);
    p < q || (p == q && NameBefore(x, y))
  }

  /** Everything after the head of `list` was found from its first `p` modules, in order. */
  predicate Ordered(g: Graph, list: seq<string>, p: nat) {
    (forall i :: 0 < i < |list| ==> FirstImported(g, list, list[i]) < p) &&
    forall i, j :: 0 < i < j < |list| ==> ListedBefore(g, list, list[i], list[j])
  }

  /** The modules found from position `p` are among those already scanned. */
  predicate Scanned(g: Graph, list: seq<string>, p: nat, scanned: seq<string>) {
    forall i :: 0 < i < |list| && FirstImported(g, list, list[i]) == p ==> list[i] in scanned
  }

  lemma FirstImportedStays(g: Graph, list: seq<string>, z: string, x: string)
    requires FirstImported(g, list, x) < |list|
    ensures FirstImported(g, list + [z], x) == FirstImported(g, list, x)
  {
    hide Imports, FirstImported;
    var p := FirstImported(g, list, x);
    FirstImportedMeans(g, list, x);
    assert (list + [z])[p] == list[p];
    FirstImportedIs(g, list + [z], x, p);
  }

  lemma OrderedGrows(g: Graph, list: seq<string>, p: nat, z: string, scanned: seq<string>)
    requires p < |list| && Ordered(g, list, p + 1) && Scanned(g, list, p, scanned)
    requires Imports(g, z, list[p]) && forall q :: 0 <= q < p ==> !Imports(g, z, list[q])
    requires forall x :: x in scanned && x in list ==> NameBefore(x, z)
    ensures Ordered(g, list + [z], p + 1) && Scanned(g, list + [z], p, scanned + [z])
  {
    hide Imports, FirstImported, NameBefore;
    var next := list + [z];
    assert next[p] == list[p];
    FirstImportedIs(g, next, z, p);
    forall i | 0 < i < |list| ensures FirstImported(g, next, next[i]) == FirstImported(g, list, list[i]) {
      FirstImportedStays(g, list, z, list[i]);
    }
    forall i, j | 0 < i < j < |next| ensures ListedBefore(g, next, next[i], next[j]) {
      if j < |list| { assert ListedBefore(g, list, list[i], list[j]); }
    }
  }

  /** A module that is new now imports none of the modules expanded before. */
  lemma NewImportsNoEarlier(g: Graph, start: string, cap: Option<int>, d: Depths, list: seq<string>, p: nat, z: string)
    requires p < |list| && SearchInv(g, start, cap, d, list[p..]) && Distinct(list)
    requires forall q :: 0 <= q < |list| ==> list[q] in d && (q < p ==> d[list[q]] <= d[list[p]])
    requires Below(cap, d[list[p]]) && z !in d
    ensures forall q :: 0 <= q < p ==> !Imports(g, z, list[q])
  {
    hide Imports, AtDistance, Layered;
    forall q | 0 <= q < p ensures !Imports(g, z, list[q]) {
      assert list[q] !in list[p..] by {
        assert forall r :: p <= r < |list| ==> list[r] != list[q];
      }
      assert Expanded(g, d, list[q]);
    }
  }

  lemma ListIs(g: Graph, start: string, d: Depths, result: seq<string>, p: nat)
    requires Exact(g, start, d) && Lists(start, d, result) && p <= |result|
    ensures var list := [start] + result;
            Distinct(list) && forall q :: 0 <= q < |list| ==> list[q] in d && (q < p ==> d[list[q]] <= d[list[p]])
  {
    hide AtDistance;
    var list := [start] + result;
    assert forall q :: 0 < q < |list| ==> list[q] == result[q - 1];
  }

  function Firsts(queue: seq<(string, nat)>): seq<string> {
    seq(|queue|, i requires 0 <= i < |queue| => queue[i].0)
  }

  /** One importer of the module in front, at position `p` of the list: how a new one joins. */
  lemma ScanStep(g: Graph, start: string, cap: Option<int>, d: Depths, result: seq<string>, p: nat,
                 importers: seq<string>, i: nat)
    requires p <= |result| && i < |importers| && Lists(start, d, result)
    requires SearchInv(g, start, cap, d, ([start] + result)[p..]) && Below(cap, d[([start] + result)[p]])
    requires Ordered(g, [start] + result, p + 1) && Scanned(g, [start] + result, p, importers[..i])
    requires importers[i] !in d && Imports(g, importers[i], ([start] + result)[p]) && SortedNames(importers)
    ensures Ordered(g, [start] + (result + [importers[i]]), p + 1)
    ensures Scanned(g, [start] + (result + [importers[i]]), p, importers[..i + 1])
  {
    hide Imports, FirstImported, Ordered, Scanned, LessEq, Lists, Layered, AtDistance, Expanded;
    var list, z := [start] + result, importers[i];
    ListIs(g, start, d, result, p);
    NewImportsNoEarlier(g, start, cap, d, list, p, z);
    forall x | x in importers[..i] && x in list ensures NameBefore(x, z) {
      var k :| 0 <= k < i && importers[k] == x;
      assert LessEq(importers[k], importers[i]);
    }
    OrderedGrows(g, list, p, z, importers[..i]);
    assert list + [z] == [start] + (result + [z]);
    assert importers[..i + 1] == importers[..i] + [z];
  }

  lemma ScanSkips(g: Graph, list: seq<string>, p: nat, importers: seq<string>, i: nat)
    requires i < |importers| && Scanned(g, list, p, importers[..i])
    ensures Scanned(g, list, p, importers[..i + 1])
  {
    hide FirstImported;
    assert importers[..i + 1] == importers[..i] + [importers[i]];
  }

  lemma ScanBegins(g: Graph, list: seq<string>, p: nat)
    requires Ordered(g, list, p)
    ensures Ordered(g, list, p + 1) && Scanned(g, list, p, [])
  {
    hide FirstImported, ListedBefore;
  }

  /** Scan the importers of the module in front, adding the new ones.  `d` remembers the
      depth at which each seen module was found, `p` is the position of the front. */
  method ExpandFront(g: Graph, ghost start: string, ghost cap: Option<int>, current: string, depth: nat,
                     seen0: set<string>, ghost d0: Depths, queue0: seq<(string, nat)>, result0: seq<string>, ghost p: nat)
    returns (seen: set<string>, ghost d: Depths, queue: seq<(string, nat)>, result: seq<string>)
    requires SearchInv(g, start, cap, d0, [current] + Firsts(queue0)) && d0[current] == depth && Below(cap, depth)
    requires forall i :: 0 <= i < |queue0| ==> queue0[i].0 in d0 && d0[queue0[i].0] == queue0[i].1
    requires Lists(start, d0, result0) && seen0 == d0.Keys
    requires p <= |result0| && ([start] + result0)[p..] == [current] + Firsts(queue0) && Ordered(g, [start] + result0, p)
    ensures SearchInv(g, start, cap, d, Firsts(queue)) && Lists(start, d, result) && seen == d.Keys
    ensures forall i :: 0 <= i < |queue| ==> queue[i].0 in d && d[queue[i].0] == queue[i].1
    ensures seen0 <= seen && (seen == seen0 ==> queue == queue0)
    ensures p <= |result| && ([start] + result)[p + 1..] == Firsts(queue) && Ordered(g, [start] + result, p + 1)
  {
    hide Imports, AtDistance, Expanded, ImportersOf, SearchInv, Lists, Ordered, Scanned, SortedNames;
    FrontBound(g, start, cap, d0, [current] + Firsts(queue0));
    seen, d, queue, result := seen0, d0, queue0, result0;
    var importers := ImportersOf(g, current);
    ImportersAre(g, current);
    ImportersSorted(g, current);
    ScanBegins(g, [start] + result, p);
    assert importers[..0] == [];
    for i := 0 to |importers|
      invariant SearchInv(g, start, cap, d, [current] + Firsts(queue)) && current in d && d[current] == depth
      invariant Lists(start, d, result) && seen == d.Keys
      invariant forall k :: 0 <= k < |queue| ==> queue[k].0 in d && d[queue[k].0] == queue[k].1
      invariant seen0 <= seen && (seen == seen0 ==> queue == queue0)
      invariant forall k :: 0 <= k < i ==> importers[k] in d && d[importers[k]] <= depth + 1
      invariant p <= |result| && ([start] + result)[p..] == [current] + Firsts(queue)
      invariant Ordered(g, [start] + result, p + 1) && Scanned(g, [start] + result, p, importers[..i])
    {
      var z := importers[i];
      assert z in importers;
      FrontBound(g, start, cap, d, [current] + Firsts(queue));
      if z !in seen {
        assert ([start] + result)[p] == ([start] + result)[p..][0];
        ScanStep(g, start, cap, d, result, p, importers, i);
        Discover(g, start, cap, d, [current] + Firsts(queue), z);
        ListsGrow(start, d, result, z, depth + 1);
        QueueGrows(start, result, p, current, queue, z, depth + 1);
        d := d[z := depth + 1];
        seen := seen + {z};
        result := result + [z];
        queue := queue + [(z, depth + 1)];
      } else {
        ScanSkips(g, [start] + result, p, importers, i);
      }
    }
    assert forall x :: x in importers ==> x in d && d[x] <= depth + 1;
    AllFound(g, d, current, importers);
    Retire(g, start, cap, d, [current] + Firsts(queue));
    assert ([current] + Firsts(queue))[1..] == Firsts(queue);
    assert ([start] + result)[p..][1..] == ([start] + result)[p + 1..];
  }

  lemma QueueGrows(start: string, result: seq<string>, p: nat, current: string, queue: seq<(string, nat)>, z: string, n: nat)
    requires p <= |result| && ([start] + result)[p..] == [current] + Firsts(queue)
    ensures ([start] + (result + [z]))[p..] == [current] + Firsts(queue + [(z, n)])
    ensures ([current] + Firsts(queue)) + [z] == [current] + Firsts(queue + [(z, n)])
  {
    assert [start] + (result + [z]) == ([start] + result) + [z];
    assert (([start] + result) + [z])[p..] == ([start] + result)[p..] + [z];
    assert Firsts(queue + [(z, n)]) == Firsts(queue) + [z];
  }

  lemma FrontBound(g: Graph, start: string, cap: Option<int>, d: Depths, queue: seq<string>)
    requires SearchInv(g, start, cap, d, queue) && queue != []
    ensures start in d && queue[0] in d && forall x :: x in d ==> d[x] <= d[queue[0]] + 1
  {}

  lemma AllFound(g: Graph, d: Depths, y: string, importers: seq<string>)
    requires y in d && (forall x :: x in importers <==> Imports(g, x, y))
    requires forall x :: x in importers ==> x in d && d[x] <= d[y] + 1
    ensures Expanded(g, d, y)
  {}

  datatype Found = Found(modules: seq<string>) | NegativeDepth

  /** Exactly the modules, other than the start, that reach it by at most `cap` imports; no
      repeats; nearer modules first, and at equal distance by the place of the first listed
      module they import, then by name. */
  ghost predicate Listing(g: Graph, start: string, cap: Option<int>, modules: seq<string>) {
    Distinct(modules) &&
    (forall x :: x in modules <==> x != start && exists k: nat :: AtMost(cap, k) && ReachesBy(g, x, start, k)) &&
    (forall i, j, k: nat :: 0 <= i < j < |modules| && ReachesBy(g, modules[j], start, k) ==>
       ReachesBy(g, modules[i], start, k)) &&
    (forall i, j :: 0 <= i < j < |modules| ==> ListedBefore(g, [start] + modules, modules[i], modules[j]))
  }

  /** Cyclic graphs included. */
  method TransitiveImporters(g: Graph, start: string, maxDepth: Option<int>) returns (r: Found)
    ensures r.NegativeDepth? <==> maxDepth.Some? && maxDepth.value < 0
    ensures r.Found? ==> Listing(g, start, maxDepth, r.modules)
  {
    hide Imports, AtDistance, Expanded, Layered, Within, ReachesBy, Lists, Ordered, ListedBefore;
    if maxDepth.Some? && maxDepth.value < 0 { return NegativeDepth; }
    var seen := {start};
    ghost var d: Depths := map[start := 0];
    var queue: seq<(string, nat)> := [(start, 0)];
    var result: seq<string> := [];
    SearchStart(g, start, maxDepth);
    ListsStart(start);
    assert Firsts(queue) == [start];
    ghost var p := 0;
    OrderedStart(g, start);
    ghost var universe := Names(g) + {start};
    while queue != []
      invariant SearchInv(g, start, maxDepth, d, Firsts(queue)) && Lists(start, d, result) && seen == d.Keys
      invariant forall i :: 0 <= i < |queue| ==> queue[i].0 in d && d[queue[i].0] == queue[i].1
      invariant p <= |result| + 1 && ([start] + result)[p..] == Firsts(queue) && Ordered(g, [start] + result, p)
      decreases universe - seen, |queue|
    {
      var (current, depth) := queue[0];
      ghost var before := queue;
      queue := queue[1..];
      assert Firsts(before) == [current] + Firsts(queue);
      if !Below(maxDepth, depth) {
        Retire(g, start, maxDepth, d, Firsts(before));
        assert Firsts(before)[1..] == Firsts(queue);
        assert ([start] + result)[p..][1..] == ([start] + result)[p + 1..];
        ScanBegins(g, [start] + result, p);
        p := p + 1;
        continue;
      }
      ghost var known := seen;
      seen, d, queue, result := ExpandFront(g, start, maxDepth, current, depth, seen, d, queue, result, p);
      p := p + 1;
      DepthsAreModules(g, start, d);
      assert seen != known ==> universe - seen < universe - known;
    }
    assert Firsts(queue) == [];
    ListsAre(start, d, result);
    OrderedIsListing(g, start, result, p);
    forall x ensures x in result <==> x != start && exists k: nat :: AtMost(maxDepth, k) && ReachesBy(g, x, start, k) {
      SearchFinds(g, start, maxDepth, d, result, x);
    }
    forall i, j, k: nat | 0 <= i < j < |result| && ReachesBy(g, result[j], start, k)
      ensures ReachesBy(g, result[i], start, k)
    {
      NearerFirst(g, start, d, result, i, j, k);
    }
    r := Found(result);
  }

  lemma OrderedStart(g: Graph, start: string)
    ensures Ordered(g, [start] + [], 0)
  {}

  lemma OrderedIsListing(g: Graph, start: string, result: seq<string>, p: nat)
    requires Ordered(g, [start] + result, p)
    ensures forall i, j :: 0 <= i < j < |result| ==> ListedBefore(g, [start] + result, result[i], result[j])
  {
    hide ListedBefore, FirstImported;
    var list := [start] + result;
    forall i, j | 0 <= i < j < |result| ensures ListedBefore(g, list, result[i], result[j]) {
      assert ListedBefore(g, list, list[i + 1], list[j + 1]);
    }
  }

  lemma SearchFinds(g: Graph, start: string, cap: Option<int>, d: Depths, result: seq<string>, x: string)
    requires SearchInv(g, start, cap, d, []) && Lists(start, d, result)
    ensures x in result <==> x != start && exists k: nat :: AtMost(cap, k) && ReachesBy(g, x, start, k)
  {
    hide Imports, Within, ReachesBy, Expanded, Layered;
    if x in result {
      assert x in d && AtDistance(g, start, x, d[x]);
      WithinIsReachability(g, start, d[x], x);
      assert AtMost(cap, d[x]) && ReachesBy(g, x, start, d[x]);
    }
    if x != start && exists k: nat :: AtMost(cap, k) && ReachesBy(g, x, start, k) {
      var k: nat :| AtMost(cap, k) && ReachesBy(g, x, start, k);
      WithinIsReachability(g, start, k, x);
      SearchIsComplete(g, start, cap, d, k, x);
    }
  }

  lemma NearerFirst(g: Graph, start: string, d: Depths, result: seq<string>, i: nat, j: nat, k: nat)
    requires Exact(g, start, d) && ByDepth(d, result) && i < j < |result| && ReachesBy(g, result[j], start, k)
    ensures ReachesBy(g, result[i], start, k)
  {
    hide Imports, Within, ReachesBy, AtDistance;
    var x, y := result[i], result[j];
    WithinIsReachability(g, start, k, y);
    DistanceIsLeast(g, start, y, d[y], k);
    DistanceIsLeast(g, start, x, d[x], k);
    WithinIsReachability(g, start, k, x);
  }

  /* ---- the hop counts of the impact view ---- */

  /** The second search, without a cap: the distance of every module that reaches `start`. */
  method HopDepths(g: Graph, start: string) returns (depths: Depths)
    ensures forall x :: x in depths <==> exists k: nat :: ReachesBy(g, x, start, k)
    ensures forall x :: x in depths ==> AtDistance(g, start, x, depths[x])
  {
    hide Imports, AtDistance, Expanded, Layered, Within, ReachesBy, ImportersOf;
    depths := map[start := 0];
    var frontier := [start];
    SearchStart(g, start, None);
    ghost var universe := Names(g) + {start};
    while frontier != []
      invariant SearchInv(g, start, None, depths, frontier)
      decreases universe - depths.Keys, |frontier|
    {
      ghost var known := depths.Keys;
      depths, frontier := ExpandFrontier(g, start, depths, frontier);
      DepthsAreModules(g, start, depths);
      assert depths.Keys != known ==> universe - depths.Keys < universe - known;
    }
    forall x ensures x in depths <==> exists k: nat :: ReachesBy(g, x, start, k) {
      HopsFound(g, start, depths, x);
    }
  }

  method ExpandFrontier(g: Graph, ghost start: string, d0: Depths, queue0: seq<string>) returns (d: Depths, queue: seq<string>)
    requires SearchInv(g, start, None, d0, queue0) && queue0 != []
    ensures SearchInv(g, start, None, d, queue)
    ensures d0.Keys <= d.Keys && (d.Keys == d0.Keys ==> queue == queue0[1..])
  {
    hide Imports, AtDistance, Expanded, ImportersOf, SearchInv;
    FrontBound(g, start, None, d0, queue0);
    var current := queue0[0];
    d, queue := d0, queue0[1..];
    assert [current] + queue == queue0;
    var importers := ImportersOf(g, current);
    ImportersAre(g, current);
    for i := 0 to |importers|
      invariant SearchInv(g, start, None, d, [current] + queue) && current in d
      invariant d0.Keys <= d.Keys && (d.Keys == d0.Keys ==> queue == queue0[1..])
      invariant forall k :: 0 <= k < i ==> importers[k] in d && d[importers[k]] <= d[current] + 1
    {
      var z := importers[i];
      assert z in importers;
      FrontBound(g, start, None, d, [current] + queue);
      if z !in d {
        Discover(g, start, None, d, [current] + queue, z);
        assert ([current] + queue) + [z] == [current] + (queue + [z]);
        d := d[z := d[current] + 1];
        queue := queue + [z];
      }
    }
    assert forall x :: x in importers ==> x in d && d[x] <= d[current] + 1;
    AllFound(g, d, current, importers);
    Retire(g, start, None, d, [current] + queue);
    assert ([current] + queue)[1..] == queue;
  }

  lemma HopsFound(g: Graph, start: string, d: Depths, x: string)
    requires SearchInv(g, start, None, d, [])
    ensures x in d <==> exists k: nat :: ReachesBy(g, x, start, k)
  {
    hide Imports, Within, ReachesBy, Expanded, Layered;
    if x in d {
      assert AtDistance(g, start, x, d[x]);
      WithinIsReachability(g, start, d[x], x);
    }
    if exists k: nat :: ReachesBy(g, x, start, k) {
      var k: nat :| ReachesBy(g, x, start, k);
      WithinIsReachability(g, start, k, x);
      SearchIsComplete(g, start, None, d, k, x);
    }
  }

  /** The impact view: the lookup of every listed module succeeds, its hop count is its
      distance, at least 1 and never above the cap. */
  method ImpactOf(g: Graph, start: string, maxDepth: Option<int>) returns (r: Found, hops: seq<nat>)
    requires maxDepth.Some? ==> maxDepth.value >= 0
    ensures r.Found? && |hops| == |r.modules|
    ensures forall i :: 0 <= i < |hops| ==>
              hops[i] >= 1 && AtMost(maxDepth, hops[i]) && AtDistance(g, start, r.modules[i], hops[i])
    ensures forall i, j :: 0 <= i < j < |hops| ==> hops[i] <= hops[j]
  {
    hide AtDistance, ReachesBy, Within, Distinct;
    r := TransitiveImporters(g, start, maxDepth);
    var depths := HopDepths(g, start);
    hops := [];
    for i := 0 to |r.modules|
      invariant |hops| == i
      invariant forall k :: 0 <= k < i ==>
                  hops[k] >= 1 && AtMost(maxDepth, hops[k]) && AtDistance(g, start, r.modules[k], hops[k])
    {
      var item := r.modules[i];
      assert item in r.modules;
      ghost var k: nat :| AtMost(maxDepth, k) && ReachesBy(g, item, start, k);
      HopWithinCap(g, start, maxDepth, item, depths[item], k);
      hops := hops + [depths[item]];
    }
    forall i, j | 0 <= i < j < |hops| ensures hops[i] <= hops[j] {
      DistanceIsReach(g, start, r.modules[j], hops[j]);
      assert ReachesBy(g, r.modules[i], start, hops[j]);
      HopLeast(g, start, r.modules[i], hops[i], hops[j]);
    }
  }

  lemma DistanceIsReach(g: Graph, start: string, x: string, n: nat)
    requires AtDistance(g, start, x, n)
    ensures ReachesBy(g, x, start, n)
  {
    WithinIsReachability(g, start, n, x);
  }

  lemma HopLeast(g: Graph, start: string, x: string, n: nat, k: nat)
    requires AtDistance(g, start, x, n) && ReachesBy(g, x, start, k)
    ensures n <= k
  {
    WithinIsReachability(g, start, k, x);
    DistanceIsLeast(g, start, x, n, k);
  }

  lemma HopWithinCap(g: Graph, start: string, cap: Option<int>, x: string, n: nat, k: nat)
    requires AtDistance(g, start, x, n) && AtMost(cap, k) && ReachesBy(g, x, start, k) && x != start
    ensures n >= 1 && AtMost(cap, n)
  {
    HopLeast(g, start, x, n, k);
  }
}
