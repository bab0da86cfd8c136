/** Resolution of LLM profiles to their fallback chain, on possibly cyclic graphs, and
    the calls made along it. */
module FallbackChain {
  import opened Sequences
  import opened Options

  /** Registered profiles with their declared fallbacks. */
  type Registry = map<string, seq<string>>

  datatype Resolved = Names(list: seq<string>) | Unknown(name: string)

  function SetOf(s: seq<string>): set<string> { set x | x in s }

  /* ---- the loop of the source: one pending list, fallbacks pushed in front ---- */

  function Resolve(reg: Registry, pending: seq<string>, names: seq<string>): Resolved
    decreases reg.Keys - SetOf(names), |pending|
  {
    if pending == [] then Names(names)
    else
      var current := pending[0];
      if current in names then Resolve(reg, pending[1..], names)
      else if current !in reg then Unknown(current)
      else
        assert current in reg.Keys - SetOf(names) && current !in reg.Keys - SetOf(names + [current]);
        Resolve(reg, reg[current] + pending[1..], names + [current])
  }

  method ResolveNames(reg: Registry, profile: string, additional: seq<string>) returns (r: Resolved)
    ensures r == Resolve(reg, [profile] + additional, [])
  {
    var names: seq<string> := [];
    var pending := [profile] + additional;
    while pending != []
      invariant Resolve(reg, [profile] + additional, []) == Resolve(reg, pending, names)
      decreases reg.Keys - SetOf(names), |pending|
    {
      var current := pending[0];
      pending := pending[1..];
      if current in names { continue; }
      if current !in reg { return Unknown(current); }
      assert current in reg.Keys - SetOf(names) && current !in reg.Keys - SetOf(names + [current]);
      names := names + [current];
      pending := reg[current] + pending;
    }
    r := Names(names);
  }

  /* ---- the reference: recursive depth-first preorder ---- */

  /** Visit the roots in order; a new profile is listed, then its fallbacks are visited
      completely before the next root. */
  function Preorder(reg: Registry, roots: seq<string>, visited: seq<string>): (r: Resolved)
    ensures r.Names? ==> visited <= r.list
    decreases reg.Keys - SetOf(visited), |roots|
  {
    if roots == [] then Names(visited)
    else if roots[0] in visited then Preorder(reg, roots[1..], visited)
    else if roots[0] !in reg then Unknown(roots[0])
    else
      var x := roots[0];
      assert x in reg.Keys - SetOf(visited) && x !in reg.Keys - SetOf(visited + [x]);
      match Preorder(reg, reg[x], visited + [x])
      case Unknown(n) => Unknown(n)
      case Names(after) =>
        assert SetOf(visited + [x]) <= SetOf(after);
        assert x in SetOf(after);
        Preorder(reg, roots[1..], after)
  }

  /** Resolving a concatenation is resolving the parts one after the other. */
  lemma {:induction false} ResolveConcat(reg: Registry, a: seq<string>, b: seq<string>, names: seq<string>)
    ensures Resolve(reg, a + b, names) ==
            match Resolve(reg, a, names)
            case Unknown(n) => Unknown(n)
            case Names(after) => Resolve(reg, b, after)
    decreases reg.Keys - SetOf(names), |a|
  {
    if a == [] {
      assert a + b == b;
    } else {
      var x := a[0];
      assert (a + b)[0] == x && (a + b)[1..] == a[1..] + b;
      if x in names {
        ResolveConcat(reg, a[1..], b, names);
      } else if x in reg {
        assert x in reg.Keys - SetOf(names) && x !in reg.Keys - SetOf(names + [x]);
        ResolveConcat(reg, reg[x] + a[1..], b, names + [x]);
        assert reg[x] + (a[1..] + b) == (reg[x] + a[1..]) + b;
      }
    }
  }

  lemma {:induction false} ResolveExtends(reg: Registry, pending: seq<string>, names: seq<string>)
    ensures Resolve(reg, pending, names).Names? ==> names <= Resolve(reg, pending, names).list
    decreases reg.Keys - SetOf(names), |pending|
  {
    if pending != [] {
      var x := pending[0];
      if x in names {
        ResolveExtends(reg, pending[1..], names);
      } else if x in reg {
        assert x in reg.Keys - SetOf(names) && x !in reg.Keys - SetOf(names + [x]);
        ResolveExtends(reg, reg[x] + pending[1..], names + [x]);
      }
    }
  }

  /** The stack loop computes the recursive depth-first preorder. */
  lemma {:induction false} LoopIsPreorder(reg: Registry, roots: seq<string>, names: seq<string>)
    ensures Resolve(reg, roots, names) == Preorder(reg, roots, names)
    decreases reg.Keys - SetOf(names), |roots|
  {
    if roots != [] {
      var x := roots[0];
      if x in names {
        LoopIsPreorder(reg, roots[1..], names);
      } else if x in reg {
        assert x in reg.Keys - SetOf(names) && x !in reg.Keys - SetOf(names + [x]);
        LoopIsPreorder(reg, reg[x], names + [x]);
        ResolveConcat(reg, reg[x], roots[1..], names + [x]);
        var inner := Resolve(reg, reg[x], names + [x]);
        if inner.Names? {
          ResolveExtends(reg, reg[x], names + [x]);
          assert SetOf(names + [x]) <= SetOf(inner.list);
          assert x in SetOf(inner.list);
          LoopIsPreorder(reg, roots[1..], inner.list);
        }
      }
    }
  }

  /** The chain of the first candidate alone is a prefix of the chain of all candidates. */
  lemma FirstChainIsPrefix(reg: Registry, first: string, additional: seq<string>)
    requires Resolve(reg, [first] + additional, []).Names?
    ensures Resolve(reg, [first], []).Names?
    ensures Resolve(reg, [first], []).list <= Resolve(reg, [first] + additional, []).list
  {
    ResolveConcat(reg, [first], additional, []);
    ResolveExtends(reg, additional, Resolve(reg, [first], []).list);
  }

  /* ---- what is listed ---- */

  /** A chain of declared fallbacks. */
  predicate IsPath(reg: Registry, p: seq<string>) {
    p != [] && forall i :: 0 <= i < |p| - 1 ==> p[i] in reg && p[i + 1] in reg[p[i]]
  }

  ghost predicate Reachable(reg: Registry, roots: seq<string>, x: string) {
    exists p :: IsPath(reg, p) && p[0] in roots && p[|p| - 1] == x
  }

  /** What the loop keeps: everything known is reachable, and every fallback of a listed
      profile is listed or pending. */
  ghost predicate LoopInv(reg: Registry, roots: seq<string>, pending: seq<string>, names: seq<string>) {
    Distinct(names) &&
    (forall x :: x in names ==> x in reg && Reachable(reg, roots, x)) &&
    (forall x :: x in pending ==> Reachable(reg, roots, x)) &&
    (forall x :: x in roots ==> x in names || x in pending) &&
    (forall x, y :: x in names && x in reg && y in reg[x] ==> y in names || y in pending)
  }

  lemma ReachStep(reg: Registry, roots: seq<string>, x: string, y: string)
    requires Reachable(reg, roots, x) && x in reg && y in reg[x]
    ensures Reachable(reg, roots, y)
  {
    var p :| IsPath(reg, p) && p[0] in roots && p[|p| - 1] == x;
    var q := p + [y];
    assert IsPath(reg, q) by {
      forall i | 0 <= i < |q| - 1 ensures q[i] in reg && q[i + 1] in reg[q[i]] {
        if i < |p| - 1 { assert p[i + 1] in reg[p[i]]; }
      }
    }
  }

  lemma InvSkip(reg: Registry, roots: seq<string>, pending: seq<string>, names: seq<string>)
    requires LoopInv(reg, roots, pending, names) && pending != [] && pending[0] in names
    ensures LoopInv(reg, roots, pending[1..], names)
  {
    hide Reachable;
    assert pending == [pending[0]] + pending[1..];
  }

  lemma InvVisit(reg: Registry, roots: seq<string>, pending: seq<string>, names: seq<string>)
    requires LoopInv(reg, roots, pending, names) && pending != [] && pending[0] !in names && pending[0] in reg
    ensures LoopInv(reg, roots, reg[pending[0]] + pending[1..], names + [pending[0]])
  {
    hide Reachable;
    var x := pending[0];
    assert pending == [x] + pending[1..];
    forall y | y in reg[x] ensures Reachable(reg, roots, y) { ReachStep(reg, roots, x, y); }
  }

  lemma {:induction false} ResolveFacts(reg: Registry, roots: seq<string>, pending: seq<string>, names: seq<string>)
    requires LoopInv(reg, roots, pending, names)
    ensures var r := Resolve(reg, pending, names);
            (r.Names? ==> LoopInv(reg, roots, [], r.list)) &&
            (r.Unknown? ==> r.name !in reg && Reachable(reg, roots, r.name))
    decreases reg.Keys - SetOf(names), |pending|
  {
    hide LoopInv, Reachable;
    if pending != [] {
      var x := pending[0];
      if x in names {
        InvSkip(reg, roots, pending, names);
        ResolveFacts(reg, roots, pending[1..], names);
      } else if x in reg {
        InvVisit(reg, roots, pending, names);
        assert x in reg.Keys - SetOf(names) && x !in reg.Keys - SetOf(names + [x]);
        ResolveFacts(reg, roots, reg[x] + pending[1..], names + [x]);
      } else {
        PendingReachable(reg, roots, pending, names);
      }
    }
  }

  lemma PendingReachable(reg: Registry, roots: seq<string>, pending: seq<string>, names: seq<string>)
    requires LoopInv(reg, roots, pending, names) && pending != []
    ensures Reachable(reg, roots, pending[0])
  {}

  lemma InvStart(reg: Registry, roots: seq<string>)
    ensures LoopInv(reg, roots, roots, [])
  {
    forall x | x in roots ensures Reachable(reg, roots, x) {
      assert IsPath(reg, [x]) && [x][0] in roots && [x][|[x]| - 1] == x;
    }
  }

  lemma {:induction false} ClosedUnderPaths(reg: Registry, roots: seq<string>, names: seq<string>, p: seq<string>)
    requires LoopInv(reg, roots, [], names) && IsPath(reg, p) && p[0] in roots
    ensures p[|p| - 1] in names
    decreases |p|
  {
    hide Reachable;
    if |p| > 1 {
      var q := p[..|p| - 1];
      assert IsPath(reg, q);
      ClosedUnderPaths(reg, roots, names, q);
      assert p[|p| - 2 + 1] in reg[p[|p| - 2]];
    }
  }

  /** The resolved list holds each reachable profile exactly once; resolution fails exactly
      when some reachable name is not registered. */
  lemma ResolvedAreReachable(reg: Registry, roots: seq<string>)
    ensures var r := Resolve(reg, roots, []);
            (r.Names? ==> Distinct(r.list) && forall x :: x in r.list <==> Reachable(reg, roots, x)) &&
            (r.Unknown? <==> exists x :: Reachable(reg, roots, x) && x !in reg)
  {
    InvStart(reg, roots);
    ResolveFacts(reg, roots, roots, []);
    var r := Resolve(reg, roots, []);
    if r.Names? {
      forall x | Reachable(reg, roots, x) ensures x in r.list {
        var p :| IsPath(reg, p) && p[0] in roots && p[|p| - 1] == x;
        ClosedUnderPaths(reg, roots, r.list, p);
      }
    }
  }

  /* ---- calling along the chain ---- */

  datatype Attempt = Answer(text: string) | Retryable(error: string) | Fatal(error: string)

  datatype Reply = Replied(text: string) | Raised(error: string) | NoSuchProfile(name: string)

  /** `tried` are the profiles asked, in order: all but the last failed with a retryable error. */
  predicate TriedInOrder(names: seq<string>, attempt: string -> Attempt, tried: seq<string>) {
    tried <= names && forall i :: 0 <= i < |tried| - 1 ==> attempt(tried[i]).Retryable?
  }

  method Chat(reg: Registry, profile: string, additional: seq<string>, attempt: string -> Attempt)
    returns (r: Reply, tried: seq<string>)
    ensures var names := Resolve(reg, [profile] + additional, []);
            (r.NoSuchProfile? <==> names.Unknown?) && (names.Unknown? ==> tried == []) &&
            (names.Names? ==>
               tried != [] && Distinct(tried) && TriedInOrder(names.list, attempt, tried) &&
               match attempt(tried[|tried| - 1])
               case Answer(t) => r == Replied(t)
               case Fatal(e) => r == Raised(e)
               case Retryable(e) => r == Raised(e) && tried == names.list)
  {
    var names := ResolveNames(reg, profile, additional);
    tried := [];
    if names.Unknown? { return NoSuchProfile(names.name), tried; }
    ResolvedAreReachable(reg, [profile] + additional);
    var lastError: Option<string> := None;
    for i := 0 to |names.list|
      invariant tried == names.list[..i]
      invariant forall k :: 0 <= k < i ==> attempt(names.list[k]).Retryable?
      invariant i > 0 ==> lastError == Some(attempt(names.list[i - 1]).error)
    {
      var name := names.list[i];
      tried := tried + [name];
      match attempt(name)
      case Answer(t) => return Replied(t), tried;
      case Fatal(e) => return Raised(e), tried;
      case Retryable(e) => lastError := Some(e);
    }
    assert profile in names.list by { FirstIsListed(reg, profile, additional); }
    r := Raised(lastError.value);
  }

  lemma FirstIsListed(reg: Registry, profile: string, additional: seq<string>)
    requires Resolve(reg, [profile] + additional, []).Names?
    ensures profile in Resolve(reg, [profile] + additional, []).list
  {
    ResolvedAreReachable(reg, [profile] + additional);
    assert IsPath(reg, [profile]) && [profile][0] in [profile] + additional;
  }
}
