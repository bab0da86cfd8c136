/** Middle-of-history compaction: the tail boundary walk, the cut, and the trimming
    of oversized tool output. */
module Compaction {
  import opened Sequences
  import opened History
  import opened Options
  import opened ProviderShape

  /* ---- id sets, as the boundary walk collects them (empty ids are ignored) ---- */

  function UseIdSet(m: Message): set<string> {
    if m.content.PlainText? then {}
    else set b | b in m.content.blocks && b.ToolUse? && b.id != "" :: b.id
  }

  function ResultIdSet(m: Message): set<string> {
    if m.content.PlainText? then {}
    else set b | b in m.content.blocks && b.ToolResult? && b.toolUseId != "" :: b.toolUseId
  }

  predicate HasToolResult(m: Message) { ResultIdSet(m) != {} }

  predicate HasToolContent(m: Message) { UseIdSet(m) != {} || ResultIdSet(m) != {} }

  function Needed(h: seq<Message>): set<string> {
    if h == [] then {} else ResultIdSet(h[0]) + Needed(h[1..])
  }

  function Provided(h: seq<Message>): set<string> {
    if h == [] then {} else UseIdSet(h[0]) + Provided(h[1..])
  }

  /** No kept result refers to a call outside the kept tail. */
  predicate Closed(h: seq<Message>, start: nat)
    requires start <= |h|
  {
    Needed(h[start..]) <= Provided(h[start..])
  }

  predicate NoOrphans(h: seq<Message>) { Needed(h) <= Provided(h) }

  /* ---- the same block by block ---- */

  predicate Calls(m: Message, id: string) {
    m.content.Blocks? && exists i :: 0 <= i < |m.content.blocks| && m.content.blocks[i].ToolUse? && m.content.blocks[i].id == id
  }

  predicate AnswersCall(m: Message, id: string) {
    m.content.Blocks? &&
    exists i :: 0 <= i < |m.content.blocks| && m.content.blocks[i].ToolResult? && m.content.blocks[i].toolUseId == id
  }

  lemma IdSetsAre(m: Message, id: string)
    ensures id in UseIdSet(m) <==> id != "" && Calls(m, id)
    ensures id in ResultIdSet(m) <==> id != "" && AnswersCall(m, id)
  {
    if m.content.Blocks? {
      if Calls(m, id) {
        var i :| 0 <= i < |m.content.blocks| && m.content.blocks[i].ToolUse? && m.content.blocks[i].id == id;
        assert m.content.blocks[i] in m.content.blocks;
      }
      if AnswersCall(m, id) {
        var i :| 0 <= i < |m.content.blocks| && m.content.blocks[i].ToolResult? && m.content.blocks[i].toolUseId == id;
        assert m.content.blocks[i] in m.content.blocks;
      }
    }
  }

  lemma {:induction false} NeededAre(h: seq<Message>, id: string)
    ensures id in Needed(h) <==> exists i :: 0 <= i < |h| && id in ResultIdSet(h[i])
    ensures id in Provided(h) <==> exists i :: 0 <= i < |h| && id in UseIdSet(h[i])
  {
    hide ResultIdSet, UseIdSet;
    if h != [] {
      NeededAre(h[1..], id);
      assert forall i :: 0 < i < |h| ==> h[i] == h[1..][i - 1];
      assert forall i :: 0 <= i < |h| - 1 ==> h[1..][i] == h[i + 1];
    }
  }

  predicate SomeCalls(h: seq<Message>, id: string) { exists i :: 0 <= i < |h| && Calls(h[i], id) }

  predicate SomeAnswers(h: seq<Message>, id: string) { exists i :: 0 <= i < |h| && AnswersCall(h[i], id) }

  /** Every result block with an id has a call block with that id. */
  ghost predicate EveryResultCalled(h: seq<Message>) {
    forall id :: id != "" && SomeAnswers(h, id) ==> SomeCalls(h, id)
  }

  lemma NeededMeans(h: seq<Message>, id: string)
    ensures id in Needed(h) <==> id != "" && SomeAnswers(h, id)
    ensures id in Provided(h) <==> id != "" && SomeCalls(h, id)
  {
    hide ResultIdSet, UseIdSet, Needed, Provided, Calls, AnswersCall;
    NeededAre(h, id);
    forall i | 0 <= i < |h|
      ensures id in ResultIdSet(h[i]) <==> id != "" && AnswersCall(h[i], id)
      ensures id in UseIdSet(h[i]) <==> id != "" && Calls(h[i], id)
    {
      IdSetsAre(h[i], id);
    }
  }

  lemma NoOrphansMeans(h: seq<Message>)
    ensures NoOrphans(h) <==> EveryResultCalled(h)
  {
    hide Needed, Provided, SomeCalls, SomeAnswers;
    forall id
      ensures id in Needed(h) <==> id != "" && SomeAnswers(h, id)
      ensures id in Provided(h) <==> id != "" && SomeCalls(h, id)
    {
      NeededMeans(h, id);
    }
  }

  /** A message with no call and no result block that has an id. */
  predicate Plain(m: Message) {
    m.content.PlainText? ||
    forall i :: 0 <= i < |m.content.blocks| ==>
      (m.content.blocks[i].ToolUse? ==> m.content.blocks[i].id == "") &&
      (m.content.blocks[i].ToolResult? ==> m.content.blocks[i].toolUseId == "")
  }

  lemma PlainMeans(m: Message)
    ensures Plain(m) <==> !HasToolContent(m)
  {
    if m.content.Blocks? {
      forall i | 0 <= i < |m.content.blocks|
        ensures m.content.blocks[i].ToolUse? && m.content.blocks[i].id != "" ==> m.content.blocks[i].id in UseIdSet(m)
        ensures m.content.blocks[i].ToolResult? && m.content.blocks[i].toolUseId != "" ==>
                  m.content.blocks[i].toolUseId in ResultIdSet(m)
      {
        assert m.content.blocks[i] in m.content.blocks;
      }
    }
  }

  /* ---- the boundary walk ---- */

  method ExpandToGroupBoundary(h: seq<Message>, anchor: nat) returns (start: nat)
    requires anchor <= |h|
    ensures start <= anchor
    ensures start == 0 || Closed(h, start)
    ensures forall k :: start < k <= anchor ==> !Closed(h, k)
  {
    hide UseIdSet, ResultIdSet;
    start := anchor;
    var needed: set<string> := {};
    var provided: set<string> := {};
    for i := start to |h|
      invariant needed + Needed(h[i..]) == Needed(h[start..])
      invariant provided + Provided(h[i..]) == Provided(h[start..])
    {
      assert h[i..][1..] == h[i + 1..];
      needed := needed + ResultIdSet(h[i]);
      provided := provided + UseIdSet(h[i]);
    }
    while start > 0 && !(needed <= provided)
      invariant start <= anchor
      invariant needed == Needed(h[start..]) && provided == Provided(h[start..])
      invariant forall k :: start < k <= anchor ==> !Closed(h, k)
    {
      start := start - 1;
      assert h[start..][1..] == h[start + 1..];
      needed := needed + ResultIdSet(h[start]);
      provided := provided + UseIdSet(h[start]);
    }
  }

  /** The walk's answer is determined by its contract: greatest closed start, or 0. */
  function Boundary(h: seq<Message>, anchor: nat): (start: nat)
    requires anchor <= |h|
    ensures start <= anchor
    ensures start == 0 || Closed(h, start)
    ensures forall k :: start < k <= anchor ==> !Closed(h, k)
  {
    if anchor == 0 || Closed(h, anchor) then anchor else Boundary(h, anchor - 1)
  }

  /* ---- where the protected tail begins ---- */

  datatype Settings = Settings(keepLast: nat, tailBudget: Option<real>, maxResultChars: Option<nat>,
                               outputBudget: Option<nat>)

  function ResultIndices(h: seq<Message>, n: nat): (idx: seq<nat>)
    requires n <= |h|
    ensures forall i :: 0 <= i < |idx| ==> idx[i] < n && HasToolResult(h[idx[i]])
  {
    if n == 0 then []
    else ResultIndices(h, n - 1) + (if HasToolResult(h[n - 1]) then [n - 1] else [])
  }

  /** Newest results first, while both the count and the token budget allow. */
  function SelectTail(h: seq<Message>, idx: seq<nat>, cost: Message -> int, keep: nat, allowed: real,
                      total: int, last: Option<nat>): (r: Option<nat>)
    requires forall i :: 0 <= i < |idx| ==> idx[i] < |h|
    requires last.Some? ==> last.value < |h|
    ensures r.Some? ==> r.value < |h|
    decreases |idx|
  {
    if idx == [] || keep == 0 then last
    else
      var k := idx[|idx| - 1];
      if (total + cost(h[k])) as real > allowed then last
      else SelectTail(h, idx[..|idx| - 1], cost, keep - 1, allowed, total + cost(h[k]), Some(k))
  }

  function Anchor(h: seq<Message>, s: Settings, cost: Message -> int): (a: nat)
    requires h != [] && s.keepLast > 0
    ensures a < |h|
  {
    var idx := ResultIndices(h, |h|);
    if s.tailBudget.Some? then
      var r := SelectTail(h, idx, cost, s.keepLast, s.tailBudget.value, 0, None);
      if r.Some? then r.value else |h| - 1
    else if |idx| >= s.keepLast then idx[|idx| - s.keepLast]
    else if idx != [] then idx[0]
    else |h| - 1
  }

  function TailStart(h: seq<Message>, s: Settings, cost: Message -> int): (t: nat)
    requires h != []
    ensures t <= |h|
    ensures t == 0 || Closed(h, t)
  {
    if s.keepLast == 0 then (assert h[|h|..] == []; |h|)
    else
      var a := Anchor(h, s, cost);
      Boundary(h, if a == 0 then 0 else a - 1)
  }

  /* ---- what the anchor is ---- */

  lemma {:induction false} ResultIndicesAre(h: seq<Message>, n: nat)
    requires n <= |h|
    ensures var idx := ResultIndices(h, n);
            (forall i, j :: 0 <= i < j < |idx| ==> idx[i] < idx[j]) &&
            (forall k: nat :: k < n && HasToolResult(h[k]) ==> k in idx)
  {
    hide HasToolResult;
    if n > 0 { ResultIndicesAre(h, n - 1); }
  }

  /** The cost of the newest `m` results. */
  function NewestCost(h: seq<Message>, idx: seq<nat>, cost: Message -> int, m: nat): int
    requires m <= |idx| && forall i :: 0 <= i < |idx| ==> idx[i] < |h|
  {
    if m == 0 then 0 else NewestCost(h, idx, cost, m - 1) + cost(h[idx[|idx| - m]])
  }

  /** The newest `n` results, none of which breaks the budget when taken newest first. */
  predicate FitsBudget(h: seq<Message>, idx: seq<nat>, cost: Message -> int, keep: nat, allowed: real, n: nat)
    requires forall i :: 0 <= i < |idx| ==> idx[i] < |h|
  {
    n <= keep && n <= |idx| &&
    forall m :: 0 < m <= n ==> NewestCost(h, idx, cost, m) as real <= allowed
  }

  /** How many results the protected tail is anchored on: the longest run of newest results,
      at most `keepLast` of them, that fits the budget if there is one. */
  predicate Protected(h: seq<Message>, s: Settings, cost: Message -> int, n: nat) {
    var idx := ResultIndices(h, |h|);
    n <= s.keepLast && n <= |idx| &&
    (s.tailBudget.Some? ==> FitsBudget(h, idx, cost, s.keepLast, s.tailBudget.value, n)) &&
    (n < s.keepLast && n < |idx| ==>
       s.tailBudget.Some? && NewestCost(h, idx, cost, n + 1) as real > s.tailBudget.value)
  }

  function OldestOf(h: seq<Message>, n: nat): nat
    requires h != []
  {
    var idx := ResultIndices(h, |h|);
    if n == 0 || n > |idx| then |h| - 1 else idx[|idx| - n]
  }

  lemma {:induction false} SelectTailTakes(h: seq<Message>, idx: seq<nat>, cost: Message -> int, keep: nat,
                                           allowed: real, j: nat) returns (n: nat)
    requires forall i :: 0 <= i < |idx| ==> idx[i] < |h|
    requires FitsBudget(h, idx, cost, keep, allowed, j)
    ensures FitsBudget(h, idx, cost, keep, allowed, n)
    ensures n < keep && n < |idx| ==> NewestCost(h, idx, cost, n + 1) as real > allowed
    ensures SelectTail(h, idx[..|idx| - j], cost, keep - j, allowed, NewestCost(h, idx, cost, j),
                       if j == 0 then None else Some(idx[|idx| - j])) ==
            if n == 0 then None else Some(idx[|idx| - n])
    decreases |idx| - j
  {
    n := j;
    if j < |idx| && j < keep && NewestCost(h, idx, cost, j + 1) as real <= allowed {
      assert idx[..|idx| - j][..|idx| - (j + 1)] == idx[..|idx| - (j + 1)];
      n := SelectTailTakes(h, idx, cost, keep, allowed, j + 1);
    }
  }

  /** The anchor is the oldest of the protected results, or the last message without any. */
  lemma AnchorMeaning(h: seq<Message>, s: Settings, cost: Message -> int) returns (n: nat)
    requires h != [] && s.keepLast > 0
    ensures Protected(h, s, cost, n) && Anchor(h, s, cost) == OldestOf(h, n)
  {
    hide HasToolResult;
    var idx := ResultIndices(h, |h|);
    if s.tailBudget.Some? {
      n := SelectTailTakes(h, idx, cost, s.keepLast, s.tailBudget.value, 0);
      assert idx[..|idx| - 0] == idx;
    } else {
      n := if |idx| >= s.keepLast then s.keepLast else |idx|;
    }
  }

  method FindAnchor(h: seq<Message>, s: Settings, cost: Message -> int) returns (a: nat)
    requires h != [] && s.keepLast > 0
    ensures a == Anchor(h, s, cost)
    ensures exists n: nat :: Protected(h, s, cost, n) && a == OldestOf(h, n)
  {
    hide HasToolResult, Protected, OldestOf, ResultIndices;
    ghost var count := AnchorMeaning(h, s, cost);
    assert Protected(h, s, cost, count) && Anchor(h, s, cost) == OldestOf(h, count);
    var idx := ResultIndices(h, |h|);
    if s.tailBudget.Some? {
      var allowed := s.tailBudget.value;
      var selected: seq<nat> := [];
      var total := 0;
      var i := |idx|;
      assert idx[..i] == idx;
      while i > 0
        invariant 0 <= i <= |idx| && |selected| <= s.keepLast
        invariant forall k :: 0 <= k < |selected| ==> selected[k] < |h|
        invariant SelectTail(h, idx, cost, s.keepLast, allowed, 0, None) ==
                  SelectTail(h, idx[..i], cost, s.keepLast - |selected|, allowed, total,
                             if selected == [] then None else Some(selected[|selected| - 1]))
      {
        if |selected| >= s.keepLast { break; }
        var k := idx[i - 1];
        var c := cost(h[k]);
        assert idx[..i][..i - 1] == idx[..i - 1];
        if (total + c) as real > allowed { break; }
        selected := selected + [k];
        total := total + c;
        i := i - 1;
      }
      a := if selected != [] then selected[|selected| - 1] else |h| - 1;
    } else if |idx| >= s.keepLast {
      a := idx[|idx| - s.keepLast];
    } else if idx != [] {
      a := idx[0];
    } else {
      a := |h| - 1;
    }
  }

  method FindTailStart(h: seq<Message>, s: Settings, cost: Message -> int) returns (t: nat)
    requires h != []
    ensures t == TailStart(h, s, cost)
    ensures s.keepLast == 0 ==> t == |h|
    ensures s.keepLast > 0 ==>
              var a := Anchor(h, s, cost);
              t <= a && (t == 0 || (t < a && Closed(h, t))) && forall k :: t < k < a ==> !Closed(h, k)
  {
    hide Closed, Anchor;
    if s.keepLast == 0 { return |h|; }
    var a := FindAnchor(h, s, cost);
    t := ExpandToGroupBoundary(h, if a == 0 then 0 else a - 1);
  }

  /* ---- trimming tool output in place of ids ---- */

  predicate SameBlock(a: Block, b: Block) {
    a == b || (a.ToolResult? && b.ToolResult? && b == a.(output := b.output))
  }

  predicate SameMessage(a: Message, b: Message) {
    a.role == b.role &&
    match (a.content, b.content)
    case (PlainText(s), PlainText(t)) => s == t
    case (Blocks(x), Blocks(y)) => |x| == |y| && forall i :: 0 <= i < |x| ==> SameBlock(x[i], y[i])
    case _ => false
  }

  /** The two histories differ at most in the text of tool results. */
  predicate SameShape(a: seq<Message>, b: seq<Message>) {
    |a| == |b| && forall i :: 0 <= i < |a| ==> SameMessage(a[i], b[i])
  }

  function TrimBlock(b: Block, limit: nat, compress: (string, nat) -> string): Block {
    if b.ToolResult? && |b.output| > limit then b.(output := compress(b.output, limit)) else b
  }

  function TrimMessage(m: Message, limit: nat, compress: (string, nat) -> string): (r: Message)
    ensures SameMessage(m, r)
  {
    if m.content.PlainText? then m
    else m.(content := Blocks(seq(|m.content.blocks|,
              i requires 0 <= i < |m.content.blocks| => TrimBlock(m.content.blocks[i], limit, compress))))
  }

  /** Exactly the results longer than the limit are compressed. */
  predicate Trimmed(m: Message, now: Message, limit: nat, compress: (string, nat) -> string) {
    now.role == m.role &&
    if m.content.PlainText? then now.content == m.content
    else
      now.content.Blocks? && |now.content.blocks| == |m.content.blocks| &&
      forall i :: 0 <= i < |m.content.blocks| ==>
        var b, c := m.content.blocks[i], now.content.blocks[i];
        if b.ToolResult? && |b.output| > limit
        then c.ToolResult? && c.toolUseId == b.toolUseId && c.isError == b.isError && c.output == compress(b.output, limit)
        else c == b
  }

  method TruncateOversized(h: seq<Message>, limit: Option<nat>, compress: (string, nat) -> string)
    returns (out: seq<Message>)
    ensures SameShape(h, out)
    ensures limit.None? ==> out == h
    ensures limit.Some? ==>
              forall i :: 0 <= i < |h| ==> out[i] == TrimMessage(h[i], limit.value, compress)
    ensures limit.Some? ==> forall i :: 0 <= i < |h| ==> Trimmed(h[i], out[i], limit.value, compress)
  {
    if limit.None? { return h; }
    out := [];
    for i := 0 to |h|
      invariant |out| == i
      invariant forall k :: 0 <= k < i ==> out[k] == TrimMessage(h[k], limit.value, compress)
    {
      out := out + [TrimMessage(h[i], limit.value, compress)];
    }
  }

  /** Positions of all tool-result texts, oldest first. */
  function OutputBlocks(h: seq<Message>, n: nat): (r: seq<(nat, nat)>)
    requires n <= |h|
    ensures forall k :: 0 <= k < |r| ==> IsOutput(h, r[k].0, r[k].1)
  {
    if n == 0 then []
    else OutputBlocks(h, n - 1) +
         (if h[n - 1].content.PlainText? then []
          else OutputsOfMessage(h, n - 1, |h[n - 1].content.blocks|))
  }

  function OutputsOfMessage(h: seq<Message>, mi: nat, n: nat): (r: seq<(nat, nat)>)
    requires mi < |h| && h[mi].content.Blocks? && n <= |h[mi].content.blocks|
    ensures forall k :: 0 <= k < |r| ==> IsOutput(h, r[k].0, r[k].1)
  {
    if n == 0 then []
    else OutputsOfMessage(h, mi, n - 1) +
         (if h[mi].content.blocks[n - 1].ToolResult? then [(mi, n - 1)] else [])
  }

  predicate IsOutput(h: seq<Message>, mi: nat, bi: nat) {
    mi < |h| && h[mi].content.Blocks? && bi < |h[mi].content.blocks| &&
    h[mi].content.blocks[bi].ToolResult?
  }

  function TotalChars(h: seq<Message>, at: seq<(nat, nat)>): nat
    requires forall k :: 0 <= k < |at| ==> IsOutput(h, at[k].0, at[k].1)
  {
    if at == [] then 0
    else
      assert IsOutput(h, at[0].0, at[0].1);
      |h[at[0].0].content.blocks[at[0].1].output| + TotalChars(h, at[1..])
  }

  function OutputAt(h: seq<Message>, p: (nat, nat)): string
    requires IsOutput(h, p.0, p.1)
  {
    h[p.0].content.blocks[p.1].output
  }

  predicate AreOutputs(h: seq<Message>, at: seq<(nat, nat)>) {
    forall k :: 0 <= k < |at| ==> IsOutput(h, at[k].0, at[k].1)
  }

  lemma {:induction false} MessageOutputsDistinct(h: seq<Message>, mi: nat, n: nat)
    requires mi < |h| && h[mi].content.Blocks? && n <= |h[mi].content.blocks|
    ensures Distinct(OutputsOfMessage(h, mi, n))
    ensures forall p :: p in OutputsOfMessage(h, mi, n) ==> p.0 == mi && p.1 < n
  {
    if n > 0 { MessageOutputsDistinct(h, mi, n - 1); }
  }

  lemma DistinctJoin(a: seq<(nat, nat)>, b: seq<(nat, nat)>, n: nat)
    requires Distinct(a) && Distinct(b) && (forall p :: p in a ==> p.0 < n) && forall p :: p in b ==> p.0 == n
    ensures Distinct(a + b) && forall p :: p in a + b ==> p.0 <= n
  {
    var all: seq<(nat, nat)> := a + b;
    forall i, j | 0 <= i < j < |all| ensures all[i] != all[j] {
      if i < |a| <= j { assert a[i] in a && b[j - |a|] in b; }
    }
  }

  lemma {:induction false} OutputsDistinct(h: seq<Message>, n: nat)
    requires n <= |h|
    ensures Distinct(OutputBlocks(h, n)) && forall p :: p in OutputBlocks(h, n) ==> p.0 < n
  {
    hide OutputsOfMessage, IsOutput;
    if n > 0 {
      OutputsDistinct(h, n - 1);
      if h[n - 1].content.Blocks? {
        MessageOutputsDistinct(h, n - 1, |h[n - 1].content.blocks|);
        DistinctJoin(OutputBlocks(h, n - 1), OutputsOfMessage(h, n - 1, |h[n - 1].content.blocks|), n - 1);
      } else {
        assert OutputBlocks(h, n - 1) + [] == OutputBlocks(h, n - 1);
      }
    }
  }

  /** When outputs differ at one place only, the totals differ by what changed there. */
  lemma {:induction false} TotalCharsChange(h: seq<Message>, out: seq<Message>, at: seq<(nat, nat)>, k: nat)
    requires k < |at| && AreOutputs(h, at) && AreOutputs(out, at)
    requires forall j :: 0 <= j < |at| && j != k ==> OutputAt(out, at[j]) == OutputAt(h, at[j])
    ensures TotalChars(out, at) - |OutputAt(out, at[k])| == TotalChars(h, at) - |OutputAt(h, at[k])|
    decreases |at|
  {
    if k == 0 {
      SameOutputsSameTotal(h, out, at[1..]);
    } else {
      TotalCharsChange(h, out, at[1..], k - 1);
      assert OutputAt(out, at[0]) == OutputAt(h, at[0]);
    }
  }

  lemma {:induction false} SameOutputsSameTotal(h: seq<Message>, out: seq<Message>, at: seq<(nat, nat)>)
    requires AreOutputs(h, at) && AreOutputs(out, at)
    requires forall j :: 0 <= j < |at| ==> OutputAt(out, at[j]) == OutputAt(h, at[j])
    ensures TotalChars(out, at) == TotalChars(h, at)
  {
    if at != [] {
      SameOutputsSameTotal(h, out, at[1..]);
      assert OutputAt(out, at[0]) == OutputAt(h, at[0]);
    }
  }

  lemma SameShapeOutputs(h: seq<Message>, out: seq<Message>, at: seq<(nat, nat)>)
    requires SameShape(h, out) && AreOutputs(h, at)
    ensures AreOutputs(out, at)
  {
    forall k | 0 <= k < |at| ensures IsOutput(out, at[k].0, at[k].1) {
      assert IsOutput(h, at[k].0, at[k].1);
      assert SameMessage(h[at[k].0], out[at[k].0]);
      assert SameBlock(h[at[k].0].content.blocks[at[k].1], out[at[k].0].content.blocks[at[k].1]);
    }
  }

  /** The text of one output is replaced, everything else stays. */
  function WithOutput(h: seq<Message>, p: (nat, nat), text: string): seq<Message>
    requires IsOutput(h, p.0, p.1)
  {
    var blocks := h[p.0].content.blocks;
    h[p.0 := h[p.0].(content := Blocks(blocks[p.1 := blocks[p.1].(output := text)]))]
  }

  lemma WithOutputChanges(h: seq<Message>, out: seq<Message>, p: (nat, nat), text: string, at: seq<(nat, nat)>)
    requires SameShape(h, out) && AreOutputs(h, at) && p in at
    ensures IsOutput(out, p.0, p.1) && SameShape(h, WithOutput(out, p, text)) && AreOutputs(out, at)
    ensures AreOutputs(WithOutput(out, p, text), at)
    ensures forall q :: q in at ==>
              IsOutput(WithOutput(out, p, text), q.0, q.1) && IsOutput(out, q.0, q.1) &&
              OutputAt(WithOutput(out, p, text), q) == if q == p then text else OutputAt(out, q)
  {
    SameShapeOutputs(h, out, at);
    var k :| 0 <= k < |at| && at[k] == p;
    assert IsOutput(out, at[k].0, at[k].1) && IsOutput(h, at[k].0, at[k].1);
    var next := WithOutput(out, p, text);
    assert SameMessage(h[p.0], out[p.0]) && SameBlock(h[p.0].content.blocks[p.1], out[p.0].content.blocks[p.1]);
    forall i | 0 <= i < |h| ensures SameMessage(h[i], next[i]) {
      assert SameMessage(h[i], out[i]);
    }
    SameShapeOutputs(h, next, at);
  }

  /** One output after the budget pass: kept, or compressed to a target of 100 or more. */
  predicate Shortened(text: string, now: string, compress: (string, nat) -> string, excess: int) {
    var spare := |text| - excess;
    var target := if spare > 100 then spare else 100;
    now == if target < |text| then compress(text, target) else text
  }

  ghost predicate ShortenedOutput(text: string, now: string, compress: (string, nat) -> string) {
    exists excess: int :: excess > 0 && Shortened(text, now, compress, excess)
  }

  /** The oldest `n` outputs are shortened, each by what was still in excess, the newer ones
      are kept whole; the pass stops as soon as the outputs fit. */
  ghost predicate OldestShortened(h: seq<Message>, out: seq<Message>, allowed: nat, compress: (string, nat) -> string, n: nat) {
    var at := OutputBlocks(h, |h|);
    n <= |at| && AreOutputs(out, at) &&
    (forall k :: n <= k < |at| ==> OutputAt(out, at[k]) == OutputAt(h, at[k])) &&
    (forall k :: 0 <= k < n ==> ShortenedOutput(OutputAt(h, at[k]), OutputAt(out, at[k]), compress)) &&
    (n < |at| ==> TotalChars(out, at) <= allowed) &&
    (n > 0 ==> TotalChars(out, at) - |OutputAt(out, at[n - 1])| + |OutputAt(h, at[n - 1])| > allowed)
  }

  method ReduceToBudget(h: seq<Message>, allowed: nat, compress: (string, nat) -> string)
    returns (out: seq<Message>, ghost n: nat)
    ensures SameShape(h, out) && OldestShortened(h, out, allowed, compress, n)
    ensures TotalChars(h, OutputBlocks(h, |h|)) <= allowed ==> out == h
  {
    hide OutputBlocks, TotalChars, SameShape, ShortenedOutput, WithOutput;
    var at := OutputBlocks(h, |h|);
    OutputsDistinct(h, |h|);
    var total := TotalChars(h, at);
    out, n := h, 0;
    SameAsItself(h);
    if total <= allowed { return; }
    var remaining: int := total;
    var k := 0;
    while k < |at| && remaining > allowed
      invariant 0 <= k <= |at| && SameShape(h, out) && AreOutputs(out, at) && remaining == TotalChars(out, at)
      invariant forall j :: k <= j < |at| ==> OutputAt(out, at[j]) == OutputAt(h, at[j])
      invariant forall j :: 0 <= j < k ==> ShortenedOutput(OutputAt(h, at[j]), OutputAt(out, at[j]), compress)
      invariant k > 0 ==> remaining - |OutputAt(out, at[k - 1])| + |OutputAt(h, at[k - 1])| > allowed
    {
      var text := OutputAt(out, at[k]);
      var spare := |text| - (remaining - allowed);
      var target := if spare > 100 then spare else 100;
      ghost var before := out;
      var now := if target < |text| then compress(text, target) else text;
      WithOutputChanges(h, out, at[k], now, at);
      ShortenedNow(text, now, compress, remaining - allowed);
      out := WithOutput(out, at[k], now);
      forall j | 0 <= j < |at| ensures OutputAt(out, at[j]) == if j == k then now else OutputAt(before, at[j]) {
        assert at[j] in at && (j != k ==> at[j] != at[k]);
      }
      TotalCharsChange(before, out, at, k);
      remaining := remaining - (|text| - |now|);
      k := k + 1;
    }
    n := k;
  }

  lemma SameAsItself(h: seq<Message>)
    ensures SameShape(h, h)
  {}

  lemma ShortenedNow(text: string, now: string, compress: (string, nat) -> string, excess: int)
    requires excess > 0
    requires var spare := |text| - excess;
             var target := if spare > 100 then spare else 100;
             now == if target < |text| then compress(text, target) else text
    ensures ShortenedOutput(text, now, compress)
  {
    assert Shortened(text, now, compress, excess);
  }

  /* ---- compaction ---- */

  function Cut(h: seq<Message>, tail: nat, note: string): seq<Message>
    requires h != [] && tail <= |h|
  {
    var head := HeadEnd(h, tail);
    if tail <= head then h
    else h[..head] + [Message(User, PlainText(note))] + h[tail..]
  }

  function HeadEnd(h: seq<Message>, tail: nat): nat
    requires h != []
  {
    if tail > 0 && !HasToolContent(h[0]) then 1 else 0
  }

  /** What a cut keeps: a plain first message, the tail, and nothing else but the note. */
  lemma CutKeepsTask(h: seq<Message>, tail: nat, note: string)
    requires h != [] && tail <= |h|
    ensures Plain(h[0]) && tail > 1 ==>
              Cut(h, tail, note) == [h[0], Message(User, PlainText(note))] + h[tail..]
    ensures !Plain(h[0]) && tail > 0 ==> Cut(h, tail, note) == [Message(User, PlainText(note))] + h[tail..]
    ensures tail == 0 || (Plain(h[0]) && tail == 1) ==> Cut(h, tail, note) == h
  {
    hide Plain;
    PlainMeans(h[0]);
  }

  /** What stands for the messages that are cut out. */
  function Note(h: seq<Message>, tail: nat, describe: seq<Message> -> string): string
    requires h != [] && tail <= |h|
  {
    if tail <= HeadEnd(h, tail) then "" else describe(h[HeadEnd(h, tail)..tail])
  }

  /** The history with its middle cut out, up to the protected tail. */
  function CutToTail(h: seq<Message>, s: Settings, cost: Message -> int, describe: seq<Message> -> string): seq<Message>
    requires h != []
  {
    var tail := TailStart(h, s, cost);
    Cut(h, tail, Note(h, tail, describe))
  }

  /** Outputs are trimmed, and at most the middle is cut out. */
  predicate CompactedFrom(h: seq<Message>, s: Settings, cost: Message -> int, describe: seq<Message> -> string,
                          out: seq<Message>) {
    !SameShape(h, out) ==> |h| > 2 && SameShape(CutToTail(h, s, cost, describe), out)
  }

  /** With the output budget met and more than two messages the middle is always cut. */
  method Compact(h: seq<Message>, s: Settings, cost: Message -> int,
                 compress: (string, nat) -> string, describe: seq<Message> -> string)
    returns (out: seq<Message>)
    ensures CompactedFrom(h, s, cost, describe, out)
    ensures |h| > 2 && (s.outputBudget.Some? ==> TotalChars(h, OutputBlocks(h, |h|)) <= s.outputBudget.value) ==>
              SameShape(CutToTail(h, s, cost, describe), out)
  {
    hide SameMessage, TrimMessage, Closed, Anchor, Boundary, OutputBlocks, TotalChars;
    if s.outputBudget.Some? {
      ghost var count;
      var reduced;
      reduced, count := ReduceToBudget(h, s.outputBudget.value, compress);
      if reduced != h { return reduced; }
    }
    if |h| <= 2 {
      out := TruncateOversized(h, s.maxResultChars, compress);
      return;
    }
    var tail := FindTailStart(h, s, cost);
    var head := HeadEnd(h, tail);
    if tail <= head {
      out := TruncateOversized(h, s.maxResultChars, compress);
      return;
    }
    var kept := h[..head] + [Message(User, PlainText(describe(h[head..tail])))] + h[tail..];
    out := TruncateOversized(kept, s.maxResultChars, compress);
  }

  /** A compaction that removes messages leaves no orphan result, even from a corrupted
      history; a well-formed history with distinct ids stays one; a boundary of 0 removes
      nothing. */
  lemma CompactionIsSafe(h: seq<Message>, s: Settings, cost: Message -> int, describe: seq<Message> -> string,
                         out: seq<Message>)
    requires CompactedFrom(h, s, cost, describe, out)
    ensures !SameShape(h, out) ==> NoOrphans(out) && EveryResultCalled(out)
    ensures NamedIds(h) && WellFormed(h) && DistinctCalls(h) ==>
              WellFormed(out) && DistinctCalls(out) && NamedIds(out)
    ensures (forall m :: m in h ==> AgentShaped(m)) ==> forall m :: m in out ==> AgentShaped(m)
    ensures h != [] && TailStart(h, s, cost) == 0 ==> SameShape(h, out)
  {
    hide SameMessage, WellFormed, DistinctCalls, NamedIds, NoOrphans, Closed, TailStart, AgentShaped, HeadEnd, EveryResultCalled;
    NoOrphansMeans(out);
    if SameShape(h, out) {
      SameShapeKeepsAll(h, out);
    } else {
      var tail, kept := TailStart(h, s, cost), CutToTail(h, s, cost, describe);
      var note := Note(h, tail, describe);
      SameShapeKeepsAll(kept, out);
      if tail > HeadEnd(h, tail) {
        CutLeavesNoOrphans(h, tail, note);
        CutIsShaped(h, tail, note);
        if NamedIds(h) && WellFormed(h) && DistinctCalls(h) { CutKeepsWellFormed(h, tail, note); }
      }
    }
  }

  lemma CutIsShaped(h: seq<Message>, tail: nat, note: string)
    requires h != [] && tail <= |h|
    ensures (forall m :: m in h ==> AgentShaped(m)) ==> forall m :: m in Cut(h, tail, note) ==> AgentShaped(m)
  {}

  /** Every call id is a non-empty string. */
  predicate NamedIds(h: seq<Message>) {
    "" !in CallIds(Tokens(h))
  }

  /* ---- trimming does not touch ids ---- */

  lemma {:induction false} SameBlocksKeepIds(x: seq<Block>, y: seq<Block>)
    requires |x| == |y| && forall i :: 0 <= i < |x| ==> SameBlock(x[i], y[i])
    ensures UseIds(x) == UseIds(y) && ResultIds(x) == ResultIds(y)
  {
    if x != [] {
      assert SameBlock(x[0], y[0]);
      SameBlocksKeepIds(x[1..], y[1..]);
    }
  }

  lemma SameBlocksMatch(x: seq<Block>, y: seq<Block>)
    requires |x| == |y| && forall i :: 0 <= i < |x| ==> SameBlock(x[i], y[i])
    ensures forall p :: p in x ==> exists q :: q in y && SameBlock(p, q)
    ensures forall q :: q in y ==> exists p :: p in x && SameBlock(p, q)
  {
    forall p | p in x ensures exists q :: q in y && SameBlock(p, q) {
      var i :| 0 <= i < |x| && x[i] == p;
      assert y[i] in y && SameBlock(x[i], y[i]);
    }
    forall q | q in y ensures exists p :: p in x && SameBlock(p, q) {
      var i :| 0 <= i < |y| && y[i] == q;
      assert x[i] in x && SameBlock(x[i], y[i]);
    }
  }

  lemma SameMessageKeepsTokens(a: Message, b: Message)
    requires SameMessage(a, b)
    ensures MessageTokens(a) == MessageTokens(b)
  {
    if a.content.Blocks? {
      var x, y := a.content.blocks, b.content.blocks;
      SameBlocksKeepIds(x, y);
      SameBlocksMatch(x, y);
      assert HasExtras(x) == HasExtras(y);
    }
  }

  lemma SameMessageKeepsIdSets(a: Message, b: Message)
    requires SameMessage(a, b)
    ensures UseIdSet(a) == UseIdSet(b) && ResultIdSet(a) == ResultIdSet(b)
    ensures AgentShaped(a) ==> AgentShaped(b)
  {
    if a.content.Blocks? {
      SameBlocksMatch(a.content.blocks, b.content.blocks);
    }
  }

  lemma {:induction false} SameShapeKeepsTokens(a: seq<Message>, b: seq<Message>)
    requires SameShape(a, b)
    ensures Tokens(a) == Tokens(b) && Needed(a) == Needed(b) && Provided(a) == Provided(b)
  {
    if a != [] {
      SameMessageKeepsTokens(a[0], b[0]);
      SameMessageKeepsIdSets(a[0], b[0]);
      assert SameShape(a[1..], b[1..]);
      SameShapeKeepsTokens(a[1..], b[1..]);
    }
  }

  /** Trimming output keeps everything a provider or the boundary walk looks at. */
  lemma SameShapeKeepsAll(a: seq<Message>, b: seq<Message>)
    requires SameShape(a, b)
    ensures Tokens(a) == Tokens(b) && (NoOrphans(a) <==> NoOrphans(b))
    ensures (WellFormed(a) <==> WellFormed(b)) && (DistinctCalls(a) <==> DistinctCalls(b)) && (NamedIds(a) <==> NamedIds(b))
    ensures (forall m :: m in a ==> AgentShaped(m)) ==> forall m :: m in b ==> AgentShaped(m)
  {
    SameShapeKeepsTokens(a, b);
    if forall m :: m in a ==> AgentShaped(m) {
      forall i | 0 <= i < |b| ensures AgentShaped(b[i]) {
        assert a[i] in a;
        SameMessageKeepsIdSets(a[i], b[i]);
      }
    }
  }

  /* ---- orphans: any history, also a corrupted one ---- */

  lemma {:induction false} NeededConcat(a: seq<Message>, b: seq<Message>)
    ensures Needed(a + b) == Needed(a) + Needed(b)
    ensures Provided(a + b) == Provided(a) + Provided(b)
  {
    if a == [] {
      assert a + b == b;
    } else {
      NeededConcat(a[1..], b);
      assert (a + b)[1..] == a[1..] + b && (a + b)[0] == a[0];
    }
  }

  lemma CutLeavesNoOrphans(h: seq<Message>, tail: nat, note: string)
    requires h != [] && tail <= |h|
    requires tail == 0 || Closed(h, tail)
    ensures Cut(h, tail, note) == h || NoOrphans(Cut(h, tail, note))
  {
    var head := HeadEnd(h, tail);
    if tail > head {
      var front := h[..head] + [Message(User, PlainText(note))];
      assert Needed(front) == {} by {
        NeededConcat(h[..head], [Message(User, PlainText(note))]);
        assert Needed(h[..head]) == {} by {
          if head == 1 { assert h[..1] == [h[0]]; assert Needed([h[0]]) == ResultIdSet(h[0]) + Needed([]); }
        }
        assert Needed([Message(User, PlainText(note))]) == {} + Needed([]);
      }
      NeededConcat(front, h[tail..]);
    }
  }

  /* ---- well-formed histories ---- */

  lemma {:induction false} UseIdsAre(blocks: seq<Block>, id: string)
    ensures id in UseIds(blocks) <==> exists b :: b in blocks && b.ToolUse? && b.id == id
  {
    if blocks != [] {
      UseIdsAre(blocks[1..], id);
      assert blocks == [blocks[0]] + blocks[1..];
    }
  }

  lemma {:induction false} ResultIdsAre(blocks: seq<Block>, id: string)
    ensures id in ResultIds(blocks) <==> exists b :: b in blocks && b.ToolResult? && b.toolUseId == id
  {
    if blocks != [] {
      ResultIdsAre(blocks[1..], id);
      assert blocks == [blocks[0]] + blocks[1..];
    }
  }

  lemma {:induction false} NoCallsInResults(ids: seq<string>)
    ensures CallIds(ResultTokens(ids)) == []
  {
    if ids != [] {
      NoCallsInResults(ids[1..]);
      assert ResultTokens(ids)[1..] == ResultTokens(ids[1..]);
    }
  }

  lemma MessageCallIds(m: Message)
    ensures CallIds(MessageTokens(m)) == (if m.content.Blocks? then UseIds(m.content.blocks) else [])
  {
    if m.content.Blocks? {
      var bs := m.content.blocks;
      NoCallsInResults(ResultIds(bs));
      var tail := if UseIds(bs) != [] then [Uses(UseIds(bs))]
                  else if ResultIds(bs) == [] || HasExtras(bs) then [Turn] else [];
      CallIdsConcat(ResultTokens(ResultIds(bs)), tail);
      if tail != [] { assert CallIds(tail) == (if tail[0].Uses? then tail[0].ids else []) + CallIds([]); }
    }
  }

  /** The walk's "provided" set lists the non-empty call ids of the tail. */
  lemma {:induction false} ProvidedAreCalls(h: seq<Message>, id: string)
    requires id != ""
    ensures id in Provided(h) <==> id in CallIds(Tokens(h))
  {
    if h != [] {
      ProvidedAreCalls(h[1..], id);
      CallIdsConcat(MessageTokens(h[0]), Tokens(h[1..]));
      MessageCallIds(h[0]);
      if h[0].content.Blocks? { UseIdsAre(h[0].content.blocks, id); }
    }
  }

  /** A non-empty result id at the front of the tail is needed by the tail. */
  lemma LeadingResultIsNeeded(h: seq<Message>)
    requires h != [] && MessageTokens(h[0])[..1] != [] && MessageTokens(h[0])[0].Result?
    requires MessageTokens(h[0])[0].id != ""
    ensures MessageTokens(h[0])[0].id in Needed(h)
  {
    var bs := h[0].content.blocks;
    ResultIdsAre(bs, ResultIds(bs)[0]);
  }

  lemma MessageHasTokens(m: Message)
    ensures MessageTokens(m) != []
  {
    if m.content.Blocks? && UseIds(m.content.blocks) == [] && ResultIds(m.content.blocks) != [] {
      assert |ResultTokens(ResultIds(m.content.blocks))| > 0;
    }
  }

  /** The first message kept by a cut is not a tool result. */
  predicate StartsOutsideGroup(h: seq<Message>, tail: nat)
    requires tail <= |h|
  {
    tail == |h| || (MessageHasTokens(h[tail]); !MessageTokens(h[tail])[0].Result?)
  }

  lemma TailDebt(h: seq<Message>, tail: nat)
    requires WellFormed(h) && tail <= |h|
    ensures After(h[..tail]).Owed?
    ensures Scan(After(h[..tail]), Tokens(h[tail..])) == SETTLED
    ensures StartsOutsideGroup(h, tail) <==> WellFormed(h[..tail])
  {
    assert h[..tail] + h[tail..] == h;
    AfterConcat(h[..tail], h[tail..]);
    if After(h[..tail]).Broken? { ScanBroken(Tokens(h[tail..])); }
    if tail < |h| {
      MessageHasTokens(h[tail]);
      assert Tokens(h[tail..])[0] == MessageTokens(h[tail])[0];
      ScanBroken(Tokens(h[tail..])[1..]);
    }
  }

  /** A plain head and the note are ordinary turns. */
  lemma FrontIsTurns(h: seq<Message>, tail: nat, note: string)
    requires h != [] && tail <= |h| && tail > HeadEnd(h, tail)
    requires WellFormed(h) && NamedIds(h)
    ensures After(h[..HeadEnd(h, tail)] + [Message(User, PlainText(note))]) == SETTLED
    ensures CallIds(Tokens(h[..HeadEnd(h, tail)] + [Message(User, PlainText(note))])) == []
  {
    var m := Message(User, PlainText(note));
    var front := h[..HeadEnd(h, tail)];
    if HeadEnd(h, tail) == 1 {
      PlainHead(h);
      assert front == [h[0]];
      assert Tokens([h[0]]) == MessageTokens(h[0]) + Tokens([]);
      assert Tokens(front) == [Turn];
    }
    assert Tokens(front) == [] || Tokens(front) == [Turn];
    AfterAppend(front, m);
    TokensConcat(front, [m]);
    assert Tokens([m]) == [Turn] + Tokens([]);
    CallIdsConcat(Tokens(front), Tokens([m]));
    assert CallIds([Turn]) == [] + CallIds([]);
    assert Scan(SETTLED, [Turn]) == Scan(SETTLED, []);
  }

  lemma HeadUsesNamed(h: seq<Message>)
    requires h != [] && NamedIds(h) && h[0].content.Blocks?
    ensures "" !in UseIds(h[0].content.blocks)
  {
    hide MessageTokens, UseIds, CallIds;
    CallIdsConcat(MessageTokens(h[0]), Tokens(h[1..]));
    MessageCallIds(h[0]);
    assert CallIds(Tokens(h)) == UseIds(h[0].content.blocks) + CallIds(Tokens(h[1..]));
  }

  lemma HeadIsNoResult(h: seq<Message>)
    requires h != [] && WellFormed(h)
    ensures MessageTokens(h[0]) != [] && !MessageTokens(h[0])[0].Result?
  {
    hide MessageTokens;
    MessageHasTokens(h[0]);
    assert Tokens(h)[0] == MessageTokens(h[0])[0];
    ScanBroken(Tokens(h)[1..]);
  }

  lemma PlainTokens(m: Message)
    requires MessageTokens(m) != [] && !MessageTokens(m)[0].Result?
    requires m.content.Blocks? ==> UseIds(m.content.blocks) == []
    ensures MessageTokens(m) == [Turn]
  {
    hide UseIds, ResultIds;
    if m.content.Blocks? { ResultsComeFirst(m); }
  }

  lemma ResultsComeFirst(m: Message)
    requires m.content.Blocks?
    ensures ResultIds(m.content.blocks) != [] ==> MessageTokens(m) != [] && MessageTokens(m)[0].Result?
  {}

  lemma PlainHead(h: seq<Message>)
    requires h != [] && !HasToolContent(h[0]) && WellFormed(h) && NamedIds(h)
    ensures MessageTokens(h[0]) == [Turn]
  {
    hide MessageTokens, WellFormed, NamedIds, UseIds, UseIdSet, ResultIdSet;
    HeadIsNoResult(h);
    if h[0].content.Blocks? {
      HeadUsesNamed(h);
      NamedUses(h[0]);
    }
    PlainTokens(h[0]);
  }

  lemma NamedUses(m: Message)
    requires m.content.Blocks? && "" !in UseIds(m.content.blocks)
    ensures UseIds(m.content.blocks) == [] || UseIdSet(m) != {}
  {
    var ids := UseIds(m.content.blocks);
    if ids != [] {
      UseIdsAre(m.content.blocks, ids[0]);
      assert ids[0] in UseIdSet(m);
    }
  }

  /** For a well-formed history a cut is well formed exactly when it does not start
      inside a group of results; what the code tests is only that the tail is closed. */
  lemma CutWellFormedIff(h: seq<Message>, tail: nat, note: string)
    requires h != [] && tail <= |h| && tail > HeadEnd(h, tail)
    requires WellFormed(h) && NamedIds(h)
    ensures WellFormed(Cut(h, tail, note)) <==> StartsOutsideGroup(h, tail)
  {
    var front := h[..HeadEnd(h, tail)] + [Message(User, PlainText(note))];
    FrontIsTurns(h, tail, note);
    AfterConcat(front, h[tail..]);
    TailDebt(h, tail);
    if tail < |h| {
      MessageHasTokens(h[tail]);
      assert Tokens(h[tail..])[0] == MessageTokens(h[tail])[0];
      if MessageTokens(h[tail])[0].Result? { ScanBroken(Tokens(h[tail..])[1..]); }
    }
  }

  /** With distinct ids a closed tail never starts inside a group. */
  lemma ClosedTailStartsOutside(h: seq<Message>, tail: nat)
    requires tail <= |h| && Closed(h, tail)
    requires WellFormed(h) && NamedIds(h) && DistinctCalls(h)
    ensures StartsOutsideGroup(h, tail)
  {
    hide MessageTokens, UseIdSet, ResultIdSet;
    TailDebt(h, tail);
    var d := After(h[..tail]);
    if tail < |h| && d.ids != [] {
      var rest := h[tail..];
      MessageHasTokens(h[tail]);
      var id := d.ids[0];
      assert Tokens(rest)[0] == MessageTokens(h[tail])[0];
      if Tokens(rest)[0] != Result(id) { ScanBroken(Tokens(rest)[1..]); }
      OwedWasCalled(SETTLED, Tokens(h[..tail]), id);
      assert h == h[..tail] + rest;
      TokensConcat(h[..tail], rest);
      CallIdsConcat(Tokens(h[..tail]), Tokens(rest));
      LeadingResultIsNeeded(rest);
      ProvidedAreCalls(rest, id);
      DistinctSplit(CallIds(Tokens(h[..tail])), CallIds(Tokens(rest)), id);
    }
  }

  lemma CallIdsSplit(a: seq<Message>, b: seq<Message>)
    ensures CallIds(Tokens(a + b)) == CallIds(Tokens(a)) + CallIds(Tokens(b))
  {
    TokensConcat(a, b);
    CallIdsConcat(Tokens(a), Tokens(b));
  }

  lemma SuffixOfDistinct(a: seq<string>, b: seq<string>)
    requires Distinct(a + b) && "" !in a + b
    ensures Distinct(b) && "" !in b
  {
    forall i, j | 0 <= i < j < |b| ensures b[i] != b[j] {
      assert (a + b)[|a| + i] != (a + b)[|a| + j];
    }
  }

  lemma CutKeepsIds(h: seq<Message>, tail: nat, note: string)
    requires h != [] && tail <= |h| && tail > HeadEnd(h, tail)
    requires WellFormed(h) && NamedIds(h) && DistinctCalls(h)
    ensures NamedIds(Cut(h, tail, note)) && DistinctCalls(Cut(h, tail, note))
  {
    hide Tokens, CallIds, HasToolContent, MessageTokens;
    FrontIsTurns(h, tail, note);
    CallIdsSplit(h[..HeadEnd(h, tail)] + [Message(User, PlainText(note))], h[tail..]);
    assert h == h[..tail] + h[tail..];
    CallIdsSplit(h[..tail], h[tail..]);
    SuffixOfDistinct(CallIds(Tokens(h[..tail])), CallIds(Tokens(h[tail..])));
  }

  /** With distinct ids, cutting at the boundary the code computes is always safe. */
  lemma CutKeepsWellFormed(h: seq<Message>, tail: nat, note: string)
    requires h != [] && tail <= |h| && (tail == 0 || Closed(h, tail))
    requires WellFormed(h) && NamedIds(h) && DistinctCalls(h)
    ensures WellFormed(Cut(h, tail, note)) && NamedIds(Cut(h, tail, note)) && DistinctCalls(Cut(h, tail, note))
  {
    if tail > HeadEnd(h, tail) {
      ClosedTailStartsOutside(h, tail);
      CutWellFormedIff(h, tail, note);
      CutKeepsIds(h, tail, note);
    }
  }

  /* ---- why distinct ids are needed ---- */

  /** Two rounds of the same two calls: the second round reuses the ids of the first. */
  function TwoRounds(task: Message, calls: Message, ra: Message, rb: Message): seq<Message> {
    [task] + (Round(calls, ra, rb) + Round(calls, ra, rb))
  }

  function Round(calls: Message, ra: Message, rb: Message): seq<Message> {
    [calls] + ([ra] + [rb])
  }

  predicate ReusesIds(task: Message, calls: Message, ra: Message, rb: Message) {
    MessageTokens(task) == [Turn] && !HasToolContent(task) &&
    MessageTokens(calls) == [Uses(["a", "b"])] && ResultIdSet(calls) == {} && UseIdSet(calls) == {"a", "b"} &&
    MessageTokens(ra) == [Result("a")] && ResultIdSet(ra) == {"a"} && UseIdSet(ra) == {} &&
    MessageTokens(rb) == [Result("b")] && ResultIdSet(rb) == {"b"} && UseIdSet(rb) == {}
  }

  lemma OneMessage(m: Message)
    ensures Tokens([m]) == MessageTokens(m)
    ensures Needed([m]) == ResultIdSet(m) && Provided([m]) == UseIdSet(m)
  {
    assert Tokens([m]) == MessageTokens(m) + Tokens([]);
    assert Needed([m]) == ResultIdSet(m) + Needed([]);
    assert Provided([m]) == UseIdSet(m) + Provided([]);
  }

  lemma RoundFacts(task: Message, calls: Message, ra: Message, rb: Message)
    requires ReusesIds(task, calls, ra, rb)
    ensures Tokens(Round(calls, ra, rb)) == [Uses(["a", "b"]), Result("a"), Result("b")]
    ensures Needed([ra] + [rb]) == {"a", "b"} && Provided([ra] + [rb]) == {}
    ensures Needed(Round(calls, ra, rb)) == {"a", "b"} == Provided(Round(calls, ra, rb))
  {
    OneMessage(calls);
    OneMessage(ra);
    OneMessage(rb);
    TokensConcat([ra], [rb]);
    TokensConcat([calls], [ra] + [rb]);
    NeededConcat([ra], [rb]);
    NeededConcat([calls], [ra] + [rb]);
  }

  lemma RoundSettles(d: Debt)
    requires d == SETTLED
    ensures Scan(d, [Uses(["a", "b"]), Result("a"), Result("b")]) == SETTLED
    ensures CallIds([Uses(["a", "b"]), Result("a"), Result("b")]) == ["a", "b"]
  {
    var r := [Uses(["a", "b"]), Result("a"), Result("b")];
    assert r[1..] == [Result("a"), Result("b")] && r[1..][1..] == [Result("b")] && r[1..][1..][1..] == [];
    assert Step(Owed(["a", "b"]), Result("a")) == Owed(["b"]);
    assert Step(Owed(["b"]), Result("b")) == SETTLED;
    assert CallIds(r) == ["a", "b"] + ([] + ([] + CallIds([])));
  }

  lemma TwoRoundsAreWellFormed(task: Message, calls: Message, ra: Message, rb: Message)
    requires ReusesIds(task, calls, ra, rb)
    ensures WellFormed(TwoRounds(task, calls, ra, rb)) && NamedIds(TwoRounds(task, calls, ra, rb))
  {
    hide MessageTokens;
    var round := Round(calls, ra, rb);
    RoundFacts(task, calls, ra, rb);
    RoundSettles(SETTLED);
    OneMessage(task);
    TokensConcat([task], round + round);
    TokensConcat(round, round);
    ScanConcat(SETTLED, Tokens(round), Tokens(round));
    ScanConcat(SETTLED, [Turn], Tokens(round) + Tokens(round));
    CallIdsConcat([Turn], Tokens(round) + Tokens(round));
    CallIdsConcat(Tokens(round), Tokens(round));
  }

  lemma TwoRoundsIndices(h: seq<Message>)
    requires |h| == 7 && HasToolResult(h[2]) && HasToolResult(h[3]) && HasToolResult(h[5]) && HasToolResult(h[6])
    requires !HasToolResult(h[0]) && !HasToolResult(h[1]) && !HasToolResult(h[4])
    ensures ResultIndices(h, 7) == [2, 3, 5, 6]
  {
    assert ResultIndices(h, 1) == ResultIndices(h, 0);
    assert ResultIndices(h, 2) == ResultIndices(h, 1);
    assert ResultIndices(h, 3) == ResultIndices(h, 2) + [2];
    assert ResultIndices(h, 4) == ResultIndices(h, 3) + [3];
    assert ResultIndices(h, 5) == ResultIndices(h, 4);
    assert ResultIndices(h, 6) == ResultIndices(h, 5) + [5];
    assert ResultIndices(h, 7) == ResultIndices(h, 6) + [6];
  }

  lemma TwoRoundsClosed(task: Message, calls: Message, ra: Message, rb: Message)
    requires ReusesIds(task, calls, ra, rb)
    ensures |TwoRounds(task, calls, ra, rb)| == 7 && Closed(TwoRounds(task, calls, ra, rb), 2)
  {
    var h := TwoRounds(task, calls, ra, rb);
    var round := Round(calls, ra, rb);
    assert h[2..] == ([ra] + [rb]) + round;
    RoundFacts(task, calls, ra, rb);
    NeededConcat([ra] + [rb], round);
  }

  lemma TwoRoundsTail(task: Message, calls: Message, ra: Message, rb: Message, cost: Message -> int)
    requires ReusesIds(task, calls, ra, rb)
    ensures TailStart(TwoRounds(task, calls, ra, rb), Settings(3, None, None, None), cost) == 2
  {
    var h := TwoRounds(task, calls, ra, rb);
    assert h == [task, calls, ra, rb, calls, ra, rb];
    TwoRoundsIndices(h);
    TwoRoundsClosed(task, calls, ra, rb);
    assert Anchor(h, Settings(3, None, None, None), cost) == 3;
  }

  /** When a later turn uses the ids of an earlier one, the tail the code computes can
      begin inside a group of results: the walk accepts it as closed, and a provider
      rejects the compacted history. */
  lemma ReusedIdsSplitAGroup(task: Message, calls: Message, ra: Message, rb: Message,
                             cost: Message -> int, note: string)
    requires ReusesIds(task, calls, ra, rb)
    ensures var h, s := TwoRounds(task, calls, ra, rb), Settings(3, None, None, None);
            WellFormed(h) && NamedIds(h) && TailStart(h, s, cost) == 2 && !WellFormed(Cut(h, 2, note))
  {
    hide MessageTokens, TailStart;
    var h := TwoRounds(task, calls, ra, rb);
    TwoRoundsAreWellFormed(task, calls, ra, rb);
    TwoRoundsTail(task, calls, ra, rb, cost);
    assert h == [task, calls, ra, rb, calls, ra, rb];
    CutWellFormedIff(h, 2, note);
  }

  /** Such messages exist. */
  lemma SomeHistoryReusesIds()
    returns (task: Message, calls: Message, ra: Message, rb: Message)
    ensures ReusesIds(task, calls, ra, rb)
  {
    task := Message(User, PlainText("task"));
    var us := [ToolUse("a", "tool", "{}"), ToolUse("b", "tool", "{}")];
    calls := Message(Assistant, Blocks(us));
    assert us[1..] == [ToolUse("b", "tool", "{}")] && us[1..][1..] == [];
    assert UseIds(us[1..]) == ["b"] + UseIds([]);
    assert UseIds(us) == ["a"] + UseIds(us[1..]);
    assert ResultIds(us[1..]) == [] + ResultIds([]);
    assert ResultIds(us) == [] + ResultIds(us[1..]);
    assert us[0] in us && us[1] in us;
    assert UseIds(us) == ["a", "b"] && ResultIds(us) == [];
    assert MessageTokens(calls) == ResultTokens([]) + [Uses(["a", "b"])];
    ra := OneAnswer("a");
    rb := OneAnswer("b");
  }

  lemma OneAnswer(id: string) returns (m: Message)
    requires id != ""
    ensures MessageTokens(m) == [Result(id)] && ResultIdSet(m) == {id} && UseIdSet(m) == {}
  {
    var bs := [ToolResult(id, "ok", false)];
    m := Message(User, Blocks(bs));
    assert ResultIds(bs) == [id] + ResultIds([]);
    assert UseIds(bs) == [] + UseIds([]);
  }
}
