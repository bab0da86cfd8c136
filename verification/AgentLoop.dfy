/** The agent: batches of tool calls, confirmation pauses, checkpoints and the
    tool-calling loop.  The model, gates, tools, cancellation and people are
    unconstrained inputs. */
module AgentLoop {
  import opened Sequences
  import opened History
  import opened Options
  import opened ProviderShape
  import opened ToolBatch
  import Compaction
  import Routing

  /* ---- messages the agent appends ---- */

  function ToolUses(calls: seq<Call>): (bs: seq<Block>)
    ensures |bs| == |calls|
  {
    seq(|calls|, i requires 0 <= i < |calls| => ToolUse(calls[i].id, calls[i].name, calls[i].arguments))
  }

  function AssistantMessage(text: string, calls: seq<Call>): Message {
    var blocks := (if text != "" then [Text(text)] else []) + ToolUses(calls);
    Message(Assistant, if blocks == [] then PlainText(text) else Blocks(blocks))
  }

  /** The stored reply: its text if there is any, then its calls, field by field. */
  predicate IsReply(m: Message, text: string, calls: seq<Call>) {
    m.role == Assistant &&
    (if text == "" && calls == [] then m.content == PlainText("")
     else
       var n := if text != "" then 1 else 0;
       m.content.Blocks? && |m.content.blocks| == n + |calls| &&
       (text != "" ==> m.content.blocks[0].Text? && m.content.blocks[0].text == text) &&
       forall i :: n <= i < n + |calls| ==>
         var b := m.content.blocks[i];
         b.ToolUse? && b.id == calls[i - n].id && b.name == calls[i - n].name && b.input == calls[i - n].arguments)
  }

  lemma AssistantStoresReply(text: string, calls: seq<Call>)
    ensures IsReply(AssistantMessage(text, calls), text, calls)
  {}

  function UserMessage(text: string): Message { Message(User, PlainText(text)) }

  lemma {:induction false} ToolUsesCarryIds(calls: seq<Call>)
    ensures UseIds(ToolUses(calls)) == Ids(calls) && ResultIds(ToolUses(calls)) == []
  {
    if calls != [] {
      ToolUsesCarryIds(calls[1..]);
      assert ToolUses(calls)[1..] == ToolUses(calls[1..]);
      assert Ids(calls) == [calls[0].id] + Ids(calls[1..]);
    }
  }

  lemma AssistantTokens(text: string, calls: seq<Call>)
    ensures MessageTokens(AssistantMessage(text, calls)) == if calls == [] then [Turn] else [Uses(Ids(calls))]
    ensures AgentShaped(AssistantMessage(text, calls))
  {
    ToolUsesCarryIds(calls);
    if text != "" {
      var blocks := [Text(text)] + ToolUses(calls);
      assert blocks[1..] == ToolUses(calls);
      assert UseIds(blocks) == [] + UseIds(blocks[1..]) && ResultIds(blocks) == [] + ResultIds(blocks[1..]);
      assert UseIds(blocks) == Ids(calls) && ResultIds(blocks) == [];
      assert AssistantMessage(text, calls).content == Blocks(blocks);
      assert ResultTokens([]) == [];
    } else {
      assert [] + ToolUses(calls) == ToolUses(calls);
    }
  }

  /* ---- what a history may look like between and during batches ---- */

  /** Everything before is paired; the results of `calls` are owed next, in order. */
  predicate Open(h: seq<Message>, calls: seq<Call>) {
    After(h) == Owed(Ids(calls)) && Compaction.NamedIds(h) && DistinctCalls(h) &&
    forall m :: m in h ==> AgentShaped(m)
  }

  predicate Sound(h: seq<Message>) { Open(h, []) }

  datatype Reply = Failed | Reply(text: string, calls: seq<Call>)

  /** Call ids are non-empty and new to the conversation. */
  predicate FreshReply(h: seq<Message>, r: Reply) {
    r.Reply? ==>
      Distinct(Ids(r.calls)) && "" !in Ids(r.calls) &&
      forall id :: id in Ids(r.calls) ==> id !in CallIds(Tokens(h))
  }

  lemma SoundIsWellFormed(h: seq<Message>)
    requires Sound(h)
    ensures WellFormed(h)
  {
    assert Ids([]) == [];
  }

  lemma TurnKeepsSound(h: seq<Message>, m: Message)
    requires Sound(h) && MessageTokens(m) == [Turn] && AgentShaped(m)
    ensures Sound(h + [m])
  {
    AfterAppend(h, m);
    assert [Turn][1..] == [];
    assert Scan(After(h), [Turn]) == Scan(Step(After(h), Turn), []);
    Compaction.CallIdsSplit(h, [m]);
    assert Tokens([m]) == MessageTokens(m) + Tokens([]);
    assert CallIds([Turn]) == [] + CallIds([]);
  }

  lemma DistinctJoin(a: seq<string>, b: seq<string>)
    requires Distinct(a) && Distinct(b) && forall x :: x in b ==> x !in a
    ensures Distinct(a + b)
  {
    forall i, j | 0 <= i < j < |a + b| ensures (a + b)[i] != (a + b)[j] {
      if i < |a| <= j { assert b[j - |a|] in b && a[i] in a; }
    }
  }

  lemma CallsOpenBatch(h: seq<Message>, text: string, calls: seq<Call>)
    requires Sound(h) && calls != [] && FreshReply(h, Reply(text, calls))
    ensures Open(h + [AssistantMessage(text, calls)], calls)
  {
    var m := AssistantMessage(text, calls);
    AssistantTokens(text, calls);
    AfterAppend(h, m);
    var ts := [Uses(Ids(calls))];
    assert ts[1..] == [];
    assert Scan(After(h), ts) == Scan(Step(After(h), ts[0]), []);
    Compaction.CallIdsSplit(h, [m]);
    assert Tokens([m]) == ts + Tokens([]);
    assert CallIds(ts) == Ids(calls) + CallIds([]);
    DistinctJoin(CallIds(Tokens(h)), Ids(calls));
    assert CallIds(Tokens(h + [m])) == CallIds(Tokens(h)) + Ids(calls);
    ShapedJoin(h, [m]);
  }

  lemma ShapedJoin(a: seq<Message>, b: seq<Message>)
    requires forall m :: m in a ==> AgentShaped(m)
    requires forall m :: m in b ==> AgentShaped(m)
    ensures forall m :: m in a + b ==> AgentShaped(m)
  {}

  lemma AnswersAreShaped(ms: seq<Message>, calls: seq<Call>)
    requires AnswersTo(ms, calls)
    ensures forall m :: m in ms ==> AgentShaped(m)
  {
    forall m | m in ms ensures AgentShaped(m) {
      var i :| 0 <= i < |ms| && ms[i] == m;
      assert IsAnswer(ms[i], calls[i]);
    }
  }

  lemma AnswersAdvanceBatch(h: seq<Message>, ms: seq<Message>, calls: seq<Call>, rest: seq<Call>)
    requires Open(h, calls + rest) && AnswersTo(ms, calls)
    ensures Open(h + ms, rest)
  {
    assert Ids(calls + rest) == Ids(calls) + Ids(rest);
    AnswersPayDebt(h, ms, calls, Ids(rest));
    AnswersCallNothing(ms, calls);
    Compaction.CallIdsSplit(h, ms);
    AnswersAreShaped(ms, calls);
    ShapedJoin(h, ms);
  }

  /** The ids of an open batch are distinct, being the last calls of a history with distinct ids. */
  lemma {:induction false} OpenBatchIsDistinct(d: Debt, ts: seq<Token>)
    requires d.Owed? && Scan(d, ts).Owed? && Distinct(d.ids + CallIds(ts))
    ensures Distinct(Scan(d, ts).ids)
    decreases |ts|
  {
    if ts == [] {
      assert d.ids + CallIds(ts) == d.ids;
    } else {
      var e := Step(d, ts[0]);
      if e.Broken? {
        ScanBroken(ts[1..]);
      } else {
        assert CallIds(ts) == (if ts[0].Uses? then ts[0].ids else []) + CallIds(ts[1..]);
        if ts[0].Result? {
          assert d.ids + CallIds(ts) == [d.ids[0]] + (e.ids + CallIds(ts[1..]));
          DropFirstDistinct(d.ids[0], e.ids + CallIds(ts[1..]));
        } else if ts[0].Uses? {
          assert d.ids + CallIds(ts) == e.ids + CallIds(ts[1..]);
        } else {
          assert d.ids + CallIds(ts) == e.ids + CallIds(ts[1..]);
        }
        OpenBatchIsDistinct(e, ts[1..]);
      }
    }
  }

  lemma DropFirstDistinct(x: string, s: seq<string>)
    requires Distinct([x] + s)
    ensures Distinct(s)
  {
    forall i, j | 0 <= i < j < |s| ensures s[i] != s[j] {
      assert ([x] + s)[i + 1] != ([x] + s)[j + 1];
    }
  }

  lemma OpenCallsDistinct(h: seq<Message>, calls: seq<Call>)
    requires Open(h, calls)
    ensures Distinct(Ids(calls))
  {
    assert [] + CallIds(Tokens(h)) == CallIds(Tokens(h));
    OpenBatchIsDistinct(SETTLED, Tokens(h));
  }

  /* ---- checkpoints ---- */

  datatype Checkpoint = Checkpoint(messages: seq<Message>, mode: Routing.Mode, sticky: bool, cap: int,
                                   pinned: Option<int>, pending: Option<Call>, remaining: seq<Call>)

  /** What the calls still to be answered are, as stored by a pause. */
  function Unresolved(pending: Option<Call>, remaining: seq<Call>): seq<Call> {
    if pending.None? then [] else [pending.value] + Trailing(pending.value, remaining)
  }

  predicate CapMatches(mode: Routing.Mode, cap: int, pinned: Option<int>) {
    cap == if pinned.Some? then pinned.value else Routing.ModeCap(mode)
  }

  predicate ValidCheckpoint(c: Checkpoint) {
    Open(c.messages, Unresolved(c.pending, c.remaining)) && CapMatches(c.mode, c.cap, c.pinned)
  }

  /** How one entry to the loop ended. */
  datatype End = Answered | Cancelled | OverBudget | Unproductive | Exhausted | NotVerified | ModelFailed | AwaitsHuman

  datatype Setup = Setup(parallel: bool, asynchronous: bool, system: string,
                         context: Option<Compaction.Settings>, cost: Message -> int,
                         compress: (string, nat) -> string, describe: seq<Message> -> string)

  /** A request as it was made: the system prompt and the history at that moment. */
  datatype Asked = Asked(system: string, history: seq<Message>)

  /** Every request is the translation of the history it was made from, and paired. */
  ghost predicate Faithful(requests: seq<seq<WireMessage>>, asked: seq<Asked>) {
    |requests| == |asked| &&
    forall i :: 0 <= i < |requests| ==>
      WirePaired(requests[i]) && Renders(asked[i].history, asked[i].system, requests[i])
  }

  lemma FaithfulMore(requests: seq<seq<WireMessage>>, asked: seq<Asked>, r: seq<WireMessage>, a: Asked)
    requires Faithful(requests, asked) && WirePaired(r) && Renders(a.history, a.system, r)
    ensures Faithful(requests + [r], asked + [a])
  {
    hide WirePaired, Renders;
  }

  lemma FaithfulJoin(r1: seq<seq<WireMessage>>, a1: seq<Asked>, r2: seq<seq<WireMessage>>, a2: seq<Asked>)
    requires Faithful(r1, a1) && Faithful(r2, a2)
    ensures Faithful(r1 + r2, a1 + a2)
  {
    hide WirePaired, Renders;
  }

  lemma FaithfulNothing()
    ensures Faithful([], [])
  {}

  lemma FaithfulMeans(requests: seq<seq<WireMessage>>, asked: seq<Asked>)
    requires Faithful(requests, asked)
    ensures |asked| == |requests| && (forall r :: r in requests ==> WirePaired(r)) &&
            forall i :: 0 <= i < |requests| ==> Renders(asked[i].history, asked[i].system, requests[i])
  {
    hide WirePaired, Renders;
  }

  /** `after` is `before`, possibly compacted. */
  predicate Continues(setup: Setup, before: seq<Message>, after: seq<Message>) {
    after == before ||
    (setup.context.Some? &&
     Compaction.CompactedFrom(before, setup.context.value, setup.cost, setup.describe, after))
  }

  /** `after` is `before` with messages appended and then possibly compacted. */
  ghost predicate Follows(setup: Setup, before: seq<Message>, after: seq<Message>) {
    exists grown :: before <= grown && Continues(setup, grown, after)
  }

  /** At most one request since `log`, made from `before`, possibly compacted; `now` extends
      the history it was made from. */
  predicate AsksFrom(setup: Setup, before: seq<Message>, log: seq<Asked>, asked: seq<Asked>, now: seq<Message>) {
    asked == log ||
    (|asked| == |log| + 1 && log <= asked && asked[|log|].system == setup.system &&
     Continues(setup, before, asked[|log|].history) && asked[|log|].history <= now)
  }

  lemma AsksGrow(setup: Setup, before: seq<Message>, log: seq<Asked>, asked: seq<Asked>, now: seq<Message>, more: seq<Message>)
    requires AsksFrom(setup, before, log, asked, now) && now <= more
    ensures AsksFrom(setup, before, log, asked, more)
  {
    hide Continues;
  }

  lemma AsksNothing(setup: Setup, before: seq<Message>, log: seq<Asked>, now: seq<Message>)
    ensures AsksFrom(setup, before, log, log, now)
  {}

  ghost predicate ThreadAt(setup: Setup, start: seq<Message>, log: seq<Asked>, i: nat)
    requires i < |log|
  {
    log[i].system == setup.system &&
    if i == 0 then Continues(setup, start, log[i].history) else Follows(setup, log[i - 1].history, log[i].history)
  }

  /** The requests of one entry to the loop: the first is made from `start`, each later one
      from the history of the one before it. */
  ghost predicate Thread(setup: Setup, start: seq<Message>, log: seq<Asked>) {
    forall i: nat :: i < |log| ==> ThreadAt(setup, start, log, i)
  }

  /** After `n` requests of a loop that began at `start`: `now` extends the last of them. */
  ghost predicate Threaded(setup: Setup, start: seq<Message>, first: seq<Asked>, asked: seq<Asked>, now: seq<Message>, n: nat) {
    first <= asked && |asked| == |first| + n && Thread(setup, start, asked[|first|..]) &&
    if n == 0 then now == start else asked[|asked| - 1].history <= now
  }

  lemma ThreadBegins(setup: Setup, start: seq<Message>, first: seq<Asked>)
    ensures Threaded(setup, start, first, first, start, 0)
  {
    assert first[|first|..] == [];
  }

  lemma ThreadedMeans(setup: Setup, start: seq<Message>, first: seq<Asked>, asked: seq<Asked>, now: seq<Message>, n: nat)
    requires Threaded(setup, start, first, asked, now, n)
    ensures first <= asked && |asked| == |first| + n && Thread(setup, start, asked[|first|..])
  {}

  /** One more request, made from the current history `now`. */
  lemma ThreadMore(setup: Setup, start: seq<Message>, log: seq<Asked>, now: seq<Message>, a: Asked)
    requires Thread(setup, start, log) && a.system == setup.system && Continues(setup, now, a.history)
    requires if log == [] then now == start else log[|log| - 1].history <= now
    ensures Thread(setup, start, log + [a])
  {
    hide Continues;
    var more := log + [a];
    forall i: nat | i < |more| ensures ThreadAt(setup, start, more, i) {
      if i < |log| { assert ThreadAt(setup, start, log, i); }
    }
  }

  class Agent {
    var messages: seq<Message>
    var pending: Option<Call>
    var remaining: seq<Call>
    var checkpoint: Option<Checkpoint>
    var mode: Routing.Mode
    /** The conversation has been classified or escalated to MAX. */
    var sticky: bool
    var maxIterations: int
    var pinned: Option<int>
    var cancelled: bool
    var unproductive: bool
    const setup: Setup
    /** Every request sent to the provider and every history given to the store. */
    var requests: seq<seq<WireMessage>>
    /** What each request was made from. */
    ghost var asked: seq<Asked>
    var saved: seq<seq<Message>>

    ghost predicate Valid()
      reads this
    {
      Open(messages, Unresolved(pending, remaining)) &&
      CapMatches(mode, maxIterations, pinned) &&
      (pending.Some? ==> checkpoint == Some(Snapshot())) &&
      Faithful(requests, asked) &&
      (forall h :: h in saved ==> WellFormed(h))
    }

    function Snapshot(): Checkpoint
      reads this
    {
      Checkpoint(messages, mode, sticky, maxIterations, pinned, pending, remaining)
    }

    /** An agent on a loaded conversation. */
    constructor (setup: Setup, history: seq<Message>, pinned: Option<int>)
      requires Sound(history)
      ensures Valid() && pending.None? && remaining == [] && messages == history && requests == [] && asked == [] && saved == []
      ensures this.setup == setup && mode.Max? && !sticky && this.pinned == pinned && !cancelled
    {
      this.setup := setup;
      messages, pending, remaining, checkpoint := history, None, [], None;
      mode, sticky, this.pinned := Routing.Max, false, pinned;
      maxIterations := if pinned.Some? then pinned.value else Routing.ModeCap(Routing.Max);
      cancelled, unproductive := false, false;
      requests, asked, saved := [], [], [];
    }

    /** A new agent built from a checkpoint, with its own concurrency setup. */
    constructor Restore(setup: Setup, c: Checkpoint)
      requires ValidCheckpoint(c)
      ensures Snapshot() == c && checkpoint == Some(c) && requests == [] && asked == [] && saved == []
      ensures this.setup == setup && Valid() && !cancelled
    {
      this.setup := setup;
      messages, pending, remaining := c.messages, c.pending, c.remaining;
      mode, sticky, maxIterations, pinned := c.mode, c.sticky, c.cap, c.pinned;
      cancelled, unproductive := false, false;
      checkpoint := Some(c);
      requests, asked, saved := [], [], [];
    }

    method AddToolResult(c: Call, o: Outcome)
      modifies `messages
      ensures messages == old(messages) + [ResultMessage(c, o)]
    {
      messages := messages + [ResultMessage(c, o)];
    }

    function FlavourOf(calls: seq<Call>): Flavour {
      if setup.asynchronous && !(setup.parallel && |calls| > 1) then DropsPending else KeepsPending
    }

    method Save()
      modifies `checkpoint
      ensures checkpoint == Some(Snapshot())
    {
      checkpoint := Some(Snapshot());
    }

    /** The one-by-one path of both agents. */
    method ExecuteSequential(calls: seq<Call>, fate: Call -> Fate) returns (paused: bool, anyError: bool)
      modifies `messages, `pending, `remaining, `checkpoint
      ensures var p := Execute(if setup.asynchronous then DropsPending else KeepsPending, calls, fate);
              messages == old(messages) + p.answered && paused == p.pause.Paused? &&
              (paused ==> pending == Some(p.pause.call) && remaining == p.pause.rest && checkpoint == Some(Snapshot()))
      ensures !paused ==> pending == old(pending) && remaining == old(remaining) && checkpoint == old(checkpoint)
      ensures !paused ==> (anyError <==> AnyError(calls, fate))
      ensures anyError <==> SomeFailure(messages[|old(messages)|..])
    {
      hide SomeFailure;
      anyError := false;
      var i := 0;
      while i < |calls|
        invariant 0 <= i <= |calls|
        invariant messages == old(messages) + Answers(calls[..i], fate)
        invariant forall j :: 0 <= j < i ==> !fate(calls[j]).Confirms?
        invariant pending == old(pending) && remaining == old(remaining) && checkpoint == old(checkpoint)
        invariant anyError <==> AnyError(calls[..i], fate)
      {
        var call := calls[i];
        var f := fate(call);
        if f.Confirms? {
          // the gate saves a first checkpoint, the batch refreshes it
          pending := Some(call);
          Save();
          remaining := if setup.asynchronous then calls[i + 1..] else calls[i..];
          Save();
          FirstConfirmIs(calls, fate, i);
          FailuresAreErrors(calls[..i], fate);
          assert messages[|old(messages)|..] == Answers(calls[..i], fate);
          return true, anyError;
        }
        AddToolResult(call, Settle(f));
        anyError := anyError || Settle(f).isError;
        assert calls[..i + 1] == calls[..i] + [call];
        i := i + 1;
      }
      FirstConfirmIs(calls, fate, i);
      assert calls[..i] == calls;
      FailuresAreErrors(calls, fate);
      assert messages[|old(messages)|..] == Answers(calls, fate);
      paused := false;
    }

    /** Record gated and executed results in call order. */
    method RecordInOrder(calls: seq<Call>, early: map<nat, Outcome>, executed: map<nat, Outcome>) returns (anyError: bool)
      requires forall i :: 0 <= i < |calls| ==> i in early || i in executed
      modifies `messages
      ensures messages == old(messages) + seq(|calls|, i requires 0 <= i < |calls| =>
                            ResultMessage(calls[i], if i in early then early[i] else executed[i]))
      ensures anyError <==> exists i :: 0 <= i < |calls| && (if i in early then early[i] else executed[i]).isError
      ensures anyError <==> SomeFailure(messages[|old(messages)|..])
    {
      anyError := false;
      for i := 0 to |calls|
        invariant messages == old(messages) + seq(i, k requires 0 <= k < i =>
                                ResultMessage(calls[k], if k in early then early[k] else executed[k]))
        invariant anyError <==> exists k :: 0 <= k < i && (if k in early then early[k] else executed[k]).isError
      {
        var result := if i in early then early[i] else executed[i];
        anyError := anyError || result.isError;
        AddToolResult(calls[i], result);
      }
      ghost var added := messages[|old(messages)|..];
      forall i | 0 <= i < |calls|
        ensures IsFailure(added[i]) <==> (if i in early then early[i] else executed[i]).isError
      {
        FailureIsError(calls[i], if i in early then early[i] else executed[i]);
      }
    }

    /** Asynchronous dispatch: the tools finish in any order. */
    method Gather(calls: seq<Call>, fate: Call -> Fate, waiting: seq<nat>) returns (executed: map<nat, Outcome>)
      requires forall k :: 0 <= k < |waiting| ==> waiting[k] < |calls| && fate(calls[waiting[k]]).Executes?
      ensures forall i :: i in waiting ==> i in executed && executed[i] == fate(calls[i]).result
    {
      executed := map[];
      var running: set<nat> := set i | i in waiting;
      while running != {}
        invariant forall i :: i in waiting ==> i in running || (i in executed && executed[i] == fate(calls[i]).result)
        invariant forall i :: i in running ==> i in waiting
        decreases |running|
      {
        var i: nat :| i in running;
        executed := executed[i := fate(calls[i]).result];
        running := running - {i};
      }
    }

    /** Synchronous dispatch to the bounded pool, in call order. */
    method SubmitToPool(calls: seq<Call>, fate: Call -> Fate, waiting: seq<nat>, free: nat, released: nat -> nat)
      returns (executed: map<nat, Outcome>)
      requires forall k :: 0 <= k < |waiting| ==>
                 waiting[k] < |calls| && fate(calls[waiting[k]]).Executes? && Executables(calls, fate, waiting[k]) == k
      ensures forall k :: 0 <= k < |waiting| ==>
                waiting[k] in executed && executed[waiting[k]] == PooledOutcome(calls, fate, free, released, waiting[k])
    {
      executed := map[];
      var slots := free;
      for k := 0 to |waiting|
        invariant slots + released(k) == Available(free, released, k)
        invariant forall j :: 0 <= j < k ==>
                    waiting[j] in executed && executed[waiting[j]] == PooledOutcome(calls, fate, free, released, waiting[j])
      {
        var i := waiting[k];
        slots := slots + released(k);
        var granted := slots > 0;
        if granted { slots := slots - 1; }
        executed := executed[i := if granted then fate(calls[i]).result else NO_CAPACITY];
        assert Available(free, released, k + 1) == slots + released(k + 1);
      }
    }

    /** Results are recorded in call order, so asynchronous dispatch leaves the history
        of the sequential path whatever the completion order. */
    method GatherAndRecord(calls: seq<Call>, fate: Call -> Fate, early: map<nat, Outcome>, waiting: seq<nat>)
      returns (anyError: bool)
      requires Gated(calls, fate, |calls|, early, waiting)
      modifies `messages
      ensures messages == old(messages) + Answers(calls, fate)
      ensures anyError <==> AnyError(calls, fate)
      ensures anyError <==> SomeFailure(messages[|old(messages)|..])
    {
      hide Executables, SomeFailure;
      var executed := Gather(calls, fate, waiting);
      anyError := RecordInOrder(calls, early, executed);
      assert forall i :: 0 <= i < |calls| ==>
        (if i in early then early[i] else executed[i]) == Settle(fate(calls[i]));
    }

    method PoolAndRecord(calls: seq<Call>, fate: Call -> Fate, early: map<nat, Outcome>, waiting: seq<nat>,
                         free: nat, released: nat -> nat) returns (anyError: bool)
      requires Gated(calls, fate, |calls|, early, waiting)
      modifies `messages
      ensures messages == old(messages) + PooledAnswers(calls, fate, free, released)
      ensures anyError <==> exists i :: 0 <= i < |calls| && PooledOutcome(calls, fate, free, released, i).isError
      ensures Executables(calls, fate, |calls|) <= free ==> (anyError <==> AnyError(calls, fate))
      ensures anyError <==> SomeFailure(messages[|old(messages)|..])
    {
      hide PooledOutcome, Executables, Settle, SomeFailure;
      var executed := SubmitToPool(calls, fate, waiting, free, released);
      EarlyIsFinal(calls, fate, early, free, released);
      anyError := RecordInOrder(calls, early, executed);
      assert forall i :: 0 <= i < |calls| ==>
        (if i in early then early[i] else executed[i]) == PooledOutcome(calls, fate, free, released, i);
      if Executables(calls, fate, |calls|) <= free { PoolErrors(calls, fate, free, released); }
    }

    predicate Pools(calls: seq<Call>) { setup.parallel && |calls| > 1 && !setup.asynchronous }

    function Recorded(calls: seq<Call>, k: nat, fate: Call -> Fate, free: nat, released: nat -> nat): seq<Message>
      requires k <= |calls|
    {
      if Pools(calls) then PooledAnswers(calls[..k], fate, free, released) else Answers(calls[..k], fate)
    }

    method DispatchAndRecord(calls: seq<Call>, fate: Call -> Fate, early: map<nat, Outcome>, waiting: seq<nat>,
                             free: nat, released: nat -> nat) returns (anyError: bool)
      requires Gated(calls, fate, |calls|, early, waiting)
      modifies `messages
      ensures messages == old(messages) +
                (if setup.asynchronous then Answers(calls, fate) else PooledAnswers(calls, fate, free, released))
      ensures setup.asynchronous || Executables(calls, fate, |calls|) <= free ==> (anyError <==> AnyError(calls, fate))
      ensures anyError <==> SomeFailure(messages[|old(messages)|..])
    {
      hide SomeFailure;
      if setup.asynchronous {
        anyError := GatherAndRecord(calls, fate, early, waiting);
      } else {
        anyError := PoolAndRecord(calls, fate, early, waiting, free, released);
      }
    }

    /** Gate every call in order, then dispatch; a call that waits for a human stops the
        gating, but what passed the gate is executed and recorded before the pause. */
    method ExecuteParallel(calls: seq<Call>, fate: Call -> Fate, free: nat, released: nat -> nat)
      returns (paused: bool, anyError: bool)
      requires setup.parallel && |calls| > 1
      modifies `messages, `pending, `remaining, `checkpoint
      ensures var k := FirstConfirm(calls, fate);
              paused == (k < |calls|) && messages == old(messages) + Recorded(calls, k, fate, free, released) &&
              (paused ==> pending == Some(calls[k]) && remaining == calls[k..] && checkpoint == Some(Snapshot()))
      ensures !paused ==> pending == old(pending) && remaining == old(remaining) && checkpoint == old(checkpoint)
      ensures !paused && (setup.asynchronous || Executables(calls, fate, |calls|) <= free) ==>
                (anyError <==> AnyError(calls, fate))
      ensures anyError <==> SomeFailure(messages[|old(messages)|..])
    {
      hide Gated, Answers, PooledAnswers, SomeFailure;
      var early: map<nat, Outcome> := map[];
      var waiting: seq<nat> := [];
      GatedStart(calls, fate);
      var i := 0;
      while i < |calls|
        invariant 0 <= i <= |calls|
        invariant Gated(calls, fate, i, early, waiting)
        invariant forall j :: 0 <= j < i ==> !fate(calls[j]).Confirms?
        invariant messages == old(messages) && pending == old(pending)
        invariant remaining == old(remaining) && checkpoint == old(checkpoint)
      {
        var f := fate(calls[i]);
        if f.Confirms? {
          pending := Some(calls[i]);
          Save();
          GatedPrefix(calls, fate, i, early, waiting);
          anyError := DispatchAndRecord(calls[..i], fate, early, waiting, free, released);
          remaining := calls[i..];
          Save();
          FirstConfirmIs(calls, fate, i);
          return true, anyError;
        }
        GatedStep(calls, fate, i, early, waiting);
        if f.Executes? {
          waiting := waiting + [i];
        } else {
          early := early[i := Settle(f)];
        }
        i := i + 1;
      }
      FirstConfirmIs(calls, fate, i);
      assert calls[..i] == calls;
      anyError := DispatchAndRecord(calls, fate, early, waiting, free, released);
      paused := false;
    }

    /** One model batch, by whichever path the agent is configured for. */
    method ExecuteToolCalls(calls: seq<Call>, fate: Call -> Fate, free: nat, released: nat -> nat)
      returns (paused: bool, anyError: bool)
      modifies `messages, `pending, `remaining, `checkpoint
      ensures var k := FirstConfirm(calls, fate);
              paused == (k < |calls|) && messages == old(messages) + Recorded(calls, k, fate, free, released) &&
              (paused ==> pending == Some(calls[k]) && remaining == StoredSuffix(FlavourOf(calls), calls, k) &&
                          checkpoint == Some(Snapshot()))
      ensures !paused ==> pending == old(pending) && remaining == old(remaining) && checkpoint == old(checkpoint)
      ensures !paused && (!Pools(calls) || Executables(calls, fate, |calls|) <= free) ==>
                (anyError <==> AnyError(calls, fate))
      ensures !Pools(calls) || Executables(calls, fate, |calls|) <= free ==>
                messages == old(messages) + Answers(calls[..FirstConfirm(calls, fate)], fate) &&
                TellsAll(messages[|old(messages)|..], calls[..FirstConfirm(calls, fate)], fate)
      ensures old(messages) <= messages &&
              TellsAllOrFull(messages[|old(messages)|..], calls[..FirstConfirm(calls, fate)], fate)
      ensures anyError <==> SomeFailure(messages[|old(messages)|..])
    {
      hide Answers, PooledAnswers, AnyError, FirstConfirm, Executables, TellsAll, TellsAllOrFull, SomeFailure;
      RecordedTells(calls, FirstConfirm(calls, fate), fate, free, released);
      RoomForPrefix(calls, FirstConfirm(calls, fate), fate, free, released);
      if setup.parallel && |calls| > 1 {
        paused, anyError := ExecuteParallel(calls, fate, free, released);
      } else {
        paused, anyError := ExecuteSequential(calls, fate);
      }
      assert messages[|old(messages)|..] == Recorded(calls, FirstConfirm(calls, fate), fate, free, released);
    }

    /** With room in the pool every path records the same results. */
    lemma RoomForPrefix(calls: seq<Call>, k: nat, fate: Call -> Fate, free: nat, released: nat -> nat)
      requires k <= |calls|
      ensures !Pools(calls) || Executables(calls, fate, |calls|) <= free ==>
                Recorded(calls, k, fate, free, released) == Answers(calls[..k], fate)
    {
      if Pools(calls) && Executables(calls, fate, |calls|) <= free {
        ExecutablesPrefix(calls, fate, k, k);
        ExecutablesMonotone(calls, fate, k, |calls|);
        PoolHasRoom(calls[..k], fate, free, released);
      }
    }

    lemma RecordedTells(calls: seq<Call>, k: nat, fate: Call -> Fate, free: nat, released: nat -> nat)
      requires k <= |calls|
      ensures TellsAllOrFull(Recorded(calls, k, fate, free, released), calls[..k], fate)
      ensures AnswersTo(Recorded(calls, k, fate, free, released), calls[..k])
      ensures TellsAll(Answers(calls[..k], fate), calls[..k], fate)
    {
      hide TellsAll, TellsAllOrFull, Answers, PooledAnswers, AnswersTo;
      AnswersTell(calls[..k], fate, free, released);
      TellingAnswers(Recorded(calls, k, fate, free, released), calls[..k], fate);
    }

    /** A batch that is owed is either answered completely or paused with the rest still owed. */
    method RunBatch(calls: seq<Call>, fate: Call -> Fate, free: nat, released: nat -> nat)
      returns (paused: bool, anyError: bool)
      requires Open(messages, calls) && pending.None? && remaining == []
      modifies `messages, `pending, `remaining, `checkpoint
      ensures Open(messages, Unresolved(pending, remaining))
      ensures paused == pending.Some? && (paused ==> checkpoint == Some(Snapshot()))
      ensures !paused ==> remaining == []
      ensures var k := FirstConfirm(calls, fate);
              messages == old(messages) + Recorded(calls, k, fate, free, released) &&
              Unresolved(pending, remaining) == calls[k..]
      ensures !paused && !Pools(calls) ==> (anyError <==> AnyError(calls, fate))
      ensures old(messages) <= messages && AnswersTo(messages[|old(messages)|..], calls[..FirstConfirm(calls, fate)])
      ensures anyError <==> SomeFailure(messages[|old(messages)|..])
    {
      hide SomeFailure, TellsAll, TellsAllOrFull, TellsOrFull;
      hide Open, Recorded, FirstConfirm, AnyError, Executables, Answers, PooledAnswers, AnswersTo, StoredSuffix, Pools;
      OpenCallsDistinct(messages, calls);
      var k := FirstConfirm(calls, fate);
      ghost var before := messages;
      paused, anyError := ExecuteToolCalls(calls, fate, free, released);
      RecordedTells(calls, k, fate, free, released);
      assert calls == calls[..k] + calls[k..];
      AnswersAdvanceBatch(before, Recorded(calls, k, fate, free, released), calls[..k], calls[k..]);
      assert messages[|before|..] == Recorded(calls, k, fate, free, released);
      if k < |calls| {
        SuffixResumes(FlavourOf(calls), calls, k);
      }
    }

    /** The verdict on the pending call itself. */
    method AnswerPending(fate: Call -> Fate) returns (trailing: seq<Call>)
      requires pending.Some? && Open(messages, Unresolved(pending, remaining))
      modifies `messages, `pending, `remaining
      ensures pending.None? && remaining == [] && Open(messages, trailing)
      ensures trailing == old(Trailing(pending.value, remaining))
      ensures messages == old(messages) + [ResultMessage(old(pending).value, Settle(fate(old(pending).value)))]
    {
      var call := pending.value;
      trailing := Trailing(call, remaining);
      AnswersAdvanceBatch(messages, [ResultMessage(call, Settle(fate(call)))], [call], trailing);
      pending := None;
      AddToolResult(call, Settle(fate(call)));
      remaining := [];
    }

    /** Finish the batch of the pending call, or pause again at a later call. */
    method ResolveBatch(fate: Call -> Fate, free: nat, released: nat -> nat) returns (paused: bool)
      requires pending.Some? && Open(messages, Unresolved(pending, remaining))
      modifies `messages, `pending, `remaining, `checkpoint
      ensures Open(messages, Unresolved(pending, remaining))
      ensures paused == pending.Some? && (paused ==> checkpoint == Some(Snapshot()))
      ensures !paused ==> remaining == []
      ensures var call, rest := old(pending).value, old(Trailing(pending.value, remaining));
              var k := FirstConfirm(rest, fate);
              messages == (old(messages) + [ResultMessage(call, Settle(fate(call)))]) +
                          Recorded(rest, k, fate, free, released) &&
              Unresolved(pending, remaining) == rest[k..]
    {
      hide After, DistinctCalls, AgentShaped, Trailing;
      var trailing := AnswerPending(fate);
      paused := false;
      if trailing != [] {
        var anyError;
        paused, anyError := RunBatch(trailing, fate, free, released);
      }
    }

    /** Apply a human verdict to the pending call, finish its batch or pause again, and
        hand only a finished batch to the store. */
    method ResolvePendingConfirmation(fate: Call -> Fate, free: nat, released: nat -> nat) returns (paused: bool)
      requires Valid() && pending.Some?
      modifies `messages, `pending, `remaining, `checkpoint, `saved
      ensures Valid() && paused == pending.Some?
      ensures !paused ==> remaining == [] && saved == old(saved) + [messages]
      ensures var call, rest := old(pending).value, old(Trailing(pending.value, remaining));
              var k := FirstConfirm(rest, fate);
              messages == (old(messages) + [ResultMessage(call, Settle(fate(call)))]) +
                          Recorded(rest, k, fate, free, released) &&
              Unresolved(pending, remaining) == rest[k..]
    {
      hide Recorded, FirstConfirm, After, DistinctCalls, AgentShaped, Trailing, WirePaired;
      paused := ResolveBatch(fate, free, released);
      if !paused {
        SoundIsWellFormed(messages);
        PersistState();
      }
    }

    method PersistState()
      modifies `saved
      ensures saved == old(saved) + [messages]
    {
      saved := saved + [messages];
    }

    /* ---- the loop ---- */

    ghost predicate LogsValid()
      reads `requests, `asked, `saved
    {
      Faithful(requests, asked) && (forall h :: h in saved ==> WellFormed(h))
    }

    /** Between batches. */
    ghost predicate Idle()
      reads `messages, `pending, `remaining, `mode, `maxIterations, `pinned, `requests, `asked, `saved
    {
      Sound(messages) && pending.None? && remaining == [] && CapMatches(mode, maxIterations, pinned) && LogsValid()
    }

    /** Right after the model asked for `calls`. */
    ghost predicate InBatch(calls: seq<Call>)
      reads `messages, `pending, `remaining, `mode, `maxIterations, `pinned, `requests, `asked, `saved
    {
      Open(messages, calls) && pending.None? && remaining == [] && CapMatches(mode, maxIterations, pinned) && LogsValid()
    }

    method AddUserMessage(text: string)
      requires Idle()
      modifies `messages
      ensures Idle() && messages == old(messages) + [Message(User, PlainText(text))]
    {
      TurnKeepsSound(messages, UserMessage(text));
      messages := messages + [UserMessage(text)];
    }

    method MaybeCompactContext()
      requires Idle()
      modifies `messages
      ensures Idle() && Continues(setup, old(messages), messages)
    {
      hide Compaction.SameShape, Compaction.CutToTail, Compaction.CompactedFrom, Compaction.TailStart,
           Compaction.TotalChars, Compaction.OutputBlocks, Compaction.NoOrphans, Compaction.NamedIds, After, AgentShaped, DistinctCalls, CapMatches;
      if setup.context.None? { return; }
      var shouldCompact: bool := *;
      if !shouldCompact { return; }
      SoundIsWellFormed(messages);
      var compacted := Compaction.Compact(messages, setup.context.value, setup.cost, setup.compress, setup.describe);
      Compaction.CompactionIsSafe(messages, setup.context.value, setup.cost, setup.describe, compacted);
      messages := compacted;
      assert Ids([]) == [];
    }

    /** The provider receives the translated history and answers anything. */
    method CallModel() returns (reply: Reply)
      requires Idle()
      modifies `requests, `asked
      ensures Idle() && FreshReply(messages, reply)
      ensures |requests| == |old(requests)| + 1 && requests[..|old(requests)|] == old(requests)
      ensures Renders(messages, setup.system, requests[|old(requests)|]) && WirePaired(requests[|old(requests)|])
      ensures asked == old(asked) + [Asked(setup.system, messages)]
    {
      hide Renders, WirePaired, WellFormed, WireTokens;
      SoundIsWellFormed(messages);
      var request := TranslateMessages(messages, setup.system);
      FaithfulMore(requests, asked, request, Asked(setup.system, messages));
      requests := requests + [request];
      asked := asked + [Asked(setup.system, messages)];
      reply :| FreshReply(messages, reply) by { assert FreshReply(messages, Failed); }
    }

    method AddAssistant(reply: Reply)
      requires Idle() && reply.Reply? && FreshReply(messages, reply)
      modifies `messages
      ensures if reply.calls == [] then Idle() else InBatch(reply.calls)
      ensures |messages| == |old(messages)| + 1 && old(messages) <= messages
      ensures IsReply(messages[|old(messages)|], reply.text, reply.calls)
    {
      hide IsReply, Faithful;
      var m := AssistantMessage(reply.text, reply.calls);
      AssistantTokens(reply.text, reply.calls);
      AssistantStoresReply(reply.text, reply.calls);
      if reply.calls == [] {
        TurnKeepsSound(messages, m);
      } else {
        CallsOpenBatch(messages, reply.text, reply.calls);
      }
      messages := messages + [m];
    }

    /** A batch of the current turn: saved when it is complete, and only then. */
    method ToolRound(calls: seq<Call>) returns (paused: bool, anyError: bool)
      requires InBatch(calls)
      modifies `messages, `pending, `remaining, `checkpoint, `saved
      ensures paused ==> Valid() && pending.Some? && saved == old(saved)
      ensures !paused ==> Idle() && saved == old(saved) + [messages]
      ensures old(messages) <= messages && (!paused ==> AnswersTo(messages[|old(messages)|..], calls))
      ensures anyError <==> SomeFailure(messages[|old(messages)|..])
    {
      hide Recorded, FirstConfirm, AnyError, Open, Sound, Unresolved, Faithful, SomeFailure, AnswersTo, WellFormed, CapMatches;
      var fate: Call -> Fate := *;
      var free: nat := *;
      var released: nat -> nat := *;
      paused, anyError := RunBatch(calls, fate, free, released);
      if !paused {
        NothingOwed(messages, remaining);
        WholeBatch(calls, fate, messages[|old(messages)|..], remaining);
        SoundIsWellFormed(messages);
        PersistState();
      }
    }

    method DrainInbox()
      requires Idle()
      modifies `messages
      ensures Idle() && old(messages) <= messages
      ensures forall i :: |old(messages)| <= i < |messages| ==>
                messages[i].role == User && messages[i].content.PlainText?
    {
      hide Faithful, Sound;
      var inbox: seq<string> := *;
      for i := 0 to |inbox|
        invariant Idle() && |messages| == |old(messages)| + i && messages[..|old(messages)|] == old(messages)
        invariant forall k :: |old(messages)| <= k < |messages| ==>
                    messages[k].role == User && messages[k].content.PlainText?
      {
        AddUserMessage(inbox[i]);
      }
    }

    method Escalate() returns (done: bool)
      modifies `mode, `sticky, `maxIterations
      ensures done == old(mode).Flash?
      ensures old(mode).Max? ==> mode == old(mode) && sticky == old(sticky) && maxIterations == old(maxIterations)
      ensures done ==> mode.Max? && sticky && maxIterations == (if pinned.None? then 50 else old(maxIterations))
    {
      if mode.Max? { return false; }
      mode, sticky := Routing.Max, true;
      if pinned.None? { maxIterations := Routing.ModeCap(Routing.Max); }
      done := true;
    }

    /** The loop's variables are those of the pure routing model. */
    ghost predicate Tracks(l: Routing.Loop, iteration: nat, escalated: bool, retriesLeft: int, verifierLeft: int)
      reads `mode, `maxIterations, `pinned
    {
      l.iteration == iteration && l.mode == mode && l.cap == maxIterations && l.pinned == pinned &&
      l.escalated == escalated && l.retriesLeft == retriesLeft && l.verifierLeft == verifierLeft
    }

    method MaybeEscalate(iteration: nat, error: bool, already: bool, ghost l: Routing.Loop) returns (escalated: bool)
      requires Idle() && Tracks(l, iteration, already, l.retriesLeft, l.verifierLeft)
      modifies `mode, `sticky, `maxIterations
      ensures Idle() && Routing.Sticks(old(mode), old(sticky), mode, sticky)
      ensures Tracks(Routing.MaybeEscalate(l, error), iteration, escalated, l.retriesLeft, l.verifierLeft)
    {
      if already || mode.Max? { return already; }
      if (iteration == 0 && error) || iteration + 1 >= Routing.ESCALATION_THRESHOLD {
        escalated := Escalate();
      } else {
        escalated := false;
      }
    }

    /** Cancellation may be requested at any time; it stays set until the next run. */
    method PollCancel() returns (stop: bool)
      modifies `cancelled
      ensures stop == cancelled && (old(cancelled) ==> stop)
    {
      var requested: bool := *;
      cancelled := cancelled || requested;
      stop := cancelled;
    }

    method PersistAnswer()
      requires Idle()
      modifies `saved
      ensures Idle() && saved == old(saved) + [messages]
    {
      SoundIsWellFormed(messages);
      PersistState();
    }

    /** Everything between the cancellation check and the handling of the reply. */
    method ModelTurn() returns (stop: Option<End>, reply: Reply)
      requires Idle()
      modifies `messages, `requests, `asked, `cancelled
      ensures old(requests) <= requests && |requests| <= |old(requests)| + 1
      ensures stop.Some? ==> Idle() && (stop.value.Cancelled? || stop.value.OverBudget? || stop.value.ModelFailed?)
      ensures stop.None? ==> reply.Reply? && |requests| == |old(requests)| + 1
      ensures stop.None? ==> if reply.calls == [] then Idle() else InBatch(reply.calls)
      ensures AsksFrom(setup, old(messages), old(asked), asked, messages)
      ensures stop.None? ==>
                |asked| == |old(asked)| + 1 && |messages| == |asked[|old(asked)|].history| + 1 &&
                IsReply(messages[|messages| - 1], reply.text, reply.calls)
    {
      hide Sound, Open, LogsValid, Renders, WirePaired, Continues, IsReply;
      MaybeCompactContext();
      var cancelNow := PollCancel();
      if cancelNow { return Some(Cancelled), Failed; }
      var overBudget: bool := *;
      if overBudget { return Some(OverBudget), Failed; }
      reply := CallModel();
      if reply.Failed? { return Some(ModelFailed), reply; }
      AddAssistant(reply);
      stop := None;
    }

    lemma ValidAfterBatch()
      requires Open(messages, Unresolved(pending, remaining)) && CapMatches(mode, maxIterations, pinned) && LogsValid()
      requires pending.Some? ==> checkpoint == Some(Snapshot())
      ensures Valid()
    {}

    lemma PauseIsStored()
      requires Valid() && pending.Some?
      ensures checkpoint == Some(Snapshot()) && ValidCheckpoint(checkpoint.value)
    {}

    lemma ValidIsIdle()
      requires Valid() && pending.None? && remaining == []
      ensures Idle()
    {}

    lemma IdleIsSound()
      requires Idle()
      ensures WellFormed(messages)
    {
      SoundIsWellFormed(messages);
    }

    lemma IdleIsValid()
      requires Idle()
      ensures Valid() && pending.None? && remaining == [] && CapMatches(mode, maxIterations, pinned)
    {}

    /** A final text: accepted, or sent back for another round.  `turn` is how the round
        counts when the loop goes on. */
    method HandleAnswer(schema: bool, verifies: bool, iteration: nat, escalated: bool, retriesLeft: int,
                        verifierLeft: int, ghost l: Routing.Loop)
      returns (stop: Option<End>, turn: Routing.Turn, nowEscalated: bool)
      requires Idle() && Tracks(l, iteration, escalated, retriesLeft, verifierLeft) && iteration < maxIterations
      modifies `messages, `saved, `mode, `sticky, `maxIterations
      ensures Idle() && Routing.Sticks(old(mode), old(sticky), mode, sticky)
      ensures saved == if stop == Some(Answered) then old(saved) + [messages] else old(saved)
      ensures if stop.Some? then messages == old(messages)
              else |messages| == |old(messages)| + 1 && old(messages) <= messages &&
                   messages[|old(messages)|].role == User && messages[|old(messages)|].content.PlainText?
      ensures stop.Some? ==> (stop.value.Answered? || stop.value.NotVerified?)
      ensures stop.Some? ==> mode == old(mode) && maxIterations == old(maxIterations)
      ensures stop.None? ==> Routing.Allowed(l, turn) && !turn.ToolRound?
      ensures stop.None? ==> Tracks(Routing.Advance(l, turn), iteration + 1, nowEscalated,
                               if turn.StructuredRetry? then retriesLeft - 1 else retriesLeft,
                               if turn.AnswerRejected? then verifierLeft - 1 else verifierLeft)
    {
      hide Open, Sound, LogsValid, Idle;
      turn, nowEscalated, stop := Routing.StructuredRetry, escalated, None;
      var malformed: bool, accepted: bool := *, *;
      if schema && malformed && retriesLeft > 0 {
        AddUserMessage("Reply with ONLY the corrected JSON value.");
      } else if verifies && !accepted {
        if verifierLeft <= 0 { return Some(NotVerified), turn, escalated; }
        AddUserMessage("The proposed final answer was not verified.");
        nowEscalated := MaybeEscalate(iteration, true, escalated, l.(verifierLeft := verifierLeft - 1));
        turn := Routing.AnswerRejected;
      } else {
        PersistAnswer();
        stop := Some(Answered);
      }
    }

    /** A batch of tool calls and everything up to the next iteration. */
    method HandleCalls(calls: seq<Call>, iteration: nat, escalated: bool, ghost l: Routing.Loop)
      returns (stop: Option<End>, turn: Routing.Turn, nowEscalated: bool)
      requires InBatch(calls) && Tracks(l, iteration, escalated, l.retriesLeft, l.verifierLeft) && iteration < maxIterations
      modifies this
      ensures old(saved) <= saved && requests == old(requests) && asked == old(asked) && pinned == old(pinned)
      ensures old(messages) <= messages
      ensures stop.None? || !stop.value.AwaitsHuman? ==> RoundDone(old(messages), messages, calls, old(saved), saved)
      ensures stop.None? ==> turn.ToolRound? && (turn.error <==> RoundFailed(old(messages), messages, calls))
      ensures Routing.Sticks(old(mode), old(sticky), mode, sticky)
      ensures stop.Some? ==> Valid() && stop.value.AwaitsHuman? == pending.Some? && (pending.None? ==> remaining == [])
      ensures stop.Some? ==> mode == old(mode) && maxIterations == old(maxIterations) && !stop.value.Exhausted?
      ensures stop.None? ==> Idle() && Routing.Allowed(l, turn) && turn.ToolRound?
      ensures stop.None? ==> Tracks(Routing.Advance(l, turn), iteration + 1, nowEscalated, l.retriesLeft, l.verifierLeft)
    {
      hide Open, Sound, LogsValid, Idle, InBatch, Valid, AnswersTo, SomeFailure, RoundDone, RoundFailed;
      turn, nowEscalated, stop := Routing.StructuredRetry, escalated, None;
      var paused, anyError := ToolRound(calls);
      ghost var answered := messages;
      if paused { return Some(AwaitsHuman), turn, escalated; }
      IdleIsValid();
      unproductive := *;
      RoundIsDone(old(messages), answered, messages, calls, old(saved), saved);
      if unproductive { IdleIsValid(); return Some(Unproductive), turn, escalated; }
      DrainInbox();
      RoundIsDone(old(messages), answered, messages, calls, old(saved), saved);
      var cancelNow := PollCancel();
      if cancelNow { IdleIsValid(); return Some(Cancelled), turn, escalated; }
      nowEscalated := MaybeEscalate(iteration, anyError, escalated, l);
      turn := Routing.ToolRound(anyError);
    }

    /** One turn of the loop: a model call, then its answer or its tool calls. */
    method LoopTurn(schema: bool, verifies: bool, iteration: nat, escalated: bool, retriesLeft: int,
                    verifierLeft: int, ghost l: Routing.Loop)
      returns (stop: Option<End>, turn: Routing.Turn, nowEscalated: bool)
      requires Idle() && Tracks(l, iteration, escalated, retriesLeft, verifierLeft) && iteration < maxIterations
      modifies this
      ensures old(requests) <= requests && |requests| <= |old(requests)| + 1 && old(saved) <= saved
      ensures pinned == old(pinned) && Routing.Sticks(old(mode), old(sticky), mode, sticky)
      ensures AsksFrom(setup, old(messages), old(asked), asked, messages)
      ensures stop.None? ==> |asked| == |old(asked)| + 1
      ensures stop.Some? ==> Valid() && stop.value.AwaitsHuman? == pending.Some? && (pending.None? ==> remaining == [])
      ensures stop.Some? ==> mode == old(mode) && maxIterations == old(maxIterations) && !stop.value.Exhausted?
      ensures stop.None? ==> Idle() && Routing.Allowed(l, turn) && |requests| == |old(requests)| + 1
      ensures stop.None? ==> Tracks(Routing.Advance(l, turn), iteration + 1, nowEscalated,
                               if turn.StructuredRetry? then retriesLeft - 1 else retriesLeft,
                               if turn.AnswerRejected? then verifierLeft - 1 else verifierLeft)
    {
      hide Open, Sound, LogsValid, InBatch, Idle, Valid, Routing.Advance, Routing.Sticks, AsksFrom, AnswersTo, SomeFailure, IsReply;
      Routing.SticksSame(mode, sticky);
      turn, nowEscalated := Routing.StructuredRetry, escalated;
      IdleIsValid();
      AsksNothing(setup, messages, asked, messages);
      var cancelNow := PollCancel();
      if cancelNow { IdleIsValid(); return Some(Cancelled), turn, escalated; }
      var reply;
      stop, reply := ModelTurn();
      if stop.Some? { IdleIsValid(); return; }
      ghost var replied := messages;
      if reply.calls == [] {
        stop, turn, nowEscalated := HandleAnswer(schema, verifies, iteration, escalated, retriesLeft, verifierLeft, l);
        if stop.Some? { IdleIsValid(); }
      } else {
        stop, turn, nowEscalated := HandleCalls(reply.calls, iteration, escalated, l);
      }
      AsksGrow(setup, old(messages), old(asked), asked, replied, messages);
    }

    /** What one turn adds to the thread of requests. */
    lemma ThreadStep(start: seq<Message>, first: seq<Asked>, log: seq<Asked>, now: seq<Message>, n: nat)
      requires AsksFrom(setup, now, log, asked, messages) && Threaded(setup, start, first, log, now, n)
      ensures first <= asked && Thread(setup, start, asked[|first|..])
      ensures |asked| == |log| + 1 ==> Threaded(setup, start, first, asked, messages, n + 1)
    {
      hide Thread, Continues;
      if asked != log {
        var a := asked[|log|];
        ThreadMore(setup, start, log[|first|..], now, a);
        assert asked[|first|..] == log[|first|..] + [a];
      }
    }

    /** One entry to the tool-calling loop. */
    method RunLoop(schema: bool, structuredRetries: int, verifies: bool, verifierRetries: nat)
      returns (end: End, ghost turns: seq<Routing.Turn>)
      requires Idle()
      modifies this
      ensures Valid() && end.AwaitsHuman? == pending.Some? && (pending.None? ==> remaining == [])
      ensures old(requests) <= requests && old(saved) <= saved && pinned == old(pinned)
      ensures Routing.Runs(Routing.Begin(old(mode), pinned, structuredRetries, verifierRetries), turns)
      ensures var l := Routing.After(Routing.Begin(old(mode), pinned, structuredRetries, verifierRetries), turns);
              mode == l.mode && maxIterations == l.cap && l.escalations <= 1 &&
              (end.Exhausted? ==> |turns| >= maxIterations)
      ensures |requests| <= |old(requests)| + |turns| + 1
      ensures pinned.None? ==> |requests| <= |old(requests)| + 50
      ensures |turns| >= maxIterations && pinned.None? && structuredRetries <= 2 ==> mode.Max?
      ensures Routing.Sticks(old(mode), old(sticky), mode, sticky)
      ensures old(asked) <= asked && Thread(setup, old(messages), asked[|old(asked)|..])
    {
      hide Open, Sound, LogsValid, InBatch, Idle, Valid, Routing.Advance, Routing.Runs, Routing.After, Routing.Sticks;
      hide Thread, Threaded, AsksFrom;
      IdleIsValid();
      ghost var begin := Routing.Begin(mode, pinned, structuredRetries, verifierRetries);
      turns := [];
      Routing.SticksSame(mode, sticky);
      Routing.RunsNothing(begin);
      ThreadBegins(setup, messages, asked);
      var iteration := 0;
      var escalated := false;
      var retriesLeft: int := structuredRetries;
      var verifierLeft: int := verifierRetries;
      var rejected := false;
      ghost var l := begin;
      ghost var bound := if pinned.Some? then pinned.value else 50;
      while iteration < maxIterations
        invariant Idle()
        invariant old(requests) <= requests && old(saved) <= saved && pinned == old(pinned)
        invariant Routing.Runs(begin, turns) && l == Routing.After(begin, turns)
        invariant Tracks(l, iteration, escalated, retriesLeft, verifierLeft)
        invariant |turns| == iteration && |requests| == |old(requests)| + iteration
        invariant Routing.Sticks(old(mode), old(sticky), mode, sticky)
        invariant Threaded(setup, old(messages), old(asked), asked, messages, iteration)
        decreases bound - iteration
      {
        LoopFacts(begin, turns, structuredRetries);
        ghost var mode0, sticky0, log, now := mode, sticky, asked, messages;
        var stop, turn;
        stop, turn, escalated := LoopTurn(schema, verifies, iteration, escalated, retriesLeft, verifierLeft, l);
        Routing.SticksCompose(old(mode), old(sticky), mode0, sticky0, mode, sticky);
        ThreadStep(old(messages), old(asked), log, now, iteration);
        if stop.Some? { return stop.value, turns; }
        rejected := rejected || turn.AnswerRejected?;
        if turn.AnswerRejected? { verifierLeft := verifierLeft - 1; }
        if turn.StructuredRetry? { retriesLeft := retriesLeft - 1; }
        Routing.RunsAppend(begin, turns, turn);
        turns, l := turns + [turn], Routing.Advance(l, turn);
        iteration := iteration + 1;
      }
      LoopFacts(begin, turns, structuredRetries);
      ThreadedMeans(setup, old(messages), old(asked), asked, messages, iteration);
      IdleIsValid();
      end := if rejected then NotVerified else Exhausted;
    }

    /** The user's turn if there is one, then routing. */
    method StartRun(userMessage: Option<string>, classified: Option<Routing.Mode>)
      requires Idle()
      modifies `messages, `cancelled, `unproductive, `mode, `sticky, `maxIterations
      ensures Idle() && !cancelled && (mode, sticky) == Routing.Route(old(sticky), classified)
      ensures messages == old(messages) + if userMessage.Some? then [Message(User, PlainText(userMessage.value))] else []
    {
      hide Open, Sound, LogsValid;
      assert messages + [] == messages;
      if userMessage.Some? { AddUserMessage(userMessage.value); }
      cancelled, unproductive := false, false;
      if classified.None? || (classified.value.Flash? && sticky) {
        mode := Routing.Max;
      } else {
        mode := classified.value;
        if mode.Max? { sticky := true; }
      }
      maxIterations := if pinned.Some? then pinned.value else Routing.ModeCap(mode);
    }

    /** A new run: the user's turn if there is one, routing, then the loop.  `classified` is
        the classifier's verdict, `None` when it raises.  MAX is kept once it was classified
        or escalated to; a classifier outage does not pin it. */
    method Run(userMessage: Option<string>, classified: Option<Routing.Mode>, schema: bool, structuredRetries: int,
               verifies: bool, verifierRetries: nat)
      returns (end: End)
      requires Idle()
      modifies this
      ensures Valid() && end.AwaitsHuman? == pending.Some? && (pending.None? ==> remaining == [])
      ensures old(requests) <= requests && old(saved) <= saved
      ensures old(asked) <= asked &&
              Thread(setup, old(messages) + (if userMessage.Some? then [Message(User, PlainText(userMessage.value))] else []),
                     asked[|old(asked)|..])
      ensures var (routed, kept) := Routing.Route(old(sticky), classified);
              Routing.Sticks(routed, kept, mode, sticky)
      ensures mode.Flash? ==> !old(sticky) && classified == Some(Routing.Flash)
      ensures sticky <==> old(sticky) || (classified.Some? && mode.Max?)
    {
      hide Open, Sound, Idle, Valid, Routing.Runs, Routing.After, Thread, Routing.Sticks, Routing.Route;
      StartRun(userMessage, classified);
      ghost var turns;
      end, turns := RunLoop(schema, structuredRetries, verifies, verifierRetries);
      Routing.RoutedRun(old(sticky), classified, mode, sticky);
    }
  }

  /** Saving an agent and rebuilding it with another setup loses nothing of the run. */
  method SaveAndRestore(agent: Agent, setup: Setup) returns (copy: Agent)
    requires agent.Valid()
    modifies agent`checkpoint
    ensures fresh(copy) && copy.Valid() && copy.setup == setup && copy.checkpoint == agent.checkpoint
    ensures copy.messages == agent.messages && copy.pending == agent.pending && copy.remaining == agent.remaining
    ensures copy.mode == agent.mode && copy.sticky == agent.sticky
    ensures copy.maxIterations == agent.maxIterations && copy.pinned == agent.pinned
  {
    hide Open;
    agent.Save();
    copy := new Agent.Restore(setup, agent.checkpoint.value);
  }

  /** The pool of a setup, if it has one, holds a free slot for every executable call. */
  predicate RoomFor(setup: Setup, free: nat, calls: seq<Call>, fate: Call -> Fate) {
    setup.parallel && !setup.asynchronous ==> Executables(calls, fate, |calls|) <= free
  }

  /** Drive one batch through all its pauses, each resumed from the stored checkpoint by a
      new agent that may be configured differently: one result per call, in order, once.
      `free(n)` and `released(n)` describe the slots of the n-th agent's pool; with room in
      every pool the results are those of the sequential path. */
  method AnswerBatch(first: Agent, calls: seq<Call>, fate: Call -> Fate, setups: nat -> Setup,
                     free: nat -> nat, released: nat -> (nat -> nat))
    returns (h: seq<Message>)
    requires first.InBatch(calls)
    modifies first
    ensures WellFormed(h) && old(first.messages) <= h && TellsAllOrFull(h[|old(first.messages)|..], calls, fate)
    ensures AlwaysRoom(first.setup, setups, free, calls, fate) ==>
              h == old(first.messages) + Answers(calls, fate) && TellsAll(h[|old(first.messages)|..], calls, fate)
  {
    hide Open, Sound, Answers, Unresolved, WellFormed, AlwaysRoom, Advanced, Agent.Valid, Agent.InBatch, TellsAll, TellsAllOrFull;
    ghost var start, room := first.messages, AlwaysRoom(first.setup, setups, free, calls, fate);
    var agent := first;
    ghost var done;
    var paused;
    paused, done := StartBatch(first, calls, fate, free(0), released(0));
    if room { FirstHasRoom(first.setup, setups, free, calls, fate); }
    AdvancedAtLeast(start, agent.messages, calls, done, fate, RoomFor(first.setup, free(0), calls, fate), room);
    var pauses := 0;
    while paused
      invariant agent.Valid() && paused == agent.pending.Some? && (!paused ==> agent.remaining == [])
      invariant done <= |calls| && Unresolved(agent.pending, agent.remaining) == calls[done..]
      invariant Advanced(start, agent.messages, calls, done, fate, room)
      decreases |calls| - done
    {
      ghost var before, n := agent.messages, 0;
      agent, paused, n := ResumeOnce(agent, fate, setups(pauses), free(pauses + 1), released(pauses + 1), calls[done..]);
      if room { NextHasRoom(first.setup, setups, free, calls, fate, pauses, done); }
      AdvancedMore(start, before, agent.messages, calls, done, n, fate, room,
                   RoomFor(setups(pauses), free(pauses + 1), calls[done..], fate));
      done := done + n;
      pauses := pauses + 1;
    }
    agent.ValidIsIdle();
    h := agent.messages;
    agent.IdleIsSound();
    NothingUnresolved(agent.pending, agent.remaining, calls, done);
    AdvancedToEnd(start, h, calls, fate, room);
  }

  ghost predicate AlwaysRoom(setup: Setup, setups: nat -> Setup, free: nat -> nat, calls: seq<Call>, fate: Call -> Fate) {
    RoomFor(setup, free(0), calls, fate) && forall n: nat :: RoomFor(setups(n), free(n + 1), calls, fate)
  }

  lemma FirstHasRoom(setup: Setup, setups: nat -> Setup, free: nat -> nat, calls: seq<Call>, fate: Call -> Fate)
    requires AlwaysRoom(setup, setups, free, calls, fate)
    ensures RoomFor(setup, free(0), calls, fate)
  {}

  lemma NextHasRoom(setup: Setup, setups: nat -> Setup, free: nat -> nat, calls: seq<Call>, fate: Call -> Fate,
                    n: nat, done: nat)
    requires AlwaysRoom(setup, setups, free, calls, fate) && done <= |calls|
    ensures RoomFor(setups(n), free(n + 1), calls[done..], fate)
  {
    hide RoomFor;
    assert RoomFor(setups(n), free(n + 1), calls, fate);
    SuffixHasRoom(setups(n), free(n + 1), calls, fate, done);
  }

  /** The first `done` calls have been answered since `start`, with the results of the
      sequential path when `exact` holds. */
  predicate Advanced(start: seq<Message>, now: seq<Message>, calls: seq<Call>, done: nat, fate: Call -> Fate, exact: bool) {
    done <= |calls| && start <= now && TellsAllOrFull(now[|start|..], calls[..done], fate) &&
    (exact ==> now == start + Answers(calls[..done], fate))
  }

  lemma AdvancedMore(start: seq<Message>, now: seq<Message>, next: seq<Message>, calls: seq<Call>, done: nat, n: nat,
                     fate: Call -> Fate, exact: bool, here: bool)
    requires done + n <= |calls| && Advanced(start, now, calls, done, fate, exact)
    requires Advanced(now, next, calls[done..], n, fate, here) && (exact ==> here)
    ensures Advanced(start, next, calls, done + n, fate, exact)
    ensures calls[done..][n..] == calls[done + n..]
  {
    hide Answers, TellsAllOrFull;
    assert next[|start|..] == now[|start|..] + next[|now|..];
    AnswersExtend(now[|start|..], next[|now|..], calls, done, n, fate);
  }

  lemma AdvancedAtLeast(start: seq<Message>, now: seq<Message>, calls: seq<Call>, done: nat, fate: Call -> Fate,
                        exact: bool, less: bool)
    requires Advanced(start, now, calls, done, fate, exact) && (less ==> exact)
    ensures Advanced(start, now, calls, done, fate, less)
  {}

  lemma AdvancedToEnd(start: seq<Message>, now: seq<Message>, calls: seq<Call>, fate: Call -> Fate, exact: bool)
    requires Advanced(start, now, calls, |calls|, fate, exact)
    ensures start <= now && TellsAllOrFull(now[|start|..], calls, fate)
    ensures exact ==> now == start + Answers(calls, fate) && TellsAll(now[|start|..], calls, fate)
  {
    hide Answers, TellsAll, TellsAllOrFull;
    assert calls[..|calls|] == calls;
    AnswersTell(calls, fate, 0, _ => 0);
    if exact { assert now[|start|..] == Answers(calls, fate); }
  }

  /** The batch up to its first pause. */
  method StartBatch(agent: Agent, calls: seq<Call>, fate: Call -> Fate, free: nat, released: nat -> nat)
    returns (paused: bool, ghost done: nat)
    requires agent.InBatch(calls)
    modifies agent
    ensures agent.Valid() && paused == agent.pending.Some? && (!paused ==> agent.remaining == [])
    ensures done <= |calls| && Unresolved(agent.pending, agent.remaining) == calls[done..]
    ensures Advanced(old(agent.messages), agent.messages, calls, done, fate, RoomFor(agent.setup, free, calls, fate))
  {
    hide Open, Sound, WirePaired, FirstConfirm, Answers, CapMatches, Unresolved, WellFormed, AnswersTo, RoomFor, Agent.Recorded, TellsAll, TellsAllOrFull, SomeFailure;
    ghost var start := agent.messages;
    var anyError;
    paused, anyError := agent.RunBatch(calls, fate, free, released);
    agent.ValidAfterBatch();
    done := FirstConfirm(calls, fate);
    agent.RecordedTells(calls, done, fate, free, released);
    if RoomFor(agent.setup, free, calls, fate) { RoomRecords(agent, calls, done, fate, free, released); }
    assert agent.messages[|start|..] == agent.Recorded(calls, done, fate, free, released);
  }

  /** One resume, by a new agent built from the paused one's checkpoint: at least one owed
      call is answered and exactly the rest stays owed. */
  method ResumeOnce(paused: Agent, fate: Call -> Fate, setup: Setup, free: nat, released: nat -> nat,
                    ghost owed: seq<Call>)
    returns (agent: Agent, again: bool, ghost n: nat)
    requires paused.Valid() && paused.pending.Some? && owed == Unresolved(paused.pending, paused.remaining)
    ensures fresh(agent) && agent.Valid() && again == agent.pending.Some? && (!again ==> agent.remaining == [])
    ensures 0 < n <= |owed| && Unresolved(agent.pending, agent.remaining) == owed[n..]
    ensures Advanced(paused.messages, agent.messages, owed, n, fate, RoomFor(setup, free, owed, fate))
  {
    hide TellsAll, TellsAllOrFull;
    hide FirstConfirm, Answers, AnswersTo, RoomFor, Trailing, Agent.Valid, Agent.Recorded, ValidCheckpoint, Settle, ResultMessage;
    paused.PauseIsStored();
    agent := new Agent.Restore(setup, paused.checkpoint.value);
    ghost var start, call, rest := agent.messages, agent.pending.value, Trailing(agent.pending.value, agent.remaining);
    ghost var k := FirstConfirm(rest, fate);
    again := agent.ResolvePendingConfirmation(fate, free, released);
    ghost var recorded := agent.Recorded(rest, k, fate, free, released);
    n := k + 1;
    agent.RecordedTells(rest, k, fate, free, released);
    AnswerFirst(call, rest, k, recorded, fate);
    if RoomFor(setup, free, owed, fate) {
      assert owed[1..] == rest;
      SuffixHasRoom(setup, free, owed, fate, 1);
      RoomRecords(agent, rest, k, fate, free, released);
    }
    ghost var more := [ResultMessage(call, Settle(fate(call)))] + recorded;
    assert agent.messages == start + more && agent.messages[|start|..] == more;
  }

  lemma AnswerFirst(call: Call, rest: seq<Call>, k: nat, recorded: seq<Message>, fate: Call -> Fate)
    requires k <= |rest| && TellsAllOrFull(recorded, rest[..k], fate)
    ensures var more, owed := [ResultMessage(call, Settle(fate(call)))] + recorded, [call] + rest;
            TellsAllOrFull(more, owed[..k + 1], fate) && owed[k + 1..] == rest[k..] &&
            (recorded == Answers(rest[..k], fate) ==> more == Answers(owed[..k + 1], fate))
  {
    hide TellsAllOrFull, Answers, ResultMessage, Settle;
    var owed := [call] + rest;
    assert owed[..k + 1] == [call] + rest[..k];
    AnswersConcat([call], rest[..k], fate);
    AnswersOne(call, fate);
    AnswersTell([call], fate, 0, _ => 0);
    TellsConcat(Answers([call], fate), recorded, [call], rest[..k], fate);
  }

  lemma AnswersExtend(answered: seq<Message>, more: seq<Message>, calls: seq<Call>, done: nat, n: nat, fate: Call -> Fate)
    requires done + n <= |calls| && TellsAllOrFull(answered, calls[..done], fate)
    requires TellsAllOrFull(more, calls[done..][..n], fate)
    ensures TellsAllOrFull(answered + more, calls[..done + n], fate)
    ensures answered == Answers(calls[..done], fate) && more == Answers(calls[done..][..n], fate) ==>
              answered + more == Answers(calls[..done + n], fate)
  {
    hide TellsAllOrFull, Answers;
    TellsConcat(answered, more, calls[..done], calls[done..][..n], fate);
    assert calls[..done + n] == calls[..done] + calls[done..][..n];
    AnswersConcat(calls[..done], calls[done..][..n], fate);
  }

  lemma RoomRecords(agent: Agent, calls: seq<Call>, k: nat, fate: Call -> Fate, free: nat, released: nat -> nat)
    requires k <= |calls| && RoomFor(agent.setup, free, calls, fate)
    ensures agent.Recorded(calls, k, fate, free, released) == Answers(calls[..k], fate)
  {
    hide Executables, Answers;
    agent.RoomForPrefix(calls, k, fate, free, released);
  }

  lemma {:induction false} ExecutablesOfSuffix(calls: seq<Call>, fate: Call -> Fate, k: nat, n: nat)
    requires k + n <= |calls|
    ensures Executables(calls[k..], fate, n) <= Executables(calls, fate, k + n)
  {
    if n > 0 { ExecutablesOfSuffix(calls, fate, k, n - 1); }
  }

  lemma SuffixHasRoom(setup: Setup, free: nat, calls: seq<Call>, fate: Call -> Fate, k: nat)
    requires k <= |calls| && RoomFor(setup, free, calls, fate)
    ensures RoomFor(setup, free, calls[k..], fate)
  {
    ExecutablesOfSuffix(calls, fate, k, |calls| - k);
  }

  lemma NothingUnresolved(pending: Option<Call>, remaining: seq<Call>, calls: seq<Call>, done: nat)
    requires pending.None? && done <= |calls| && Unresolved(pending, remaining) == calls[done..]
    ensures done == |calls|
  {}

  lemma NothingOwed(h: seq<Message>, remaining: seq<Call>)
    requires Open(h, Unresolved(None, remaining))
    ensures Sound(h)
  {}

  lemma WholeBatch(calls: seq<Call>, fate: Call -> Fate, ms: seq<Message>, remaining: seq<Call>)
    requires AnswersTo(ms, calls[..FirstConfirm(calls, fate)])
    requires Unresolved(None, remaining) == calls[FirstConfirm(calls, fate)..]
    ensures AnswersTo(ms, calls)
  {
    hide AnswersTo, FirstConfirm;
    assert calls[..|calls|] == calls;
  }

  /** The results of `calls` follow `before`, in order, and were saved as soon as they were
      complete; what came after may have been added since. */
  predicate RoundDone(before: seq<Message>, now: seq<Message>, calls: seq<Call>, wasSaved: seq<seq<Message>>,
                      saved: seq<seq<Message>>) {
    |now| >= |before| + |calls| && AnswersTo(now[|before|..|before| + |calls|], calls) &&
    saved == wasSaved + [now[..|before| + |calls|]]
  }

  /** One of the results of `calls` is an error. */
  predicate RoundFailed(before: seq<Message>, now: seq<Message>, calls: seq<Call>) {
    |now| >= |before| + |calls| && SomeFailure(now[|before|..|before| + |calls|])
  }

  lemma RoundIsDone(before: seq<Message>, answered: seq<Message>, now: seq<Message>, calls: seq<Call>,
                    wasSaved: seq<seq<Message>>, saved: seq<seq<Message>>)
    requires before <= answered <= now && AnswersTo(answered[|before|..], calls) && saved == wasSaved + [answered]
    ensures RoundDone(before, now, calls, wasSaved, saved)
    ensures RoundFailed(before, now, calls) <==> SomeFailure(answered[|before|..])
  {
    hide IsAnswer, SomeFailure;
    var n := |before| + |calls|;
    assert now[..n] == answered && now[|before|..n] == answered[|before|..];
  }

  /** A result known before dispatch does not depend on the pool. */
  lemma EarlyIsFinal(calls: seq<Call>, fate: Call -> Fate, early: map<nat, Outcome>, free: nat, released: nat -> nat)
    requires forall i :: i in early ==> i < |calls| && !fate(calls[i]).Executes? && early[i] == Settle(fate(calls[i]))
    ensures forall i :: i in early ==> early[i] == PooledOutcome(calls, fate, free, released, i)
  {
    hide Executables, Settle, Available;
  }

  lemma PoolErrors(calls: seq<Call>, fate: Call -> Fate, free: nat, released: nat -> nat)
    requires Executables(calls, fate, |calls|) <= free
    ensures (exists i :: 0 <= i < |calls| && PooledOutcome(calls, fate, free, released, i).isError) <==>
            AnyError(calls, fate)
  {
    hide PooledOutcome, Executables, Settle;
    PoolHasRoom(calls, fate, free, released);
    forall i | 0 <= i < |calls|
      ensures PooledOutcome(calls, fate, free, released, i).isError <==> Settle(fate(calls[i])).isError
    {}
  }

  lemma AnswersOne(c: Call, fate: Call -> Fate)
    ensures Answers([c], fate) == [ResultMessage(c, Settle(fate(c)))]
  {}

  /** From any sound conversation, any number of runs, pauses, checkpoint resumes by
      differently configured agents and repeated pauses: every request is the translation of
      the history at that moment, message by message, and neither the provider nor the store
      ever sees an unpaired call. */
  method Session(setup: Setup, history: seq<Message>, pinned: Option<int>, steps: nat)
    returns (requests: seq<seq<WireMessage>>, saved: seq<seq<Message>>, ghost asked: seq<Asked>)
    requires Sound(history)
    ensures forall r :: r in requests ==> WirePaired(r)
    ensures |asked| == |requests| &&
            forall i :: 0 <= i < |requests| ==> Renders(asked[i].history, asked[i].system, requests[i])
    ensures forall h :: h in saved ==> Paired(Tokens(h))
  {
    hide Open, Sound, WirePaired, Renders, Faithful, Thread, WellFormed, CapMatches, Unresolved, Paired, Routing.Runs, Routing.After;
    var agent := new Agent(setup, history, pinned);
    requests, saved, asked := [], [], [];
    FaithfulNothing();
    for i := 0 to steps
      invariant agent.Valid() && (agent.pending.None? ==> agent.remaining == [])
      invariant fresh(agent)
      invariant Faithful(requests, asked)
      invariant forall h :: h in saved ==> WellFormed(h)
    {
      var schema: bool, retries: int, verifies: bool, verifierRetries: nat := *, *, *, *;
      var resumed: bool := *;
      if agent.pending.None? && !resumed {
        var text: Option<string> := *;
        var classified: Option<Routing.Mode> := *;
        agent.ValidIsIdle();
        var _ := agent.Run(text, classified, schema, retries, verifies, verifierRetries);
      } else {
        // a checkpoint, taken at a pause or between batches, is continued by another agent
        FaithfulJoin(requests, asked, agent.requests, agent.asked);
        asked := asked + agent.asked;
        requests, saved := requests + agent.requests, saved + agent.saved;
        var other: Setup := *;
        agent := SaveAndRestore(agent, other);
        var paused := false;
        if agent.pending.Some? {
          var fate: Call -> Fate := *;
          var free: nat := *;
          var released: nat -> nat := *;
          paused := agent.ResolvePendingConfirmation(fate, free, released);
        }
        if !paused {
          agent.ValidIsIdle();
          var _, _ := agent.RunLoop(schema, retries, verifies, verifierRetries);
        }
      }
    }
    FaithfulJoin(requests, asked, agent.requests, agent.asked);
    asked := asked + agent.asked;
    requests, saved := requests + agent.requests, saved + agent.saved;
    FaithfulMeans(requests, asked);
    forall h | h in saved ensures Paired(Tokens(h)) { ScanDecidesPairing(h); }
  }

  lemma LoopFacts(begin: Routing.Loop, turns: seq<Routing.Turn>, retries: int)
    requires Routing.Runs(begin, turns) && Routing.Inv(begin, retries)
    ensures var l := Routing.After(begin, turns);
            l.escalations <= 1 && (l.pinned.None? ==> l.cap <= 50 && l.iteration <= 50) && (l.pinned.Some? ==> l.cap == l.pinned.value) &&
            (l.pinned.None? && l.mode.Flash? && retries <= 2 ==> l.iteration < l.cap)
  {
    Routing.RunKeepsInv(begin, turns, retries);
  }

  /** What a pause stores is exactly what is left of a batch with distinct ids. */
  lemma SuffixResumes(fl: Flavour, calls: seq<Call>, k: nat)
    requires k < |calls| && Distinct(Ids(calls))
    ensures Unresolved(Some(calls[k]), StoredSuffix(fl, calls, k)) == calls[k..]
  {
    PausedSuffix(fl, calls, k);
  }
}
