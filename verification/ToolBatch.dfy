/** One batch of tool calls: how far it gets, what a confirmation pause stores, and
    what the pauses and resumes add up to.

    Each call of a batch is decided exactly once, so everything that may happen to it
    (cancellation, an early denial, execution, a human verdict) is one `Fate`; a function
    from calls, positions included, to fates covers every mix of events. */
module ToolBatch {
  import opened Sequences
  import opened History

  /** `position` is the place of the call in its turn.  Nothing the agent does depends on it;
      it tells apart calls that look the same, so that each may meet its own fate. */
  datatype Call = Call(id: string, name: string, arguments: string, position: nat)

  datatype Outcome = Outcome(output: string, isError: bool)

  datatype Fate =
    | Skipped
    | Early(result: Outcome)
    | Executes(result: Outcome)
    | Confirms(result: Outcome)

  const SKIPPED := Outcome("skipped: run cancelled", true)
  const NO_CAPACITY := Outcome("tool execution capacity exhausted", true)

  function Settle(f: Fate): Outcome {
    if f.Skipped? then SKIPPED else f.result
  }

  function ResultMessage(c: Call, o: Outcome): Message {
    Message(User, Blocks([ToolResult(c.id, o.output, o.isError)]))
  }

  function Ids(calls: seq<Call>): (ids: seq<string>)
    ensures |ids| == |calls|
  {
    seq(|calls|, i requires 0 <= i < |calls| => calls[i].id)
  }

  /** The history a whole batch must leave behind, whatever happens on the way. */
  function Answers(calls: seq<Call>, fate: Call -> Fate): (ms: seq<Message>)
    ensures |ms| == |calls|
  {
    seq(|calls|, i requires 0 <= i < |calls| => ResultMessage(calls[i], Settle(fate(calls[i]))))
  }

  predicate AnyError(calls: seq<Call>, fate: Call -> Fate) {
    exists i :: 0 <= i < |calls| && Settle(fate(calls[i])).isError
  }

  /* ---- pausing ---- */

  /** Which suffix of the batch a pause stores.  The synchronous agent and both
      parallel paths keep the pending call in it, the asynchronous sequential path
      does not. */
  datatype Flavour = KeepsPending | DropsPending

  datatype Pause = NoPause | Paused(call: Call, rest: seq<Call>)

  datatype Progress = Progress(answered: seq<Message>, pause: Pause)

  /** Index of the first call that waits for a human, or the length of the batch. */
  function FirstConfirm(calls: seq<Call>, fate: Call -> Fate): (k: nat)
    ensures k <= |calls|
    ensures forall i :: 0 <= i < k ==> !fate(calls[i]).Confirms?
    ensures k < |calls| ==> fate(calls[k]).Confirms?
  {
    if calls == [] || fate(calls[0]).Confirms? then 0
    else
      var k := FirstConfirm(calls[1..], fate);
      assert forall i :: 0 < i <= k && i < |calls| ==> calls[i] == calls[1..][i - 1];
      1 + k
  }

  lemma {:induction false} FirstConfirmIs(calls: seq<Call>, fate: Call -> Fate, k: nat)
    requires k <= |calls| && (forall i :: 0 <= i < k ==> !fate(calls[i]).Confirms?)
    requires k < |calls| ==> fate(calls[k]).Confirms?
    ensures FirstConfirm(calls, fate) == k
  {
    var f := FirstConfirm(calls, fate);
    assert f < |calls| ==> fate(calls[f]).Confirms?;
  }

  function StoredSuffix(fl: Flavour, calls: seq<Call>, k: nat): seq<Call>
    requires k < |calls|
  {
    if fl.KeepsPending? then calls[k..] else calls[k + 1..]
  }

  function Execute(fl: Flavour, calls: seq<Call>, fate: Call -> Fate): Progress {
    var k := FirstConfirm(calls, fate);
    Progress(Answers(calls[..k], fate),
             if k == |calls| then NoPause else Paused(calls[k], StoredSuffix(fl, calls, k)))
  }

  /** The calls a resume still dispatches after the pending one has been resolved. */
  function Trailing(call: Call, rest: seq<Call>): seq<Call> {
    if rest != [] && rest[0].id == call.id then rest[1..] else rest
  }

  function Resume(fl: Flavour, p: Pause, fate: Call -> Fate): Progress
    requires p.Paused?
  {
    var next := Execute(fl, Trailing(p.call, p.rest), fate);
    Progress([ResultMessage(p.call, Settle(fate(p.call)))] + next.answered, next.pause)
  }

  lemma ResumeMakesProgress(fl: Flavour, p: Pause, fate: Call -> Fate)
    requires p.Paused?
    ensures var q := Resume(fl, p, fate).pause;
            q.Paused? ==> |Trailing(q.call, q.rest)| < |Trailing(p.call, p.rest)|
  {}

  /** What is appended after a pause when it and every later pause is resumed.  The
      agent that resumes may be of another flavour than the one that paused. */
  function Remainder(fl: nat -> Flavour, p: Pause, fate: Call -> Fate): seq<Message>
    decreases if p.Paused? then 1 + |Trailing(p.call, p.rest)| else 0
  {
    if p.NoPause? then []
    else
      var flavour := fl(|Trailing(p.call, p.rest)|);
      ResumeMakesProgress(flavour, p, fate);
      var next := Resume(flavour, p, fate);
      next.answered + Remainder(fl, next.pause, fate)
  }

  function Complete(fl: nat -> Flavour, p: Progress, fate: Call -> Fate): seq<Message> {
    p.answered + Remainder(fl, p.pause, fate)
  }

  lemma {:induction false} AnswersConcat(a: seq<Call>, b: seq<Call>, fate: Call -> Fate)
    ensures Answers(a + b, fate) == Answers(a, fate) + Answers(b, fate)
  {
  }

  /** At a pause, the answered calls and the unresolved ones make up the batch. */
  lemma PauseCoversBatch(fl: Flavour, calls: seq<Call>, fate: Call -> Fate)
    requires Distinct(Ids(calls))
    ensures var p := Execute(fl, calls, fate);
            if p.pause.NoPause? then p.answered == Answers(calls, fate)
            else |p.answered| < |calls| &&
                 p.answered == Answers(calls[..|p.answered|], fate) &&
                 [p.pause.call] + Trailing(p.pause.call, p.pause.rest) == calls[|p.answered|..]
  {
    hide Answers, FirstConfirm;
    var k := FirstConfirm(calls, fate);
    if k == |calls| {
      assert calls[..k] == calls;
    } else {
      PausedSuffix(fl, calls, k);
    }
  }

  /** Both suffixes stand for the calls from the pending one on. */
  lemma PausedSuffix(fl: Flavour, calls: seq<Call>, k: nat)
    requires k < |calls| && Distinct(Ids(calls))
    ensures [calls[k]] + Trailing(calls[k], StoredSuffix(fl, calls, k)) == calls[k..]
  {
    assert calls[k..][1..] == calls[k + 1..];
    if k + 1 < |calls| {
      assert Ids(calls)[k] != Ids(calls)[k + 1];
      assert calls[k + 1..][0] == calls[k + 1];
    }
  }

  lemma SuffixDistinct(calls: seq<Call>, k: nat)
    requires k <= |calls| && Distinct(Ids(calls))
    ensures Distinct(Ids(calls[k..]))
  {
    forall i, j | 0 <= i < j < |calls| - k ensures Ids(calls[k..])[i] != Ids(calls[k..])[j] {
      assert Ids(calls)[k + i] != Ids(calls)[k + j];
    }
  }

  lemma {:induction false} RemainderUnfold(fl: nat -> Flavour, p: Pause, fate: Call -> Fate, q: Progress)
    requires p.Paused? && q == Resume(fl(|Trailing(p.call, p.rest)|), p, fate)
    ensures Remainder(fl, p, fate) == q.answered + Remainder(fl, q.pause, fate)
  {}

  lemma Regroup(head: Message, a: seq<Message>, b: seq<Message>)
    ensures ([head] + a) + b == [head] + (a + b)
  {}

  /** For every batch of distinct ids, every fate of its calls and every sequence of
      pausing and resuming agents, the batch appends exactly one result per call, in order. */
  lemma {:induction false} BatchIsAnsweredOnce(fl: nat -> Flavour, first: Flavour, calls: seq<Call>, fate: Call -> Fate)
    requires Distinct(Ids(calls))
    ensures Complete(fl, Execute(first, calls, fate), fate) == Answers(calls, fate)
    decreases |calls|
  {
    hide FirstConfirm, Answers, Execute, Remainder;
    PauseCoversBatch(first, calls, fate);
    var p := Execute(first, calls, fate);
    if p.pause.Paused? {
      var k := |p.answered|;
      var rest := calls[k + 1..];
      assert Trailing(p.pause.call, p.pause.rest) == rest && p.pause.call == calls[k] by {
        assert ([p.pause.call] + Trailing(p.pause.call, p.pause.rest))[1..] == calls[k..][1..];
        assert ([p.pause.call] + Trailing(p.pause.call, p.pause.rest))[0] == calls[k..][0];
      }
      SuffixDistinct(calls, k + 1);
      BatchIsAnsweredOnce(fl, fl(|rest|), rest, fate);
      var next := Execute(fl(|rest|), rest, fate);
      RemainderUnfold(fl, p.pause, fate, Resume(fl(|rest|), p.pause, fate));
      Regroup(ResultMessage(calls[k], Settle(fate(calls[k]))), next.answered, Remainder(fl, next.pause, fate));
      AnswersAround(calls, fate, k);
    } else {
      assert Remainder(fl, p.pause, fate) == [] by { NothingRemains(fl, fate); }
    }
  }

  lemma NothingRemains(fl: nat -> Flavour, fate: Call -> Fate)
    ensures Remainder(fl, NoPause, fate) == []
  {}

  lemma AnswersAround(calls: seq<Call>, fate: Call -> Fate, k: nat)
    requires k < |calls|
    ensures Answers(calls, fate) ==
            Answers(calls[..k], fate) + ([ResultMessage(calls[k], Settle(fate(calls[k])))] + Answers(calls[k + 1..], fate))
  {}

  /* ---- when ids repeat inside a batch ---- */

  /** No call that waits for a human is directly followed by one with the same id. */
  predicate NoEcho(calls: seq<Call>, fate: Call -> Fate) {
    forall i :: 0 <= i < |calls| - 1 ==> QuietAt(calls, fate, i)
  }

  function Always(fl: Flavour): nat -> Flavour { _ => fl }

  function RunAll(fl: Flavour, calls: seq<Call>, fate: Call -> Fate): seq<Message> {
    Complete(Always(fl), Execute(fl, calls, fate), fate)
  }

  lemma {:induction false} RemainderStep(fl: Flavour, p: Pause, fate: Call -> Fate)
    requires p.Paused?
    ensures Remainder(Always(fl), p, fate) ==
            [ResultMessage(p.call, Settle(fate(p.call)))] + RunAll(fl, Trailing(p.call, p.rest), fate)
  {
    var q := Resume(fl, p, fate);
    RemainderUnfold(Always(fl), p, fate, q);
    var next := Execute(fl, Trailing(p.call, p.rest), fate);
    Regroup(ResultMessage(p.call, Settle(fate(p.call))), next.answered, Remainder(Always(fl), next.pause, fate));
  }

  lemma {:induction false} CompleteStep(fl: Flavour, calls: seq<Call>, fate: Call -> Fate, k: nat)
    requires k == FirstConfirm(calls, fate)
    ensures k == |calls| ==> RunAll(fl, calls, fate) == Answers(calls, fate)
    ensures k < |calls| ==>
              RunAll(fl, calls, fate) == Answers(calls[..k + 1], fate) +
                RunAll(fl, Trailing(calls[k], StoredSuffix(fl, calls, k)), fate)
  {
    hide FirstConfirm, Trailing, StoredSuffix, Answers, Remainder, RunAll, ResultMessage, Settle;
    RunAllIs(fl, calls, fate);
    if k == |calls| {
      assert calls[..k] == calls;
      NothingRemains(Always(fl), fate);
    } else {
      RemainderStep(fl, Paused(calls[k], StoredSuffix(fl, calls, k)), fate);
      AnswersStep(calls, fate, k);
    }
  }

  lemma RunAllIs(fl: Flavour, calls: seq<Call>, fate: Call -> Fate)
    ensures var p := Execute(fl, calls, fate);
            RunAll(fl, calls, fate) == p.answered + Remainder(Always(fl), p.pause, fate)
  {
    hide FirstConfirm, Answers, Remainder;
  }

  lemma AnswersStep(calls: seq<Call>, fate: Call -> Fate, k: nat)
    requires k < |calls|
    ensures Answers(calls[..k + 1], fate) == Answers(calls[..k], fate) + [ResultMessage(calls[k], Settle(fate(calls[k])))]
  {
    hide Settle, ResultMessage;
  }

  /** Keeping the pending call in the stored suffix answers every batch, repeated ids or not. */
  lemma {:induction false} KeptSuffixAlwaysExact(calls: seq<Call>, fate: Call -> Fate)
    ensures RunAll(KeepsPending, calls, fate) == Answers(calls, fate)
    decreases |calls|
  {
    hide RunAll, Answers, FirstConfirm;
    var k := FirstConfirm(calls, fate);
    CompleteStep(KeepsPending, calls, fate, k);
    if k < |calls| {
      assert calls[k..][1..] == calls[k + 1..];
      KeptSuffixAlwaysExact(calls[k + 1..], fate);
      assert calls == calls[..k + 1] + calls[k + 1..];
      AnswersConcat(calls[..k + 1], calls[k + 1..], fate);
    }
  }

  lemma NoPauseNoEcho(calls: seq<Call>, fate: Call -> Fate)
    requires FirstConfirm(calls, fate) == |calls|
    ensures NoEcho(calls, fate)
  {}

  /** No echo at position `i`. */
  predicate QuietAt(calls: seq<Call>, fate: Call -> Fate, i: int)
    requires 0 <= i < |calls| - 1
  {
    fate(calls[i]).Confirms? ==> calls[i].id != calls[i + 1].id
  }

  lemma EchoSplit(calls: seq<Call>, fate: Call -> Fate, k: nat)
    requires k < |calls| && fate(calls[k]).Confirms?
    requires forall i :: 0 <= i < k ==> !fate(calls[i]).Confirms?
    ensures NoEcho(calls, fate) <==>
            (k + 1 == |calls| || calls[k].id != calls[k + 1].id) && NoEcho(calls[k + 1..], fate)
  {
    var rest := calls[k + 1..];
    assert forall i :: 0 <= i < |rest| - 1 ==> QuietAt(rest, fate, i) == QuietAt(calls, fate, k + 1 + i);
    if NoEcho(calls, fate) {
      assert k + 1 < |calls| ==> QuietAt(calls, fate, k);
    }
    if (k + 1 == |calls| || calls[k].id != calls[k + 1].id) && NoEcho(rest, fate) {
      forall i | 0 <= i < |calls| - 1 ensures QuietAt(calls, fate, i) {
        if i > k { assert QuietAt(rest, fate, i - k - 1); }
      }
    }
  }

  lemma {:induction false} DroppedSuffixLength(calls: seq<Call>, fate: Call -> Fate)
    ensures |RunAll(DropsPending, calls, fate)| <= |calls|
    ensures NoEcho(calls, fate) ==> RunAll(DropsPending, calls, fate) == Answers(calls, fate)
    ensures !NoEcho(calls, fate) ==> |RunAll(DropsPending, calls, fate)| < |calls|
    decreases |calls|
  {
    hide RunAll, NoEcho;
    var k := FirstConfirm(calls, fate);
    CompleteStep(DropsPending, calls, fate, k);
    if k < |calls| {
      EchoSplit(calls, fate, k);
      var rest := calls[k + 1..];
      if rest != [] && rest[0].id == calls[k].id {
        DroppedSuffixLength(rest[1..], fate);
      } else {
        DroppedSuffixLength(rest, fate);
        assert calls == calls[..k + 1] + rest;
        AnswersConcat(calls[..k + 1], rest, fate);
      }
    } else {
      NoPauseNoEcho(calls, fate);
    }
  }

  /** Dropping the pending call from the stored suffix, as the asynchronous sequential
      path does, answers the whole batch exactly when no waiting call is followed by a
      call with the same id; otherwise a sibling call is silently lost. */
  lemma DroppedSuffixExactIff(calls: seq<Call>, fate: Call -> Fate)
    ensures RunAll(DropsPending, calls, fate) == Answers(calls, fate) <==> NoEcho(calls, fate)
  {
    DroppedSuffixLength(calls, fate);
  }

  function ByPosition(fates: seq<Fate>): Call -> Fate {
    (c: Call) => if c.position < |fates| then fates[c.position] else Skipped
  }

  /** Two calls that look the same. */
  function Echo(): seq<Call> { [Call("a", "tool", "1", 0), Call("a", "tool", "1", 1)] }

  /** When the first of them waits for a human, one result is lost. */
  lemma EchoIsLost(approved: Outcome, executed: Outcome)
    ensures |RunAll(DropsPending, Echo(), ByPosition([Confirms(approved), Executes(executed)]))| < |Echo()|
    ensures RunAll(KeepsPending, Echo(), ByPosition([Confirms(approved), Executes(executed)])) ==
            Answers(Echo(), ByPosition([Confirms(approved), Executes(executed)]))
  {
    hide RunAll, Answers;
    var fate := ByPosition([Confirms(approved), Executes(executed)]);
    assert !QuietAt(Echo(), fate, 0);
    DroppedSuffixLength(Echo(), fate);
    KeptSuffixAlwaysExact(Echo(), fate);
  }

  /* ---- the bounded thread pool of the synchronous parallel path ---- */

  /** Slots free at the k-th submission: `free` at the start, `released(j)` given back
      before the j-th submission, one taken by each submission that found a slot. */
  function Available(free: nat, released: nat -> nat, k: nat): nat {
    if k == 0 then free + released(0)
    else
      var before := Available(free, released, k - 1);
      (if before > 0 then before - 1 else 0) + released(k)
  }

  /** Number of calls among the first `n` that are dispatched to the pool. */
  function Executables(calls: seq<Call>, fate: Call -> Fate, n: nat): nat
    requires n <= |calls|
  {
    if n == 0 then 0
    else Executables(calls, fate, n - 1) + (if fate(calls[n - 1]).Executes? then 1 else 0)
  }

  function PooledOutcome(calls: seq<Call>, fate: Call -> Fate, free: nat, released: nat -> nat, i: nat): Outcome
    requires i < |calls|
  {
    if fate(calls[i]).Executes? && Available(free, released, Executables(calls, fate, i)) == 0
    then NO_CAPACITY
    else Settle(fate(calls[i]))
  }

  function PooledAnswers(calls: seq<Call>, fate: Call -> Fate, free: nat, released: nat -> nat): (ms: seq<Message>)
    ensures |ms| == |calls|
  {
    seq(|calls|, i requires 0 <= i < |calls| =>
      ResultMessage(calls[i], PooledOutcome(calls, fate, free, released, i)))
  }

  /** What the gating pass of a parallel batch has collected about its first `n` calls:
      results known early, and the positions to dispatch, in submission order. */
  predicate Gated(calls: seq<Call>, fate: Call -> Fate, n: nat, early: map<nat, Outcome>, waiting: seq<nat>)
    requires n <= |calls|
  {
    (forall i :: i in early ==> i < n && !fate(calls[i]).Executes? && early[i] == Settle(fate(calls[i]))) &&
    (forall i: nat :: i < n && !fate(calls[i]).Executes? ==> i in early) &&
    (forall i: nat :: i < n && fate(calls[i]).Executes? ==> i in waiting) &&
    |waiting| == Executables(calls, fate, n) &&
    (forall k :: 0 <= k < |waiting| ==>
       waiting[k] < n && fate(calls[waiting[k]]).Executes? && Executables(calls, fate, waiting[k]) == k)
  }

  lemma GatedStart(calls: seq<Call>, fate: Call -> Fate)
    ensures Gated(calls, fate, 0, map[], [])
  {}

  lemma GatedStep(calls: seq<Call>, fate: Call -> Fate, n: nat, early: map<nat, Outcome>, waiting: seq<nat>)
    requires n < |calls| && Gated(calls, fate, n, early, waiting)
    ensures fate(calls[n]).Executes? ==> Gated(calls, fate, n + 1, early, waiting + [n])
    ensures !fate(calls[n]).Executes? ==> Gated(calls, fate, n + 1, early[n := Settle(fate(calls[n]))], waiting)
  {}

  lemma {:induction false} ExecutablesPrefix(calls: seq<Call>, fate: Call -> Fate, m: nat, n: nat)
    requires n <= m <= |calls|
    ensures Executables(calls[..m], fate, n) == Executables(calls, fate, n)
  {
    if n > 0 { ExecutablesPrefix(calls, fate, m, n - 1); }
  }

  lemma GatedPrefix(calls: seq<Call>, fate: Call -> Fate, n: nat, early: map<nat, Outcome>, waiting: seq<nat>)
    requires n <= |calls| && Gated(calls, fate, n, early, waiting)
    ensures Gated(calls[..n], fate, n, early, waiting)
  {
    ExecutablesPrefix(calls, fate, n, n);
    forall k | 0 <= k < |waiting| ensures Executables(calls[..n], fate, waiting[k]) == k {
      ExecutablesPrefix(calls, fate, n, waiting[k]);
    }
  }

  lemma {:induction false} EarlySubmissionsFindSlots(free: nat, released: nat -> nat, k: nat)
    requires k < free
    ensures Available(free, released, k) >= free - k
  {
    if k > 0 { EarlySubmissionsFindSlots(free, released, k - 1); }
  }

  lemma {:induction false} ExecutablesMonotone(calls: seq<Call>, fate: Call -> Fate, i: nat, j: nat)
    requires i <= j <= |calls|
    ensures Executables(calls, fate, i) <= Executables(calls, fate, j)
    decreases j - i
  {
    if i < j { ExecutablesMonotone(calls, fate, i, j - 1); }
  }

  /** The call whose submission is the `free`-th (counting from 0). */
  lemma {:induction false} FindOverflow(calls: seq<Call>, fate: Call -> Fate, n: nat, free: nat) returns (i: nat)
    requires n <= |calls| && Executables(calls, fate, n) > free
    ensures i < n && fate(calls[i]).Executes? && Executables(calls, fate, i) == free
    decreases n
  {
    if Executables(calls, fate, n - 1) > free {
      i := FindOverflow(calls, fate, n - 1, free);
    } else {
      i := n - 1;
    }
  }

  /** With a free slot for every executable call, the pool changes no outcome. */
  lemma PoolHasRoom(calls: seq<Call>, fate: Call -> Fate, free: nat, released: nat -> nat)
    requires Executables(calls, fate, |calls|) <= free
    ensures forall i :: 0 <= i < |calls| ==> PooledOutcome(calls, fate, free, released, i) == Settle(fate(calls[i]))
    ensures PooledAnswers(calls, fate, free, released) == Answers(calls, fate)
  {
    forall i | 0 <= i < |calls|
      ensures PooledOutcome(calls, fate, free, released, i) == Settle(fate(calls[i]))
    {
      if fate(calls[i]).Executes? {
        ExecutablesMonotone(calls, fate, i + 1, |calls|);
        EarlySubmissionsFindSlots(free, released, Executables(calls, fate, i));
      }
    }
  }

  /** The pool leaves the sequential history under every release schedule exactly when
      the batch has no more executable calls than free slots. */
  lemma PoolMatchesSequentialIff(calls: seq<Call>, fate: Call -> Fate, free: nat)
    requires forall c :: c in calls && fate(c).Executes? ==> fate(c).result != NO_CAPACITY
    ensures (forall released: nat -> nat :: PooledAnswers(calls, fate, free, released) == Answers(calls, fate))
            <==> Executables(calls, fate, |calls|) <= free
  {
    if Executables(calls, fate, |calls|) <= free {
      forall released: nat -> nat ensures PooledAnswers(calls, fate, free, released) == Answers(calls, fate) {
        PoolHasRoom(calls, fate, free, released);
      }
    } else {
      var i := FindOverflow(calls, fate, |calls|, free);
      var none: nat -> nat := _ => 0;
      NothingReleased(free, none, free);
      assert PooledOutcome(calls, fate, free, none, i) == NO_CAPACITY;
      assert calls[i] in calls;
      OutcomeShows(calls[i], NO_CAPACITY, Settle(fate(calls[i])));
      assert PooledAnswers(calls, fate, free, none)[i] != Answers(calls, fate)[i];
    }
  }

  lemma {:induction false} NothingReleased(free: nat, released: nat -> nat, k: nat)
    requires forall j :: released(j) == 0
    ensures Available(free, released, k) == if k < free then free - k else 0
  {
    if k > 0 { NothingReleased(free, released, k - 1); }
  }

  lemma OutcomeShows(c: Call, a: Outcome, b: Outcome)
    requires a != b
    ensures ResultMessage(c, a) != ResultMessage(c, b)
  {
    assert ResultMessage(c, a).content.blocks[0] != ResultMessage(c, b).content.blocks[0];
  }

  /* ---- what the answers are worth to the history ---- */

  /** `ms` are result messages for `calls`, one each, in order. */
  predicate AnswersTo(ms: seq<Message>, calls: seq<Call>) {
    |ms| == |calls| && forall i :: 0 <= i < |calls| ==> IsAnswer(ms[i], calls[i])
  }

  predicate IsAnswer(m: Message, c: Call) {
    m.role.User? && m.content.Blocks? && |m.content.blocks| == 1 &&
    m.content.blocks[0].ToolResult? && m.content.blocks[0].toolUseId == c.id
  }

  /* ---- what the answers say ---- */

  /** `m` stores this result of `c` and nothing else. */
  predicate Stores(m: Message, c: Call, output: string, isError: bool) {
    m.role == User && m.content.Blocks? && |m.content.blocks| == 1 && m.content.blocks[0].ToolResult? &&
    m.content.blocks[0].toolUseId == c.id && m.content.blocks[0].output == output &&
    m.content.blocks[0].isError == isError
  }

  /** `m` stores what the fate of `c` gives: the result of the gate, the tool or the human
      verdict, and an error for a call skipped by cancellation. */
  predicate Tells(m: Message, c: Call, fate: Fate) {
    match fate
    case Skipped => Stores(m, c, "skipped: run cancelled", true)
    case Early(r) => Stores(m, c, r.output, r.isError)
    case Executes(r) => Stores(m, c, r.output, r.isError)
    case Confirms(r) => Stores(m, c, r.output, r.isError)
  }

  /** A call that was to execute may find no free slot, which is an error too. */
  predicate TellsOrFull(m: Message, c: Call, fate: Fate) {
    Tells(m, c, fate) || (fate.Executes? && Stores(m, c, "tool execution capacity exhausted", true))
  }

  predicate TellsAll(ms: seq<Message>, calls: seq<Call>, fate: Call -> Fate) {
    |ms| == |calls| && forall i :: 0 <= i < |calls| ==> Tells(ms[i], calls[i], fate(calls[i]))
  }

  predicate TellsAllOrFull(ms: seq<Message>, calls: seq<Call>, fate: Call -> Fate) {
    |ms| == |calls| && forall i :: 0 <= i < |calls| ==> TellsOrFull(ms[i], calls[i], fate(calls[i]))
  }

  /** The recorded results, field by field. */
  lemma AnswersTell(calls: seq<Call>, fate: Call -> Fate, free: nat, released: nat -> nat)
    ensures TellsAll(Answers(calls, fate), calls, fate)
    ensures TellsAllOrFull(Answers(calls, fate), calls, fate)
    ensures TellsAllOrFull(PooledAnswers(calls, fate, free, released), calls, fate)
  {
    hide Available, Executables;
  }

  /** `m` stores a failed result. */
  predicate IsFailure(m: Message) {
    m.content.Blocks? && |m.content.blocks| == 1 && m.content.blocks[0].ToolResult? && m.content.blocks[0].isError
  }

  predicate SomeFailure(ms: seq<Message>) { exists i :: 0 <= i < |ms| && IsFailure(ms[i]) }

  lemma FailureIsError(c: Call, o: Outcome)
    ensures IsFailure(ResultMessage(c, o)) <==> o.isError
  {}

  lemma FailuresAreErrors(calls: seq<Call>, fate: Call -> Fate)
    ensures SomeFailure(Answers(calls, fate)) <==> AnyError(calls, fate)
  {
    hide IsFailure, ResultMessage, Settle;
    forall i | 0 <= i < |calls| ensures IsFailure(Answers(calls, fate)[i]) <==> Settle(fate(calls[i])).isError {
      FailureIsError(calls[i], Settle(fate(calls[i])));
    }
  }

  lemma TellsConcat(a: seq<Message>, b: seq<Message>, x: seq<Call>, y: seq<Call>, fate: Call -> Fate)
    requires TellsAllOrFull(a, x, fate) && TellsAllOrFull(b, y, fate)
    ensures TellsAllOrFull(a + b, x + y, fate)
  {
    hide TellsOrFull;
  }

  lemma TellingAnswers(ms: seq<Message>, calls: seq<Call>, fate: Call -> Fate)
    requires TellsAllOrFull(ms, calls, fate)
    ensures AnswersTo(ms, calls)
  {}

  lemma AnswerTokens(m: Message, c: Call)
    requires IsAnswer(m, c)
    ensures MessageTokens(m) == [Result(c.id)]
  {
    var bs := m.content.blocks;
    assert bs[1..] == [];
    assert ResultIds(bs) == [c.id] + ResultIds([]);
    assert UseIds(bs) == [] + UseIds([]);
    assert !HasExtras(bs);
  }

  lemma AnswerPaysDebt(h: seq<Message>, m: Message, c: Call, owed: seq<string>)
    requires IsAnswer(m, c) && After(h) == Owed([c.id] + owed)
    ensures After(h + [m]) == Owed(owed)
  {
    AnswerTokens(m, c);
    AfterAppend(h, m);
    var ts := [Result(c.id)];
    assert ts[1..] == [] && ([c.id] + owed)[1..] == owed;
    assert Scan(Owed([c.id] + owed), ts) == Scan(Step(Owed([c.id] + owed), ts[0]), ts[1..]);
  }

  /** Answering the calls owed next leaves exactly the remaining debt. */
  lemma {:induction false} AnswersPayDebt(h: seq<Message>, ms: seq<Message>, calls: seq<Call>, owed: seq<string>)
    requires AnswersTo(ms, calls) && After(h) == Owed(Ids(calls) + owed)
    ensures After(h + ms) == Owed(owed)
    decreases |ms|
  {
    hide After, IsAnswer;
    if ms == [] {
      assert h + ms == h && Ids(calls) + owed == owed;
    } else {
      assert Ids(calls) + owed == [calls[0].id] + (Ids(calls[1..]) + owed);
      AnswerPaysDebt(h, ms[0], calls[0], Ids(calls[1..]) + owed);
      AnswersPayDebt(h + [ms[0]], ms[1..], calls[1..], owed);
      assert (h + [ms[0]]) + ms[1..] == h + ms;
    }
  }

  lemma {:induction false} AnswersCallNothing(ms: seq<Message>, calls: seq<Call>)
    requires AnswersTo(ms, calls)
    ensures CallIds(Tokens(ms)) == []
  {
    if ms != [] {
      AnswerTokens(ms[0], calls[0]);
      AnswersCallNothing(ms[1..], calls[1..]);
      CallIdsConcat(MessageTokens(ms[0]), Tokens(ms[1..]));
      assert CallIds([Result(calls[0].id)]) == [] + CallIds([]);
    }
  }
}
