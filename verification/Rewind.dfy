/** Rewinding a stored conversation to its first messages. */
module Rewind {
  import opened History
  import opened Compaction

  datatype Rewound = Kept(messages: seq<Message>) | Refused

  predicate EndsInCalls(h: seq<Message>) {
    h != [] && h[|h| - 1].role == Assistant && h[|h| - 1].content.Blocks? &&
    exists b :: b in h[|h| - 1].content.blocks && b.ToolUse?
  }

  function Prefix(h: seq<Message>, keep: nat): seq<Message> { if keep <= |h| then h[..keep] else h }

  /** Only the last kept message is looked at. */
  function RewindState(h: seq<Message>, keep: int): Rewound {
    if keep < 0 || EndsInCalls(Prefix(h, keep)) then Refused else Kept(Prefix(h, keep))
  }

  lemma {:induction false} UsesHaveIds(blocks: seq<Block>, b: Block)
    requires b in blocks && b.ToolUse?
    ensures UseIds(blocks) != []
  {
    if !blocks[0].ToolUse? { UsesHaveIds(blocks[1..], b); }
  }

  lemma {:induction false} EndsOwing(d: Debt, ts: seq<Token>, ids: seq<string>)
    requires ids != []
    ensures Scan(d, ts + [Uses(ids)]) != SETTLED
  {
    ScanConcat(d, ts, [Uses(ids)]);
    var e := Scan(d, ts);
    assert [Uses(ids)][1..] == [];
    assert Scan(e, [Uses(ids)]) == Scan(Step(e, Uses(ids)), []);
  }

  lemma EndsInCallsIsDangling(h: seq<Message>)
    requires EndsInCalls(h)
    ensures !WellFormed(h)
  {
    var m := h[|h| - 1];
    var b :| b in m.content.blocks && b.ToolUse?;
    UsesHaveIds(m.content.blocks, b);
    assert h == h[..|h| - 1] + [m];
    AfterAppend(h[..|h| - 1], m);
    EndsOwing(After(h[..|h| - 1]), ResultTokens(ResultIds(m.content.blocks)), UseIds(m.content.blocks));
  }

  /** Rewinding a well-formed history refuses no cut that would be well formed, and keeps
      a well-formed prefix exactly when the first message dropped is not a tool result. */
  lemma RewindWellFormedIff(h: seq<Message>, keep: nat)
    requires WellFormed(h)
    ensures RewindState(h, keep).Refused? ==> !WellFormed(Prefix(h, keep))
    ensures RewindState(h, keep).Kept? ==>
              (WellFormed(RewindState(h, keep).messages) <==> keep >= |h| || StartsOutsideGroup(h, keep))
  {
    hide StartsOutsideGroup;
    assert h[..|h|] == h;
    if keep < |h| { TailDebt(h, keep); }
    if EndsInCalls(Prefix(h, keep)) { EndsInCallsIsDangling(Prefix(h, keep)); }
  }

  /** A cut between the two results of one turn is accepted, against the documentation. */
  lemma RewindSplitsAGroup() returns (h: seq<Message>)
    ensures WellFormed(h) && RewindState(h, 3).Kept? && !WellFormed(RewindState(h, 3).messages)
  {
    hide MessageTokens, UseIdSet, ResultIdSet;
    var task, calls, ra, rb := SomeHistoryReusesIds();
    h := TwoRounds(task, calls, ra, rb);
    TwoRoundsAreWellFormed(task, calls, ra, rb);
    assert h == [task, calls, ra, rb, calls, ra, rb];
    AnswersDoNotCall(h[..3], ra);
    RewindWellFormedIff(h, 3);
  }

  lemma CallsComeLast(m: Message, b: Block)
    requires m.content.Blocks? && b in m.content.blocks && b.ToolUse?
    ensures MessageTokens(m) != [] && MessageTokens(m)[|MessageTokens(m)| - 1].Uses?
  {
    UsesHaveIds(m.content.blocks, b);
  }

  lemma AnswersDoNotCall(h: seq<Message>, m: Message)
    requires h != [] && h[|h| - 1] == m && MessageTokens(m) == [Result("a")]
    ensures !EndsInCalls(h)
  {
    hide MessageTokens;
    if EndsInCalls(h) {
      var b :| b in m.content.blocks && b.ToolUse?;
      CallsComeLast(m, b);
    }
  }
}
